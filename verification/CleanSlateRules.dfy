/**
  What the pieces of the clean slate come to, told from the library's rows, the files on disk and the readings alone:
  which entry is meant, which files are there, what a preview says and warns of, and what it carries over.
 */
module CleanSlateRules {
  import opened Wrappers
  import opened BeetsEntries
  import opened Text
  import opened CleanSlate

  // The entry

  /** An album is its row and the item rows that name it; a track is the one item row of its id. */
  lemma EntryIs(w: World, target: Target)
    requires ValidRows(w.items)
    ensures target.subject == Album ==>
      && (LoadEntry(w, target).Some? <==> target.beetsId in w.albums)
      && (LoadEntry(w, target).Some? ==>
            && LoadEntry(w, target).value.album == Some(w.albums[target.beetsId])
            && forall item :: item in LoadEntry(w, target).value.items <==>
                 item in w.items && item.albumId == Some(target.beetsId))
    ensures target.subject == Track ==>
      && (LoadEntry(w, target).Some? <==> exists item :: item in w.items && item.id == target.beetsId)
      && (forall item :: item in w.items && item.id == target.beetsId ==>
            LoadEntry(w, target) == Some(Entry(None, [item])))
  {
    ItemsOfAre(w.items, target.beetsId);
    ItemWithIs(w.items, target.beetsId);
    if target.subject == Track {
      ItemWithFinds(w.items, target.beetsId);
      forall item | item in w.items && item.id == target.beetsId
        ensures LoadEntry(w, target) == Some(Entry(None, [item]))
      {
        var found := ItemWith(w.items, target.beetsId).value;
        var i :| 0 <= i < |w.items| && w.items[i] == item;
        var k :| 0 <= k < |w.items| && w.items[k] == found;
      }
    }
  }

  lemma {:induction false} ItemWithFinds(items: seq<Item>, id: int)
    ensures ItemWith(items, id).Some? <==> exists item :: item in items && item.id == id
  {
    if items == [] {
    } else {
      ItemWithFinds(items[1..], id);
      assert forall item :: item in items <==> item == items[0] || item in items[1..];
    }
  }

  /** An album's items come in the order of the rows. */
  lemma {:induction false} ItemsOfInOrder(a: seq<Item>, b: seq<Item>, album: int)
    ensures ItemsOf(a + b, album) == ItemsOf(a, album) + ItemsOf(b, album)
  {
    if a == [] {
      assert a + b == b;
    } else {
      var head := if a[0].albumId == Some(album) then [a[0]] else [];
      ItemsOfInOrder(a[1..], b, album);
      assert (a + b)[0] == a[0] && (a + b)[1..] == a[1..] + b;
      assert ItemsOf(a + b, album) == head + ItemsOf(a[1..] + b, album);
      assert ItemsOf(a, album) == head + ItemsOf(a[1..], album);
    }
  }

  // The files

  /** The entries among the first `n` whose file is on disk. */
  function OnDisk(w: World, items: seq<Item>, n: nat): set<int>
    requires n <= |items|
  {
    set i | 0 <= i < n && (items[i].path in w.files || items[i].path in w.dirs)
  }

  function OffDisk(w: World, items: seq<Item>, n: nat): set<int>
    requires n <= |items|
  {
    set i | 0 <= i < n && items[i].path !in w.files && items[i].path !in w.dirs
  }

  lemma {:induction false} PresentAre(w: World, items: seq<Item>, n: nat)
    requires n <= |items|
    ensures |PathsPresent(w, items[..n])| == |OnDisk(w, items, n)|
  {
    if n == 0 {
    } else {
      PresentAre(w, items, n - 1);
      assert items[..n][..n - 1] == items[..n - 1];
      var before := OnDisk(w, items, n - 1);
      assert OnDisk(w, items, n) == if Exists(w, items[n - 1].path) then before + {n - 1} else before;
    }
  }

  lemma {:induction false} MissingAre(w: World, items: seq<Item>, n: nat)
    requires n <= |items|
    ensures |PathsMissing(w, items[..n])| == |OffDisk(w, items, n)|
  {
    if n == 0 {
    } else {
      MissingAre(w, items, n - 1);
      assert items[..n][..n - 1] == items[..n - 1];
      var before := OffDisk(w, items, n - 1);
      assert OffDisk(w, items, n) == if Exists(w, items[n - 1].path) then before else before + {n - 1};
    }
  }

  predicate IsPathOf(items: seq<Item>, path: Path) {
    exists i :: 0 <= i < |items| && items[i].path == path
  }

  /** Which of the entry's paths are planned for deletion, kept, or missing. */
  lemma {:induction false} PathsAre(w: World, items: seq<Item>, places: Places, path: Path)
    ensures path in PathsToDelete(w, items, places) <==>
      IsPathOf(items, path) && (path in w.files || path in w.dirs)
      && places.library <= path && !(places.source <= path)
    ensures path in PathsKept(w, items, places) <==>
      IsPathOf(items, path) && (path in w.files || path in w.dirs)
      && !(places.library <= path && !(places.source <= path))
    ensures path in PathsMissing(w, items) <==> IsPathOf(items, path) && path !in w.files && path !in w.dirs
  {
    if items == [] {
    } else {
      var init := items[..|items| - 1];
      PathsAre(w, init, places, path);
      if i :| 0 <= i < |items| && items[i].path == path {
        assert i < |init| ==> init[i].path == path;
      }
      if IsPathOf(init, path) {
        var i :| 0 <= i < |init| && init[i].path == path;
        assert items[i].path == path;
      }
    }
  }

  /** The album's art goes exactly if it is there, inside the library and not under the source. */
  lemma ArtIs(w: World, entry: Entry, places: Places, path: Path)
    ensures PlanOf(w, entry, places).art == Some(path) <==>
      && entry.album.Some? && entry.album.value.artPath == Some(path)
      && (path in w.files || path in w.dirs)
      && places.library <= path && !(places.source <= path)
  {
  }

  // The source

  function ReadableAmong(files: seq<Path>, n: nat, readable: map<Path, Tags>): set<int>
    requires n <= |files|
  {
    set f | 0 <= f < n && files[f] in readable
  }

  lemma {:induction false} ReadableInFiles(files: seq<Path>, n: nat, readable: map<Path, Tags>)
    requires n <= |files|
    ensures CountReadable(files[..n], readable) == |ReadableAmong(files, n, readable)|
  {
    if n == 0 {
    } else {
      ReadableInFiles(files, n - 1, readable);
      assert files[..n][..n - 1] == files[..n - 1];
      var before := ReadableAmong(files, n - 1, readable);
      assert ReadableAmong(files, n, readable) == if files[n - 1] in readable then before + {n - 1} else before;
    }
  }

  lemma {:induction false} FlatConcat(a: seq<seq<Path>>, b: seq<seq<Path>>)
    ensures Flat(a + b) == Flat(a) + Flat(b)
  {
    if b == [] {
      assert a + b == a;
    } else {
      FlatConcat(a, b[..|b| - 1]);
      assert (a + b)[..|a + b| - 1] == a + b[..|b| - 1];
    }
  }

  /** In a folder each occurrence of a readable file counts. */
  lemma ReadableInFolder(files: seq<Path>, readable: map<Path, Tags>)
    ensures CountReadable(Flat([files]), readable) == |ReadableAmong(files, |files|, readable)|
  {
    var none: seq<seq<Path>> := [];
    FlatConcat(none, [files]);
    assert [files][..0] == none && Flat(none) == [];
    assert Flat([files]) == files;
    assert files[..|files|] == files;
    ReadableInFiles(files, |files|, readable);
  }

  /** The readable files are counted folder by folder. */
  lemma {:induction false} ReadableInFolders(a: seq<seq<Path>>, b: seq<seq<Path>>, readable: map<Path, Tags>)
    ensures CountReadable(Flat(a + b), readable) == CountReadable(Flat(a), readable) + CountReadable(Flat(b), readable)
  {
    FlatConcat(a, b);
    HeadingsConcat(Flat(a), Flat(b), readable);
  }

  /** Where the source is decides what the scan reports, and only if there is nothing wrong with it, what is in it. */
  lemma ScanReports(w: World, target: Target, places: Places, reading: Reading)
    ensures var scan, placing := ScanOf(w, target, places, reading), PlaceErrors(w, target, places);
      if placing != [] then scan == Scan(placing, 0, 0, None)
      else
        var headings := Headings(Flat(Groups(w, places.source, reading)), reading.readable);
        var folders := if places.source in w.dirs then |reading.groups| else 1;
        && scan.errors == ContentErrors(target, |headings|, folders)
        && scan.audioFiles == |headings| == ReadableAt(w, places.source, reading)
        && scan.albumGroups == folders
        && scan.commonTags == MostCommon(headings, |headings|)
  {
  }

  /** What can be wrong with where the source is. */
  lemma PlaceErrorsAre(w: World, target: Target, places: Places)
    ensures var errors := PlaceErrors(w, target, places);
      var there := places.source in w.files || places.source in w.dirs;
      && (SourceMissing in errors <==> !there)
      && (SourceOutsideDownloads in errors <==>
            there && (places.source == places.downloads || !(places.downloads <= places.source)))
      && (SourceInsideLibrary in errors <==> there && places.library <= places.source)
      && (SourceNotAFolder in errors <==> there && target.subject == Album && places.source !in w.dirs)
      && (forall n :: NoAudio !in errors && ManyAlbums(n) !in errors && ManyFiles(n) !in errors)
  {
  }

  /** What can be wrong with what is in it. */
  lemma ContentErrorsAre(target: Target, files: nat, folders: nat)
    ensures ContentErrors(target, files, folders) ==
      if files == 0 then [NoAudio]
      else if target.subject == Album && folders != 1 then [ManyAlbums(folders)]
      else if target.subject == Track && files > 1 then [ManyFiles(files)]
      else []
  {
  }

  // The preview

  /** What a preview shows of the entry, the plan, the source and the attributes. */
  lemma {:induction false} PreviewShows(w: World, q: Request, entry: Entry)
    requires q.target.subject.Track? ==> entry.items != []
    ensures var p := PreviewOf(w, q, entry, PreservedOf(entry, q.preserve));
      && p.itemCount == |entry.items|
      && p.filesPresent == |OnDisk(w, entry.items, |entry.items|)|
      && |p.missing| == |OffDisk(w, entry.items, |entry.items|)|
      && (forall path :: path in p.missing <==>
            IsPathOf(entry.items, path) && path !in w.files && path !in w.dirs)
      && p.filesToDelete == PlanOf(w, entry, q.places).toDelete
      && p.filesKept == PlanOf(w, entry, q.places).kept
      && p.artToDelete == PlanOf(w, entry, q.places).art
      && p.sourceAudioFiles == ScanOf(w, q.target, q.places, q.reading).audioFiles
      && p.sourceAlbumGroups == ScanOf(w, q.target, q.places, q.reading).albumGroups
      && p.fieldsPreserved == PreservedOf(entry, q.preserve)
      && (forall problem :: problem in p.errors <==>
            || problem in ScanOf(w, q.target, q.places, q.reading).errors
            || (q.target.subject == Track && entry.items[0].albumId.Some? && entry.items[0].albumId != Some(0)
                && problem == TrackOfAlbum(entry.items[0].albumId.value)))
      && p.expectedTracks == if q.target.subject == Album then ExpectedOf(entry.items, q.perDisc) else None
  {
    PresentAre(w, entry.items, |entry.items|);
    MissingAre(w, entry.items, |entry.items|);
    assert entry.items[..|entry.items|] == entry.items;
    forall path ensures path in PathsMissing(w, entry.items) <==>
      IsPathOf(entry.items, path) && path !in w.files && path !in w.dirs
    {
      PathsAre(w, entry.items, q.places, path);
    }
  }

  /** How an artist and a title are shown, with a question mark for a blank. */
  lemma ShownIs(artist: string, album: string)
    ensures Shown(Heading(artist, album)) ==
      if artist == "" && album == "" then "? - ?"
      else if artist == "" then "? - " + album
      else if album == "" then artist + " - ?"
      else artist + " - " + album
  {
  }

  /** A file goes by its album artist, or else by its artist. */
  lemma HeadingIs(tags: Tags)
    ensures HeadingOf(tags).album == tags.album
    ensures tags.albumArtist != "" ==> HeadingOf(tags).artist == tags.albumArtist
    ensures tags.albumArtist == "" ==> HeadingOf(tags).artist == tags.artist
  {
  }

  /** The tags a scan compares by: those that its readable files have most often, the first such. */
  lemma {:induction false} CommonTagsAre(headings: seq<Heading>)
    ensures headings == [] ==> MostCommon(headings, |headings|) == None
    ensures headings != [] ==> exists k: nat ::
      k < |headings| && LeadsFrom(headings, k, |headings|) && MostCommon(headings, |headings|) == Some(headings[k])
  {
    if headings != [] {
      var k := MostCommonIs(headings, |headings|);
      assert LeadsFrom(headings, k, |headings|);
    }
  }

  /** Which warnings there are, and when. */
  lemma WarningsAre(scan: Scan, album: Option<AlbumRow>, present: nat, missing: nat, expected: Option<int>)
    ensures var warnings := WarningsOf(scan, album, present, missing, expected);
      && (forall source, there :: FewerFiles(source, there) in warnings <==>
            scan.errors == [] && source == scan.audioFiles && there == present && source < there)
      && (NothingMissing in warnings <==> scan.errors == [] && missing == 0)
      && (forall source, claimed :: ShortOfRelease(source, claimed) in warnings <==>
            expected == Some(claimed) && source == scan.audioFiles && 0 < source < claimed)
      && (forall tagged, entry :: TaggedOtherwise(tagged, entry) in warnings <==>
            && scan.commonTags.Some? && album.Some?
            && tagged == Shown(scan.commonTags.value) && entry == Shown(album.value.heading) && tagged != entry)
  {
    var warnings := WarningsOf(scan, album, present, missing, expected);
    var tag := TagWarning(scan, album);
    assert forall warning :: warning in warnings <==>
      || (warning == FewerFiles(scan.audioFiles, present) && scan.errors == [] && scan.audioFiles < present)
      || (warning == NothingMissing && missing == 0 && scan.errors == [])
      || (expected.Some? && warning == ShortOfRelease(scan.audioFiles, expected.value)
          && 0 < scan.audioFiles < expected.value)
      || warning in tag;
  }

  /** A preview's warnings are those of its own figures, its tags compared for albums only. */
  lemma {:induction false} PreviewWarns(w: World, q: Request, entry: Entry)
    requires q.target.subject.Track? ==> entry.items != []
    ensures var p := PreviewOf(w, q, entry, PreservedOf(entry, q.preserve));
      var scan := ScanOf(w, q.target, q.places, q.reading);
      && p.warnings == WarningsOf(scan, if q.target.subject == Album then entry.album else None,
                                  p.filesPresent, |p.missing|, p.expectedTracks)
      && (p.needsConfirmation <==> scan.errors == [] && p.sourceAudioFiles < p.filesPresent && !q.allowFewer)
  {
  }

  // The expected track total

  /** The claim of the first item alone, unless discs are numbered on their own and there are several. */
  lemma {:induction false} ExpectedIs(items: seq<Item>, perDisc: bool)
    ensures items == [] ==> ExpectedOf(items, perDisc) == None
    ensures items != [] && (items[0].discTotal <= 1 || !perDisc) ==>
      ExpectedOf(items, perDisc) == if items[0].trackTotal == 0 then None else Some(items[0].trackTotal)
    ensures items != [] && items[0].discTotal > 1 && perDisc ==>
      var total := TotalOverDiscs(items, |items|, items[0].discTotal);
      ExpectedOf(items, perDisc) == if total == 0 then None else Some(total)
  {
  }

  /** The per-disc total: nothing of nothing, the first item of each new disc, and no more once there are enough. */
  lemma TotalIs(items: seq<Item>, n: nat, discTotal: int)
    requires n < |items|
    ensures TotalOverDiscs(items, 0, discTotal) == 0
    ensures var before := TotalOverDiscs(items, n, discTotal);
      var known := exists k :: 0 <= k < n && items[k].disc == items[n].disc;
      TotalOverDiscs(items, n + 1, discTotal) ==
      if !known && |set k | 0 <= k < n :: items[k].disc| < discTotal then before + items[n].trackTotal else before
  {
    DiscsGrow(items, n);
    assert Discs(items[..n]) == set k | 0 <= k < n :: items[k].disc by {
      assert forall k :: 0 <= k < n ==> items[..n][k] == items[k];
      forall d | d in Discs(items[..n]) ensures d in set k | 0 <= k < n :: items[k].disc {
        var k :| 0 <= k < |items[..n]| && items[..n][k].disc == d;
        assert items[k].disc == d;
      }
      forall d | d in set k | 0 <= k < n :: items[k].disc ensures d in Discs(items[..n]) {
        var k :| 0 <= k < n && items[k].disc == d;
        assert items[..n][k].disc == d;
      }
    }
  }

  // The attributes

  /** A value counts if some character of it is not blank. */
  lemma HoldsFieldIs(attributes: Attributes, name: string)
    ensures HoldsField(attributes, name) <==>
      && name in attributes && attributes[name].Some?
      && exists i :: 0 <= i < |attributes[name].value| && !IsSpace(attributes[name].value[i])
  {
    if name in attributes && attributes[name].Some? {
      StripIsEmptyExactly(attributes[name].value);
    }
  }

  lemma StripIsEmptyExactly(s: string)
    ensures Strip(s) != "" <==> exists i :: 0 <= i < |s| && !IsSpace(s[i])
  {
    var from, to := StripIs(s);
    StripIsTrimmed(s);
    if Strip(s) == "" {
      forall i | 0 <= i < |s| ensures IsSpace(s[i]) {
        assert i < from ==> s[..from][i] == s[i];
        assert i >= to ==> s[to..][i - to] == s[i];
      }
    } else {
      assert s[from] == Strip(s)[0];
    }
  }

  /** The attributes of an entry are the album's and its items'. */
  lemma {:induction false} AttributesAre(models: seq<Attributes>, name: string)
    ensures name in AttributeNames(models) <==> exists i :: 0 <= i < |models| && name in models[i]
  {
    if models == [] {
    } else {
      AttributesAre(models[1..], name);
      if i :| 0 <= i < |models| && name in models[i] {
        assert i > 0 ==> models[1..][i - 1] == models[i];
      }
      if i :| 0 <= i < |models[1..]| && name in models[1..][i] {
        assert models[i + 1] == models[1..][i];
      }
    }
  }

  lemma {:induction false} FirstHeldIsFirst(models: seq<Attributes>, name: string, k: nat)
    requires k < |models| && HoldsField(models[k], name)
    requires forall i :: 0 <= i < k ==> !HoldsField(models[i], name)
    ensures FirstHeld(models, name) == models[k][name]
  {
    if k == 0 {
    } else {
      FirstHeldIsFirst(models[1..], name, k - 1);
    }
  }

  /** The models of an entry are the album, if it is one, and then its items. */
  lemma ModelsAre(entry: Entry)
    ensures var models, shift := Models(entry), if entry.album.Some? then 1 else 0;
      && |models| == |entry.items| + shift
      && (entry.album.Some? ==> models[0] == entry.album.value.attributes)
      && (forall i :: 0 <= i < |entry.items| ==> models[i + shift] == entry.items[i].attributes)
      && (forall i :: shift <= i < |models| ==> models[i] == entry.items[i - shift].attributes)
  {
  }

  /** An attribute is carried over if it is asked for and the album or some item holds it. */
  lemma PreservedAre(entry: Entry, names: seq<string>, name: string)
    ensures name in PreservedOf(entry, names) <==>
      && name in names
      && ((entry.album.Some? && HoldsField(entry.album.value.attributes, name))
          || exists i :: 0 <= i < |entry.items| && HoldsField(entry.items[i].attributes, name))
  {
    var models, shift := Models(entry), if entry.album.Some? then 1 else 0;
    ModelsAre(entry);
    HeldNamesAre(models, names);
    FirstHeldIs(models, name);
    if i :| 0 <= i < |entry.items| && HoldsField(entry.items[i].attributes, name) {
      assert HoldsField(models[i + shift], name);
    }
  }

  /** The album's value comes first. */
  lemma AlbumValueFirst(entry: Entry, names: seq<string>, name: string)
    requires name in names && entry.album.Some? && HoldsField(entry.album.value.attributes, name)
    ensures name in PreservedOf(entry, names)
    ensures Some(PreservedOf(entry, names)[name]) == entry.album.value.attributes[name]
  {
    PreservedAre(entry, names, name);
    ModelsAre(entry);
    FirstHeldIsFirst(Models(entry), name, 0);
  }

  /** Without one, it is the value of the first item that holds one. */
  lemma FirstItemValue(entry: Entry, names: seq<string>, name: string, k: nat)
    requires name in names && k < |entry.items| && HoldsField(entry.items[k].attributes, name)
    requires !(entry.album.Some? && HoldsField(entry.album.value.attributes, name))
    requires forall i :: 0 <= i < k ==> !HoldsField(entry.items[i].attributes, name)
    ensures name in PreservedOf(entry, names)
    ensures Some(PreservedOf(entry, names)[name]) == entry.items[k].attributes[name]
  {
    PreservedAre(entry, names, name);
    FirstHeldOfItem(entry, name, k);
  }

  lemma {:induction false} FirstHeldOfItem(entry: Entry, name: string, k: nat)
    requires k < |entry.items| && HoldsField(entry.items[k].attributes, name)
    requires !(entry.album.Some? && HoldsField(entry.album.value.attributes, name))
    requires forall i :: 0 <= i < k ==> !HoldsField(entry.items[i].attributes, name)
    ensures FirstHeld(Models(entry), name) == entry.items[k].attributes[name]
  {
    ModelsAre(entry);
    var models, shift := Models(entry), if entry.album.Some? then 1 else 0;
    forall i | 0 <= i < k + shift ensures !HoldsField(models[i], name) {
      assert i >= shift ==> models[i] == entry.items[i - shift].attributes;
    }
    FirstHeldIsFirst(models, name, k + shift);
  }

  /** The attributes reported lost are those of the album or an item that are not carried over. */
  lemma LostIs(w: World, q: Request, entry: Entry, name: string)
    requires q.target.subject.Track? ==> entry.items != []
    ensures var p := PreviewOf(w, q, entry, PreservedOf(entry, q.preserve));
      name in p.attributesLost <==>
      && name !in p.fieldsPreserved
      && ((entry.album.Some? && name in entry.album.value.attributes)
          || exists i :: 0 <= i < |entry.items| && name in entry.items[i].attributes)
  {
    var models, shift := Models(entry), if entry.album.Some? then 1 else 0;
    ModelsAre(entry);
    AttributesAre(models, name);
    if i :| 0 <= i < |models| && name in models[i] {
      assert i >= shift ==> models[i] == entry.items[i - shift].attributes;
    }
  }
}
