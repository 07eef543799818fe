/**
  The clean slate of `core/clean_slate.py`: the preview that guards it, the plan of what it deletes, and the removal.
  Paths are normalized component sequences. What beets reads from the source folder (its album folders and which
  files are readable audio) is an input.
 */
module CleanSlate {
  import opened Wrappers
  import opened BeetsEntries
  import opened Text

  type Path = seq<string>

  /** A flexible attribute may hold None. */
  type Attributes = map<string, Option<string>>

  datatype Item = Item(id: int, path: Path, albumId: Option<int>, disc: int, trackTotal: int, discTotal: int,
                       attributes: Attributes)

  /** An album's artist and title, where either may be blank. */
  datatype Heading = Heading(artist: string, album: string)

  datatype AlbumRow = AlbumRow(heading: Heading, artPath: Option<Path>, attributes: Attributes)

  datatype Target = Target(subject: Subject, beetsId: int)

  /** The library rows, in query order, and the files and folders on disk. */
  datatype World = World(items: seq<Item>, albums: map<int, AlbumRow>, files: set<Path>, dirs: set<Path>)

  datatype Entry = Entry(album: Option<AlbumRow>, items: seq<Item>)

  datatype Plan = Plan(toDelete: seq<Path>, kept: seq<Path>, art: Option<Path>)

  /** Where things are: the beets directory, the source folder, and the downloads root the source must be under. */
  datatype Places = Places(library: Path, source: Path, downloads: Path)

  datatype Tags = Tags(albumArtist: string, artist: string, album: string)

  /** What beets finds under the source: its album folders' files, and the tags of those it can read. */
  datatype Reading = Reading(groups: seq<seq<Path>>, readable: map<Path, Tags>)

  datatype Problem =
    | TrackOfAlbum(album: int)
    | SourceMissing
    | SourceOutsideDownloads
    | SourceInsideLibrary
    | SourceNotAFolder
    | NoAudio
    | ManyAlbums(groups: nat)
    | ManyFiles(files: nat)

  datatype Warning =
    | FewerFiles(source: nat, present: nat)
    | NothingMissing
    | ShortOfRelease(source: nat, expected: int)
    | TaggedOtherwise(tagged: string, entry: string)

  datatype Scan = Scan(errors: seq<Problem>, audioFiles: nat, albumGroups: nat, commonTags: Option<Heading>)

  datatype Preview = Preview(
    itemCount: nat,
    filesPresent: nat,
    missing: seq<Path>,
    expectedTracks: Option<int>,
    filesToDelete: seq<Path>,
    filesKept: seq<Path>,
    artToDelete: Option<Path>,
    sourceAudioFiles: nat,
    sourceAlbumGroups: nat,
    attributesLost: set<string>,
    fieldsPreserved: map<string, string>,
    warnings: seq<Warning>,
    errors: seq<Problem>,
    needsConfirmation: bool)

  datatype CleanSlateError = NotFound | Invalid | NeedsConfirmation | DiskRefused

  // The rules

  /** `_inside`: the root itself, or any path it is an ancestor of. */
  predicate Inside(path: Path, root: Path) {
    root <= path
  }

  predicate Exists(w: World, path: Path) {
    path in w.files || path in w.dirs
  }

  predicate MayDelete(path: Path, places: Places) {
    Inside(path, places.library) && !Inside(path, places.source)
  }

  predicate Deletable(w: World, path: Path, places: Places) {
    Exists(w, path) && MayDelete(path, places)
  }

  function ItemsOf(items: seq<Item>, album: int): seq<Item> {
    if items == [] then []
    else (if items[0].albumId == Some(album) then [items[0]] else []) + ItemsOf(items[1..], album)
  }

  function ItemWith(items: seq<Item>, id: int): Option<Item> {
    if items == [] then None
    else if items[0].id == id then Some(items[0])
    else ItemWith(items[1..], id)
  }

  /** `_load_entry`. */
  function LoadEntry(w: World, target: Target): Option<Entry> {
    if target.subject.Album? then
      if target.beetsId in w.albums
      then Some(Entry(Some(w.albums[target.beetsId]), ItemsOf(w.items, target.beetsId)))
      else None
    else
      var item := ItemWith(w.items, target.beetsId);
      if item.Some? then Some(Entry(None, [item.value])) else None
  }

  function PathsToDelete(w: World, items: seq<Item>, places: Places): seq<Path> {
    if items == [] then []
    else
      PathsToDelete(w, items[..|items| - 1], places)
      + if Deletable(w, items[|items| - 1].path, places) then [items[|items| - 1].path] else []
  }

  function PathsKept(w: World, items: seq<Item>, places: Places): seq<Path> {
    if items == [] then []
    else
      var path := items[|items| - 1].path;
      PathsKept(w, items[..|items| - 1], places)
      + if Exists(w, path) && !MayDelete(path, places) then [path] else []
  }

  function PathsMissing(w: World, items: seq<Item>): seq<Path> {
    if items == [] then []
    else
      var path := items[|items| - 1].path;
      PathsMissing(w, items[..|items| - 1]) + if !Exists(w, path) then [path] else []
  }

  function PathsPresent(w: World, items: seq<Item>): seq<Path> {
    if items == [] then []
    else
      var path := items[|items| - 1].path;
      PathsPresent(w, items[..|items| - 1]) + if Exists(w, path) then [path] else []
  }

  function ArtToDelete(w: World, entry: Entry, places: Places): Option<Path> {
    if entry.album.Some? && entry.album.value.artPath.Some? && Deletable(w, entry.album.value.artPath.value, places)
    then entry.album.value.artPath
    else None
  }

  function PlanOf(w: World, entry: Entry, places: Places): Plan {
    Plan(PathsToDelete(w, entry.items, places), PathsKept(w, entry.items, places), ArtToDelete(w, entry, places))
  }

  /** Every row's file is deleted, kept, or already missing. */
  lemma {:induction false} PlanAccountsForEveryRow(w: World, items: seq<Item>, places: Places)
    ensures |PathsToDelete(w, items, places)| + |PathsKept(w, items, places)| == |PathsPresent(w, items)|
    ensures |PathsPresent(w, items)| + |PathsMissing(w, items)| == |items|
  {
    if items == [] {
    } else {
      PlanAccountsForEveryRow(w, items[..|items| - 1], places);
    }
  }

  lemma {:induction false} ToDeleteIs(w: World, items: seq<Item>, places: Places, path: Path)
    ensures path in PathsToDelete(w, items, places) <==>
            Deletable(w, path, places) && exists i :: 0 <= i < |items| && items[i].path == path
  {
    if items == [] {
    } else {
      var init := items[..|items| - 1];
      ToDeleteIs(w, init, places, path);
      assert forall i :: 0 <= i < |init| ==> init[i] == items[i];
      if i :| 0 <= i < |items| && items[i].path == path {
        assert i < |init| ==> init[i].path == path;
      }
    }
  }

  // The removal, one step at a time

  /** What the removal does to the world, in its order: each row before its file, the album row before the art. */
  datatype RemovalStep = DropRow(id: int) | DropFile(path: Path) | DropAlbum(album: int)

  function DropRowFrom(items: seq<Item>, id: int): seq<Item> {
    if items == [] then []
    else if items[0].id == id then DropRowFrom(items[1..], id)
    else [items[0]] + DropRowFrom(items[1..], id)
  }

  function Apply(w: World, step: RemovalStep): World {
    match step
    case DropRow(id) => w.(items := DropRowFrom(w.items, id))
    case DropFile(path) => w.(files := w.files - {path})
    case DropAlbum(album) => w.(albums := w.albums - {album})
  }

  function ApplyAll(w: World, steps: seq<RemovalStep>): World {
    if steps == [] then w else Apply(ApplyAll(w, steps[..|steps| - 1]), steps[|steps| - 1])
  }

  function ItemSteps(items: seq<Item>, toDelete: set<Path>): seq<RemovalStep> {
    if items == [] then []
    else
      var item := items[|items| - 1];
      ItemSteps(items[..|items| - 1], toDelete)
      + [DropRow(item.id)] + if item.path in toDelete then [DropFile(item.path)] else []
  }

  function AlbumSteps(target: Target, entry: Entry, art: Option<Path>): seq<RemovalStep> {
    if entry.album.None? then []
    else [DropAlbum(target.beetsId)] + if art.Some? then [DropFile(art.value)] else []
  }

  function Elements(paths: seq<Path>): set<Path> {
    set p | p in paths
  }

  function RemovalSteps(target: Target, entry: Entry, plan: Plan): seq<RemovalStep> {
    ItemSteps(entry.items, Elements(plan.toDelete)) + AlbumSteps(target, entry, plan.art)
  }

  /** Row ids are the table's primary key. */
  predicate ValidRows(items: seq<Item>) {
    forall i, k :: 0 <= i < k < |items| ==> items[i].id != items[k].id
  }

  lemma {:induction false} DropRowFromKeeps(items: seq<Item>, id: int, item: Item)
    ensures item in DropRowFrom(items, id) <==> item in items && item.id != id
  {
    if items == [] {
    } else {
      DropRowFromKeeps(items[1..], id, item);
    }
  }

  /** What a sequence of removal steps leaves. */
  lemma {:induction false} ApplyAllLeaves(w: World, steps: seq<RemovalStep>)
    ensures var w' := ApplyAll(w, steps);
      && (forall item :: item in w'.items <==> item in w.items && DropRow(item.id) !in steps)
      && (forall path :: path in w'.files <==> path in w.files && DropFile(path) !in steps)
      && (forall album :: album in w'.albums <==> album in w.albums && DropAlbum(album) !in steps)
      && (forall album :: album in w'.albums ==> w'.albums[album] == w.albums[album])
      && w'.dirs == w.dirs
  {
    if steps == [] {
    } else {
      var init, last := steps[..|steps| - 1], steps[|steps| - 1];
      ApplyAllLeaves(w, init);
      assert steps == init + [last];
      if last.DropRow? {
        forall item ensures item in DropRowFrom(ApplyAll(w, init).items, last.id) <==>
                            item in ApplyAll(w, init).items && item.id != last.id {
          DropRowFromKeeps(ApplyAll(w, init).items, last.id, item);
        }
      }
    }
  }

  predicate StillThere(before: World, now: World, path: Path) {
    path in before.files ==> path in now.files
  }

  /** No item row of the entry that is still there points at a file the removal has deleted. */
  ghost predicate ItemsConsistent(before: World, now: World, entry: Entry) {
    forall i :: 0 <= i < |entry.items| && entry.items[i] in now.items ==> StillThere(before, now, entry.items[i].path)
  }

  /** Nor does the album row, by its art. */
  ghost predicate ArtConsistent(before: World, now: World, target: Target, entry: Entry) {
    entry.album.Some? && entry.album.value.artPath.Some? && target.beetsId in now.albums ==>
      StillThere(before, now, entry.album.value.artPath.value)
  }

  ghost predicate Consistent(before: World, now: World, target: Target, entry: Entry) {
    ItemsConsistent(before, now, entry) && ArtConsistent(before, now, target, entry)
  }

  /** No two item rows of the entry share a file that is to be deleted. */
  predicate NoSharedFiles(w: World, entry: Entry, toDelete: set<Path>) {
    forall i, k :: 0 <= i < k < |entry.items| && entry.items[i].path == entry.items[k].path ==>
      !(entry.items[i].path in toDelete && entry.items[i].path in w.files)
  }

  /** No item row's file that is to be deleted is the album's art. */
  predicate NoSharedArt(w: World, entry: Entry, toDelete: set<Path>) {
    entry.album.Some? ==>
      forall i :: 0 <= i < |entry.items| && Some(entry.items[i].path) == entry.album.value.artPath ==>
        !(entry.items[i].path in toDelete && entry.items[i].path in w.files)
  }

  /** A prefix of the item steps has dropped the first `m` rows and no file but theirs. */
  ghost predicate IsPrefixShape(items: seq<Item>, steps: seq<RemovalStep>, m: nat) {
    && m <= |items|
    && (forall id :: DropRow(id) in steps <==> exists i :: 0 <= i < m && items[i].id == id)
    && (forall path :: DropFile(path) in steps ==> exists i :: 0 <= i < m && items[i].path == path)
    && (forall album :: DropAlbum(album) !in steps)
  }

  lemma {:induction false} PrefixShape(items: seq<Item>, toDelete: set<Path>, n: nat)
    requires n <= |ItemSteps(items, toDelete)|
    ensures exists m: nat :: IsPrefixShape(items, ItemSteps(items, toDelete)[..n], m)
    ensures n == |ItemSteps(items, toDelete)| ==> IsPrefixShape(items, ItemSteps(items, toDelete)[..n], |items|)
  {
    if items == [] {
      assert IsPrefixShape(items, [], 0);
    } else {
      var init := items[..|items| - 1];
      var before, steps := ItemSteps(init, toDelete), ItemSteps(items, toDelete);
      if n <= |before| {
        PrefixShape(init, toDelete, n);
        assert steps[..n] == before[..n];
        var m: nat :| IsPrefixShape(init, before[..n], m);
        ShapeOfMore(items, before[..n], m);
      } else {
        PrefixShape(init, toDelete, |before|);
        assert before[..|before|] == before;
        var tail := LastSteps(items, toDelete, n);
        ShapeOfLast(items, before, tail);
      }
    }
  }

  lemma LastSteps(items: seq<Item>, toDelete: set<Path>, n: nat) returns (tail: seq<RemovalStep>)
    requires items != []
    requires |ItemSteps(items[..|items| - 1], toDelete)| < n <= |ItemSteps(items, toDelete)|
    ensures ItemSteps(items, toDelete)[..n] == ItemSteps(items[..|items| - 1], toDelete) + tail
    ensures var last := items[|items| - 1];
      tail == [DropRow(last.id)] || tail == [DropRow(last.id), DropFile(last.path)]
  {
    var before, steps := ItemSteps(items[..|items| - 1], toDelete), ItemSteps(items, toDelete);
    tail := steps[|before|..n];
    assert steps[..n] == before + tail;
  }

  lemma ShapeOfMore(items: seq<Item>, steps: seq<RemovalStep>, m: nat)
    requires items != [] && IsPrefixShape(items[..|items| - 1], steps, m)
    ensures IsPrefixShape(items, steps, m)
  {
    var init := items[..|items| - 1];
    assert forall i :: 0 <= i < m ==> init[i] == items[i];
  }

  lemma ShapeOfLast(items: seq<Item>, before: seq<RemovalStep>, tail: seq<RemovalStep>)
    requires items != [] && IsPrefixShape(items[..|items| - 1], before, |items| - 1)
    requires var last := items[|items| - 1];
      tail == [DropRow(last.id)] || tail == [DropRow(last.id), DropFile(last.path)]
    ensures IsPrefixShape(items, before + tail, |items|)
  {
    var k := |items| - 1;
    ShapeOfMore(items, before, k);
    assert items[k].id == items[k].id;
    forall id ensures DropRow(id) in before + tail <==> exists i :: 0 <= i < |items| && items[i].id == id {
      if i :| 0 <= i < |items| && items[i].id == id {
        assert i < k ==> DropRow(id) in before;
        assert i == k ==> tail[0] == DropRow(id);
      }
    }
  }

  /** The steps of the first rows come first. */
  lemma {:induction false} ItemStepsPrefix(items: seq<Item>, toDelete: set<Path>, i: nat)
    requires i <= |items|
    ensures ItemSteps(items[..i], toDelete) <= ItemSteps(items, toDelete)
    decreases |items|
  {
    if i < |items| {
      var init := items[..|items| - 1];
      ItemStepsPrefix(init, toDelete, i);
      assert init[..i] == items[..i];
    } else {
      assert items[..i] == items;
    }
  }

  /**
    The removal can be cut short after any step and leave no row of the entry, the album's included, pointing at a
    file it has deleted, exactly if no file it is to delete belongs to two of those rows.
   */
  lemma {:induction false} RemovalIsCrashConsistent(w: World, target: Target, plan: Plan)
    requires ValidRows(w.items) && LoadEntry(w, target).Some?
    ensures var entry := LoadEntry(w, target).value;
      (forall n :: 0 <= n <= |RemovalSteps(target, entry, plan)| ==>
         Consistent(w, ApplyAll(w, RemovalSteps(target, entry, plan)[..n]), target, entry))
      <==> NoSharedFiles(w, entry, Elements(plan.toDelete)) && NoSharedArt(w, entry, Elements(plan.toDelete))
  {
    LoadedEntry(w, target);
    var entry := LoadEntry(w, target).value;
    var steps, toDelete := RemovalSteps(target, entry, plan), Elements(plan.toDelete);
    if !NoSharedFiles(w, entry, toDelete) {
      var i, k :| 0 <= i < k < |entry.items| && entry.items[i].path == entry.items[k].path
        && entry.items[i].path in toDelete && entry.items[i].path in w.files;
      var n := SharedFileIsExposed(w, target, entry, plan, i, k);
    } else if !NoSharedArt(w, entry, toDelete) {
      var i :| 0 <= i < |entry.items| && Some(entry.items[i].path) == entry.album.value.artPath
        && entry.items[i].path in toDelete && entry.items[i].path in w.files;
      var n := SharedArtIsExposed(w, target, entry, plan, i);
    } else {
      forall n | 0 <= n <= |steps| ensures Consistent(w, ApplyAll(w, steps[..n]), target, entry) {
        PrefixKeepsItems(w, target, entry, plan, n);
        PrefixKeepsArt(w, target, entry, plan, n);
      }
    }
  }

  lemma {:induction false} PrefixKeepsItems(w: World, target: Target, entry: Entry, plan: Plan, n: nat)
    requires ValidRows(entry.items) && NoSharedFiles(w, entry, Elements(plan.toDelete))
    requires n <= |RemovalSteps(target, entry, plan)|
    ensures ItemsConsistent(w, ApplyAll(w, RemovalSteps(target, entry, plan)[..n]), entry)
  {
    var toDelete, items := Elements(plan.toDelete), entry.items;
    var steps, itemSteps := RemovalSteps(target, entry, plan)[..n], ItemSteps(items, toDelete);
    ApplyAllLeaves(w, steps);
    if n <= |itemSteps| {
      assert steps == itemSteps[..n];
      PrefixShape(items, toDelete, n);
      OnlyPlannedFiles(items, toDelete);
    } else {
      PrefixShape(items, toDelete, |itemSteps|);
      assert itemSteps[..|itemSteps|] == itemSteps <= steps;
    }
  }

  /** The art goes after the album row, and no item's file is the art. */
  lemma {:induction false} PrefixKeepsArt(w: World, target: Target, entry: Entry, plan: Plan, n: nat)
    requires NoSharedArt(w, entry, Elements(plan.toDelete))
    requires n <= |RemovalSteps(target, entry, plan)|
    ensures ArtConsistent(w, ApplyAll(w, RemovalSteps(target, entry, plan)[..n]), target, entry)
  {
    var toDelete, items := Elements(plan.toDelete), entry.items;
    var all, steps, itemSteps := RemovalSteps(target, entry, plan), RemovalSteps(target, entry, plan)[..n],
      ItemSteps(items, toDelete);
    ApplyAllLeaves(w, steps);
    if n <= |itemSteps| {
      assert steps == itemSteps[..n];
      OnlyPlannedFiles(items, toDelete);
      assert forall step :: step in steps ==> step in itemSteps;
    } else {
      assert all[|itemSteps|] == DropAlbum(target.beetsId);
      assert steps[|itemSteps|] == all[|itemSteps|];
    }
  }

  lemma {:induction false} OnlyPlannedFiles(items: seq<Item>, toDelete: set<Path>)
    ensures forall path :: DropFile(path) in ItemSteps(items, toDelete) <==>
      path in toDelete && exists i :: 0 <= i < |items| && items[i].path == path
  {
    if items == [] {
    } else {
      var init := items[..|items| - 1];
      OnlyPlannedFiles(init, toDelete);
      assert forall i :: 0 <= i < |init| ==> init[i] == items[i];
      forall path ensures DropFile(path) in ItemSteps(items, toDelete) <==>
        path in toDelete && exists i :: 0 <= i < |items| && items[i].path == path
      {
        if i :| 0 <= i < |items| && items[i].path == path {
          assert i < |init| ==> init[i].path == path;
        }
      }
    }
  }

  lemma SharedFileIsExposed(w: World, target: Target, entry: Entry, plan: Plan, i: nat, k: nat) returns (n: nat)
    requires ValidRows(entry.items) && forall j :: 0 <= j < |entry.items| ==> entry.items[j] in w.items
    requires i < k < |entry.items| && entry.items[i].path == entry.items[k].path
    requires entry.items[i].path in Elements(plan.toDelete) && entry.items[i].path in w.files
    ensures n <= |RemovalSteps(target, entry, plan)|
    ensures !ItemsConsistent(w, ApplyAll(w, RemovalSteps(target, entry, plan)[..n]), entry)
  {
    var toDelete, items := Elements(plan.toDelete), entry.items;
    var cut := ItemSteps(items[..i + 1], toDelete);
    n := |cut|;
    ItemStepsPrefix(items, toDelete, i + 1);
    assert RemovalSteps(target, entry, plan)[..n] == cut;
    PrefixShape(items[..i + 1], toDelete, n);
    assert cut[..n] == cut;
    assert items[..i + 1][|items[..i + 1]| - 1] == items[i];
    assert DropFile(items[i].path) in cut;
    ApplyAllLeaves(w, cut);
    assert items[k] in ApplyAll(w, cut).items;
  }

  lemma SharedArtIsExposed(w: World, target: Target, entry: Entry, plan: Plan, i: nat) returns (n: nat)
    requires entry.album.Some? && target.beetsId in w.albums
    requires i < |entry.items| && Some(entry.items[i].path) == entry.album.value.artPath
    requires entry.items[i].path in Elements(plan.toDelete) && entry.items[i].path in w.files
    ensures n <= |RemovalSteps(target, entry, plan)|
    ensures !ArtConsistent(w, ApplyAll(w, RemovalSteps(target, entry, plan)[..n]), target, entry)
  {
    var toDelete, items := Elements(plan.toDelete), entry.items;
    var steps := ItemSteps(items, toDelete);
    n := |steps|;
    assert RemovalSteps(target, entry, plan)[..n] == steps;
    OnlyPlannedFiles(items, toDelete);
    PrefixShape(items, toDelete, n);
    assert steps[..n] == steps;
    ApplyAllLeaves(w, steps);
  }

  const SONG: Path := ["music", "song"]

  const BESIDE: Places := Places(["music"], ["new"], [])

  /** An album whose one track is also its art. */
  function ArtAmongTracks(): World {
    World([Item(1, SONG, Some(7), 1, 1, 1, map[])], map[7 := AlbumRow(Heading("", ""), Some(SONG), map[])], {SONG}, {})
  }

  lemma ArtAmongTracksLoads()
    ensures LoadEntry(ArtAmongTracks(), Target(Album, 7)) ==
            Some(Entry(Some(AlbumRow(Heading("", ""), Some(SONG), map[])), ArtAmongTracks().items))
  {
    var items := ArtAmongTracks().items;
    assert items[1..] == [] && ItemsOf(items[1..], 7) == [];
    assert ItemsOf(items, 7) == [items[0]] == items;
  }

  lemma ArtAmongTracksIsPlanned()
    ensures SONG in PathsToDelete(ArtAmongTracks(), ArtAmongTracks().items, BESIDE)
  {
    assert SONG[..1] == BESIDE.library && SONG[0] != BESIDE.source[0];
    assert ArtAmongTracks().items[0].path == SONG;
    ToDeleteIs(ArtAmongTracks(), ArtAmongTracks().items, BESIDE, SONG);
  }

  /** There no two rows share a file, and yet the track's file goes while the album row still names it as its art. */
  lemma ArtRowCanDangle() returns (n: nat)
    ensures var w, target := ArtAmongTracks(), Target(Album, 7);
      && LoadEntry(w, target).Some?
      && var entry := LoadEntry(w, target).value;
         var plan := PlanOf(w, entry, BESIDE);
         && NoSharedFiles(w, entry, Elements(plan.toDelete))
         && n <= |RemovalSteps(target, entry, plan)|
         && !ArtConsistent(w, ApplyAll(w, RemovalSteps(target, entry, plan)[..n]), target, entry)
  {
    var w, target := ArtAmongTracks(), Target(Album, 7);
    ArtAmongTracksLoads();
    ArtAmongTracksIsPlanned();
    var entry := LoadEntry(w, target).value;
    n := SharedArtIsExposed(w, target, entry, PlanOf(w, entry, BESIDE), 0);
  }

  // The preview

  function HeadingOf(tags: Tags): Heading {
    Heading(if tags.albumArtist != "" then tags.albumArtist else tags.artist, tags.album)
  }

  /** The headings of the readable files, in their order. */
  function Headings(files: seq<Path>, readable: map<Path, Tags>): seq<Heading> {
    if files == [] then []
    else
      var last := files[|files| - 1];
      Headings(files[..|files| - 1], readable) + if last in readable then [HeadingOf(readable[last])] else []
  }

  function CountReadable(files: seq<Path>, readable: map<Path, Tags>): nat {
    |Headings(files, readable)|
  }

  function Flat(groups: seq<seq<Path>>): seq<Path> {
    if groups == [] then [] else Flat(groups[..|groups| - 1]) + groups[|groups| - 1]
  }

  lemma {:induction false} HeadingsConcat(a: seq<Path>, b: seq<Path>, readable: map<Path, Tags>)
    ensures Headings(a + b, readable) == Headings(a, readable) + Headings(b, readable)
  {
    if b == [] {
      assert a + b == a;
    } else {
      HeadingsConcat(a, b[..|b| - 1], readable);
      assert (a + b)[..|a + b| - 1] == a + b[..|b| - 1];
    }
  }

  function Frequency(headings: seq<Heading>, heading: Heading): nat {
    multiset(headings)[heading]
  }

  /** `Counter(headings).most_common(1)`, looking at the first `n`: the first of those that occur most often. */
  function MostCommon(headings: seq<Heading>, n: nat): Option<Heading>
    requires n <= |headings|
  {
    if n == 0 then None
    else
      var best := MostCommon(headings, n - 1);
      if best.Some? && Frequency(headings, headings[n - 1]) <= Frequency(headings, best.value) then best
      else Some(headings[n - 1])
  }

  /** No heading before `n` occurs more often than the one at `k`, and none before `k` as often. */
  predicate LeadsFrom(headings: seq<Heading>, k: nat, n: nat)
    requires n <= |headings|
  {
    && k < n
    && (forall i :: 0 <= i < n ==> Frequency(headings, headings[i]) <= Frequency(headings, headings[k]))
    && (forall i :: 0 <= i < k ==> Frequency(headings, headings[i]) < Frequency(headings, headings[k]))
  }

  lemma {:induction false} MostCommonIs(headings: seq<Heading>, n: nat) returns (k: nat)
    requires 0 < n <= |headings|
    ensures LeadsFrom(headings, k, n) && MostCommon(headings, n) == Some(headings[k])
  {
    if n == 1 {
      assert MostCommon(headings, 0) == None;
      k := 0;
    } else {
      k := MostCommonIs(headings, n - 1);
      if Frequency(headings, headings[n - 1]) > Frequency(headings, headings[k]) {
        k := n - 1;
      }
    }
  }

  /** Where the source is, before anything in it is read. */
  function PlaceErrors(w: World, target: Target, places: Places): seq<Problem> {
    if !Exists(w, places.source) then [SourceMissing]
    else
      (if places.source == places.downloads || !Inside(places.source, places.downloads)
       then [SourceOutsideDownloads] else [])
      + (if Inside(places.source, places.library) then [SourceInsideLibrary] else [])
      + (if target.subject.Album? && places.source !in w.dirs then [SourceNotAFolder] else [])
  }

  function Groups(w: World, source: Path, reading: Reading): seq<seq<Path>> {
    if source in w.dirs then reading.groups else [[source]]
  }

  function ContentErrors(target: Target, audioFiles: nat, groups: nat): seq<Problem> {
    if audioFiles == 0 then [NoAudio]
    else if target.subject.Album? && groups != 1 then [ManyAlbums(groups)]
    else if target.subject.Track? && audioFiles != 1 then [ManyFiles(audioFiles)]
    else []
  }

  function ScanOf(w: World, target: Target, places: Places, reading: Reading): Scan {
    if PlaceErrors(w, target, places) != [] then Scan(PlaceErrors(w, target, places), 0, 0, None)
    else
      var groups := Groups(w, places.source, reading);
      var headings := Headings(Flat(groups), reading.readable);
      Scan(ContentErrors(target, |headings|, |groups|), |headings|, |groups|, MostCommon(headings, |headings|))
  }

  /** The scan's loops over the album folders found and the files in each. */
  method ReadableFiles(groups: seq<seq<Path>>, readable: map<Path, Tags>) returns (headings: seq<Heading>)
    ensures headings == Headings(Flat(groups), readable)
  {
    headings := [];
    for g := 0 to |groups|
      invariant headings == Headings(Flat(groups[..g]), readable)
    {
      assert groups[..g + 1][..g] == groups[..g];
      HeadingsConcat(Flat(groups[..g]), groups[g], readable);
      for f := 0 to |groups[g]|
        invariant headings == Headings(Flat(groups[..g]), readable) + Headings(groups[g][..f], readable)
      {
        assert groups[g][..f + 1][..f] == groups[g][..f];
        if groups[g][f] in readable {
          headings := headings + [HeadingOf(readable[groups[g][f]])];
        }
      }
      assert groups[g][..|groups[g]|] == groups[g];
    }
    assert groups[..|groups|] == groups;
  }

  /** `_scan_source`. */
  method ScanSource(w: World, target: Target, places: Places, reading: Reading) returns (scan: Scan)
    ensures scan == ScanOf(w, target, places, reading)
  {
    var errors: seq<Problem> := [];
    if !Exists(w, places.source) {
      return Scan([SourceMissing], 0, 0, None);
    }
    if places.source == places.downloads || !Inside(places.source, places.downloads) {
      errors := errors + [SourceOutsideDownloads];
    }
    if Inside(places.source, places.library) {
      errors := errors + [SourceInsideLibrary];
    }
    if target.subject.Album? && places.source !in w.dirs {
      errors := errors + [SourceNotAFolder];
    }
    if errors != [] {
      return Scan(errors, 0, 0, None);
    }
    var groups := Groups(w, places.source, reading);
    var headings := ReadableFiles(groups, reading.readable);
    return Scan(ContentErrors(target, |headings|, |groups|), |headings|, |groups|, MostCommon(headings, |headings|));
  }

  // The track total an album's tags claim

  predicate FirstOfDisc(items: seq<Item>, i: nat)
    requires i < |items|
  {
    forall k :: 0 <= k < i ==> items[k].disc != items[i].disc
  }

  function Discs(items: seq<Item>): set<int> {
    set i | 0 <= i < |items| :: items[i].disc
  }

  /** The totals of the first item of each disc, for the first `discTotal` discs met. */
  function TotalOverDiscs(items: seq<Item>, n: nat, discTotal: int): int
    requires n <= |items|
  {
    if n == 0 then 0
    else
      TotalOverDiscs(items, n - 1, discTotal)
      + if FirstOfDisc(items, n - 1) && |Discs(items[..n - 1])| < discTotal then items[n - 1].trackTotal else 0
  }

  function OrNone(total: int): Option<int> {
    if total == 0 then None else Some(total)
  }

  function ExpectedOf(items: seq<Item>, perDisc: bool): Option<int> {
    if items == [] then None
    else if items[0].discTotal <= 1 || !perDisc then OrNone(items[0].trackTotal)
    else OrNone(TotalOverDiscs(items, |items|, items[0].discTotal))
  }

  lemma DiscsGrow(items: seq<Item>, n: nat)
    requires n < |items|
    ensures Discs(items[..n + 1]) == Discs(items[..n]) + {items[n].disc}
    ensures FirstOfDisc(items, n) <==> items[n].disc !in Discs(items[..n])
  {
    var more, less := items[..n + 1], items[..n];
    forall d | d in Discs(more) ensures d in Discs(less) + {items[n].disc} {
      var i :| 0 <= i < |more| && more[i].disc == d;
      assert i < n ==> less[i].disc == d;
    }
    forall d | d in Discs(less) + {items[n].disc} ensures d in Discs(more) {
      if d == items[n].disc {
        assert more[n].disc == d;
      } else {
        var i :| 0 <= i < |less| && less[i].disc == d;
        assert more[i].disc == d;
      }
    }
    if !FirstOfDisc(items, n) {
      var k :| 0 <= k < n && items[k].disc == items[n].disc;
      assert less[k].disc == items[n].disc;
    }
  }

  /** One more item among the first so many discs. */
  lemma TotalNext(items: seq<Item>, n: nat, discTotal: int)
    requires n < |items| && |Discs(items[..n])| < discTotal
    ensures Discs(items[..n + 1]) == Discs(items[..n]) + {items[n].disc}
    ensures TotalOverDiscs(items, n + 1, discTotal) ==
            TotalOverDiscs(items, n, discTotal) + if items[n].disc in Discs(items[..n]) then 0 else items[n].trackTotal
  {
    DiscsGrow(items, n);
  }

  lemma SizeWith(discs: set<int>, disc: int)
    ensures |discs| <= |discs + {disc}|
  {
    if disc in discs {
      assert discs + {disc} == discs;
    }
  }

  /** Once enough discs have been met, the rest add nothing. */
  lemma {:induction false} EnoughDiscs(items: seq<Item>, n: nat, all: nat, discTotal: int)
    requires n <= all <= |items| && |Discs(items[..n])| >= discTotal
    ensures TotalOverDiscs(items, all, discTotal) == TotalOverDiscs(items, n, discTotal)
    ensures |Discs(items[..all])| >= discTotal
    decreases all
  {
    if n == all {
    } else {
      EnoughDiscs(items, n, all - 1, discTotal);
      DiscsGrow(items, all - 1);
      SizeWith(Discs(items[..all - 1]), items[all - 1].disc);
    }
  }

  /** `expected_tracks`: stopping at the last disc gives the total over all items. */
  method ExpectedTracks(items: seq<Item>, perDisc: bool) returns (total: Option<int>)
    ensures total == ExpectedOf(items, perDisc)
  {
    if items == [] {
      return None;
    }
    var discTotal := items[0].discTotal;
    if discTotal <= 1 || !perDisc {
      return OrNone(items[0].trackTotal);
    }
    var seen: set<int> := {};
    var sum := 0;
    for i := 0 to |items|
      invariant seen == Discs(items[..i]) && |seen| < discTotal
      invariant sum == TotalOverDiscs(items, i, discTotal)
    {
      TotalNext(items, i, discTotal);
      if items[i].disc in seen {
        continue;
      }
      seen := seen + {items[i].disc};
      sum := sum + items[i].trackTotal;
      if |seen| == discTotal {
        EnoughDiscs(items, i + 1, |items|, discTotal);
        break;
      }
    }
    return OrNone(sum);
  }

  // The attributes carried over, and those lost

  function Models(entry: Entry): seq<Attributes> {
    (if entry.album.Some? then [entry.album.value.attributes] else [])
    + seq(|entry.items|, i requires 0 <= i < |entry.items| => entry.items[i].attributes)
  }

  /** The model has a value for the attribute that is neither None nor blank. */
  predicate HoldsField(model: Attributes, name: string) {
    name in model && model[name].Some? && Strip(model[name].value) != ""
  }

  /** The album's value, else the first item's that holds one. */
  function FirstHeld(models: seq<Attributes>, name: string): Option<string> {
    if models == [] then None
    else if HoldsField(models[0], name) then models[0][name]
    else FirstHeld(models[1..], name)
  }

  /** The inner loop of `_preserved_fields`. */
  method FirstHolder(models: seq<Attributes>, name: string) returns (value: Option<string>)
    ensures value == FirstHeld(models, name)
  {
    assert models[0..] == models;
    for m := 0 to |models|
      invariant FirstHeld(models[m..], name) == FirstHeld(models, name)
    {
      assert models[m..][1..] == models[m + 1..];
      if HoldsField(models[m], name) {
        return models[m][name];
      }
    }
    return None;
  }

  /** The asked-for names that some model holds. */
  function HeldNames(models: seq<Attributes>, names: seq<string>): set<string> {
    if names == [] then {}
    else
      var last := names[|names| - 1];
      HeldNames(models, names[..|names| - 1]) + if FirstHeld(models, last).Some? then {last} else {}
  }

  /** What is carried over of an entry's attributes. */
  function PreservedOf(entry: Entry, names: seq<string>): (fields: map<string, string>)
    ensures fields.Keys == HeldNames(Models(entry), names)
  {
    HeldNamesAre(Models(entry), names);
    map name | name in HeldNames(Models(entry), names) :: FirstHeld(Models(entry), name).value
  }

  /** `_preserved_fields`. */
  method PreservedFields(entry: Entry, names: seq<string>) returns (preserved: map<string, string>)
    ensures preserved == PreservedOf(entry, names)
  {
    preserved := map[];
    var models := Models(entry);
    for n := 0 to |names|
      invariant preserved.Keys == HeldNames(models, names[..n])
      invariant forall name :: name in preserved ==> Some(preserved[name]) == FirstHeld(models, name)
    {
      assert names[..n + 1][..n] == names[..n];
      var value := FirstHolder(models, names[n]);
      if value.Some? {
        preserved := preserved[names[n] := value.value];
      }
    }
    assert names[..|names|] == names;
  }

  lemma {:induction false} HeldNamesAre(models: seq<Attributes>, names: seq<string>)
    ensures forall name :: name in HeldNames(models, names) <==> name in names && FirstHeld(models, name).Some?
  {
    if names == [] {
    } else {
      HeldNamesAre(models, names[..|names| - 1]);
      assert names == names[..|names| - 1] + [names[|names| - 1]];
    }
  }

  lemma {:induction false} FirstHeldIs(models: seq<Attributes>, name: string)
    ensures FirstHeld(models, name).Some? ==> name in AttributeNames(models)
    ensures FirstHeld(models, name).Some? <==> exists i :: 0 <= i < |models| && HoldsField(models[i], name)
  {
    if models == [] {
    } else {
      FirstHeldIs(models[1..], name);
      if i :| 0 <= i < |models| && HoldsField(models[i], name) {
        assert i > 0 ==> models[1..][i - 1] == models[i];
      }
      if i :| 0 <= i < |models[1..]| && HoldsField(models[1..][i], name) {
        assert models[i + 1] == models[1..][i];
      }
    }
  }

  /**
    Every flexible attribute is carried over or reported lost, never both, and it is carried over exactly if it was
    asked for and some model holds a value for it that is not blank.
   */
  lemma {:induction false} AttributesAreAccountedFor(w: World, q: Request, entry: Entry, name: string)
    requires q.target.subject.Track? ==> entry.items != []
    ensures var p := PreviewOf(w, q, entry, PreservedOf(entry, q.preserve));
      && (name in AttributeNames(Models(entry)) <==> name in p.attributesLost || name in p.fieldsPreserved)
      && !(name in p.attributesLost && name in p.fieldsPreserved)
      && (name in p.fieldsPreserved <==>
            name in q.preserve && exists i :: 0 <= i < |Models(entry)| && HoldsField(Models(entry)[i], name))
      && (name in p.fieldsPreserved ==> Some(p.fieldsPreserved[name]) == FirstHeld(Models(entry), name))
  {
    HeldNamesAre(Models(entry), q.preserve);
    FirstHeldIs(Models(entry), name);
  }

  function AttributeNames(models: seq<Attributes>): set<string> {
    if models == [] then {} else models[0].Keys + AttributeNames(models[1..])
  }

  /** The inputs of one preview. */
  datatype Request = Request(
    target: Target, places: Places, reading: Reading, allowFewer: bool, preserve: seq<string>, perDisc: bool)

  /** A track that belongs to an album is not a standalone entry. */
  function TrackErrors(target: Target, entry: Entry): seq<Problem>
    requires target.subject.Track? ==> entry.items != []
  {
    if target.subject.Track? && entry.items[0].albumId.Some? && entry.items[0].albumId.value != 0
    then [TrackOfAlbum(entry.items[0].albumId.value)] else []
  }

  /** How a heading is shown. */
  function Shown(heading: Heading): string {
    (if heading.artist != "" then heading.artist else "?") + " - " + if heading.album != "" then heading.album else "?"
  }

  /** The warning that the source is tagged as something other than the album it is to replace. */
  function TagWarning(scan: Scan, album: Option<AlbumRow>): seq<Warning> {
    if scan.commonTags.Some? && album.Some? && Shown(scan.commonTags.value) != Shown(album.value.heading)
    then [TaggedOtherwise(Shown(scan.commonTags.value), Shown(album.value.heading))] else []
  }

  function WarningsOf(scan: Scan, album: Option<AlbumRow>, present: nat, missing: nat, expected: Option<int>)
    : seq<Warning>
  {
    (if scan.errors == [] && scan.audioFiles < present then [FewerFiles(scan.audioFiles, present)] else [])
    + (if missing == 0 && scan.errors == [] then [NothingMissing] else [])
    + (if expected.Some? && 0 < scan.audioFiles < expected.value
       then [ShortOfRelease(scan.audioFiles, expected.value)] else [])
    + TagWarning(scan, album)
  }

  /** Only an album's heading is compared with the source's tags. */
  function ComparedAlbum(q: Request, entry: Entry): Option<AlbumRow> {
    if q.target.subject.Album? then entry.album else None
  }

  /** `preview`, for an entry that is there and whose `fields` are carried over. */
  function PreviewOf(w: World, q: Request, entry: Entry, fields: map<string, string>): Preview
    requires q.target.subject.Track? ==> entry.items != []
  {
    var scan := ScanOf(w, q.target, q.places, q.reading);
    var plan := PlanOf(w, entry, q.places);
    var present, missing := |PathsPresent(w, entry.items)|, PathsMissing(w, entry.items);
    var expected := if q.target.subject.Album? then ExpectedOf(entry.items, q.perDisc) else None;
    Preview(
      |entry.items|, present, missing, expected, plan.toDelete, plan.kept, plan.art, scan.audioFiles, scan.albumGroups,
      AttributeNames(Models(entry)) - fields.Keys, fields,
      WarningsOf(scan, ComparedAlbum(q, entry), present, |missing|, expected),
      TrackErrors(q.target, entry) + scan.errors,
      scan.errors == [] && scan.audioFiles < present && !q.allowFewer)
  }

  /** How the source compares with the entry, and whether that needs the opt-in. */
  method CompareWithSource(
      scan: Scan, album: Option<AlbumRow>, present: nat, missing: nat, expected: Option<int>, allowFewer: bool)
    returns (warnings: seq<Warning>, needsConfirmation: bool)
    ensures warnings == WarningsOf(scan, album, present, missing, expected)
    ensures needsConfirmation <==> scan.errors == [] && scan.audioFiles < present && !allowFewer
  {
    warnings, needsConfirmation := [], false;
    if scan.errors == [] && scan.audioFiles < present {
      warnings := warnings + [FewerFiles(scan.audioFiles, present)];
      needsConfirmation := !allowFewer;
    }
    if missing == 0 && scan.errors == [] {
      warnings := warnings + [NothingMissing];
    }
    if expected.Some? && 0 < scan.audioFiles < expected.value {
      warnings := warnings + [ShortOfRelease(scan.audioFiles, expected.value)];
    }
    if scan.commonTags.Some? && album.Some? {
      var source, entry := Shown(scan.commonTags.value), Shown(album.value.heading);
      if source != entry {
        warnings := warnings + [TaggedOtherwise(source, entry)];
      }
    }
  }

  /** The body of `preview`, once the entry is loaded. */
  method PreviewEntry(w: World, q: Request, entry: Entry) returns (p: Preview)
    requires q.target.subject.Track? ==> entry.items != []
    ensures p == PreviewOf(w, q, entry, PreservedOf(entry, q.preserve))
  {
    var preserved := PreservedFields(entry, q.preserve);
    var errors := TrackErrors(q.target, entry);
    var scan := ScanSource(w, q.target, q.places, q.reading);
    errors := errors + scan.errors;
    var plan := PlanOf(w, entry, q.places);
    var present, missing := |PathsPresent(w, entry.items)|, PathsMissing(w, entry.items);
    var expected: Option<int> := None;
    if q.target.subject.Album? {
      expected := ExpectedTracks(entry.items, q.perDisc);
    }
    var warnings, needsConfirmation := CompareWithSource(
      scan, ComparedAlbum(q, entry), present, |missing|, expected, q.allowFewer);
    p := Preview(
      |entry.items|, present, missing, expected, plan.toDelete, plan.kept, plan.art, scan.audioFiles, scan.albumGroups,
      AttributeNames(Models(entry)) - preserved.Keys, preserved, warnings, errors, needsConfirmation);
  }

  /** `require_ok`: blocking errors first, then the opt-in. */
  function RequireOk(p: Preview): Result<(), CleanSlateError> {
    if p.errors != [] then Err(Invalid)
    else if p.needsConfirmation then Err(NeedsConfirmation)
    else Ok(())
  }

  lemma {:induction false} ItemsOfAre(items: seq<Item>, album: int)
    ensures forall item :: item in ItemsOf(items, album) <==> item in items && item.albumId == Some(album)
    ensures ValidRows(items) ==> ValidRows(ItemsOf(items, album))
  {
    if items == [] {
    } else {
      ItemsOfAre(items[1..], album);
      assert forall item :: item in items <==> item == items[0] || item in items[1..];
      if ValidRows(items) {
        var rest := ItemsOf(items[1..], album);
        forall k | 0 <= k < |rest| ensures rest[k].id != items[0].id {
          assert rest[k] in items[1..];
        }
      }
    }
  }

  lemma {:induction false} ItemWithIs(items: seq<Item>, id: int)
    ensures ItemWith(items, id).Some? ==> ItemWith(items, id).value in items && ItemWith(items, id).value.id == id
  {
    if items == [] {
    } else {
      ItemWithIs(items[1..], id);
    }
  }

  /** A loaded entry's rows are library rows, each once. */
  lemma LoadedEntry(w: World, target: Target)
    requires ValidRows(w.items) && LoadEntry(w, target).Some?
    ensures var entry := LoadEntry(w, target).value;
      && ValidRows(entry.items)
      && (forall i :: 0 <= i < |entry.items| ==> entry.items[i] in w.items)
      && (target.subject.Track? ==> entry.items != [])
      && (entry.album.Some? ==> target.beetsId in w.albums && w.albums[target.beetsId] == entry.album.value)
  {
    ItemsOfAre(w.items, target.beetsId);
    ItemWithIs(w.items, target.beetsId);
  }

  /** What the preview's lists say about the paths in them. */
  lemma {:induction false} ListedPaths(w: World, items: seq<Item>, places: Places)
    ensures |PathsToDelete(w, items, places)| <= |PathsPresent(w, items)|
    ensures forall path :: path in PathsToDelete(w, items, places) ==> Deletable(w, path, places)
  {
    PlanAccountsForEveryRow(w, items, places);
    forall path | path in PathsToDelete(w, items, places) ensures Deletable(w, path, places) {
      ToDeleteIs(w, items, places, path);
    }
  }

  /** The steps of a removal, told apart: which rows, files and album they drop. */
  lemma StepsDrop(w: World, target: Target, entry: Entry, places: Places)
    ensures var plan := PlanOf(w, entry, places);
      var steps := RemovalSteps(target, entry, plan);
      && (forall id :: DropRow(id) in steps <==> exists i :: 0 <= i < |entry.items| && entry.items[i].id == id)
      && (forall path :: DropFile(path) in steps <==> path in plan.toDelete || Some(path) == plan.art)
      && (forall album :: DropAlbum(album) in steps <==> entry.album.Some? && album == target.beetsId)
  {
    var plan := PlanOf(w, entry, places);
    var toDelete := Elements(plan.toDelete);
    var itemSteps, albumSteps := ItemSteps(entry.items, toDelete), AlbumSteps(target, entry, plan.art);
    PrefixShape(entry.items, toDelete, |itemSteps|);
    assert itemSteps[..|itemSteps|] == itemSteps;
    OnlyPlannedFiles(entry.items, toDelete);
    forall path ensures DropFile(path) in itemSteps <==> path in plan.toDelete {
      ToDeleteIs(w, entry.items, places, path);
    }
    AlbumStepsDrop(target, entry, plan.art);
  }

  lemma AlbumStepsDrop(target: Target, entry: Entry, art: Option<Path>)
    ensures var steps := AlbumSteps(target, entry, art);
      && (forall id :: DropRow(id) !in steps)
      && (forall path :: DropFile(path) in steps <==> entry.album.Some? && Some(path) == art)
      && (forall album :: DropAlbum(album) in steps <==> entry.album.Some? && album == target.beetsId)
  {
    var steps := AlbumSteps(target, entry, art);
    if entry.album.Some? {
      assert steps[0] == DropAlbum(target.beetsId);
      assert art.Some? ==> steps[1] == DropFile(art.value);
    }
  }

  /** What is left when every step of the removal has gone through. */
  lemma {:induction false} RemovalLeaves(w: World, target: Target, entry: Entry, places: Places)
    ensures var plan := PlanOf(w, entry, places);
      var w' := ApplyAll(w, RemovalSteps(target, entry, plan));
      && w'.files == w.files - Elements(plan.toDelete) - (if plan.art.Some? then {plan.art.value} else {})
      && (forall item :: item in w'.items <==>
            item in w.items && forall i :: 0 <= i < |entry.items| ==> entry.items[i].id != item.id)
      && (forall album :: album in w'.albums <==>
            album in w.albums && !(entry.album.Some? && album == target.beetsId))
      && (forall album :: album in w'.albums ==> w'.albums[album] == w.albums[album])
  {
    ApplyAllLeaves(w, RemovalSteps(target, entry, PlanOf(w, entry, places)));
    StepsDrop(w, target, entry, places);
  }

  /** The files that go are in the library and not under the source. */
  lemma {:induction false} RemovalSparesSource(w: World, target: Target, entry: Entry, places: Places)
    ensures var w' := ApplyAll(w, RemovalSteps(target, entry, PlanOf(w, entry, places)));
      && (forall path :: path in w.files && path !in w'.files ==> MayDelete(path, places))
      && (forall path :: path in w.files && Inside(path, places.source) ==> path in w'.files)
  {
    RemovalLeaves(w, target, entry, places);
    ListedPaths(w, entry.items, places);
  }

  /** The rules of a clean slate's source: where it is and what beets finds in it. */
  predicate SourceFits(w: World, target: Target, places: Places, reading: Reading) {
    var groups := Groups(w, places.source, reading);
    var audioFiles := CountReadable(Flat(groups), reading.readable);
    && Exists(w, places.source)
    && places.source != places.downloads && Inside(places.source, places.downloads)
    && !Inside(places.source, places.library)
    && (target.subject.Album? ==> places.source in w.dirs && |groups| == 1 && audioFiles >= 1)
    && (target.subject.Track? ==> audioFiles == 1)
  }

  /** An error-free scan is a source that meets the rules; its counts are then those of the source. */
  lemma ScanMeans(w: World, target: Target, places: Places, reading: Reading)
    ensures var scan := ScanOf(w, target, places, reading);
      && (scan.errors == [] <==> SourceFits(w, target, places, reading))
      && (scan.errors == [] ==>
            && scan.albumGroups == |Groups(w, places.source, reading)|
            && scan.audioFiles == CountReadable(Flat(Groups(w, places.source, reading)), reading.readable))
  {
    assert ContentErrors(target, 0, 0) == [NoAudio];
  }

  /** The entry is one the clean slate takes: an album, or a track that belongs to none. */
  predicate IsStandalone(target: Target, entry: Entry)
    requires target.subject.Track? ==> entry.items != []
  {
    target.subject.Track? ==> entry.items[0].albumId.None? || entry.items[0].albumId.value == 0
  }

  /**
    The guard lets pass exactly the entries that stand alone, with a source that meets the rules and has a readable
    file for each one on disk, or the opt-in to fewer.
   */
  lemma {:induction false} GuardPassesExactly(w: World, q: Request, entry: Entry, fields: map<string, string>)
    requires q.target.subject.Track? ==> entry.items != []
    ensures RequireOk(PreviewOf(w, q, entry, fields)).Ok? <==>
      && IsStandalone(q.target, entry)
      && SourceFits(w, q.target, q.places, q.reading)
      && (q.allowFewer ||
          |PathsPresent(w, entry.items)| <= ReadableAt(w, q.places.source, q.reading))
  {
    GuardReads(w, q, entry, fields);
    ScanMeans(w, q.target, q.places, q.reading);
  }

  lemma {:induction false} GuardReads(w: World, q: Request, entry: Entry, fields: map<string, string>)
    requires q.target.subject.Track? ==> entry.items != []
    ensures var scan, r := ScanOf(w, q.target, q.places, q.reading), RequireOk(PreviewOf(w, q, entry, fields));
      && (r.Ok? <==>
            IsStandalone(q.target, entry) && scan.errors == []
            && (q.allowFewer || |PathsPresent(w, entry.items)| <= scan.audioFiles))
      && (r.Err? ==>
            r.error == if IsStandalone(q.target, entry) && scan.errors == [] then NeedsConfirmation else Invalid)
  {
    var scan, p := ScanOf(w, q.target, q.places, q.reading), PreviewOf(w, q, entry, fields);
    var errors := TrackErrors(q.target, entry);
    assert errors == [] <==> IsStandalone(q.target, entry);
    assert p.errors == errors + scan.errors;
    assert |p.errors| == |errors| + |scan.errors|;
  }

  /** What a guard that passes says of the preview. */
  lemma GuardMeans(w: World, q: Request, entry: Entry, fields: map<string, string>)
    requires q.target.subject.Track? ==> entry.items != []
    requires RequireOk(PreviewOf(w, q, entry, fields)).Ok?
    ensures var p := PreviewOf(w, q, entry, fields);
      && |p.filesToDelete| + |p.filesKept| + |p.missing| == p.itemCount
      && (!q.allowFewer ==> |p.filesToDelete| <= p.sourceAudioFiles)
      && (q.target.subject.Album? ==> p.sourceAlbumGroups == 1 && p.sourceAudioFiles >= 1)
      && (q.target.subject.Track? ==> p.sourceAudioFiles == 1)
    ensures IsStandalone(q.target, entry) && SourceFits(w, q.target, q.places, q.reading)
  {
    GuardPassesExactly(w, q, entry, fields);
    ScanMeans(w, q.target, q.places, q.reading);
    ListedPaths(w, entry.items, q.places);
    PlanAccountsForEveryRow(w, entry.items, q.places);
  }

  /**
    A preview that passes its guard, and the removal that follows it in the same world: exactly the previewed files
    (and art) go, all of them in the library and none under the source; everything under the source stays; the
    entry's rows go and no others; every row is accounted for; without the opt-in no more files go than the source
    has readable ones; and the source meets the rules.
   */
  lemma {:induction false} CleanSlateIsSafe(w: World, q: Request, fields: map<string, string>)
    requires ValidRows(w.items) && LoadEntry(w, q.target).Some?
    requires q.target.subject.Track? ==> LoadEntry(w, q.target).value.items != []
    requires RequireOk(PreviewOf(w, q, LoadEntry(w, q.target).value, fields)).Ok?
    ensures var entry := LoadEntry(w, q.target).value;
      var p := PreviewOf(w, q, entry, fields);
      var w' := ApplyAll(w, RemovalSteps(q.target, entry, PlanOf(w, entry, q.places)));
      && w'.files == w.files - Elements(p.filesToDelete) - (if p.artToDelete.Some? then {p.artToDelete.value} else {})
      && (forall path :: path in w.files && path !in w'.files ==> MayDelete(path, q.places))
      && (forall path :: path in w.files && Inside(path, q.places.source) ==> path in w'.files)
      && (forall item :: item in w'.items <==>
            item in w.items && forall i :: 0 <= i < |entry.items| ==> entry.items[i].id != item.id)
      && |p.filesToDelete| + |p.filesKept| + |p.missing| == p.itemCount
      && (!q.allowFewer ==> |p.filesToDelete| <= p.sourceAudioFiles)
      && IsStandalone(q.target, entry) && SourceFits(w, q.target, q.places, q.reading)
      && (q.target.subject.Album? ==> p.sourceAlbumGroups == 1 && p.sourceAudioFiles >= 1)
      && (q.target.subject.Track? ==> p.sourceAudioFiles == 1)
  {
    var entry := LoadEntry(w, q.target).value;
    RemovalLeaves(w, q.target, entry, q.places);
    RemovalSparesSource(w, q.target, entry, q.places);
    GuardMeans(w, q, entry, fields);
  }

  // The objects

  class Library {
    var items: seq<Item>
    var albums: map<int, AlbumRow>

    constructor (items: seq<Item>, albums: map<int, AlbumRow>)
      ensures this.items == items && this.albums == albums
    {
      this.items, this.albums := items, albums;
    }

    /** beets' `Item.remove` up to the file: the row goes, its album stays. */
    method RemoveItem(id: int)
      modifies this`items
      ensures items == DropRowFrom(old(items), id)
    {
      items := DropRowFrom(items, id);
    }

    method RemoveAlbum(album: int)
      modifies this`albums
      ensures albums == old(albums) - {album}
    {
      albums := albums - {album};
    }
  }

  class Disk {
    var files: set<Path>
    const dirs: set<Path>
    /** The paths the system will not remove: folders, and files it denies. */
    const refused: set<Path>

    constructor (files: set<Path>, dirs: set<Path>, refused: set<Path>)
      ensures this.files == files && this.dirs == dirs && this.refused == refused
    {
      this.files, this.dirs, this.refused := files, dirs, refused;
    }

    /** beets' soft remove: a file that is not there is no error. */
    method Remove(path: Path) returns (ok: bool)
      modifies this
      ensures ok <==> path !in refused
      ensures files == if ok then old(files) - {path} else old(files)
    {
      ok := path !in refused;
      if ok {
        files := files - {path};
      }
    }
  }

  ghost function WorldOf(lib: Library, disk: Disk): World
    reads lib, disk
  {
    World(lib.items, lib.albums, disk.files, disk.dirs)
  }

  /** The preview of a request whose entry is in the library. */
  function PreviewIn(w: World, q: Request): Preview
    requires LoadEntry(w, q.target).Some?
  {
    var entry := LoadEntry(w, q.target).value;
    PreviewOf(w, q, entry, PreservedOf(entry, q.preserve))
  }

  /** `preview`, over the objects it reads. */
  method MakePreview(lib: Library, disk: Disk, q: Request) returns (r: Result<Preview, CleanSlateError>)
    requires ValidRows(lib.items)
    ensures if LoadEntry(WorldOf(lib, disk), q.target).None? then r == Err(NotFound)
            else r == Ok(PreviewIn(WorldOf(lib, disk), q))
  {
    var w := World(lib.items, lib.albums, disk.files, disk.dirs);
    var entry := LoadEntry(w, q.target);
    if entry.None? {
      return Err(NotFound);
    }
    LoadedEntry(w, q.target);
    var p := PreviewEntry(w, q, entry.value);
    return Ok(p);
  }

  datatype RemovedEntry = RemovedEntry(
    target: Target, itemIds: seq<int>, deleted: seq<Path>, kept: seq<Path>, deletedArt: Option<Path>)

  function IdsOf(items: seq<Item>): seq<int> {
    seq(|items|, i requires 0 <= i < |items| => items[i].id)
  }

  lemma {:induction false} ItemStepsNext(items: seq<Item>, toDelete: set<Path>, i: nat)
    requires i < |items|
    ensures var row := ItemSteps(items[..i], toDelete) + [DropRow(items[i].id)];
      ItemSteps(items[..i + 1], toDelete) == if items[i].path in toDelete then row + [DropFile(items[i].path)] else row
  {
    assert items[..i + 1][..i] == items[..i];
    assert ItemSteps(items[..i], toDelete) + [DropRow(items[i].id)] + [] ==
           ItemSteps(items[..i], toDelete) + [DropRow(items[i].id)];
  }

  lemma {:induction false} ApplyAllNext(w: World, steps: seq<RemovalStep>, step: RemovalStep)
    ensures ApplyAll(w, steps + [step]) == Apply(ApplyAll(w, steps), step)
  {
    assert (steps + [step])[..|steps|] == steps;
  }

  predicate NoneRefused(steps: seq<RemovalStep>, refused: set<Path>) {
    forall k :: 0 <= k < |steps| && steps[k].DropFile? ==> steps[k].path !in refused
  }

  /** Step `n` is the first of `steps` that the disk refuses, or `n` is their number and it refuses none. */
  predicate StopsAt(steps: seq<RemovalStep>, refused: set<Path>, n: nat) {
    && n <= |steps|
    && NoneRefused(steps[..n], refused)
    && (n < |steps| ==> steps[n].DropFile? && steps[n].path in refused)
  }

  /** `now` is the world after the steps before the first refused file, and after all of them if `done`. */
  ghost predicate IsCutShort(before: World, now: World, steps: seq<RemovalStep>, refused: set<Path>, done: bool) {
    exists n: nat :: StopsAt(steps, refused, n) && now == ApplyAll(before, steps[..n]) && (done <==> n == |steps|)
  }

  /** Between a row's step and its file's, the steps so far are a proper prefix of them all. */
  lemma {:induction false} CutAtRow(before: World, items: seq<Item>, toDelete: set<Path>, refused: set<Path>, i: nat)
    requires i < |items| && items[i].path in toDelete && items[i].path in refused
    requires NoneRefused(ItemSteps(items[..i], toDelete), refused)
    ensures var now := Apply(ApplyAll(before, ItemSteps(items[..i], toDelete)), DropRow(items[i].id));
      IsCutShort(before, now, ItemSteps(items, toDelete), refused, false)
  {
    var cut, all := ItemSteps(items[..i], toDelete) + [DropRow(items[i].id)], ItemSteps(items, toDelete);
    ItemStepsNext(items, toDelete, i);
    ItemStepsPrefix(items, toDelete, i + 1);
    ApplyAllNext(before, ItemSteps(items[..i], toDelete), DropRow(items[i].id));
    assert |cut| < |all| && all[..|cut|] == cut && all[|cut|] == ItemSteps(items[..i + 1], toDelete)[|cut|];
    assert StopsAt(all, refused, |cut|);
  }

  lemma {:induction false} RowDone(before: World, items: seq<Item>, toDelete: set<Path>, i: nat)
    requires i < |items|
    ensures var dropped := Apply(ApplyAll(before, ItemSteps(items[..i], toDelete)), DropRow(items[i].id));
      ApplyAll(before, ItemSteps(items[..i + 1], toDelete)) ==
      if items[i].path in toDelete then Apply(dropped, DropFile(items[i].path)) else dropped
  {
    var steps := ItemSteps(items[..i], toDelete);
    ItemStepsNext(items, toDelete, i);
    ApplyAllNext(before, steps, DropRow(items[i].id));
    ApplyAllNext(before, steps + [DropRow(items[i].id)], DropFile(items[i].path));
  }

  lemma {:induction false} RowRefused(items: seq<Item>, toDelete: set<Path>, refused: set<Path>, i: nat)
    requires i < |items|
    ensures NoneRefused(ItemSteps(items[..i + 1], toDelete), refused) <==>
      NoneRefused(ItemSteps(items[..i], toDelete), refused) && !(items[i].path in toDelete && items[i].path in refused)
  {
    var now, next := ItemSteps(items[..i], toDelete), ItemSteps(items[..i + 1], toDelete);
    ItemStepsNext(items, toDelete, i);
    assert items[i].path in toDelete ==> next[|now| + 1] == DropFile(items[i].path);
    assert forall k :: 0 <= k < |now| ==> next[k] == now[k];
  }

  /** The rows of an entry and their files, one after the other; stops at the first file the disk refuses. */
  method RemoveItems(lib: Library, disk: Disk, items: seq<Item>, toDelete: set<Path>) returns (ok: bool)
    modifies lib, disk
    ensures IsCutShort(old(WorldOf(lib, disk)), WorldOf(lib, disk), ItemSteps(items, toDelete), disk.refused, ok)
  {
    ghost var w := WorldOf(lib, disk);
    for i := 0 to |items|
      invariant WorldOf(lib, disk) == ApplyAll(w, ItemSteps(items[..i], toDelete))
      invariant NoneRefused(ItemSteps(items[..i], toDelete), disk.refused)
    {
      RowDone(w, items, toDelete, i);
      RowRefused(items, toDelete, disk.refused, i);
      lib.RemoveItem(items[i].id);
      if items[i].path in toDelete {
        ok := disk.Remove(items[i].path);
        if !ok {
          CutAtRow(w, items, toDelete, disk.refused, i);
          return false;
        }
      }
    }
    assert items[..|items|] == items;
    AllDone(w, WorldOf(lib, disk), ItemSteps(items, toDelete), disk.refused);
    return true;
  }

  lemma {:induction false} AllDone(before: World, now: World, steps: seq<RemovalStep>, refused: set<Path>)
    ensures IsCutShort(before, now, steps, refused, true) <==>
            NoneRefused(steps, refused) && now == ApplyAll(before, steps)
  {
    assert steps[..|steps|] == steps;
    assert NoneRefused(steps, refused) ==> StopsAt(steps, refused, |steps|);
  }

  /** Cut short in the first part is cut short in the whole. */
  lemma CutShortInFirst(
      before: World, now: World, first: seq<RemovalStep>, rest: seq<RemovalStep>, refused: set<Path>)
    requires IsCutShort(before, now, first, refused, false)
    ensures IsCutShort(before, now, first + rest, refused, false)
  {
    var n: nat :| StopsAt(first, refused, n) && now == ApplyAll(before, first[..n]) && n != |first|;
    assert (first + rest)[..n] == first[..n];
    assert StopsAt(first + rest, refused, n);
  }

  /** With the rows gone, the album row and its art: refused, done, or nothing to do. */
  lemma {:induction false} AlbumDone(before: World, target: Target, entry: Entry, plan: Plan, refused: set<Path>)
    requires NoneRefused(ItemSteps(entry.items, Elements(plan.toDelete)), refused)
    ensures var rows := ApplyAll(before, ItemSteps(entry.items, Elements(plan.toDelete)));
      var steps := RemovalSteps(target, entry, plan);
      if entry.album.None? then IsCutShort(before, rows, steps, refused, true)
      else
        var dropped := Apply(rows, DropAlbum(target.beetsId));
        if plan.art.None? then IsCutShort(before, dropped, steps, refused, true)
        else if plan.art.value in refused then IsCutShort(before, dropped, steps, refused, false)
        else IsCutShort(before, Apply(dropped, DropFile(plan.art.value)), steps, refused, true)
  {
    var rows := ItemSteps(entry.items, Elements(plan.toDelete));
    var steps := RemovalSteps(target, entry, plan);
    if entry.album.None? {
      assert steps == rows;
      AllDone(before, ApplyAll(before, rows), steps, refused);
    } else {
      var dropped := rows + [DropAlbum(target.beetsId)];
      ApplyAllNext(before, rows, DropAlbum(target.beetsId));
      if plan.art.None? {
        assert steps == dropped;
        AllDone(before, ApplyAll(before, dropped), steps, refused);
      } else {
        ApplyAllNext(before, dropped, DropFile(plan.art.value));
        assert steps == dropped + [DropFile(plan.art.value)];
        if plan.art.value in refused {
          assert steps[..|dropped|] == dropped;
          assert StopsAt(steps, refused, |dropped|);
        } else {
          AllDone(before, ApplyAll(before, steps), steps, refused);
        }
      }
    }
  }

  predicate NothingRefused(plan: Plan, refused: set<Path>) {
    && (forall path :: path in plan.toDelete ==> path !in refused)
    && (plan.art.Some? ==> plan.art.value !in refused)
  }

  /** A removal is refused exactly if one of the planned files, or the art, is. */
  lemma PlanRefused(w: World, target: Target, entry: Entry, places: Places, refused: set<Path>)
    ensures var plan := PlanOf(w, entry, places);
      NoneRefused(RemovalSteps(target, entry, plan), refused) <==>
      NothingRefused(plan, refused)
  {
    var plan := PlanOf(w, entry, places);
    var steps := RemovalSteps(target, entry, plan);
    StepsDrop(w, target, entry, places);
    if !NoneRefused(steps, refused) {
      var k :| 0 <= k < |steps| && steps[k].DropFile? && steps[k].path in refused;
      assert DropFile(steps[k].path) in steps;
    }
    forall path | NoneRefused(steps, refused) && (path in plan.toDelete || Some(path) == plan.art)
      ensures path !in refused
    {
      assert DropFile(path) in steps;
    }
  }

  lemma NotDone(before: World, now: World, steps: seq<RemovalStep>, refused: set<Path>)
    requires IsCutShort(before, now, steps, refused, false)
    ensures !NoneRefused(steps, refused)
  {
  }

  /**
    `remove_entry`: the rows go, and each file after its row, as planned in the world it starts from. It fails exactly
    if the disk refuses a planned file, and then it has done the steps up to such a file and no more.
   */
  method RemoveEntry(lib: Library, disk: Disk, target: Target, places: Places)
    returns (r: Result<RemovedEntry, CleanSlateError>)
    modifies lib, disk
    ensures var w := old(WorldOf(lib, disk));
      if LoadEntry(w, target).None? then r == Err(NotFound) && WorldOf(lib, disk) == w
      else
        var entry := LoadEntry(w, target).value;
        var plan := PlanOf(w, entry, places);
        && IsCutShort(w, WorldOf(lib, disk), RemovalSteps(target, entry, plan), disk.refused, r.Ok?)
        && (r.Ok? ==> WorldOf(lib, disk) == ApplyAll(w, RemovalSteps(target, entry, plan)))
        && (r.Ok? ==> r.value == RemovedEntry(target, IdsOf(entry.items), plan.toDelete, plan.kept, plan.art))
        && (r.Err? ==> r.error == DiskRefused)
        && (r.Ok? <==> NothingRefused(plan, disk.refused))
  {
    ghost var before := WorldOf(lib, disk);
    var w := World(lib.items, lib.albums, disk.files, disk.dirs);
    var loaded := LoadEntry(w, target);
    if loaded.None? {
      return Err(NotFound);
    }
    var entry := loaded.value;
    var plan := PlanOf(w, entry, places);
    var toDelete := Elements(plan.toDelete);
    ghost var itemSteps, albumSteps := ItemSteps(entry.items, toDelete), AlbumSteps(target, entry, plan.art);
    PlanRefused(w, target, entry, places, disk.refused);
    var ok := RemoveItems(lib, disk, entry.items, toDelete);
    if !ok {
      CutShortInFirst(before, WorldOf(lib, disk), itemSteps, albumSteps, disk.refused);
      NotDone(before, WorldOf(lib, disk), itemSteps + albumSteps, disk.refused);
      return Err(DiskRefused);
    }
    AllDone(before, WorldOf(lib, disk), itemSteps, disk.refused);
    AlbumDone(before, target, entry, plan, disk.refused);
    if entry.album.Some? {
      lib.RemoveAlbum(target.beetsId);
      if plan.art.Some? {
        ok := disk.Remove(plan.art.value);
        if !ok {
          NotDone(before, WorldOf(lib, disk), itemSteps + albumSteps, disk.refused);
          return Err(DiskRefused);
        }
      }
    }
    AllDone(before, WorldOf(lib, disk), itemSteps + albumSteps, disk.refused);
    return Ok(RemovedEntry(target, IdsOf(entry.items), plan.toDelete, plan.kept, plan.art));
  }

  datatype SlateJob = SlateJob(target: Target, paths: seq<Path>, allowFewer: bool)

  datatype WorkerConfig = WorkerConfig(library: Path, downloads: Option<Path>, preserve: seq<string>, perDisc: bool)

  predicate Runnable(job: SlateJob, config: WorkerConfig) {
    config.downloads.Some? && |job.paths| == 1
  }

  function RequestOf(job: SlateJob, config: WorkerConfig, reading: Reading): Request
    requires Runnable(job, config)
  {
    Request(job.target, Places(config.library, job.paths[0], config.downloads.value), reading, job.allowFewer,
            config.preserve, config.perDisc)
  }

  /** How many files beets can read at a source. */
  function ReadableAt(w: World, source: Path, reading: Reading): nat {
    CountReadable(Flat(Groups(w, source, reading)), reading.readable)
  }

  /**
    The clean slate is one that may be done, the number of files apart: a single source, strictly under the downloads
    root and outside the library; for an album, which is there, a folder that is one album folder with some file beets
    can read; for a track, which is there and of no album, exactly one file that beets can read.
   */
  predicate IsSound(w: World, job: SlateJob, config: WorkerConfig, reading: Reading) {
    && config.downloads.Some? && |job.paths| == 1
    && LoadEntry(w, job.target).Some?
    && var source, downloads := job.paths[0], config.downloads.value;
       && (source in w.files || source in w.dirs)
       && downloads <= source && downloads != source && !(config.library <= source)
       && match job.target.subject
          case Album => source in w.dirs && |reading.groups| == 1 && ReadableAt(w, source, reading) >= 1
          case Track =>
            && ReadableAt(w, source, reading) == 1
            && var entry := LoadEntry(w, job.target).value;
               entry.items != [] && (entry.items[0].albumId == None || entry.items[0].albumId == Some(0))
  }

  /** Whether the job gets as far as removing anything: it must also bring a file for each one there is, or opt in. */
  predicate Passes(w: World, job: SlateJob, config: WorkerConfig, reading: Reading) {
    && IsSound(w, job, config, reading)
    && (job.allowFewer
        || |PathsPresent(w, LoadEntry(w, job.target).value.items)| <= ReadableAt(w, job.paths[0], reading))
  }

  /** Why it does not. */
  function GuardError(w: World, job: SlateJob, config: WorkerConfig, reading: Reading): CleanSlateError {
    if config.downloads.None? || |job.paths| != 1 then Invalid
    else if LoadEntry(w, job.target).None? then NotFound
    else if IsSound(w, job, config, reading) then NeedsConfirmation
    else Invalid
  }

  lemma {:induction false} RequestIsSound(w: World, job: SlateJob, config: WorkerConfig, reading: Reading)
    requires ValidRows(w.items) && Runnable(job, config) && LoadEntry(w, job.target).Some?
    requires job.target.subject.Track? ==> LoadEntry(w, job.target).value.items != []
    ensures var q := RequestOf(job, config, reading);
      IsSound(w, job, config, reading) <==>
      IsStandalone(q.target, LoadEntry(w, job.target).value) && SourceFits(w, q.target, q.places, q.reading)
  {
    if job.target.subject.Album? && job.paths[0] in w.dirs {
      assert Groups(w, job.paths[0], reading) == reading.groups;
    }
  }

  lemma {:induction false} RequestPasses(w: World, job: SlateJob, config: WorkerConfig, reading: Reading)
    requires ValidRows(w.items) && Runnable(job, config) && LoadEntry(w, job.target).Some?
    ensures var r := RequireOk(PreviewIn(w, RequestOf(job, config, reading)));
      && (r.Ok? <==> Passes(w, job, config, reading))
      && (r.Err? ==> r.error == GuardError(w, job, config, reading))
  {
    LoadedEntry(w, job.target);
    RequestIsSound(w, job, config, reading);
    var q, entry := RequestOf(job, config, reading), LoadEntry(w, job.target).value;
    GuardReads(w, q, entry, PreservedOf(entry, q.preserve));
    ScanMeans(w, q.target, q.places, q.reading);
  }

  /**
    `_clean_slate_blocking`: the preview again as the guard, then the removal. A guard that fails leaves everything
    as it was; one that passes is followed by the removal it previewed, in full unless the disk refuses a file.
   */
  method CleanSlateBlocking(lib: Library, disk: Disk, job: SlateJob, config: WorkerConfig, reading: Reading)
    returns (r: Result<(RemovedEntry, Preview), CleanSlateError>)
    requires ValidRows(lib.items)
    modifies lib, disk
    ensures var w := old(WorldOf(lib, disk));
      !Passes(w, job, config, reading) ==>
        r == Err(GuardError(w, job, config, reading)) && WorldOf(lib, disk) == w
    ensures var w := old(WorldOf(lib, disk));
      Passes(w, job, config, reading) ==>
        var places := Places(config.library, job.paths[0], config.downloads.value);
        var q := Request(job.target, places, reading, job.allowFewer, config.preserve, config.perDisc);
        var entry := LoadEntry(w, job.target).value;
        var plan := PlanOf(w, entry, places);
        var removed := RemovedEntry(job.target, IdsOf(entry.items), plan.toDelete, plan.kept, plan.art);
        && r == (if NothingRefused(plan, disk.refused)
                 then Ok((removed, PreviewOf(w, q, entry, PreservedOf(entry, config.preserve))))
                 else Err(DiskRefused))
        && IsCutShort(w, WorldOf(lib, disk), RemovalSteps(job.target, entry, plan), disk.refused, r.Ok?)
    ensures r.Ok? ==>
      var w, w' := old(WorldOf(lib, disk)), WorldOf(lib, disk);
      var removed, preview := r.value.0, r.value.1;
      && w'.files == w.files - Elements(removed.deleted)
                     - (if removed.deletedArt.Some? then {removed.deletedArt.value} else {})
      && (forall path :: path in w.files && path !in w'.files ==>
            Inside(path, config.library) && !Inside(path, job.paths[0]))
      && (forall item :: item in w'.items <==> item in w.items && item.id !in removed.itemIds)
      && (!job.allowFewer ==> |removed.deleted| <= preview.sourceAudioFiles)
  {
    if config.downloads.None? {
      return Err(Invalid);
    }
    if |job.paths| != 1 {
      return Err(Invalid);
    }
    var q := RequestOf(job, config, reading);
    ghost var w := WorldOf(lib, disk);
    var preview := MakePreview(lib, disk, q);
    if preview.Err? {
      return Err(preview.error);
    }
    RequestPasses(w, job, config, reading);
    var guard := RequireOk(preview.value);
    if guard.Err? {
      return Err(guard.error);
    }
    CleanSlateIsSafe(w, q, PreservedOf(LoadEntry(w, q.target).value, q.preserve));
    var removed := RemoveEntry(lib, disk, q.target, q.places);
    if removed.Err? {
      return Err(removed.error);
    }
    IdsAre(LoadEntry(w, q.target).value.items);
    return Ok((removed.value, preview.value));
  }

  lemma IdsAre(items: seq<Item>)
    ensures forall id :: id in IdsOf(items) <==> exists i :: 0 <= i < |items| && items[i].id == id
  {
    forall id | exists i :: 0 <= i < |items| && items[i].id == id ensures id in IdsOf(items) {
      var i :| 0 <= i < |items| && items[i].id == id;
      assert IdsOf(items)[i] == id;
    }
  }
}
