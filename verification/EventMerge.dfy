/**
  The events page's fold of import push pairs (`merge_import_event_records` in `api/adapters/events_adapters.py`):
  a greedy matching of imported events with the `import_task_files` events pushed just before them.
 */
module EventMerge {
  import opened Wrappers

  datatype EventType = AlbumImported | TrackImported | ImportTaskFiles | AlbumRemoved | TrackRemoved

  /** A subject's beets id and recorded name; either can be missing. */
  datatype Summary = Summary(beetsId: Option<int>, name: Option<string>)

  datatype Event = Event(
    eventType: EventType,
    pushedAt: int,
    albums: seq<Summary>,
    tracks: seq<Summary>,
    sourcePaths: seq<string>,
    destinationPaths: seq<string>)

  datatype Label = Raw(eventType: EventType) | AlbumImport | SingletonImport

  datatype DisplayRecord = DisplayRecord(
    eventLabel: Label,
    pushedAt: int,
    albums: seq<Summary>,
    tracks: seq<Summary>,
    sourcePaths: seq<string>,
    destinationPaths: seq<string>)

  /** One minute, in microseconds. */
  const MAX_SKEW := 60_000_000

  predicate NewestFirst(events: seq<Event>) {
    forall i, k :: 0 <= i < k < |events| ==> events[k].pushedAt <= events[i].pushedAt
  }

  predicate WithinSkew(a: Event, b: Event) {
    -MAX_SKEW <= a.pushedAt - b.pushedAt <= MAX_SKEW
  }

  function Ids(summaries: seq<Summary>): set<int> {
    set i | 0 <= i < |summaries| && summaries[i].beetsId.Some? :: summaries[i].beetsId.value
  }

  /** Same task, by the ids an album import or a singleton import is paired on. */
  predicate SharesId(imported: Event, files: Event) {
    match imported.eventType
    case AlbumImported => exists id :: id in Ids(imported.albums) && id in Ids(files.albums)
    case TrackImported => exists id :: id in Ids(imported.tracks) && id in Ids(files.tracks)
    case _ => false
  }

  /** The records at `i` and `k` could be shown as one import. */
  predicate Joinable(events: seq<Event>, i: nat, k: nat)
    requires i < |events| && k < |events|
  {
    i < k && events[k].eventType.ImportTaskFiles? && SharesId(events[i], events[k]) && WithinSkew(events[i], events[k])
  }

  // The scan for a partner

  /** `k` is the nearest record after `i`, of all of them, that is unused and joins it. */
  predicate IsNearest(events: seq<Event>, i: nat, used: set<nat>, k: nat)
    requires i < |events|
  {
    && k < |events| && k !in used && Joinable(events, i, k)
    && forall m: nat :: m < k && m !in used ==> !Joinable(events, i, m)
  }

  predicate HasNone(events: seq<Event>, i: nat, used: set<nat>)
    requires i < |events|
  {
    forall m: nat :: m < |events| && m !in used ==> !Joinable(events, i, m)
  }

  /** The full scan's answer, with no regard to skew for stopping. */
  function FullScan(events: seq<Event>, i: nat, used: set<nat>, from: nat): (r: Option<nat>)
    requires i < |events| && from <= |events|
    decreases |events| - from
  {
    if from == |events| then None
    else if from !in used && Joinable(events, i, from) then Some(from)
    else FullScan(events, i, used, from + 1)
  }

  lemma {:induction false} FullScanIsNearest(events: seq<Event>, i: nat, used: set<nat>, from: nat)
    requires i < |events| && from <= |events|
    requires forall m: nat :: m < from && m !in used ==> !Joinable(events, i, m)
    ensures var r := FullScan(events, i, used, from);
      if r.Some? then IsNearest(events, i, used, r.value) else HasNone(events, i, used)
    decreases |events| - from
  {
    if from == |events| || (from !in used && Joinable(events, i, from)) {
    } else {
      FullScanIsNearest(events, i, used, from + 1);
    }
  }

  /** `_import_task_files_partner_index`, with its early exit. */
  method PartnerIndex(events: seq<Event>, i: nat, used: set<nat>) returns (r: Option<nat>)
    requires i < |events| && NewestFirst(events)
    ensures r == FullScan(events, i, used, 0)
  {
    var event := events[i];
    var pairingIds: set<int>;
    if event.eventType.AlbumImported? && Ids(event.albums) != {} {
      pairingIds := Ids(event.albums);
    } else if event.eventType.TrackImported? && Ids(event.tracks) != {} {
      pairingIds := Ids(event.tracks);
    } else {
      NothingJoins(events, i, used, 0);
      return None;
    }
    SkipTo(events, i, used, 0, i + 1);
    for k := i + 1 to |events|
      invariant FullScan(events, i, used, 0) == FullScan(events, i, used, k)
    {
      var candidate := events[k];
      if !WithinSkew(event, candidate) {
        SkewEndsScan(events, i, used, k);
        return None;
      }
      var candidateIds := if event.eventType.AlbumImported? then Ids(candidate.albums) else Ids(candidate.tracks);
      if k !in used && candidate.eventType.ImportTaskFiles? && !(pairingIds !! candidateIds) {
        Meet(pairingIds, candidateIds);
        return Some(k);
      }
    }
    return None;
  }

  lemma Meet(a: set<int>, b: set<int>)
    requires !(a !! b)
    ensures exists id :: id in a && id in b
  {
    if forall id :: id in a ==> id !in b {
      assert false;
    }
  }

  lemma {:induction false} NothingJoins(events: seq<Event>, i: nat, used: set<nat>, from: nat)
    requires i < |events| && from <= |events|
    requires forall k: nat :: from <= k < |events| ==> !Joinable(events, i, k)
    ensures FullScan(events, i, used, from).None?
    decreases |events| - from
  {
    if from == |events| {
    } else {
      NothingJoins(events, i, used, from + 1);
    }
  }

  lemma {:induction false} SkipTo(events: seq<Event>, i: nat, used: set<nat>, from: nat, to: nat)
    requires i < |events| && from <= to <= i + 1
    ensures FullScan(events, i, used, from) == FullScan(events, i, used, to)
    decreases i + 1 - from
  {
    if from == to {
    } else {
      SkipTo(events, i, used, from + 1, to);
    }
  }

  /** On a newest-first list, nothing past a record out of skew is within it. */
  lemma {:induction false} SkewEndsScan(events: seq<Event>, i: nat, used: set<nat>, k: nat)
    requires NewestFirst(events) && i < k < |events| && !WithinSkew(events[i], events[k])
    ensures FullScan(events, i, used, k).None?
  {
    forall m: nat | k <= m < |events| ensures !Joinable(events, i, m) {
      assert events[m].pushedAt <= events[k].pushedAt <= events[i].pushedAt;
    }
    NothingJoins(events, i, used, k);
  }

  // The fold

  /** The pairs made once the first `n` records have been visited: imported record to partner. */
  function Pairing(events: seq<Event>, n: nat): map<nat, nat>
    requires n <= |events|
  {
    if n == 0 then map[]
    else
      var m := Pairing(events, n - 1);
      if n - 1 in m.Values then m
      else
        var r := FullScan(events, n - 1, m.Values, 0);
        if r.Some? then m[n - 1 := r.value] else m
  }

  datatype Key = ById(id: int) | ByName(name: string) | NoKey

  function SubjectKey(summary: Summary): Key {
    if summary.beetsId.Some? then ById(summary.beetsId.value)
    else if summary.name.Some? then ByName(summary.name.value)
    else NoKey
  }

  function Keys(summaries: seq<Summary>): set<Key> {
    set i | 0 <= i < |summaries| :: SubjectKey(summaries[i])
  }

  function Without(summaries: seq<Summary>, keys: set<Key>): seq<Summary> {
    if summaries == [] then []
    else
      var last := summaries[|summaries| - 1];
      Without(summaries[..|summaries| - 1], keys) + if SubjectKey(last) in keys then [] else [last]
  }

  function OrderedUnion(first: seq<Summary>, second: seq<Summary>): seq<Summary> {
    first + Without(second, Keys(first))
  }

  function Shown(event: Event): DisplayRecord {
    DisplayRecord(Raw(event.eventType), event.pushedAt, event.albums, event.tracks, event.sourcePaths,
                  event.destinationPaths)
  }

  function Merged(event: Event, partner: Event): DisplayRecord {
    DisplayRecord(if event.eventType.AlbumImported? then AlbumImport else SingletonImport, event.pushedAt,
                  OrderedUnion(event.albums, partner.albums), OrderedUnion(event.tracks, partner.tracks),
                  partner.sourcePaths, partner.destinationPaths)
  }

  /** The row led by record `i`. */
  function RowAt(events: seq<Event>, m: map<nat, nat>, i: nat): DisplayRecord
    requires i < |events| && (i in m ==> m[i] < |events|)
  {
    if i in m then Merged(events[i], events[m[i]]) else Shown(events[i])
  }

  /** The records that lead a row, among the first `n`. */
  function Leads(events: seq<Event>, n: nat): seq<nat>
    requires n <= |events|
  {
    if n == 0 then []
    else if n - 1 in Pairing(events, n - 1).Values then Leads(events, n - 1)
    else Leads(events, n - 1) + [n - 1]
  }

  /** The partners already taken when record `i` is visited. */
  function TakenBefore(m: map<nat, nat>, i: nat): set<nat> {
    set h | h in m && h < i :: m[h]
  }

  /**
    `m` is the greedy pairing of the first `n` records: each visited record that is not itself a partner is paired
    with the nearest unused record that joins it, by full scan, or with none if there is none.
   */
  predicate IsGreedy(events: seq<Event>, n: nat, m: map<nat, nat>)
    requires n <= |events|
  {
    && (forall i :: i in m ==> i < n)
    && (forall i: nat :: i < n ==> IsGreedyAt(events, m, i))
  }

  predicate IsGreedyAt(events: seq<Event>, m: map<nat, nat>, i: nat)
    requires i < |events|
  {
    if i in TakenBefore(m, i) then i !in m
    else if i in m then IsNearest(events, i, TakenBefore(m, i), m[i])
    else HasNone(events, i, TakenBefore(m, i))
  }

  lemma ValuesAfter(m: map<nat, nat>, i: nat, k: nat)
    requires i !in m
    ensures m[i := k].Values == m.Values + {k}
  {
    var m' := m[i := k];
    assert k in m'.Values by { assert m'[i] == k; }
    forall v | v in m.Values ensures v in m'.Values {
      var h :| h in m && m[h] == v;
      assert m'[h] == v;
    }
  }

  lemma TakenIsValues(m: map<nat, nat>, n: nat)
    requires forall i :: i in m ==> i < n
    ensures TakenBefore(m, n) == m.Values
  {
  }

  lemma TakenIsStable(m: map<nat, nat>, i: nat, k: nat, h: nat)
    requires h <= i && i !in m
    ensures TakenBefore(m[i := k], h) == TakenBefore(m, h)
  {
    var m' := m[i := k];
    forall v | v in TakenBefore(m, h) ensures v in TakenBefore(m', h) {
      var g :| g in m && g < h && m[g] == v;
      assert g in m' && m'[g] == v;
    }
    forall v | v in TakenBefore(m', h) ensures v in TakenBefore(m, h) {
      var g :| g in m' && g < h && m'[g] == v;
      assert g in m && m[g] == v;
    }
  }

  lemma {:induction false} PairingIsGreedy(events: seq<Event>, n: nat)
    requires n <= |events|
    ensures IsGreedy(events, n, Pairing(events, n))
  {
    if n == 0 {
    } else {
      var i, m, m' := n - 1, Pairing(events, n - 1), Pairing(events, n);
      PairingIsGreedy(events, i);
      TakenIsValues(m, i);
      FullScanIsNearest(events, i, m.Values, 0);
      if m' == m {
        assert IsGreedyAt(events, m, i);
      } else {
        forall h: nat | h < n ensures IsGreedyAt(events, m', h) {
          TakenIsStable(m, i, m'[i], h);
          assert h < i ==> IsGreedyAt(events, m, h);
        }
      }
    }
  }

  /** There is only one greedy pairing, so the fold computes exactly it. */
  lemma {:induction false} GreedyIsUnique(events: seq<Event>, n: nat, a: map<nat, nat>, b: map<nat, nat>)
    requires n <= |events| && IsGreedy(events, n, a) && IsGreedy(events, n, b)
    ensures a == b
  {
    forall i: nat | i < n ensures (i in a <==> i in b) && (i in a ==> a[i] == b[i]) {
      GreedyAgrees(events, n, a, b, i);
    }
  }

  lemma {:induction false} GreedyAgrees(events: seq<Event>, n: nat, a: map<nat, nat>, b: map<nat, nat>, i: nat)
    requires n <= |events| && IsGreedy(events, n, a) && IsGreedy(events, n, b) && i < n
    ensures (i in a <==> i in b) && (i in a ==> a[i] == b[i])
    decreases i
  {
    forall h: nat | h < i ensures (h in a <==> h in b) && (h in a ==> a[h] == b[h]) {
      GreedyAgrees(events, n, a, b, h);
    }
    assert TakenBefore(a, i) == TakenBefore(b, i);
    assert IsGreedyAt(events, a, i) && IsGreedyAt(events, b, i);
  }

  /** The pairing is a matching of imported records with later-listed files records. */
  lemma {:induction false} PairingIsMatching(events: seq<Event>, n: nat)
    requires n <= |events|
    ensures var m := Pairing(events, n);
      && (forall i :: i in m ==> i < n && m[i] < |events| && Joinable(events, i, m[i]))
      && (forall i, k :: i in m && k in m && m[i] == m[k] ==> i == k)
      && m.Keys !! m.Values
  {
    var m := Pairing(events, n);
    PairingIsGreedy(events, n);
    forall i | i in m ensures m[i] < |events| && Joinable(events, i, m[i]) {
      assert IsGreedyAt(events, m, i);
    }
    forall i, k | i in m && k in m && i < k ensures m[i] != m[k] {
      assert IsGreedyAt(events, m, k) && m[i] in TakenBefore(m, k);
    }
    forall k | k in m ensures k !in m.Values {
      assert !events[k].eventType.ImportTaskFiles?;
    }
  }

  /** No two records left unpaired could have been joined. */
  lemma {:induction false} PairingIsMaximal(events: seq<Event>, i: nat, k: nat)
    requires i < |events| && k < |events| && Joinable(events, i, k)
    ensures var m := Pairing(events, |events|); i in m || i in m.Values || k in m.Values
  {
    var m := Pairing(events, |events|);
    PairingIsGreedy(events, |events|);
    assert IsGreedyAt(events, m, i);
    assert forall v :: v in TakenBefore(m, i) ==> v in m.Values;
  }

  /** The ids by which two records are of one task: both name an album, or a track, of the same beets id. */
  predicate NamesSame(a: seq<Summary>, b: seq<Summary>) {
    exists i, k ::
      0 <= i < |a| && 0 <= k < |b| && a[i].beetsId.Some? && a[i].beetsId == b[k].beetsId
  }

  lemma IdsMeet(a: seq<Summary>, b: seq<Summary>)
    ensures (exists id :: id in Ids(a) && id in Ids(b)) <==> NamesSame(a, b)
  {
    if id :| id in Ids(a) && id in Ids(b) {
      var i :| 0 <= i < |a| && a[i].beetsId == Some(id);
      var k :| 0 <= k < |b| && b[k].beetsId == Some(id);
    }
    if NamesSame(a, b) {
      var i, k :| 0 <= i < |a| && 0 <= k < |b| && a[i].beetsId.Some? && a[i].beetsId == b[k].beetsId;
      var id := a[i].beetsId.value;
      assert id in Ids(a) && b[k].beetsId == Some(id) && id in Ids(b);
    }
  }

  /** What makes two records one import: kind, order, a minute at most between them, and an album or track in common. */
  lemma JoinableMeans(events: seq<Event>, i: nat, k: nat)
    requires i < |events| && k < |events|
    ensures Joinable(events, i, k) <==>
      && i < k
      && events[k].eventType == ImportTaskFiles
      && events[k].pushedAt - 60_000_000 <= events[i].pushedAt <= events[k].pushedAt + 60_000_000
      && (|| (events[i].eventType == AlbumImported && NamesSame(events[i].albums, events[k].albums))
          || (events[i].eventType == TrackImported && NamesSame(events[i].tracks, events[k].tracks)))
  {
    IdsMeet(events[i].albums, events[k].albums);
    IdsMeet(events[i].tracks, events[k].tracks);
  }

  /** The rows made from the first `n` records. */
  function Rows(events: seq<Event>, n: nat): seq<DisplayRecord>
    requires n <= |events|
  {
    if n == 0 then []
    else if n - 1 in Pairing(events, n - 1).Values then Rows(events, n - 1)
    else
      PairingIsMatching(events, n);
      Rows(events, n - 1) + [RowAt(events, Pairing(events, n), n - 1)]
  }

  /** The rows for all records. */
  function DisplayRows(events: seq<Event>): seq<DisplayRecord> {
    Rows(events, |events|)
  }

  /** `merge_import_event_records`. */
  method MergeImportEventRecords(events: seq<Event>) returns (display: seq<DisplayRecord>)
    requires NewestFirst(events)
    ensures display == DisplayRows(events)
  {
    display := [];
    var used: set<nat> := {};
    for i := 0 to |events|
      invariant used == Pairing(events, i).Values
      invariant display == Rows(events, i)
    {
      if i in used {
        continue;
      }
      var partner := PartnerIndex(events, i, used);
      PairingIsMatching(events, i);
      PairingIsMatching(events, i + 1);
      if partner.None? {
        display := display + [Shown(events[i])];
      } else {
        ValuesAfter(Pairing(events, i), i, partner.value);
        used := used + {partner.value};
        display := display + [Merged(events[i], events[partner.value])];
      }
    }
  }

  // What the rows keep

  /** Later visits leave the pairs of the first `n` records as they are, and whether those are partners. */
  lemma {:induction false} PairingGrows(events: seq<Event>, n: nat, all: nat, i: nat)
    requires i < n <= all <= |events|
    ensures var a, b := Pairing(events, n), Pairing(events, all);
      && (i in a <==> i in b) && (i in a ==> a[i] == b[i]) && (i in a.Values <==> i in b.Values)
    decreases all
  {
    if n == all {
    } else {
      PairingGrows(events, n, all - 1, i);
      PairingIsMatching(events, all);
      PairingIsMatching(events, all - 1);
      var before, after := Pairing(events, all - 1), Pairing(events, all);
      if after != before {
        ValuesAfter(before, all - 1, after[all - 1]);
      }
    }
  }

  lemma {:induction false} LeadsIncrease(events: seq<Event>, n: nat)
    requires n <= |events|
    ensures var leads := Leads(events, n);
      && |Rows(events, n)| == |leads|
      && (forall r :: 0 <= r < |leads| ==> leads[r] < n)
      && (forall r, q :: 0 <= r < q < |leads| ==> leads[r] < leads[q])
  {
    if n == 0 {
    } else {
      LeadsIncrease(events, n - 1);
    }
  }

  /** Each row is led by its own record, in list order. */
  lemma {:induction false} RowsFollowLeads(events: seq<Event>, n: nat, r: nat)
    requires n <= |events| && r < |Leads(events, n)|
    ensures var m, lead := Pairing(events, |events|), Leads(events, n)[r];
      && r < |Rows(events, n)| && lead < n && (lead in m ==> m[lead] < |events|)
      && Rows(events, n)[r] == RowAt(events, m, lead)
    decreases n
  {
    PairingIsMatching(events, |events|);
    LeadsIncrease(events, n);
    LeadsIncrease(events, n - 1);
    if r < |Leads(events, n - 1)| {
      RowsFollowLeads(events, n - 1, r);
    } else {
      PairingIsMatching(events, n);
      PairingGrows(events, n, |events|, n - 1);
    }
  }

  /** A record's own visit does not make it a partner. */
  lemma {:induction false} OwnVisit(events: seq<Event>, i: nat)
    requires i < |events|
    ensures i in Pairing(events, i).Values <==> i in Pairing(events, |events|).Values
  {
    PairingGrows(events, i + 1, |events|, i);
    PairingIsMatching(events, i + 1);
    PairingIsMatching(events, i);
    var before, after := Pairing(events, i), Pairing(events, i + 1);
    if after != before {
      ValuesAfter(before, i, after[i]);
    }
  }

  lemma {:induction false} LeadsAreTheRest(events: seq<Event>, n: nat, i: nat)
    requires i < n <= |events|
    ensures i in Leads(events, n) <==> i !in Pairing(events, |events|).Values
  {
    OwnVisit(events, i);
    LeadsIncrease(events, i);
    if i < n - 1 {
      LeadsAreTheRest(events, n - 1, i);
    }
  }

  /** Every record is shown exactly once: it leads one row, or it is the partner in one row, and never both. */
  lemma {:induction false} EveryRecordIsShownOnce(events: seq<Event>, i: nat)
    requires i < |events|
    ensures var m, leads := Pairing(events, |events|), Leads(events, |events|);
      && (i in leads <==> i !in m.Values)
      && (forall r, q :: 0 <= r < |leads| && 0 <= q < |leads| && leads[r] == leads[q] ==> r == q)
      && (i in m.Values ==> exists lead :: lead in leads && lead in m && m[lead] == i)
      && (forall lead, other :: lead in m && other in m && m[lead] == m[other] ==> lead == other)
  {
    var m, leads := Pairing(events, |events|), Leads(events, |events|);
    LeadsAreTheRest(events, |events|, i);
    LeadsIncrease(events, |events|);
    PairingIsMatching(events, |events|);
    if i in m.Values {
      var lead :| lead in m && m[lead] == i;
      LeadsAreTheRest(events, |events|, lead);
      assert lead in leads && lead in m && m[lead] == i;
    }
  }

  /** The output is as newest-first as the input. */
  lemma {:induction false} RowsAreNewestFirst(events: seq<Event>, r: nat, q: nat)
    requires NewestFirst(events) && r < q < |DisplayRows(events)|
    ensures DisplayRows(events)[q].pushedAt <= DisplayRows(events)[r].pushedAt
  {
    LeadsIncrease(events, |events|);
    RowsFollowLeads(events, |events|, r);
    RowsFollowLeads(events, |events|, q);
  }

  lemma {:induction false} WithoutKeeps(summaries: seq<Summary>, keys: set<Key>)
    ensures Keys(Without(summaries, keys)) == Keys(summaries) - keys
  {
    if summaries == [] {
    } else {
      var init, last := summaries[..|summaries| - 1], summaries[|summaries| - 1];
      WithoutKeeps(init, keys);
      KeysOfConcat(Without(init, keys), if SubjectKey(last) in keys then [] else [last]);
      KeysOfConcat(init, [last]);
      assert init + [last] == summaries;
      assert Keys([last]) == {SubjectKey([last][0])};
    }
  }

  lemma KeysOfConcat(a: seq<Summary>, b: seq<Summary>)
    ensures Keys(a + b) == Keys(a) + Keys(b)
  {
    forall key | key in Keys(a) ensures key in Keys(a + b) {
      var i :| 0 <= i < |a| && SubjectKey(a[i]) == key;
      assert (a + b)[i] == a[i];
    }
    forall key | key in Keys(b) ensures key in Keys(a + b) {
      var i :| 0 <= i < |b| && SubjectKey(b[i]) == key;
      assert (a + b)[|a| + i] == b[i];
    }
  }

  /** Two summaries are of one subject if they share a beets id, or, both without one, their name. */
  lemma SameSubject(a: Summary, b: Summary)
    ensures SubjectKey(a) == SubjectKey(b) <==>
      if a.beetsId.Some? || b.beetsId.Some? then a.beetsId == b.beetsId else a.name == b.name
  {
  }

  /** `left` is what the first `n` summaries leave without the given subjects: those at `at`, in their order. */
  predicate IsLeft(left: seq<Summary>, summaries: seq<Summary>, n: nat, keys: set<Key>, at: seq<nat>)
    requires n <= |summaries|
  {
    && |left| == |at|
    && (forall i :: 0 <= i < |at| ==> at[i] < n && left[i] == summaries[at[i]])
    && (forall i, k :: 0 <= i < k < |at| ==> at[i] < at[k])
    && (forall k: nat :: k < n ==> (k in at <==> SubjectKey(summaries[k]) !in keys))
  }

  lemma {:induction false} WithoutIs(summaries: seq<Summary>, n: nat, keys: set<Key>) returns (at: seq<nat>)
    requires n <= |summaries|
    ensures IsLeft(Without(summaries[..n], keys), summaries, n, keys, at)
  {
    if n == 0 {
      at := [];
    } else {
      var before := WithoutIs(summaries, n - 1, keys);
      assert summaries[..n][..n - 1] == summaries[..n - 1];
      if SubjectKey(summaries[n - 1]) in keys {
        at := before;
      } else {
        at := before + [n - 1];
        assert forall k: nat :: k in at <==> k in before || k == n - 1;
      }
    }
  }

  /**
    `union` lists all of `first`, and then, at `at`, those of `second` that are of none of the subjects in `first`.
   */
  predicate IsUnion(union: seq<Summary>, first: seq<Summary>, second: seq<Summary>, at: seq<nat>) {
    && |union| == |first| + |at|
    && first == union[..|first|]
    && (forall i :: 0 <= i < |at| ==> at[i] < |second| && union[|first| + i] == second[at[i]])
    && (forall i, k :: 0 <= i < k < |at| ==> at[i] < at[k])
    && (forall k: nat :: k < |second| ==>
          (k in at <==> forall i :: 0 <= i < |first| ==> SubjectKey(first[i]) != SubjectKey(second[k])))
  }

  lemma OrderedUnionIs(first: seq<Summary>, second: seq<Summary>)
    ensures exists at: seq<nat> :: IsUnion(OrderedUnion(first, second), first, second, at)
  {
    var at := WithoutIs(second, |second|, Keys(first));
    assert second[..|second|] == second;
    assert IsUnion(OrderedUnion(first, second), first, second, at);
  }

  /** What every row shows, field by field, of the record that leads it and of that record's partner. */
  lemma {:induction false} RowsShowTheirRecords(events: seq<Event>, r: nat)
    requires r < |DisplayRows(events)|
    ensures var m, leads := Pairing(events, |events|), Leads(events, |events|);
      && r < |leads| && leads[r] < |events|
      && var row, lead := DisplayRows(events)[r], events[leads[r]];
         && row.pushedAt == lead.pushedAt
         && (leads[r] !in m ==>
               && row.eventLabel == Raw(lead.eventType)
               && row.albums == lead.albums
               && row.tracks == lead.tracks
               && row.sourcePaths == lead.sourcePaths
               && row.destinationPaths == lead.destinationPaths)
         && (leads[r] in m ==>
               && m[leads[r]] < |events|
               && var partner := events[m[leads[r]]];
                  && row.eventLabel == (if lead.eventType == AlbumImported then AlbumImport else SingletonImport)
                  && (lead.eventType == AlbumImported || lead.eventType == TrackImported)
                  && row.sourcePaths == partner.sourcePaths
                  && row.destinationPaths == partner.destinationPaths
                  && (exists at: seq<nat> :: IsUnion(row.albums, lead.albums, partner.albums, at))
                  && (exists at: seq<nat> :: IsUnion(row.tracks, lead.tracks, partner.tracks, at)))
  {
    LeadsIncrease(events, |events|);
    RowsFollowLeads(events, |events|, r);
    PairingIsMatching(events, |events|);
    var m, lead := Pairing(events, |events|), Leads(events, |events|)[r];
    if lead in m {
      OrderedUnionIs(events[lead].albums, events[m[lead]].albums);
      OrderedUnionIs(events[lead].tracks, events[m[lead]].tracks);
    }
  }

  /** A merged row names every subject either record names, the imported record's own entries first. */
  lemma MergedRowKeepsSubjects(event: Event, partner: Event)
    ensures Keys(Merged(event, partner).albums) == Keys(event.albums) + Keys(partner.albums)
    ensures Keys(Merged(event, partner).tracks) == Keys(event.tracks) + Keys(partner.tracks)
    ensures event.albums <= Merged(event, partner).albums && event.tracks <= Merged(event, partner).tracks
  {
    WithoutKeeps(partner.albums, Keys(event.albums));
    WithoutKeeps(partner.tracks, Keys(event.tracks));
    KeysOfConcat(event.albums, Without(partner.albums, Keys(event.albums)));
    KeysOfConcat(event.tracks, Without(partner.tracks, Keys(event.tracks)));
  }

  /** A row fewer for each pair. */
  lemma {:induction false} RowCount(events: seq<Event>)
    ensures |DisplayRows(events)| == |events| - |Pairing(events, |events|)|
  {
    var m := Pairing(events, |events|);
    LeadsIncrease(events, |events|);
    PairingIsMatching(events, |events|);
    CountLeads(events, |events|);
    assert Partners(m.Values, |events|) == m.Values;
    InjectiveSize(m);
  }

  /** The partners among the first `n` records. */
  function Partners(values: set<nat>, n: nat): set<nat> {
    set k | k in values && k < n
  }

  lemma PartnersNext(values: set<nat>, n: nat)
    ensures Partners(values, n + 1) == if n in values then Partners(values, n) + {n} else Partners(values, n)
    ensures |Partners(values, n + 1)| == |Partners(values, n)| + if n in values then 1 else 0
  {
    assert Partners(values, n + 1) == if n in values then Partners(values, n) + {n} else Partners(values, n);
  }

  lemma {:induction false} CountLeads(events: seq<Event>, n: nat)
    requires n <= |events|
    ensures |Leads(events, n)| + |Partners(Pairing(events, |events|).Values, n)| == n
  {
    var values := Pairing(events, |events|).Values;
    if n == 0 {
      assert Partners(values, 0) == {};
    } else {
      CountLeads(events, n - 1);
      OwnVisit(events, n - 1);
      PartnersNext(values, n - 1);
    }
  }

  lemma {:induction false} InjectiveSize(m: map<nat, nat>)
    requires forall i, k :: i in m && k in m && m[i] == m[k] ==> i == k
    ensures |m.Values| == |m|
    decreases |m|
  {
    if i :| i in m {
      var rest := m - {i};
      InjectiveSize(rest);
      assert m == rest[i := m[i]];
      ValuesAfter(rest, i, m[i]);
      assert m[i] !in rest.Values;
    } else {
      assert m == map[];
    }
  }

  // Paths

  /** The paths an import read from, or those it wrote. */
  datatype Side = Sources | Destinations

  function PathsOf(event: Event, side: Side): multiset<string> {
    multiset(if side.Sources? then event.sourcePaths else event.destinationPaths)
  }

  function ShownPaths(display: seq<DisplayRecord>, side: Side): multiset<string> {
    if display == [] then multiset{}
    else
      var last := display[|display| - 1];
      ShownPaths(display[..|display| - 1], side)
      + multiset(if side.Sources? then last.sourcePaths else last.destinationPaths)
  }

  /** The paths of the first `n` records. */
  function AllPaths(events: seq<Event>, side: Side, n: nat): multiset<string>
    requires n <= |events|
  {
    if n == 0 then multiset{} else AllPaths(events, side, n - 1) + PathsOf(events[n - 1], side)
  }

  /** How often `path` occurs in those of the first `n` records whose index is in `which`. */
  function Occurrences(events: seq<Event>, which: set<nat>, side: Side, path: string, n: nat): nat
    requires n <= |events|
  {
    if n == 0 then 0
    else Occurrences(events, which, side, path, n - 1)
         + if n - 1 in which then PathsOf(events[n - 1], side)[path] else 0
  }

  lemma {:induction false} OccurrencesAdd(events: seq<Event>, which: set<nat>, k: nat, side: Side, path: string, n: nat)
    requires n <= |events| && k !in which
    ensures Occurrences(events, which + {k}, side, path, n) ==
            Occurrences(events, which, side, path, n) + if k < n then PathsOf(events[k], side)[path] else 0
  {
    if n == 0 {
    } else {
      OccurrencesAdd(events, which, k, side, path, n - 1);
    }
  }

  lemma {:induction false} OccurrencesAll(events: seq<Event>, which: set<nat>, side: Side, path: string, n: nat)
    requires n <= |events| && forall i: nat :: i < n ==> i in which
    ensures Occurrences(events, which, side, path, n) == AllPaths(events, side, n)[path]
  {
    if n == 0 {
    } else {
      OccurrencesAll(events, which, side, path, n - 1);
    }
  }

  lemma {:induction false} OccurrencesNone(events: seq<Event>, which: set<nat>, side: Side, path: string, n: nat)
    requires n <= |events|
    ensures Occurrences(events, which, side, path, n) == 0 <==>
            forall i :: i in which && i < n ==> PathsOf(events[i], side)[path] == 0
  {
    if n == 0 {
    } else {
      OccurrencesNone(events, which, side, path, n - 1);
    }
  }

  function Below(n: nat): (below: set<nat>)
    ensures forall i: nat :: i in below <==> i < n
  {
    if n == 0 then {} else Below(n - 1) + {n - 1}
  }

  /** The records whose paths are settled once the first `n` have been visited. */
  function Settled(events: seq<Event>, n: nat): set<nat>
    requires n <= |events|
  {
    Below(n) + Pairing(events, n).Values
  }

  /** A visit adds its row's paths. */
  lemma ShownPathsStep(events: seq<Event>, side: Side, i: nat)
    requires i < |events| && i !in Pairing(events, i).Values
    ensures var m := Pairing(events, i + 1);
      && (i in m ==> m[i] < |events|)
      && ShownPaths(Rows(events, i + 1), side) ==
         ShownPaths(Rows(events, i), side) + PathsOf(events[if i in m then m[i] else i], side)
  {
    PairingIsMatching(events, i + 1);
    assert Rows(events, i + 1)[..|Rows(events, i + 1)| - 1] == Rows(events, i);
  }

  /** The rows made so far show the paths of the records settled so far, except the paired imported records' own. */
  predicate Balanced(events: seq<Event>, side: Side, path: string, n: nat)
    requires n <= |events|
  {
    ShownPaths(Rows(events, n), side)[path] + Occurrences(events, Pairing(events, n).Keys, side, path, |events|)
    == Occurrences(events, Settled(events, n), side, path, |events|)
  }

  lemma AloneKeepsBalance(events: seq<Event>, side: Side, path: string, i: nat)
    requires i < |events| && Balanced(events, side, path, i)
    requires i !in Pairing(events, i).Values && Pairing(events, i + 1) == Pairing(events, i)
    ensures Balanced(events, side, path, i + 1)
  {
    PairingIsMatching(events, i);
    ShownPathsStep(events, side, i);
    assert Settled(events, i + 1) == Settled(events, i) + {i};
    OccurrencesAdd(events, Settled(events, i), i, side, path, |events|);
  }

  lemma PairKeepsBalance(events: seq<Event>, side: Side, path: string, i: nat, k: nat)
    requires i < k < |events| && Balanced(events, side, path, i)
    requires i !in Pairing(events, i) && i !in Pairing(events, i).Values && k !in Pairing(events, i).Values
    requires Pairing(events, i + 1) == Pairing(events, i)[i := k]
    ensures Balanced(events, side, path, i + 1)
  {
    var m, m', done := Pairing(events, i), Pairing(events, i + 1), Settled(events, i);
    ShownPathsStep(events, side, i);
    ValuesAfter(m, i, k);
    assert m'.Keys == m.Keys + {i};
    OccurrencesAdd(events, m.Keys, i, side, path, |events|);
    assert Settled(events, i + 1) == done + {i} + {k};
    OccurrencesAdd(events, done, i, side, path, |events|);
    OccurrencesAdd(events, done + {i}, k, side, path, |events|);
  }

  lemma VisitKeepsBalance(events: seq<Event>, side: Side, path: string, i: nat)
    requires i < |events| && Balanced(events, side, path, i)
    ensures Balanced(events, side, path, i + 1)
  {
    var m, m' := Pairing(events, i), Pairing(events, i + 1);
    PairingIsMatching(events, i);
    if i in m.Values {
      assert Settled(events, i + 1) == Settled(events, i);
    } else if m' == m {
      AloneKeepsBalance(events, side, path, i);
    } else {
      FullScanIsNearest(events, i, m.Values, 0);
      PairKeepsBalance(events, side, path, i, m'[i]);
    }
  }

  lemma BalancedAtStart(events: seq<Event>, side: Side, path: string)
    ensures Balanced(events, side, path, 0)
  {
    var nothing: set<nat> := {};
    OccurrencesNone(events, nothing, side, path, |events|);
    assert Pairing(events, 0).Keys == nothing;
    assert Settled(events, 0) == nothing;
  }

  lemma PathsBalance(events: seq<Event>, side: Side, path: string, n: nat)
    requires n <= |events|
    ensures Balanced(events, side, path, n)
  {
    BalancedAtStart(events, side, path);
    for i := 0 to n
      invariant Balanced(events, side, path, i)
    {
      VisitKeepsBalance(events, side, path, i);
    }
  }

  /** Each path is shown as often as it is recorded, less its occurrences in paired imported records. */
  lemma {:induction false} ShownOften(events: seq<Event>, side: Side, path: string)
    ensures ShownPaths(DisplayRows(events), side)[path]
            + Occurrences(events, Pairing(events, |events|).Keys, side, path, |events|)
         == AllPaths(events, side, |events|)[path]
  {
    PathsBalance(events, side, path, |events|);
    OccurrencesAll(events, Settled(events, |events|), side, path, |events|);
  }

  /**
    The rows show exactly the paths of all records just when no paired imported record has paths of its own, as when
    only `import_task_files` records carry paths.
   */
  lemma {:induction false} PathsAreConserved(events: seq<Event>, side: Side)
    ensures ShownPaths(DisplayRows(events), side) == AllPaths(events, side, |events|) <==>
            forall i :: i in Pairing(events, |events|) ==> i < |events| && PathsOf(events[i], side) == multiset{}
  {
    var m := Pairing(events, |events|);
    var shown, all := ShownPaths(DisplayRows(events), side), AllPaths(events, side, |events|);
    PairingIsMatching(events, |events|);
    forall path ensures shown[path] == all[path] <==>
      forall i :: i in m ==> PathsOf(events[i], side)[path] == 0
    {
      ShownOften(events, side, path);
      OccurrencesNone(events, m.Keys, side, path, |events|);
    }
    if shown == all {
      forall i | i in m ensures PathsOf(events[i], side) == multiset{} {
        assert forall path :: shown[path] == all[path] ==> PathsOf(events[i], side)[path] == 0;
      }
    }
  }

  // The album summaries of an import_task_files event

  /** `_append_album_summary`: a track row's release, unless it is there already. */
  function AppendAlbumSummary(summaries: seq<Summary>, albumId: Option<int>, albumName: Option<string>): seq<Summary> {
    if albumId.None? && albumName.None? then summaries
    else if albumId.Some? && albumId.value in Ids(summaries) then summaries
    else
      var summary := Summary(albumId, albumName);
      if summary in summaries then summaries else summaries + [summary]
  }

  datatype TrackRow = TrackRow(albumId: Option<int>, albumName: Option<string>)

  /** The releases a sequence of track rows names. */
  function ReleaseKeys(rows: seq<TrackRow>): set<Key> {
    if rows == [] then {}
    else
      var last := rows[|rows| - 1];
      ReleaseKeys(rows[..|rows| - 1]) + ({SubjectKey(Summary(last.albumId, last.albumName))} - {NoKey})
  }

  lemma AppendAddsKey(summaries: seq<Summary>, albumId: Option<int>, albumName: Option<string>)
    ensures Keys(AppendAlbumSummary(summaries, albumId, albumName)) ==
            Keys(summaries) + ({SubjectKey(Summary(albumId, albumName))} - {NoKey})
    ensures AppendAlbumSummary(summaries, albumId, albumName) != summaries ==>
      SubjectKey(Summary(albumId, albumName)) !in Keys(summaries)
  {
    var summary := Summary(albumId, albumName);
    KeysOfConcat(summaries, [summary]);
    assert SubjectKey([summary][0]) in Keys([summary]);
    assert Keys([summary]) == {SubjectKey(summary)};
  }

  function ReleaseOf(row: TrackRow): Summary {
    Summary(row.albumId, row.albumName)
  }

  /** The summaries are the releases of the rows at `at`, in row order, each the first row of its release. */
  predicate AreFirsts(summaries: seq<Summary>, rows: seq<TrackRow>, n: nat, at: seq<nat>)
    requires n <= |rows|
  {
    && |summaries| == |at|
    && (forall j :: 0 <= j < |at| ==>
          at[j] < n && summaries[j].beetsId == rows[at[j]].albumId && summaries[j].name == rows[at[j]].albumName)
    && (forall j, k :: 0 <= j < k < |at| ==> at[j] < at[k])
    && (forall j, i :: 0 <= j < |at| && 0 <= i < at[j] ==>
          SubjectKey(ReleaseOf(rows[i])) != SubjectKey(ReleaseOf(rows[at[j]])))
  }

  lemma {:induction false} KeysSeen(rows: seq<TrackRow>, n: nat, i: nat)
    requires i < n <= |rows| && (rows[i].albumId.Some? || rows[i].albumName.Some?)
    ensures SubjectKey(ReleaseOf(rows[i])) in ReleaseKeys(rows[..n])
  {
    assert rows[..n][..n - 1] == rows[..n - 1];
    if i < n - 1 {
      KeysSeen(rows, n - 1, i);
    }
  }

  /** The releases of an event's track rows, each once: by album id, and by bare name for rows without one. */
  method AlbumSummaries(rows: seq<TrackRow>) returns (summaries: seq<Summary>)
    ensures forall i, k :: 0 <= i < k < |summaries| ==> SubjectKey(summaries[i]) != SubjectKey(summaries[k])
    ensures Keys(summaries) == ReleaseKeys(rows)
    ensures exists at: seq<nat> :: AreFirsts(summaries, rows, |rows|, at)
  {
    summaries := [];
    ghost var at: seq<nat> := [];
    for n := 0 to |rows|
      invariant forall i, k :: 0 <= i < k < |summaries| ==> SubjectKey(summaries[i]) != SubjectKey(summaries[k])
      invariant Keys(summaries) == ReleaseKeys(rows[..n])
      invariant AreFirsts(summaries, rows, n, at)
    {
      assert rows[..n + 1][..n] == rows[..n];
      ghost var before := summaries;
      AppendAddsKey(summaries, rows[n].albumId, rows[n].albumName);
      summaries := AppendAlbumSummary(summaries, rows[n].albumId, rows[n].albumName);
      if summaries != before {
        FirstOfRelease(before, rows, n, at);
        at := at + [n];
      }
    }
    assert rows[..|rows|] == rows;
  }

  lemma FirstOfRelease(summaries: seq<Summary>, rows: seq<TrackRow>, n: nat, at: seq<nat>)
    requires n < |rows| && AreFirsts(summaries, rows, n, at) && Keys(summaries) == ReleaseKeys(rows[..n])
    requires AppendAlbumSummary(summaries, rows[n].albumId, rows[n].albumName) != summaries
    ensures AreFirsts(AppendAlbumSummary(summaries, rows[n].albumId, rows[n].albumName), rows, n + 1, at + [n])
  {
    AppendAddsKey(summaries, rows[n].albumId, rows[n].albumName);
    forall i | 0 <= i < n ensures SubjectKey(ReleaseOf(rows[i])) != SubjectKey(ReleaseOf(rows[n])) {
      if rows[i].albumId.Some? || rows[i].albumName.Some? {
        KeysSeen(rows, n, i);
      }
    }
  }
}
