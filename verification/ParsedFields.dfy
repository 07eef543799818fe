/**
  What the parser of the set-fields textarea makes of any text: which texts it refuses and for which line, and which
  fields it reads from the others, told from the lines of the text alone.
 */
module ParsedFields {
  import opened Wrappers
  import opened Text
  import opened SetFields

  /** The first `=` of the text is at `n`. */
  predicate SplitsAt(text: string, n: nat) {
    n < |text| && text[n] == '=' && forall i :: 0 <= i < n ==> text[i] != '='
  }

  /** The line gives a field a value: what is before its first `=`, and what is after, both stripped. */
  ghost predicate Says(line: string, e: Entry) {
    e.key != "" && exists n: nat ::
      SplitsAt(Strip(line), n) && e.key == Strip(Strip(line)[..n]) && e.value == Strip(Strip(line)[n + 1..])
  }

  /** The line is not blank and has no `=`, or nothing but blanks before its first. */
  ghost predicate IsRefused(line: string) {
    Strip(line) != "" && forall n: nat :: SplitsAt(Strip(line), n) ==> Strip(Strip(line)[..n]) == ""
  }

  /** The line is blank, or gives the field that `said` says. */
  ghost predicate Reads(line: string, said: Option<Entry>) {
    if said.Some? then Says(line, said.value) else Strip(line) == ""
  }

  lemma {:induction false} SplitsAtFirst(text: string, n: nat)
    ensures SplitsAt(text, n) <==> n < |text| && n == Find(text, '=')
  {
  }

  /** What a line that is not blank comes to. */
  lemma LineMeans(line: string)
    requires Strip(line) != ""
    ensures ParseLine(Strip(line)).Err? <==> IsRefused(line)
    ensures IsRefused(line) ==> ParseLine(Strip(line)).error == Strip(line)
    ensures !IsRefused(line) ==> Says(line, ParseLine(Strip(line)).value)
  {
    var text := Strip(line);
    forall n: nat ensures SplitsAt(text, n) <==> n < |text| && n == Find(text, '=') {
      SplitsAtFirst(text, n);
    }
    assert Find(text, '=') < |text| ==> SplitsAt(text, Find(text, '='));
  }

  /** A line says one thing at most, and then it is neither blank nor refused. */
  lemma SaysOneThing(line: string, e: Entry)
    requires Says(line, e)
    ensures !IsRefused(line) && Strip(line) != "" && ParseLine(Strip(line)) == Ok(e)
  {
    var text := Strip(line);
    var n: nat :| SplitsAt(text, n) && e.key == Strip(text[..n]) && e.value == Strip(text[n + 1..]);
    SplitsAtFirst(text, n);
  }

  predicate Names(said: Option<Entry>, key: string) {
    said.Some? && said.value.key == key
  }

  /** Of what was said, `said[i]` was the last to name its field. */
  predicate IsLast(said: seq<Option<Entry>>, i: nat, e: Entry) {
    i < |said| && said[i] == Some(e) && forall k :: i < k < |said| ==> !Names(said[k], e.key)
  }

  /** Something was said of `key` before anything was of `other`. */
  predicate NamedBefore(said: seq<Option<Entry>>, key: string, other: string) {
    exists i :: 0 <= i < |said| && Names(said[i], key) && forall k :: 0 <= k <= i ==> !Names(said[k], other)
  }

  /** The fields are what was last said of each, in the order in which they were first named. */
  ghost predicate AreFields(d: seq<Entry>, said: seq<Option<Entry>>) {
    && IsDict(d)
    && (forall e :: e in d <==> exists i: nat :: IsLast(said, i, e))
    && (forall p, q :: 0 <= p < q < |d| ==> NamedBefore(said, d[p].key, d[q].key))
  }

  lemma BlankKeepsFields(d: seq<Entry>, said: seq<Option<Entry>>)
    requires AreFields(d, said)
    ensures AreFields(d, said + [None])
  {
    var more := said + [None];
    forall e, i: nat ensures IsLast(said, i, e) <==> IsLast(more, i, e) {
      assert i < |said| ==> more[i] == said[i];
      assert forall k :: i < k < |said| ==> more[k] == said[k];
    }
    OrderStays(d, said, None);
  }

  lemma OrderStays(d: seq<Entry>, said: seq<Option<Entry>>, next: Option<Entry>)
    requires forall p, q :: 0 <= p < q < |d| ==> NamedBefore(said, d[p].key, d[q].key)
    ensures forall p, q :: 0 <= p < q < |d| ==> NamedBefore(said + [next], d[p].key, d[q].key)
  {
    forall p, q | 0 <= p < q < |d| ensures NamedBefore(said + [next], d[p].key, d[q].key) {
      var i :| 0 <= i < |said| && Names(said[i], d[p].key) && forall k :: 0 <= k <= i ==> !Names(said[k], d[q].key);
      assert (said + [next])[i] == said[i];
    }
  }

  lemma {:induction false} PutHolds(d: seq<Entry>, put: Entry, e: Entry)
    requires IsDict(d)
    ensures e in Put(d, put.key, put.value) <==> e == put || (e in d && e.key != put.key)
  {
    PutIsDictUpdate(d, put.key, put.value);
    PutKeepsDict(d, put.key, put.value);
    var r := Put(d, put.key, put.value);
    if i :| 0 <= i < |d| && d[i].key == put.key {
      assert r[i] == put;
    } else {
      PutAppends(d, put.key, put.value);
    }
    if i :| 0 <= i < |d| && d[i] == e && e.key != put.key {
      assert r[i] == e;
    }
    if i :| 0 <= i < |r| && r[i] == e && e.key != put.key {
      assert i < |d| && d[i] == e;
    }
  }

  lemma LastOfMore(said: seq<Option<Entry>>, next: Entry, i: nat, e: Entry)
    ensures IsLast(said + [Some(next)], i, e) <==>
      (i == |said| && e == next) || (IsLast(said, i, e) && e.key != next.key)
  {
    var more := said + [Some(next)];
    assert i < |said| ==> more[i] == said[i];
    assert forall k :: i < k < |said| ==> more[k] == said[k];
    assert more[|said|] == Some(next);
  }

  lemma {:induction false} FieldKeepsFields(d: seq<Entry>, said: seq<Option<Entry>>, next: Entry)
    requires AreFields(d, said)
    ensures AreFields(Put(d, next.key, next.value), said + [Some(next)])
  {
    var r, more := Put(d, next.key, next.value), said + [Some(next)];
    PutKeepsDict(d, next.key, next.value);
    forall e ensures e in r <==> exists i: nat :: IsLast(more, i, e) {
      PutHolds(d, next, e);
      forall i: nat
        ensures IsLast(more, i, e) <==> (i == |said| && e == next) || (IsLast(said, i, e) && e.key != next.key)
      {
        LastOfMore(said, next, i, e);
      }
      assert e == next ==> IsLast(more, |said|, e);
    }
    OrderStays(d, said, Some(next));
    PutKeepsOrder(d, said, next);
  }

  lemma {:induction false} PutKeepsOrder(d: seq<Entry>, said: seq<Option<Entry>>, next: Entry)
    requires AreFields(d, said)
    requires forall p, q :: 0 <= p < q < |d| ==> NamedBefore(said + [Some(next)], d[p].key, d[q].key)
    ensures var r := Put(d, next.key, next.value);
      forall p, q :: 0 <= p < q < |r| ==> NamedBefore(said + [Some(next)], r[p].key, r[q].key)
  {
    var r := Put(d, next.key, next.value);
    PutIsDictUpdate(d, next.key, next.value);
    forall p, q | 0 <= p < q < |r| ensures NamedBefore(said + [Some(next)], r[p].key, r[q].key) {
      if q < |d| {
        assert r[p].key == d[p].key && r[q].key == d[q].key;
      } else {
        assert r[p].key == d[p].key && r[q].key == next.key;
        NewKeyIsLast(d, said, p, next);
      }
    }
  }

  lemma NewKeyIsLast(d: seq<Entry>, said: seq<Option<Entry>>, p: nat, next: Entry)
    requires AreFields(d, said) && p < |d| && forall i :: 0 <= i < |d| ==> d[i].key != next.key
    ensures NamedBefore(said + [Some(next)], d[p].key, next.key)
  {
    assert d[p] in d;
    var i: nat :| IsLast(said, i, d[p]);
    forall k | 0 <= k < |said| ensures !Names(said[k], next.key) {
      if Names(said[k], next.key) {
        NamedIsThere(d, said, k, next.key);
      }
    }
    var more := said + [Some(next)];
    assert more[i] == said[i] && forall k :: 0 <= k <= i ==> more[k] == said[k];
  }

  lemma NamedIsThere(d: seq<Entry>, said: seq<Option<Entry>>, k: nat, key: string)
    requires AreFields(d, said) && k < |said| && Names(said[k], key)
    ensures exists i :: 0 <= i < |d| && d[i].key == key
  {
    var last := LastNamed(said, k, key);
    assert said[last].value in d;
  }

  lemma {:induction false} LastNamed(said: seq<Option<Entry>>, k: nat, key: string) returns (last: nat)
    requires k < |said| && Names(said[k], key)
    ensures last < |said| && Names(said[last], key) && IsLast(said, last, said[last].value)
    decreases |said| - k
  {
    if i :| k < i < |said| && Names(said[i], key) {
      last := LastNamed(said, i, key);
    } else {
      last := k;
    }
  }

  /** The first line that is refused. */
  ghost predicate FirstRefused(lines: seq<string>, i: nat) {
    i < |lines| && IsRefused(lines[i]) && forall k :: 0 <= k < i ==> !IsRefused(lines[k])
  }

  /** What the lines say, in so many fields. */
  ghost predicate AllRead(lines: seq<string>, said: seq<Option<Entry>>) {
    |said| == |lines| && forall i :: 0 <= i < |lines| ==> Reads(lines[i], said[i])
  }

  lemma ReadIsNotRefused(lines: seq<string>, said: seq<Option<Entry>>)
    requires AllRead(lines, said)
    ensures forall i :: 0 <= i < |lines| ==> !IsRefused(lines[i])
  {
    forall i | 0 <= i < |lines| ensures !IsRefused(lines[i]) {
      assert Reads(lines[i], said[i]);
      if said[i].Some? {
        SaysOneThing(lines[i], said[i].value);
      }
    }
  }

  lemma {:induction false} LinesMean(lines: seq<string>, n: nat, d: seq<Entry>, said: seq<Option<Entry>>)
    requires n <= |lines| && AllRead(lines[..n], said) && AreFields(d, said)
    ensures match ParseLines(lines[n..], d)
      case Err(error) => exists i: nat :: FirstRefused(lines, i) && error == Strip(lines[i])
      case Ok(fields) => exists all :: AllRead(lines, all) && AreFields(fields, all)
    decreases |lines| - n
  {
    if n == |lines| {
      assert lines[..n] == lines;
    } else {
      assert lines[n..][1..] == lines[n + 1..];
      assert lines[..n + 1] == lines[..n] + [lines[n]];
      if Strip(lines[n]) == "" {
        BlankKeepsFields(d, said);
        LinesMean(lines, n + 1, d, said + [None]);
      } else {
        LineMeans(lines[n]);
        if IsRefused(lines[n]) {
          ReadIsNotRefused(lines[..n], said);
          assert forall k :: 0 <= k < n ==> lines[..n][k] == lines[k];
          assert FirstRefused(lines, n);
        } else {
          var e := ParseLine(Strip(lines[n])).value;
          FieldKeepsFields(d, said, e);
          LinesMean(lines, n + 1, Put(d, e.key, e.value), said + [Some(e)]);
        }
      }
    }
  }

  /**
    A text is refused exactly if one of its lines is, with the first such line as the error. Otherwise every line is
    blank or says one thing, and the fields are what was last said of each, in the order of first naming.
   */
  lemma {:induction false} ParseMeans(raw: string)
    ensures Parse(raw).Err? <==> exists i :: 0 <= i < |SplitLines(raw)| && IsRefused(SplitLines(raw)[i])
    ensures Parse(raw).Err? ==>
      exists i: nat :: FirstRefused(SplitLines(raw), i) && Parse(raw).error == Strip(SplitLines(raw)[i])
    ensures Parse(raw).Ok? ==>
      exists said :: AllRead(SplitLines(raw), said) && AreFields(Parse(raw).value, said)
  {
    var lines := SplitLines(raw);
    LinesMean(lines, 0, [], []);
    assert lines[0..] == lines;
    if Parse(raw).Ok? {
      var said :| AllRead(lines, said) && AreFields(Parse(raw).value, said);
      ReadIsNotRefused(lines, said);
    }
  }

  /** The printer writes `key=value` for one field, and a newline between any two stretches of fields. */
  lemma {:induction false} PrintShows(a: seq<Entry>, b: seq<Entry>)
    requires a != [] && b != []
    ensures Print([]) == "" && forall e :: Print([e]) == e.key + "=" + e.value
    ensures Print(a + b) == Print(a) + "\n" + Print(b)
  {
    if |a| == 1 {
      assert Lines(a + b)[1..] == Lines(b);
    } else {
      PrintShows(a[1..], b);
      assert a[1..] + b == (a + b)[1..];
      assert Lines(a + b)[1..] == Lines(a[1..] + b) && Lines(a)[1..] == Lines(a[1..]);
    }
  }
}
