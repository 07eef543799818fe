/**
  The set-fields textarea of the import form: the printer in `api/ui_routes/pages_ui_router.py` and the parser in
  `api/ui_routes/import_ui_fragments_router.py`. Python dicts keep insertion order, so a dict is a sequence of
  entries with distinct keys.
 */
module SetFields {
  import opened Wrappers
  import opened Text

  datatype Entry = Entry(key: string, value: string)

  predicate IsDict(d: seq<Entry>) {
    forall i, k :: 0 <= i < k < |d| ==> d[i].key != d[k].key
  }

  /** `d[key] = value`: in place for a known key, at the end for a new one. */
  function Put(d: seq<Entry>, key: string, value: string): seq<Entry> {
    if d == [] then [Entry(key, value)]
    else if d[0].key == key then [Entry(key, value)] + d[1..]
    else [d[0]] + Put(d[1..], key, value)
  }

  function Line(e: Entry): string {
    e.key + "=" + e.value
  }

  function Lines(d: seq<Entry>): (lines: seq<string>)
    ensures |lines| == |d| && forall i :: 0 <= i < |d| ==> lines[i] == Line(d[i])
  {
    seq(|d|, i requires 0 <= i < |d| => Line(d[i]))
  }

  /** The printer: one `key=value` per line. */
  function Print(d: seq<Entry>): string {
    Join(Lines(d))
  }

  /** What one non-blank line adds, or the line itself if it is not of the form `field=value`. */
  function ParseLine(text: string): Result<Entry, string> {
    var n := Find(text, '=');
    if n == |text| || Strip(text[..n]) == "" then Err(text)
    else Ok(Entry(Strip(text[..n]), Strip(text[n + 1..])))
  }

  function ParseLines(lines: seq<string>, d: seq<Entry>): Result<seq<Entry>, string> {
    if lines == [] then Ok(d)
    else
      var text := Strip(lines[0]);
      if text == "" then ParseLines(lines[1..], d)
      else
        var entry := ParseLine(text);
        if entry.Err? then Err(entry.error) else ParseLines(lines[1..], Put(d, entry.value.key, entry.value.value))
  }

  function Parse(raw: string): Result<seq<Entry>, string> {
    ParseLines(SplitLines(raw), [])
  }

  /** `_parse_set_fields`. */
  method ParseSetFields(raw: string) returns (r: Result<seq<Entry>, string>)
    ensures r == Parse(raw)
  {
    var fields: seq<Entry> := [];
    var lines := SplitLines(raw);
    for i := 0 to |lines|
      invariant ParseLines(lines[i..], fields) == Parse(raw)
    {
      var text := Strip(lines[i]);
      assert lines[i..][1..] == lines[i + 1..];
      if text == "" {
        continue;
      }
      var entry := ParseLine(text);
      if entry.Err? {
        return Err(entry.error);
      }
      fields := Put(fields, entry.value.key, entry.value.value);
    }
    return Ok(fields);
  }

  /** A dict whose entries survive the text form. */
  predicate Printable(d: seq<Entry>) {
    IsDict(d) && forall i :: 0 <= i < |d| ==> PrintableEntry(d[i])
  }

  predicate PrintableEntry(e: Entry) {
    && e.key != "" && Trimmed(e.key) && OneLine(e.key) && '=' !in e.key
    && Trimmed(e.value) && OneLine(e.value)
  }

  /** A put changes the one entry of its key, or adds it; the other entries and their order stay. */
  lemma {:induction false} PutIsDictUpdate(d: seq<Entry>, key: string, value: string)
    requires IsDict(d)
    ensures var r := Put(d, key, value);
      && |d| <= |r| <= |d| + 1
      && (forall i :: 0 <= i < |d| ==> r[i] == if d[i].key == key then Entry(key, value) else d[i])
      && (|r| == |d| + 1 ==> r[|d|] == Entry(key, value) && forall i :: 0 <= i < |d| ==> d[i].key != key)
  {
    if d == [] || d[0].key == key {
    } else {
      var rest, r := d[1..], Put(d, key, value);
      PutIsDictUpdate(rest, key, value);
      assert r == [d[0]] + Put(rest, key, value);
      forall i | 0 <= i < |d| ensures r[i] == if d[i].key == key then Entry(key, value) else d[i] {
        assert i > 0 ==> rest[i - 1] == d[i];
      }
      forall i | |r| == |d| + 1 && 0 <= i < |d| ensures d[i].key != key {
        assert i > 0 ==> rest[i - 1] == d[i];
      }
    }
  }

  lemma {:induction false} PutKeepsDict(d: seq<Entry>, key: string, value: string)
    requires IsDict(d)
    ensures IsDict(Put(d, key, value))
  {
    PutIsDictUpdate(d, key, value);
    var r := Put(d, key, value);
    forall i, k | 0 <= i < k < |r| ensures r[i].key != r[k].key {
      assert r[i].key == d[i].key;
      assert k < |d| ==> r[k].key == d[k].key;
    }
  }

  lemma {:induction false} PutKeepsPrintable(d: seq<Entry>, key: string, value: string)
    requires Printable(d) && PrintableEntry(Entry(key, value))
    ensures Printable(Put(d, key, value))
  {
    PutIsDictUpdate(d, key, value);
    PutKeepsDict(d, key, value);
  }

  /** A new key goes to the end. */
  lemma {:induction false} PutAppends(d: seq<Entry>, key: string, value: string)
    requires forall i :: 0 <= i < |d| ==> d[i].key != key
    ensures Put(d, key, value) == d + [Entry(key, value)]
  {
    if d == [] {
    } else {
      PutAppends(d[1..], key, value);
    }
  }

  lemma StrippedPart(text: string, part: string)
    requires OneLine(text) && forall c :: c in part ==> c in text
    ensures Trimmed(Strip(part)) && OneLine(Strip(part))
  {
    StripIsTrimmed(part);
    StripTakesFrom(part);
  }

  lemma ParsedEntryIsPrintable(text: string)
    requires OneLine(text) && ParseLine(text).Ok?
    ensures PrintableEntry(ParseLine(text).value)
  {
    var n := Find(text, '=');
    StrippedPart(text, text[..n]);
    StrippedPart(text, text[n + 1..]);
    assert '=' !in Strip(text[..n]) by {
      StripTakesFrom(text[..n]);
    }
  }

  lemma {:induction false} ParsedLinesArePrintable(lines: seq<string>, d: seq<Entry>)
    requires Printable(d) && forall i :: 0 <= i < |lines| ==> OneLine(lines[i])
    requires ParseLines(lines, d).Ok?
    ensures Printable(ParseLines(lines, d).value)
    decreases |lines|
  {
    if lines == [] {
    } else {
      var text := Strip(lines[0]);
      StripTakesFrom(lines[0]);
      if text == "" {
        ParsedLinesArePrintable(lines[1..], d);
      } else {
        var entry := ParseLine(text).value;
        ParsedEntryIsPrintable(text);
        PutKeepsPrintable(d, entry.key, entry.value);
        ParsedLinesArePrintable(lines[1..], Put(d, entry.key, entry.value));
      }
    }
  }

  /** Whatever the parser accepts, it turns into a printable dict. */
  lemma ParseIsPrintable(raw: string)
    requires Parse(raw).Ok?
    ensures Printable(Parse(raw).value)
  {
    ParsedLinesArePrintable(SplitLines(raw), []);
  }

  lemma LineShape(e: Entry)
    requires PrintableEntry(e)
    ensures OneLine(Line(e)) && Trimmed(Line(e)) && Line(e) != "" && Find(Line(e), '=') == |e.key|
    ensures Line(e)[..|e.key|] == e.key && Line(e)[|e.key| + 1..] == e.value
  {
    var text, n := Line(e), |e.key|;
    assert text[0] == e.key[0];
    assert text[|text| - 1] == if e.value == "" then '=' else e.value[|e.value| - 1];
    forall i | 0 <= i < n ensures text[i] != '=' {
      assert text[i] == e.key[i] && e.key[i] in e.key;
    }
    FirstIsFound(text, '=', n);
  }

  lemma {:induction false} ParseLineAt(text: string, n: nat, key: string, value: string)
    requires n < |text| && Find(text, '=') == n && text[..n] == key && text[n + 1..] == value
    requires Strip(key) == key && key != "" && Strip(value) == value
    ensures ParseLine(text) == Ok(Entry(key, value))
  {
  }

  lemma PrintedLineParses(e: Entry)
    requires PrintableEntry(e)
    ensures Strip(Line(e)) == Line(e) && ParseLine(Line(e)) == Ok(e)
  {
    LineShape(e);
    assert Strip(Line(e)) == Line(e) by {
      TrimmedIsStripped(Line(e));
    }
    assert Strip(e.key) == e.key by {
      TrimmedIsStripped(e.key);
    }
    assert Strip(e.value) == e.value by {
      TrimmedIsStripped(e.value);
    }
    ParseLineAt(Line(e), |e.key|, e.key, e.value);
  }

  lemma {:induction false} ParseOneMore(lines: seq<string>, d: seq<Entry>, e: Entry)
    requires lines != [] && lines[0] == Line(e) && PrintableEntry(e)
    requires forall i :: 0 <= i < |d| ==> d[i].key != e.key
    ensures ParseLines(lines, d) == ParseLines(lines[1..], d + [e])
  {
    LineShape(e);
    PrintedLineParses(e);
    PutAppends(d, e.key, e.value);
    assert Entry(e.key, e.value) == e;
  }

  lemma LinesFrom(d: seq<Entry>, n: nat)
    requires n < |d|
    ensures Lines(d[n..]) != [] && Lines(d[n..])[0] == Line(d[n]) && Lines(d[n..])[1..] == Lines(d[n + 1..])
    ensures d[..n] + [d[n]] == d[..n + 1]
  {
    assert Lines(d[n..])[1..] == Lines(d[n + 1..]);
  }

  lemma {:induction false} PrintedLinesParse(d: seq<Entry>, n: nat)
    requires Printable(d) && n <= |d|
    ensures ParseLines(Lines(d[n..]), d[..n]) == Ok(d)
    decreases |d| - n
  {
    if n == |d| {
      assert d[..n] == d;
    } else {
      LinesFrom(d, n);
      ParseOneMore(Lines(d[n..]), d[..n], d[n]);
      PrintedLinesParse(d, n + 1);
    }
  }

  /** Printing and then parsing is the identity on exactly the printable dicts. */
  lemma RoundTrip(d: seq<Entry>)
    ensures Parse(Print(d)) == Ok(d) <==> Printable(d)
  {
    if Printable(d) {
      forall i | 0 <= i < |d| ensures OneLine(Lines(d)[i]) && Lines(d)[i] != "" {
        LineShape(d[i]);
      }
      SplitUndoesJoin(Lines(d));
      PrintedLinesParse(d, 0);
      assert d[0..] == d;
    } else if Parse(Print(d)) == Ok(d) {
      ParseIsPrintable(Print(d));
    }
  }

  /** Any accepted text, printed back and parsed again, gives the same fields in the same order. */
  lemma AcceptedTextIsStable(raw: string)
    requires Parse(raw).Ok?
    ensures Parse(Print(Parse(raw).value)) == Parse(raw)
  {
    ParseIsPrintable(raw);
    RoundTrip(Parse(raw).value);
  }
}
