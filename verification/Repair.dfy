/** Folding the fields of a VPN Gate API line that unquoted commas split too often: the extra fields
    go back into Message, the Base64 payload stays the last field. */
module Repair {
  import opened Text
  import Csv

  const FIELDS := 15
  const OPERATOR := 12
  const MESSAGE := 13

  function Fold(vals: seq<string>): seq<string>
    requires |vals| > FIELDS
  {
    var n := |vals| - 1;
    vals[..OPERATOR] + [vals[OPERATOR], Join(vals[MESSAGE..n], ","), vals[n]]
  }

  /** The publisher's repair; a line that does not come to fifteen fields is malformed. */
  function RepairPublisher(vals: seq<string>): Option<seq<string>> {
    var r := if |vals| > FIELDS then Fold(vals) else vals;
    if |r| == FIELDS then Some(r) else None
  }

  function Blanks(n: nat): (r: seq<string>)
    ensures |r| == n
  {
    if n == 0 then [] else [""] + Blanks(n - 1)
  }

  /** The collector's repair; short lines are padded instead. */
  function RepairCollector(vals: seq<string>): (r: seq<string>)
    ensures |r| == FIELDS
  {
    if |vals| > FIELDS then Fold(vals)
    else vals + Blanks(FIELDS - |vals|)
  }

  /** The two repairs agree exactly on lines of at least fifteen fields. */
  lemma RepairsAgree(vals: seq<string>)
    ensures RepairPublisher(vals) == Some(RepairCollector(vals)) <==> |vals| >= FIELDS
  {
    assert |vals| == FIELDS ==> vals + Blanks(0) == vals;
  }

  /** The collector gives a short line's own fields and empty ones for the rest. */
  lemma ShortLinesArePadded(vals: seq<string>, i: nat)
    requires |vals| <= FIELDS && i < FIELDS
    ensures RepairCollector(vals)[i] == if i < |vals| then vals[i] else ""
  {
    BlankAt(FIELDS - |vals|);
  }

  lemma {:induction false} BlankAt(n: nat)
    ensures forall i :: 0 <= i < n ==> Blanks(n)[i] == ""
  {
    if n > 0 {
      BlankAt(n - 1);
    }
  }

  lemma {:induction false} JoinConcat(a: seq<string>, b: seq<string>, sep: string)
    requires a != [] && b != []
    ensures Join(a + b, sep) == Join(a, sep) + sep + Join(b, sep)
  {
    if |a| == 1 {
      assert (a + b)[1..] == b;
    } else {
      assert (a + b)[1..] == a[1..] + b;
      JoinConcat(a[1..], b, sep);
    }
  }

  /** Replacing a run of fields by their join does not change the line. */
  lemma JoinFold(a: seq<string>, mid: seq<string>, z: string)
    requires a != [] && mid != []
    ensures Join(a + [Join(mid, ","), z], ",") == Join(a + mid + [z], ",")
  {
    var m := Join(mid, ",");
    JoinConcat(a, [m, z], ",");
    JoinConcat([m], [z], ",");
    assert [m] + [z] == [m, z];
    JoinConcat(a, mid, ",");
    JoinConcat(a + mid, [z], ",");
  }

  /** The repaired fields spell the original line. */
  lemma FoldKeepsText(vals: seq<string>)
    requires |vals| > FIELDS
    ensures |Fold(vals)| == FIELDS && Join(Fold(vals), ",") == Join(vals, ",")
  {
    var n := |vals| - 1;
    var a, mid := vals[..MESSAGE], vals[MESSAGE..n];
    assert Fold(vals) == a + [Join(mid, ","), vals[n]];
    assert vals == a + mid + [vals[n]];
    JoinFold(a, mid, vals[n]);
  }

  /** Only Message may hold commas. */
  predicate CommasOnlyInMessage(fields: seq<string>) {
    |fields| == FIELDS && forall i :: 0 <= i < FIELDS && i != MESSAGE ==> ',' !in fields[i]
  }

  lemma SplitAround(a: seq<string>, m: string, z: string)
    requires a != [] && (forall i :: 0 <= i < |a| ==> ',' !in a[i]) && ',' !in z
    ensures Split(Join(a + [m, z], ","), ',') == a + Split(m, ',') + [z]
  {
    var mid := Split(m, ',');
    JoinSplit(m, ',');
    JoinFold(a, mid, z);
    var parts := a + mid + [z];
    forall i | 0 <= i < |parts| ensures ',' !in parts[i] {
      assert parts[i] == if i < |a| then a[i] else if i < |a| + |mid| then mid[i - |a|] else z;
    }
    SplitJoin(parts, ',');
  }

  lemma RepairFindsMessage(fields: seq<string>)
    requires CommasOnlyInMessage(fields)
    ensures RepairPublisher(Split(Join(fields, ","), ',')) == Some(fields)
  {
    hide Join, Split;
    var a, m, z := fields[..MESSAGE], fields[MESSAGE], fields[FIELDS - 1];
    assert fields == a + [m, z];
    SplitAround(a, m, z);
    var mid := Split(m, ',');
    JoinSplit(m, ',');
    var vals := a + mid + [z];
    if |mid| == 1 {
      assert Join(mid, ",") == mid[0] by { JoinOne(mid); }
      assert vals == fields;
    } else {
      assert vals[MESSAGE..|vals| - 1] == mid && vals[..OPERATOR] + [vals[OPERATOR]] == a;
      assert Fold(vals) == a + [m, z];
    }
  }

  lemma JoinOne(parts: seq<string>)
    requires |parts| == 1
    ensures Join(parts, ",") == parts[0]
  {
  }

  /** Splitting a line at its commas and repairing gives the written fields back exactly when only
      Message held commas: a comma in Operator, say, is folded into the wrong field. */
  lemma RepairUndoesSplitting(fields: seq<string>)
    requires |fields| == FIELDS
    ensures RepairPublisher(Split(Join(fields, ","), ',')) == Some(fields) <==> CommasOnlyInMessage(fields)
  {
    hide Join, Split;
    var vals := Split(Join(fields, ","), ',');
    JoinSplit(Join(fields, ","), ',');
    if CommasOnlyInMessage(fields) {
      RepairFindsMessage(fields);
    }
    if RepairPublisher(vals) == Some(fields) {
      forall i | 0 <= i < FIELDS && i != MESSAGE ensures ',' !in fields[i] {
        assert fields[i] == if i < MESSAGE then vals[i] else vals[|vals| - 1];
      }
    }
  }

  // ---------- the CSV reader splits such lines at every comma ----------

  /** A line without quotes and line ends, as the API publishes it. */
  predicate Bare(line: string) {
    forall i :: 0 <= i < |line| ==> line[i] != '"' && line[i] != '\r' && line[i] != '\n'
  }

  /** The reader is inside an unquoted field. */
  predicate Open(r: Csv.Reader) {
    r.Reader? && (r.mode == Csv.InField || (r.mode == Csv.StartField && r.field == ""))
  }

  /** All fields of the current record, the open one included. */
  function Seen(r: Csv.Reader): seq<string>
    requires r.Reader?
  {
    r.fields + [r.field]
  }

  lemma StepComma(r: Csv.Reader)
    requires Open(r)
    ensures Csv.Step(r, ',') == Csv.SaveField(r, Csv.StartField) && Open(Csv.Step(r, ','))
  {
  }

  lemma StepPlain(r: Csv.Reader, c: char)
    requires Open(r) && c != ',' && c != '"' && c != '\r' && c != '\n' && |r.field| < Csv.FIELD_LIMIT
    ensures Csv.Step(r, c) == r.(field := r.field + [c], mode := Csv.InField)
  {
  }

  /** The pieces were added to the current record, the first to the open field. */
  predicate Adds(r: Csv.Reader, q: Csv.Reader, parts: seq<string>) {
    && Open(r) && Open(q) && q.records == r.records && parts != []
    && Seen(q) == r.fields + [r.field + parts[0]] + parts[1..]
  }

  lemma AddsAfterComma(r: Csv.Reader, q: Csv.Reader, rest: seq<string>)
    requires Open(r) && Adds(Csv.SaveField(r, Csv.StartField), q, rest)
    ensures Adds(r, q, [""] + rest)
  {
    var t := Csv.SaveField(r, Csv.StartField);
    assert "" + rest[0] == rest[0] && r.field + "" == r.field;
    assert ([""] + rest)[1..] == rest;
    assert r.fields + [r.field] + ([rest[0]] + rest[1..]) == r.fields + [r.field] + rest;
  }

  lemma AddsAfterChar(r: Csv.Reader, c: char, q: Csv.Reader, rest: seq<string>)
    requires Open(r) && Adds(r.(field := r.field + [c], mode := Csv.InField), q, rest)
    ensures Adds(r, q, [[c] + rest[0]] + rest[1..])
  {
    assert (r.field + [c]) + rest[0] == r.field + ([c] + rest[0]);
    assert ([[c] + rest[0]] + rest[1..])[1..] == rest[1..];
  }

  /** The rest of a bare line adds its pieces. */
  lemma {:induction false} RunLine(r: Csv.Reader, line: string)
    requires Open(r) && Bare(line)
    requires var parts := Split(line, ','); |r.field| + |parts[0]| <= Csv.FIELD_LIMIT && Csv.WithinLimit(parts[1..])
    ensures Adds(r, Csv.Run(r, line), Split(line, ','))
    decreases line
  {
    hide Csv.Step, Adds;
    if line == "" {
      AddsNothing(r);
    } else {
      var tail := line[1..];
      var parts, rest := Split(line, ','), Split(tail, ',');
      if line[0] == ',' {
        StepComma(r);
        assert parts == [""] + rest && parts[1..] == rest;
        TailWithin(rest);
        RunLine(Csv.Step(r, ','), tail);
        AddsAfterComma(r, Csv.Run(r, line), rest);
      } else {
        assert parts == [[line[0]] + rest[0]] + rest[1..];
        assert parts[1..] == rest[1..];
        StepPlain(r, line[0]);
        RunLine(Csv.Step(r, line[0]), tail);
        AddsAfterChar(r, line[0], Csv.Run(r, line), rest);
      }
    }
  }

  lemma AddsNothing(r: Csv.Reader)
    requires Open(r)
    ensures Adds(r, r, [""])
  {
    assert r.field + "" == r.field;
  }

  lemma TailWithin(parts: seq<string>)
    requires parts != [] && Csv.WithinLimit(parts)
    ensures |parts[0]| <= Csv.FIELD_LIMIT && Csv.WithinLimit(parts[1..])
  {
  }

  lemma FirstStep(line: string, done: seq<Csv.Record>)
    requires line != "" && Bare(line)
    ensures Csv.Run(Csv.Reader(Csv.StartRecord, "", [], done), line) == Csv.Run(Csv.Reader(Csv.StartField, "", [], done), line)
  {
    var begin, start := Csv.Reader(Csv.StartRecord, "", [], done), Csv.Reader(Csv.StartField, "", [], done);
    assert Csv.Step(begin, line[0]) == Csv.Step(start, line[0]);
  }

  /** On such a line the reader's fields are the pieces between the commas. */
  lemma BareLineSplits(line: string)
    requires line != "" && Bare(line) && Csv.WithinLimit(Split(line, ','))
    ensures Csv.Read(line) == Some([Split(line, ',')])
  {
    hide Csv.Run, Csv.Step, Split;
    var start := Csv.FRESH.(mode := Csv.StartField);
    var parts := Split(line, ',');
    FirstStep(line, []);
    TailWithin(parts);
    RunLine(start, line);
    var q := Csv.Run(start, line);
    assert "" + parts[0] == parts[0] && [parts[0]] + parts[1..] == parts;
    assert Seen(q) == parts;
    assert q.records + [Seen(q)] == [parts];
  }
}
