/** The dialect of the published file: comma, double quotes doubled inside quoted fields, minimal
    quoting, LF record ends (section 2 of RFC 4180, except for the record end). The reader is the
    character automaton of the library, with its field size limit; the writer quotes a field that
    holds a comma, a quote or a line feed. */
module Csv {
  import opened Text

  type Record = seq<string>

  const FIELD_LIMIT := 131072

  // ---------- writer ----------

  predicate NeedsQuotes(s: string) {
    exists i :: 0 <= i < |s| && (s[i] == ',' || s[i] == '"' || s[i] == '\n')
  }

  function Double(s: string): string {
    if s == "" then "" else (if s[0] == '"' then "\"\"" else [s[0]]) + Double(s[1..])
  }

  function WriteField(s: string): string {
    if NeedsQuotes(s) then "\"" + Double(s) + "\"" else s
  }

  function WriteFields(fields: Record): string
    requires fields != []
  {
    if |fields| == 1 then WriteField(fields[0]) + "\n"
    else WriteField(fields[0]) + "," + WriteFields(fields[1..])
  }

  /** One record; a single empty field is quoted so that it is not read as a blank line. */
  function WriteRecord(fields: Record): string {
    if fields == [] then "\n" else if fields == [""] then "\"\"\n" else WriteFields(fields)
  }

  function Write(records: seq<Record>): string {
    if records == [] then "" else WriteRecord(records[0]) + Write(records[1..])
  }

  // ---------- reader ----------

  datatype Mode = StartRecord | StartField | InField | InQuoted | QuoteInQuoted | AfterReturn

  datatype Reader =
    | Reader(mode: Mode, field: string, fields: Record, records: seq<Record>)
    | FieldTooLong

  const FRESH: Reader := Reader(StartRecord, "", [], [])

  function AddChar(r: Reader, c: char, mode: Mode): Reader
    requires r.Reader?
  {
    if |r.field| >= FIELD_LIMIT then FieldTooLong else r.(field := r.field + [c], mode := mode)
  }

  function SaveField(r: Reader, mode: Mode): Reader
    requires r.Reader?
  {
    r.(fields := r.fields + [r.field], field := "", mode := mode)
  }

  function EndRecord(r: Reader, mode: Mode): Reader
    requires r.Reader?
  {
    Reader(mode, "", [], r.records + [r.fields])
  }

  function StepFieldStart(r: Reader, c: char): Reader
    requires r.Reader?
  {
    if c == '\n' then EndRecord(SaveField(r, StartField), StartRecord)
    else if c == '\r' then EndRecord(SaveField(r, StartField), AfterReturn)
    else if c == '"' then r.(mode := InQuoted)
    else if c == ',' then SaveField(r, StartField)
    else AddChar(r, c, InField)
  }

  function StepRecordStart(r: Reader, c: char): Reader
    requires r.Reader?
  {
    if c == '\n' then EndRecord(r, StartRecord)
    else if c == '\r' then EndRecord(r, AfterReturn)
    else StepFieldStart(r, c)
  }

  function Step(r: Reader, c: char): Reader {
    if r.FieldTooLong? then r else
    match r.mode
    case StartRecord => StepRecordStart(r, c)
    case AfterReturn => if c == '\n' then r.(mode := StartRecord) else StepRecordStart(r, c)
    case StartField => StepFieldStart(r, c)
    case InField =>
      if c == '\n' then EndRecord(SaveField(r, StartField), StartRecord)
      else if c == '\r' then EndRecord(SaveField(r, StartField), AfterReturn)
      else if c == ',' then SaveField(r, StartField)
      else AddChar(r, c, InField)
    case InQuoted =>
      if c == '"' then r.(mode := QuoteInQuoted) else AddChar(r, c, InQuoted)
    case QuoteInQuoted =>
      if c == '"' then AddChar(r, c, InQuoted)
      else if c == ',' then SaveField(r, StartField)
      else if c == '\n' then EndRecord(SaveField(r, StartField), StartRecord)
      else if c == '\r' then EndRecord(SaveField(r, StartField), AfterReturn)
      else AddChar(r, c, InField)
  }

  function Run(r: Reader, s: string): Reader
    decreases s
  {
    if s == "" then r else Run(Step(r, s[0]), s[1..])
  }

  /** All records of a text, or None when a field exceeds the reader's limit. */
  function Read(text: string): Option<seq<Record>> {
    var r := Run(FRESH, text);
    if r.FieldTooLong? then None
    else if r.mode == StartRecord || r.mode == AfterReturn then Some(r.records)
    else Some(r.records + [r.fields + [r.field]])
  }

  // ---------- the reader undoes the writer ----------

  lemma {:induction false} RunConcat(r: Reader, a: string, b: string)
    ensures Run(r, a + b) == Run(Run(r, a), b)
    decreases a
  {
    if a == "" {
      assert a + b == b;
    } else {
      assert (a + b)[1..] == a[1..] + b;
      RunConcat(Step(r, a[0]), a[1..], b);
    }
  }

  lemma {:induction false} RunTooLong(s: string)
    ensures Run(FieldTooLong, s) == FieldTooLong
  {
    if s != "" {
      RunTooLong(s[1..]);
    }
  }

  lemma {:induction false} RunBare(r: Reader, s: string)
    requires r.Reader? && r.mode == InField && |r.field| <= FIELD_LIMIT
    requires !NeedsQuotes(s) && '\r' !in s
    ensures Run(r, s) == if |r.field| + |s| <= FIELD_LIMIT then r.(field := r.field + s) else FieldTooLong
    decreases s
  {
    if s == "" {
      assert r.field + s == r.field;
    } else {
      var t := Step(r, s[0]);
      assert t == AddChar(r, s[0], InField);
      assert !NeedsQuotes(s[1..]) by {
        forall i | 0 <= i < |s[1..]| ensures s[1..][i] == s[i + 1] {}
      }
      if t.FieldTooLong? {
        RunTooLong(s[1..]);
      } else {
        RunBare(t, s[1..]);
        assert (r.field + [s[0]]) + s[1..] == r.field + s;
      }
    }
  }

  lemma {:induction false} RunDoubled(r: Reader, s: string)
    requires r.Reader? && r.mode == InQuoted && |r.field| <= FIELD_LIMIT
    ensures Run(r, Double(s)) == if |r.field| + |s| <= FIELD_LIMIT then r.(field := r.field + s) else FieldTooLong
    decreases s
  {
    if s == "" {
      assert r.field + s == r.field;
    } else {
      var head := if s[0] == '"' then "\"\"" else [s[0]];
      RunConcat(r, head, Double(s[1..]));
      var t := AddChar(r, s[0], InQuoted);
      assert Run(r, head) == t by {
        if s[0] == '"' {
          assert head[1..] == "\"";
          assert Run(r, head) == Run(Step(r, '"'), "\"") == Run(Step(Step(r, '"'), '"'), "\""[1..]);
        } else {
          assert Run(r, head) == Run(Step(r, s[0]), head[1..]);
        }
      }
      if t.FieldTooLong? {
        RunTooLong(Double(s[1..]));
      } else {
        RunDoubled(t, s[1..]);
        assert (r.field + [s[0]]) + s[1..] == r.field + s;
      }
    }
  }

  /** The reader holds `s` as the field it would save next. */
  predicate Holds(r: Reader, s: string, fields: Record, records: seq<Record>) {
    r.Reader? && r.field == s && r.fields == fields && r.records == records &&
    (r.mode == InField || r.mode == QuoteInQuoted || (r.mode == StartField && s == ""))
  }

  lemma RunQuotedField(s: string, fields: Record, records: seq<Record>)
    ensures var r := Run(Reader(StartField, "", fields, records), "\"" + (Double(s) + "\""));
            if |s| <= FIELD_LIMIT then Holds(r, s, fields, records) else r == FieldTooLong
  {
    var r := Reader(StartField, "", fields, records);
    var q := r.(mode := InQuoted);
    RunConcat(r, "\"", Double(s) + "\"");
    assert Run(r, "\"") == Run(Step(r, '"'), "\""[1..]) == q;
    RunConcat(q, Double(s), "\"");
    RunDoubled(q, s);
    assert "" + s == s;
    var t := Run(q, Double(s));
    assert Run(t, "\"") == Run(Step(t, '"'), "\""[1..]);
  }

  lemma RunField(s: string, fields: Record, records: seq<Record>)
    requires '\r' !in s
    ensures var r := Run(Reader(StartField, "", fields, records), WriteField(s));
            if |s| <= FIELD_LIMIT then Holds(r, s, fields, records) else r == FieldTooLong
  {
    var r := Reader(StartField, "", fields, records);
    if NeedsQuotes(s) {
      assert WriteField(s) == "\"" + (Double(s) + "\"");
      RunQuotedField(s, fields, records);
    } else if s != "" {
      var t := Step(r, s[0]);
      assert t == AddChar(r, s[0], InField);
      assert !NeedsQuotes(s[1..]) by {
        forall i | 0 <= i < |s[1..]| ensures s[1..][i] == s[i + 1] {}
      }
      RunBare(t, s[1..]);
      assert [s[0]] + s[1..] == s;
    }
  }

  predicate WithoutReturns(fields: Record) {
    forall i :: 0 <= i < |fields| ==> '\r' !in fields[i]
  }

  predicate WithinLimit(fields: Record) {
    forall i :: 0 <= i < |fields| ==> |fields[i]| <= FIELD_LIMIT
  }

  lemma {:induction false} RunFields(fields: Record, done: Record, records: seq<Record>)
    requires fields != [] && WithoutReturns(fields)
    ensures Run(Reader(StartField, "", done, records), WriteFields(fields)) ==
            if WithinLimit(fields) then Reader(StartRecord, "", [], records + [done + fields]) else FieldTooLong
  {
    var r := Reader(StartField, "", done, records);
    var s := fields[0];
    var rest := fields[1..];
    RunField(s, done, records);
    var t := Run(r, WriteField(s));
    assert fields == [s] + rest;
    if |fields| == 1 {
      RunConcat(r, WriteField(s), "\n");
      assert fields == [s] && "\n"[1..] == "";
      assert Run(t, "\n") == Run(Step(t, '\n'), "") == Step(t, '\n');
    } else {
      assert WriteFields(fields) == WriteField(s) + ("," + WriteFields(rest));
      RunConcat(r, WriteField(s), "," + WriteFields(rest));
      RunConcat(t, ",", WriteFields(rest));
      assert Run(t, ",") == Run(Step(t, ','), ","[1..]);
      assert WithinLimit(fields) <==> |s| <= FIELD_LIMIT && WithinLimit(rest) by {
        forall i | 0 <= i < |rest| ensures rest[i] == fields[i + 1] {}
      }
      if |s| > FIELD_LIMIT {
        RunTooLong(WriteFields(rest));
      } else {
        RunFields(rest, done + [s], records);
        assert (done + [s]) + rest == done + fields;
      }
    }
  }

  lemma {:induction false} RunRecord(fields: Record, records: seq<Record>)
    requires WithoutReturns(fields)
    ensures Run(Reader(StartRecord, "", [], records), WriteRecord(fields)) ==
            if WithinLimit(fields) then Reader(StartRecord, "", [], records + [fields]) else FieldTooLong
  {
    var r := Reader(StartRecord, "", [], records);
    var text := WriteRecord(fields);
    if fields == [] {
      assert Run(r, text) == Run(Step(r, '\n'), "\n"[1..]);
    } else if fields == [""] {
      var q := Step(r, '"');
      var q2 := Step(q, '"');
      assert text[1..] == "\"\n" && text[1..][1..] == "\n" && "\n"[1..] == "";
      assert Run(r, text) == Run(q, text[1..]) == Run(q2, "\n") == Run(Step(q2, '\n'), "") == Step(q2, '\n');
      assert q2 == r.(mode := QuoteInQuoted) && [] + [""] == fields;
    } else {
      RunFields(fields, [], records);
      var f := r.(mode := StartField);
      var w := WriteField(fields[0]);
      assert text[0] != '\n' && text[0] != '\r' by {
        if w == "" {
          assert |fields| > 1;
        } else {
          assert text[0] == w[0];
          assert !NeedsQuotes(fields[0]) ==> w[0] == fields[0][0];
        }
      }
      assert Step(r, text[0]) == Step(f, text[0]);
      assert Run(r, text) == Run(Step(r, text[0]), text[1..]) == Run(f, text);
      assert [] + fields == fields;
    }
  }

  predicate AllWithin(records: seq<Record>) {
    forall k :: 0 <= k < |records| ==> WithinLimit(records[k])
  }

  lemma AllWithinStep(records: seq<Record>)
    requires records != []
    ensures AllWithin(records) <==> WithinLimit(records[0]) && AllWithin(records[1..])
  {
    hide WithinLimit;
    var rest := records[1..];
    assert forall k :: 0 <= k < |rest| ==> rest[k] == records[k + 1];
    forall k | 0 < k < |records| ensures records[k] == rest[k - 1] {}
  }

  lemma FirstMoves(done: seq<Record>, records: seq<Record>)
    requires records != []
    ensures (done + [records[0]]) + records[1..] == done + records
  {
  }

  lemma {:induction false} RunAll(records: seq<Record>, done: seq<Record>)
    requires forall k :: 0 <= k < |records| ==> WithoutReturns(records[k])
    ensures Run(Reader(StartRecord, "", [], done), Write(records)) ==
            if AllWithin(records) then Reader(StartRecord, "", [], done + records) else FieldTooLong
  {
    var r := Reader(StartRecord, "", [], done);
    if records == [] {
      assert done + records == done;
    } else {
      hide Run, Step, WriteRecord, WithinLimit, WithoutReturns, AllWithin;
      var rest := records[1..];
      RunConcat(r, WriteRecord(records[0]), Write(rest));
      RunRecord(records[0], done);
      AllWithinStep(records);
      if WithinLimit(records[0]) {
        RunAll(rest, done + [records[0]]);
        FirstMoves(done, records);
      } else {
        RunTooLong(Write(rest));
      }
    }
  }

  /** Reading what was written gives the records back exactly when no field exceeds the limit;
      otherwise the reader fails. Fields hold anything but carriage returns. */
  lemma ReadWrite(records: seq<Record>)
    requires forall k :: 0 <= k < |records| ==> WithoutReturns(records[k])
    ensures Read(Write(records)) ==
            if forall k :: 0 <= k < |records| ==> WithinLimit(records[k]) then Some(records) else None
  {
    hide WithinLimit, WithoutReturns, Run, Write;
    RunAll(records, []);
    assert [] + records == records;
  }

  // ---------- texts the writer does not make ----------

  /** Every line feed becomes a carriage return and a line feed. */
  function Crlf(s: string): string {
    if s == "" then "" else (if s[0] == '\n' then "\r\n" else [s[0]]) + Crlf(s[1..])
  }

  /** The reader meets every line feed outside quotes, and no carriage return. */
  predicate EndsOutside(r: Reader, s: string)
    decreases s
  {
    s == "" ||
    (s[0] != '\r' && (s[0] == '\n' && r.Reader? ==> r.mode != InQuoted) && EndsOutside(Step(r, s[0]), s[1..]))
  }

  /** Outside quotes the two line ends are read alike. */
  lemma CrlfStep(r: Reader)
    requires r.Reader? ==> r.mode != InQuoted && r.mode != AfterReturn
    ensures Run(r, "\r\n") == Step(r, '\n')
  {
    assert "\r\n"[1..] == "\n" && "\n"[1..] == "";
    assert Run(r, "\r\n") == Run(Step(r, '\r'), "\n") == Run(Step(Step(r, '\r'), '\n'), "");
  }

  lemma NotAfterReturn(r: Reader, c: char)
    requires c != '\r'
    ensures Step(r, c).Reader? ==> Step(r, c).mode != AfterReturn
  {
  }

  /** A text with CR LF line ends is read like the one with LF. */
  lemma {:induction false} CrlfIsRead(r: Reader, s: string)
    requires EndsOutside(r, s) && (r.Reader? ==> r.mode != AfterReturn)
    ensures Run(r, Crlf(s)) == Run(r, s)
    decreases s
  {
    hide Step;
    if s != "" {
      var head := if s[0] == '\n' then "\r\n" else [s[0]];
      RunConcat(r, head, Crlf(s[1..]));
      NotAfterReturn(r, s[0]);
      if s[0] == '\n' {
        if r.Reader? {
          CrlfStep(r);
        } else {
          RunTooLong("\r\n");
          RunTooLong(s);
          RunTooLong(Crlf(s));
        }
      } else {
        assert head[1..] == "" && Run(r, head) == Run(Step(r, s[0]), "");
      }
      if r.Reader? || s[0] != '\n' {
        CrlfIsRead(Step(r, s[0]), s[1..]);
      }
    }
  }

  /** A text without separators, quotes and line ends. */
  predicate Plain(s: string) {
    !NeedsQuotes(s) && '\r' !in s
  }

  /** Outside a quoted start a quote is a character like any other, and what follows a closing quote is added to the
      field; a missing closing quote is forgiven. */
  lemma QuotesAreForgiven(u: string, v: string)
    requires Plain(u) && Plain(v) && u != "" && |u| + 1 + |v| <= FIELD_LIMIT
    ensures Read(u + "\"" + v) == Some([[u + "\"" + v]])
    ensures Read("\"" + u + "\"" + v) == Some([[u + v]])
    ensures Read("\"" + u) == Some([[u]])
  {
    QuoteInside(u, v);
    TextAfterQuote(u, v);
    hide Run;
    LastField(InField, u + "\"" + v);
    LastField(if v == "" then QuoteInQuoted else InField, u + v);
    LastField(InQuoted, u);
  }

  lemma LastField(mode: Mode, field: string)
    ensures var r := Reader(mode, field, [], []); r.records + [r.fields + [r.field]] == [[field]]
  {
    var none: Record := [];
    assert none + [field] == [field];
  }

  lemma PlainHead(u: string)
    requires Plain(u) && u != "" && |u| <= FIELD_LIMIT
    ensures Run(FRESH, u) == Reader(InField, u, [], [])
  {
    var r := Step(FRESH, u[0]);
    assert r == Reader(InField, [u[0]], [], []);
    assert !NeedsQuotes(u[1..]) by {
      forall i | 0 <= i < |u[1..]| ensures u[1..][i] == u[i + 1] {}
    }
    RunBare(r, u[1..]);
    assert [u[0]] + u[1..] == u;
  }

  lemma QuoteInside(u: string, v: string)
    requires Plain(u) && Plain(v) && u != "" && |u| + 1 + |v| <= FIELD_LIMIT
    ensures Run(FRESH, u + "\"" + v) == Reader(InField, u + "\"" + v, [], [])
  {
    PlainHead(u);
    RunConcat(FRESH, u + "\"", v);
    RunConcat(FRESH, u, "\"");
    var r := Reader(InField, u, [], []);
    assert Run(r, "\"") == Run(Step(r, '"'), "\""[1..]) == Reader(InField, u + "\"", [], []);
    RunBare(Reader(InField, u + "\"", [], []), v);
  }

  lemma PlainDoubled(u: string)
    requires Plain(u)
    ensures Double(u) == u
  {
    if u != "" {
      assert !NeedsQuotes(u[1..]) by {
        forall i | 0 <= i < |u[1..]| ensures u[1..][i] == u[i + 1] {}
      }
      PlainDoubled(u[1..]);
    }
  }

  lemma TextAfterQuote(u: string, v: string)
    requires Plain(u) && Plain(v) && u != "" && |u| + |v| <= FIELD_LIMIT
    ensures Run(FRESH, "\"" + u) == Reader(InQuoted, u, [], [])
    ensures Run(FRESH, "\"" + u + "\"" + v) == Reader(if v == "" then QuoteInQuoted else InField, u + v, [], [])
  {
    var q := Reader(InQuoted, "", [], []);
    RunConcat(FRESH, "\"", u);
    assert Run(FRESH, "\"") == Run(Step(FRESH, '"'), "\""[1..]) == q;
    PlainDoubled(u);
    RunDoubled(q, u);
    assert "" + u == u;
    RunConcat(FRESH, "\"" + u, "\"");
    var held := Reader(InQuoted, u, [], []);
    assert Run(held, "\"") == Run(Step(held, '"'), "\""[1..]) == held.(mode := QuoteInQuoted);
    RunConcat(FRESH, "\"" + u + "\"", v);
    AfterQuote(held.(mode := QuoteInQuoted), v);
  }

  lemma AfterQuote(r: Reader, v: string)
    requires r.Reader? && r.mode == QuoteInQuoted && Plain(v) && |r.field| + |v| <= FIELD_LIMIT
    ensures Run(r, v) == if v == "" then r else r.(field := r.field + v, mode := InField)
  {
    if v != "" {
      var t := Step(r, v[0]);
      assert t == r.(field := r.field + [v[0]], mode := InField);
      assert !NeedsQuotes(v[1..]) by {
        forall i | 0 <= i < |v[1..]| ensures v[1..][i] == v[i + 1] {}
      }
      RunBare(t, v[1..]);
      assert (r.field + [v[0]]) + v[1..] == r.field + v;
    }
  }

  // ---------- characters and sizes of written text ----------

  lemma {:induction false} DoubleChars(s: string, c: char)
    ensures c in Double(s) <==> c in s
  {
    if s != "" {
      DoubleChars(s[1..], c);
      var head := if s[0] == '"' then "\"\"" else [s[0]];
      assert Double(s) == head + Double(s[1..]);
      assert c in head <==> c == s[0];
      assert c in s <==> c == s[0] || c in s[1..];
    }
  }

  /** Writing adds nothing but commas, quotes and line feeds. */
  lemma {:induction false} FieldsChars(fields: Record, c: char)
    requires fields != [] && c != ',' && c != '"' && c != '\n'
    ensures c in WriteFields(fields) <==> exists i :: 0 <= i < |fields| && c in fields[i]
  {
    var w := WriteField(fields[0]);
    DoubleChars(fields[0], c);
    assert c in w <==> c in fields[0];
    if |fields| > 1 {
      var rest := fields[1..];
      FieldsChars(rest, c);
      assert c in WriteFields(fields) <==> c in w || c in WriteFields(rest);
      if i :| 0 <= i < |fields| && c in fields[i] {
        assert i > 0 ==> c in rest[i - 1];
      }
      if j :| 0 <= j < |rest| && c in rest[j] {
        assert c in fields[j + 1];
      }
    }
  }

  /** Bytes of a record of at least two fields: every field and the one character after it. */
  function FieldsSize(fields: Record): nat {
    if fields == [] then 0 else Utf8Size(WriteField(fields[0])) + 1 + FieldsSize(fields[1..])
  }

  lemma {:induction false} WriteFieldsSize(fields: Record)
    requires fields != []
    ensures Utf8Size(WriteFields(fields)) == FieldsSize(fields)
  {
    var w := WriteField(fields[0]);
    assert Utf8Size("\n") == 1 && Utf8Size(",") == 1;
    if |fields| == 1 {
      Utf8SizeConcat(w, "\n");
    } else {
      WriteFieldsSize(fields[1..]);
      Utf8SizeConcat(w, ",");
      Utf8SizeConcat(w + ",", WriteFields(fields[1..]));
    }
  }

  lemma {:induction false} FieldsSizeConcat(a: Record, b: Record)
    ensures FieldsSize(a + b) == FieldsSize(a) + FieldsSize(b)
  {
    if a == [] {
      assert a + b == b;
    } else {
      assert (a + b)[1..] == a[1..] + b;
      FieldsSizeConcat(a[1..], b);
    }
  }
}
