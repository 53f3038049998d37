/** What the parser makes of files it did not render: other columns, other records, other schemas. */
module FileRules {
  import opened Text
  import opened Rows
  import opened Feed
  import Csv

  // ---------- the header ----------

  /** The documented columns in their order. */
  const NAMES: seq<string> := [
    "HostName", "IP", "Score", "Ping", "Speed", "CountryLong", "CountryShort", "NumVpnSessions", "Uptime", "TotalUsers",
    "TotalTraffic", "LogType", "Operator", "Message", "OpenVPN_ConfigData_Base64", "schema_version", "SE_TCP_Port",
    "SE_UDP_Supported", "SE_UDP_Port", "OpenVPN_TCP_Port", "OpenVPN_UDP_Port", "L2TP_Supported", "SSTP_Supported",
    "SSTP_Hostname", "SSTP_Port", "Has_IPv6", "FirstSeenAt", "LastSeenAt", "SourceTag"]

  lemma HeaderNames()
    ensures Header() == NAMES
  {
    assert |NAMES| == WIDTH;
    forall i | 0 <= i < WIDTH ensures Header()[i] == NAMES[i] {
      NameAt(i);
    }
  }

  lemma NameAtA(i: nat)
    requires 0 <= i < 6
    ensures Name(ColumnAt(i)) == NAMES[i]
  {
  }

  lemma NameAtB(i: nat)
    requires 6 <= i < 11
    ensures Name(ColumnAt(i)) == NAMES[i]
  {
  }

  lemma NameAtC(i: nat)
    requires 11 <= i < 14
    ensures Name(ColumnAt(i)) == NAMES[i]
  {
  }

  lemma NameAtD(i: nat)
    requires 14 <= i < 16
    ensures Name(ColumnAt(i)) == NAMES[i]
  {
  }

  lemma NameAtE(i: nat)
    requires 16 <= i < 19
    ensures Name(ColumnAt(i)) == NAMES[i]
  {
  }

  lemma NameAtF(i: nat)
    requires 19 <= i < 22
    ensures Name(ColumnAt(i)) == NAMES[i]
  {
  }

  lemma NameAtG(i: nat)
    requires 22 <= i < 25
    ensures Name(ColumnAt(i)) == NAMES[i]
  {
  }

  lemma NameAtH(i: nat)
    requires 25 <= i < 29
    ensures Name(ColumnAt(i)) == NAMES[i]
  {
  }

  lemma NameAt(i: nat)
    requires i < WIDTH
    ensures Name(ColumnAt(i)) == NAMES[i]
  {
    hide Name, ColumnAt;
    if i < 6 {
      NameAtA(i);
    } else if i < 11 {
      NameAtB(i);
    } else if i < 14 {
      NameAtC(i);
    } else if i < 16 {
      NameAtD(i);
    } else if i < 19 {
      NameAtE(i);
    } else if i < 22 {
      NameAtF(i);
    } else if i < 25 {
      NameAtG(i);
    } else {
      NameAtH(i);
    }
  }

  /** Every rendered file starts with that line, and every row declares the schema. */
  lemma FirstLine(rows: seq<Row>)
    ensures Join(NAMES, ",") + "\n" <= Render(rows)
    ensures forall k :: 0 <= k < |rows| ==> Cells(rows[k])[15] == "1.0"
  {
    hide Name, ColumnAt;
    HeaderNames();
    forall i | 0 <= i < WIDTH ensures !Csv.NeedsQuotes(Header()[i]) {
      HeaderShape(i);
    }
    PlainFields(Header());
    var all := [Header()] + Table(rows);
    assert all[0] == Header() && Header() != [""];
    forall k | 0 <= k < |rows| ensures Cells(rows[k])[15] == "1.0" {
      SchemaCell(rows[k]);
    }
  }

  lemma SchemaCell(r: Row)
    ensures Cells(r)[15] == "1.0"
  {
  }

  lemma {:induction false} PlainFields(fields: Csv.Record)
    requires fields != [] && forall i :: 0 <= i < |fields| ==> !Csv.NeedsQuotes(fields[i])
    ensures Csv.WriteFields(fields) == Join(fields, ",") + "\n"
  {
    if |fields| > 1 {
      PlainFields(fields[1..]);
    }
  }

  // ---------- columns in any order ----------

  /** Columns are found by name: in whatever order, and with others between them. */
  lemma AnyColumnOrder(columns: Csv.Record, record: Csv.Record, r: Row)
    requires |record| == |columns| && Sanitized(r)
    requires forall i, j :: 0 <= i < j < |columns| ==> columns[i] != columns[j]
    requires forall c: Column :: exists i :: 0 <= i < |columns| && columns[i] == Name(c) && record[i] == CellAt(r, c)
    ensures ParseRow(columns, record) == Some(r)
  {
    SanitizeFixpoint(r);
    var raw := RawOf(columns, record);
    hide Sanitize, Sanitized, LastIndex, Name, CellAt;
    forall c ensures raw(c) == AsText(r)(c) {
      var i :| 0 <= i < |columns| && columns[i] == Name(c) && record[i] == CellAt(r, c);
      LastIndexDistinct(columns, i);
    }
    SameValues(raw, AsText(r));
  }

  // ---------- any records under the program's own header ----------

  predicate Legible(record: Csv.Record) {
    && record != [] && Csv.WithoutReturns(record) && Csv.WithinLimit(record)
    && forall i :: 0 <= i < |record| ==> REPLACEMENT !in record[i]
  }

  /** A complete record that declares another schema. */
  predicate OtherSchema(record: Csv.Record) {
    |record| == 29 && Strip(record[15]) != "1.0"
  }

  /** The row of a complete record. */
  function RowOf(record: Csv.Record): Option<Row> {
    if |record| != 29 then None else Sanitize(c => Str(if Position(c) < |record| then record[Position(c)] else ""))
  }

  lemma RowByPosition(record: Csv.Record)
    ensures ParseRow(Header(), record) == RowOf(record)
  {
    if |record| == WIDTH {
      var raw := RawOf(Header(), record);
      var byPosition: RawRow := c => Str(if Position(c) < |record| then record[Position(c)] else "");
      hide Sanitize, Header, Name, LastIndex, Position;
      forall c ensures raw(c) == byPosition(c) {
        HeaderIndex(c);
      }
      SameValues(raw, byPosition);
    }
  }

  lemma {:induction false} LegibleText(records: seq<Csv.Record>)
    requires forall k :: 0 <= k < |records| ==> Legible(records[k])
    ensures REPLACEMENT !in Csv.Write(records)
  {
    if records != [] {
      LegibleText(records[1..]);
      if records[0] != [""] {
        Csv.FieldsChars(records[0], REPLACEMENT);
      }
    }
  }

  lemma HeaderIsLegible()
    ensures Legible(Header())
  {
    hide Header;
    forall i | 0 <= i < WIDTH ensures '\r' !in Header()[i] && |Header()[i]| <= Csv.FIELD_LIMIT && REPLACEMENT !in Header()[i] {
      HeaderShape(i);
    }
  }

  lemma HeaderFirst(records: seq<Csv.Record>)
    ensures Csv.Write([Header()] + records) != "" && Csv.Write([Header()] + records)[0] == 'H'
  {
    hide Header, Csv.WriteRecord;
    TextStart([]);
    var all := [Header()] + records;
    assert all[0] == Header() && all[1..] == records;
    assert [Header()] + Table([]) == [Header()];
    assert Csv.Write([Header()][1..]) == "";
  }

  lemma AllLegible(records: seq<Csv.Record>)
    requires forall k :: 0 <= k < |records| ==> Legible(records[k])
    ensures var all := [Header()] + records; forall k :: 0 <= k < |all| ==> Legible(all[k])
  {
    hide Header, Legible;
    HeaderIsLegible();
  }

  lemma FileRead(records: seq<Csv.Record>)
    requires forall k :: 0 <= k < |records| ==> Legible(records[k])
    ensures Parse(Csv.Write([Header()] + records)) == ParseRecords([Header()] + records)
  {
    hide ParseRecords, Header, Strip, Csv.Read, Csv.Write, Legible, Csv.WithoutReturns, Csv.WithinLimit;
    var all := [Header()] + records;
    var text := Csv.Write(all);
    HeaderFirst(records);
    StripKeepsHead(text);
    AllLegible(records);
    LegibleText(all);
    forall k | 0 <= k < |all| ensures Csv.WithoutReturns(all[k]) && Csv.WithinLimit(all[k]) {
      LegibleRecord(all[k]);
    }
    Csv.ReadWrite(all);
    NotSpace();
  }

  lemma LegibleRecord(record: Csv.Record)
    requires Legible(record)
    ensures Csv.WithoutReturns(record) && Csv.WithinLimit(record) && record != []
  {
  }

  lemma SchemaColumn(record: Csv.Record)
    ensures Name(SchemaVersion) in Header() && (WrongSchema(Header(), record) <==> OtherSchema(record))
  {
    HeaderIndex(SchemaVersion);
    assert Position(SchemaVersion) == 15;
    hide Header, Name, LastIndex, Strip;
  }

  /** A file under the program's own header: one complete record of another schema refuses it whole; otherwise every
      complete record that makes a row is accepted, in order, and all others are counted. */
  lemma FileOutcome(records: seq<Csv.Record>)
    requires forall k :: 0 <= k < |records| ==> Legible(records[k])
    ensures Parse(Csv.Write([Header()] + records)) ==
            if records == [] then Malformed(HeaderOnly, 0)
            else if exists k :: 0 <= k < |records| && OtherSchema(records[k]) then Malformed(UnsupportedSchema, 0)
            else if Accepted(records) == [] then Malformed(NoValidRow, |records|)
            else Parsed(Accepted(records), |records| - |Accepted(records)|)
  {
    hide Parse, Header, Strip, StripAll, HasRequired, ParseRow, WrongSchema, OtherSchema, Legible, Csv.Write, RowOf;
    FileRead(records);
    var all := [Header()] + records;
    assert all[0] == Header() && all[1..] == records;
    forall k | 0 <= k < |all| ensures all[k] != [] {
      if k > 0 {
        assert all[k] == records[k - 1];
        LegibleRecord(records[k - 1]);
      }
    }
    NoBlanks(all);
    HeaderStripped();
    HeaderHasRequired();
    SchemaColumn([]);
    forall k | 0 <= k < |records| ensures WrongSchema(Header(), records[k]) <==> OtherSchema(records[k]) {
      SchemaColumn(records[k]);
    }
    AcceptedRows(records);
  }

  /** The rows of the records that make one. */
  function Accepted(records: seq<Csv.Record>): (rows: seq<Row>)
    ensures |rows| <= |records|
  {
    if records == [] then []
    else
      var n := |records| - 1;
      Accepted(records[..n]) + match RowOf(records[n]) case Some(row) => [row] case None => []
  }

  lemma {:induction false} AcceptedRows(records: seq<Csv.Record>)
    ensures ParseRows(Header(), records) == (Accepted(records), |records| - |Accepted(records)|)
  {
    hide ParseRow, Header, RowOf;
    if records != [] {
      var n := |records| - 1;
      AcceptedRows(records[..n]);
      RowByPosition(records[n]);
      assert Accepted(records[..n]) + [] == Accepted(records[..n]);
    }
  }

  // ---------- refusals and blank lines ----------

  /** A byte order mark in front refuses any text, the program's own files included; a text of blanks is empty. */
  lemma RefusedTexts(text: string, blanks: string)
    requires forall i :: 0 <= i < |blanks| ==> IsSpace(blanks[i])
    ensures Parse([BYTE_ORDER_MARK] + text) == Malformed(ByteOrderMark, 0)
    ensures Parse(blanks) == Malformed(EmptyBody, 0)
  {
    StripBlank(blanks);
    StripBlank([BYTE_ORDER_MARK] + text);
    assert ([BYTE_ORDER_MARK] + text)[0] == BYTE_ORDER_MARK;
    MarkIsNoSpace();
    hide Strip, IsSpace, Csv.Read, ParseRecords;
  }

  lemma MarkIsNoSpace()
    ensures !IsSpace(BYTE_ORDER_MARK)
  {
  }

  /** A required column is one of these four. */
  const NEEDED: seq<string> := ["HostName", "IP", "schema_version", "SourceTag"]

  predicate HasName(fields: Csv.Record, name: string) {
    exists i :: 0 <= i < |fields| && Strip(fields[i]) == name
  }

  lemma NeededIn(fields: Csv.Record)
    ensures HasRequired(StripAll(fields)) <==>
            forall n :: 0 <= n < 4 ==> HasName(fields, NEEDED[n])
  {
    NeededNames();
    hide Name, Strip;
    var columns := StripAll(fields);
    forall n | 0 <= n < 4 ensures NEEDED[n] in columns <==> HasName(fields, NEEDED[n]) {
      if i :| 0 <= i < |fields| && Strip(fields[i]) == NEEDED[n] {
        assert columns[i] == NEEDED[n];
      }
      if NEEDED[n] in columns {
        var i :| 0 <= i < |columns| && columns[i] == NEEDED[n];
      }
    }
    assert HasRequired(columns) <==> forall n :: 0 <= n < 4 ==> Name(REQUIRED[n]) in columns;
  }

  /** A file is refused for a missing column exactly if one of the four is not among its names, blanks stripped. */
  lemma MissingColumnExactly(records: seq<Csv.Record>)
    requires records != [] && forall k :: 0 <= k < |records| ==> records[k] != []
    ensures ParseRecords(records) == Malformed(MissingColumns, 0) <==>
            exists n :: 0 <= n < 4 && !HasName(records[0], NEEDED[n])
  {
    hide Strip, ParseRows, WrongSchema, NonBlank, HasRequired, HasName;
    NoBlanks(records);
    NeededIn(records[0]);
  }

  lemma NeededNames()
    ensures |REQUIRED| == 4 && forall n :: 0 <= n < 4 ==> Name(REQUIRED[n]) == NEEDED[n]
  {
  }

  lemma {:induction false} NonBlankConcat(a: seq<Csv.Record>, b: seq<Csv.Record>)
    ensures NonBlank(a + b) == NonBlank(a) + NonBlank(b)
  {
    if a == [] {
      assert a + b == b;
    } else {
      assert (a + b)[1..] == a[1..] + b;
      NonBlankConcat(a[1..], b);
    }
  }

  /** A blank line anywhere changes nothing. */
  lemma BlankLineIgnored(a: seq<Csv.Record>, b: seq<Csv.Record>)
    ensures ParseRecords(a + [[]] + b) == ParseRecords(a + b)
  {
    hide HasRequired, WrongSchema, ParseRows;
    NonBlankConcat(a + [[]], b);
    NonBlankConcat(a, [[]]);
    NonBlankConcat(a, b);
    var blank: seq<Csv.Record> := [[]];
    assert NonBlank(blank[1..]) == [];
    assert NonBlank(blank) == [];
    assert NonBlank(a) + [] == NonBlank(a);
  }
}
