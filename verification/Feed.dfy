/** The published file: rendering rows to text and parsing text back (`render_csv`,
    `parse_emergency_csv`). */
module Feed {
  import opened Text
  import opened Rows
  import Csv

  // ---------- columns ----------

  const WIDTH := 29

  const REQUIRED: seq<Column> := [HostName, Ip, SchemaVersion, SourceTag]

  function Name(c: Column): string {
    match c
    case HostName => "HostName"
    case Ip => "IP"
    case Score => "Score"
    case Ping => "Ping"
    case Speed => "Speed"
    case CountryLong => "CountryLong"
    case CountryShort => "CountryShort"
    case NumVpnSessions => "NumVpnSessions"
    case Uptime => "Uptime"
    case TotalUsers => "TotalUsers"
    case TotalTraffic => "TotalTraffic"
    case LogType => "LogType"
    case OperatorName => "Operator"
    case Message => "Message"
    case Config => "OpenVPN_ConfigData_Base64"
    case SchemaVersion => "schema_version"
    case SeTcpPort => "SE_TCP_Port"
    case SeUdpSupported => "SE_UDP_Supported"
    case SeUdpPort => "SE_UDP_Port"
    case OpenVpnTcpPort => "OpenVPN_TCP_Port"
    case OpenVpnUdpPort => "OpenVPN_UDP_Port"
    case L2tpSupported => "L2TP_Supported"
    case SstpSupported => "SSTP_Supported"
    case SstpHostname => "SSTP_Hostname"
    case SstpPort => "SSTP_Port"
    case HasIpv6 => "Has_IPv6"
    case FirstSeenAt => "FirstSeenAt"
    case LastSeenAt => "LastSeenAt"
    case SourceTag => "SourceTag"
  }

  /** The documented column order. */
  function ColumnAt(i: nat): Column
    requires i < WIDTH
  {
    match i
    case 0 => HostName
    case 1 => Ip
    case 2 => Score
    case 3 => Ping
    case 4 => Speed
    case 5 => CountryLong
    case 6 => CountryShort
    case 7 => NumVpnSessions
    case 8 => Uptime
    case 9 => TotalUsers
    case 10 => TotalTraffic
    case 11 => LogType
    case 12 => OperatorName
    case 13 => Message
    case 14 => Config
    case 15 => SchemaVersion
    case 16 => SeTcpPort
    case 17 => SeUdpSupported
    case 18 => SeUdpPort
    case 19 => OpenVpnTcpPort
    case 20 => OpenVpnUdpPort
    case 21 => L2tpSupported
    case 22 => SstpSupported
    case 23 => SstpHostname
    case 24 => SstpPort
    case 25 => HasIpv6
    case 26 => FirstSeenAt
    case 27 => LastSeenAt
    case _ => SourceTag
  }

  function Position(c: Column): (i: nat)
    ensures i < WIDTH && ColumnAt(i) == c
  {
    match c
    case HostName => 0
    case Ip => 1
    case Score => 2
    case Ping => 3
    case Speed => 4
    case CountryLong => 5
    case CountryShort => 6
    case NumVpnSessions => 7
    case Uptime => 8
    case TotalUsers => 9
    case TotalTraffic => 10
    case LogType => 11
    case OperatorName => 12
    case Message => 13
    case Config => 14
    case SchemaVersion => 15
    case SeTcpPort => 16
    case SeUdpSupported => 17
    case SeUdpPort => 18
    case OpenVpnTcpPort => 19
    case OpenVpnUdpPort => 20
    case L2tpSupported => 21
    case SstpSupported => 22
    case SstpHostname => 23
    case SstpPort => 24
    case HasIpv6 => 25
    case FirstSeenAt => 26
    case LastSeenAt => 27
    case SourceTag => 28
  }

  function Header(): (fields: Csv.Record)
    ensures |fields| == WIDTH
  {
    seq(WIDTH, i requires 0 <= i < WIDTH => Name(ColumnAt(i)))
  }

  // ---------- render_csv ----------

  function Cells(r: Row): (fields: Csv.Record)
    ensures |fields| == WIDTH
  {
    seq(WIDTH, i requires 0 <= i < WIDTH => CellAt(r, ColumnAt(i)))
  }

  function Table(rows: seq<Row>): (records: seq<Csv.Record>)
    ensures |records| == |rows| && forall k :: 0 <= k < |rows| ==> records[k] == Cells(rows[k])
  {
    seq(|rows|, k requires 0 <= k < |rows| => Cells(rows[k]))
  }

  function Render(rows: seq<Row>): string {
    Csv.Write([Header()] + Table(rows))
  }

  // ---------- parse_emergency_csv ----------

  datatype Reason =
    | EmptyBody | ByteOrderMark | NotUtf8 | NoRecords | MissingColumns | HeaderOnly
    | UnsupportedSchema | NoValidRow

  /** `FieldTooLong` is the exception of the CSV reader, which the parser does not catch. */
  datatype ParseResult =
    | Parsed(rows: seq<Row>, rejected: nat)
    | Malformed(reason: Reason, rejectedRows: nat)
    | FieldTooLong

  function NonBlank(records: seq<Csv.Record>): seq<Csv.Record> {
    if records == [] then []
    else (if records[0] == [] then [] else [records[0]]) + NonBlank(records[1..])
  }

  function StripAll(fields: Csv.Record): (r: Csv.Record)
    ensures |r| == |fields|
  {
    seq(|fields|, i requires 0 <= i < |fields| => Strip(fields[i]))
  }

  /** The column a name denotes: the last one so called. */
  function LastIndex(columns: Csv.Record, name: string): (i: nat)
    requires name in columns
    ensures i < |columns| && columns[i] == name
  {
    var n := |columns| - 1;
    if columns[n] == name then n
    else
      assert columns == columns[..n] + [columns[n]];
      LastIndex(columns[..n], name)
  }

  /** A data record seen through the header. */
  function RawOf(columns: Csv.Record, record: Csv.Record): RawRow
    requires |record| == |columns|
  {
    c => if Name(c) in columns then Str(record[LastIndex(columns, Name(c))]) else Nil
  }

  predicate WrongSchema(columns: Csv.Record, record: Csv.Record)
    requires Name(SchemaVersion) in columns
  {
    |record| == |columns| && Strip(record[LastIndex(columns, Name(SchemaVersion))]) != SCHEMA_VERSION
  }

  function ParseRow(columns: Csv.Record, record: Csv.Record): Option<Row> {
    if |record| != |columns| then None else Sanitize(RawOf(columns, record))
  }

  /** The accepted rows and the number of rejected records. */
  function ParseRows(columns: Csv.Record, data: seq<Csv.Record>): (seq<Row>, nat) {
    if data == [] then ([], 0)
    else
      var n := |data| - 1;
      var (rows, rejected) := ParseRows(columns, data[..n]);
      match ParseRow(columns, data[n])
      case Some(row) => (rows + [row], rejected)
      case None => (rows, rejected + 1)
  }

  function ParseRecords(all: seq<Csv.Record>): ParseResult {
    var records := NonBlank(all);
    if records == [] then Malformed(NoRecords, 0)
    else
      var columns := StripAll(records[0]);
      var data := records[1..];
      if !HasRequired(columns) then Malformed(MissingColumns, 0)
      else if data == [] then Malformed(HeaderOnly, 0)
      else
        assert Name(REQUIRED[2]) in columns;
        if exists k :: 0 <= k < |data| && WrongSchema(columns, data[k]) then Malformed(UnsupportedSchema, 0)
        else
          var (rows, rejected) := ParseRows(columns, data);
          if rows == [] then Malformed(NoValidRow, rejected) else Parsed(rows, rejected)
  }

  function Parse(text: string): ParseResult {
    if Strip(text) == "" then Malformed(EmptyBody, 0)
    else if text != "" && text[0] == BYTE_ORDER_MARK then Malformed(ByteOrderMark, 0)
    else if REPLACEMENT in text then Malformed(NotUtf8, 0)
    else
      match Csv.Read(text)
      case None => FieldTooLong
      case Some(records) => ParseRecords(records)
  }

  /** The parser as a program: two passes over the data records. */
  method ParseEmergencyCsv(text: string) returns (result: ParseResult)
    ensures result == Parse(text)
  {
    hide Strip, Csv.Read, Name, NonBlank, StripAll, WrongSchema, ParseRow;
    if Strip(text) == "" {
      return Malformed(EmptyBody, 0);
    }
    if text != "" && text[0] == BYTE_ORDER_MARK {
      return Malformed(ByteOrderMark, 0);
    }
    if REPLACEMENT in text {
      return Malformed(NotUtf8, 0);
    }
    var read := Csv.Read(text);
    if read.None? {
      return FieldTooLong;
    }
    var records := NonBlank(read.value);
    if records == [] {
      return Malformed(NoRecords, 0);
    }
    var columns := StripAll(records[0]);
    for i := 0 to |REQUIRED|
      invariant forall j :: 0 <= j < i ==> Name(REQUIRED[j]) in columns
    {
      if Name(REQUIRED[i]) !in columns {
        return Malformed(MissingColumns, 0);
      }
    }
    var data := records[1..];
    if data == [] {
      return Malformed(HeaderOnly, 0);
    }
    assert HasRequired(columns) && Name(REQUIRED[2]) in columns;
    for k := 0 to |data|
      invariant forall j :: 0 <= j < k ==> !WrongSchema(columns, data[j])
    {
      if WrongSchema(columns, data[k]) {
        return Malformed(UnsupportedSchema, 0);
      }
    }
    var rows, rejected := [], 0;
    for k := 0 to |data|
      invariant (rows, rejected) == ParseRows(columns, data[..k])
    {
      assert data[..k + 1][..k] == data[..k];
      var row := ParseRow(columns, data[k]);
      if row.None? {
        rejected := rejected + 1;
      } else {
        rows := rows + [row.value];
      }
    }
    assert data[..|data|] == data;
    result := if rows == [] then Malformed(NoValidRow, rejected) else Parsed(rows, rejected);
  }

  // ---------- the header is found again ----------

  /** Names are short and hold neither blanks nor characters the dialect treats specially. */
  predicate NameText(s: string) {
    2 <= |s| <= 25 && forall i :: 0 <= i < |s| ==> '0' <= s[i] <= 'z'
  }

  // One lemma for all columns is too large a query; each takes its range of positions.

  lemma NameShapeA(c: Column)
    requires 0 <= Position(c) < 6
    ensures NameText(Name(c))
  {
  }

  lemma NameShapeB(c: Column)
    requires 6 <= Position(c) < 11
    ensures NameText(Name(c))
  {
  }

  lemma NameShapeC(c: Column)
    requires 11 <= Position(c) < 14
    ensures NameText(Name(c))
  {
  }

  lemma NameShapeD(c: Column)
    requires 14 <= Position(c) < 16
    ensures NameText(Name(c))
  {
  }

  lemma NameShapeE(c: Column)
    requires 16 <= Position(c) < 19
    ensures NameText(Name(c))
  {
  }

  lemma NameShapeF(c: Column)
    requires 19 <= Position(c) < 22
    ensures NameText(Name(c))
  {
  }

  lemma NameShapeG(c: Column)
    requires 22 <= Position(c) < 25
    ensures NameText(Name(c))
  {
  }

  lemma NameShapeH(c: Column)
    requires 25 <= Position(c) < 29
    ensures NameText(Name(c))
  {
  }

  lemma NameShape(c: Column)
    ensures NameText(Name(c)) && Strip(Name(c)) == Name(c)
  {
    hide Name, ColumnAt;
    var i := Position(c);
    hide Position;
    if i < 6 {
      NameShapeA(c);
    } else if i < 11 {
      NameShapeB(c);
    } else if i < 14 {
      NameShapeC(c);
    } else if i < 16 {
      NameShapeD(c);
    } else if i < 19 {
      NameShapeE(c);
    } else if i < 22 {
      NameShapeF(c);
    } else if i < 25 {
      NameShapeG(c);
    } else {
      NameShapeH(c);
    }
    var s := Name(c);
    assert StripLeft(s) == s && StripRight(s) == s;
  }

  // Likewise for telling names apart.

  lemma NamesDifferA(c: Column, d: Column)
    requires 0 <= Position(c) < 8 && Name(c) == Name(d)
    ensures c == d
  {
    assert |Name(c)| == |Name(d)|;
    hide ColumnAt;
  }

  lemma NamesDifferB(c: Column, d: Column)
    requires 8 <= Position(c) < 15 && Name(c) == Name(d)
    ensures c == d
  {
    assert |Name(c)| == |Name(d)|;
    hide ColumnAt;
  }

  lemma NamesDifferC(c: Column, d: Column)
    requires 15 <= Position(c) < 22 && Name(c) == Name(d)
    ensures c == d
  {
    assert |Name(c)| == |Name(d)|;
    hide ColumnAt;
  }

  lemma NamesDifferD(c: Column, d: Column)
    requires 22 <= Position(c) < 29 && Name(c) == Name(d)
    ensures c == d
  {
    assert |Name(c)| == |Name(d)|;
    hide ColumnAt;
  }

  lemma NamesDiffer(c: Column, d: Column)
    requires Name(c) == Name(d)
    ensures c == d
  {
    hide Name, Position, ColumnAt;
    if Position(c) < 8 {
      NamesDifferA(c, d);
    } else if Position(c) < 15 {
      NamesDifferB(c, d);
    } else if Position(c) < 22 {
      NamesDifferC(c, d);
    } else {
      NamesDifferD(c, d);
    }
  }

  lemma {:induction false} LastIndexDistinct(columns: Csv.Record, i: nat)
    requires i < |columns| && forall j :: 0 <= j < |columns| && j != i ==> columns[j] != columns[i]
    ensures LastIndex(columns, columns[i]) == i
  {
  }

  lemma HeaderIndex(c: Column)
    ensures Name(c) in Header() && LastIndex(Header(), Name(c)) == Position(c)
  {
    hide Name;
    var i := Position(c);
    assert Header()[i] == Name(c);
    forall j | 0 <= j < WIDTH && j != i ensures Header()[j] != Header()[i] {
      if Name(ColumnAt(j)) == Name(c) {
        NamesDiffer(ColumnAt(j), c);
        ColumnsInOrder(j);
      }
    }
    LastIndexDistinct(Header(), i);
  }

  lemma ColumnsInOrder(j: nat)
    requires j < WIDTH
    ensures Position(ColumnAt(j)) == j
  {
  }

  // ---------- round trip ----------

  lemma HeaderShape(i: nat)
    requires i < WIDTH
    ensures NameText(Header()[i]) && Strip(Header()[i]) == Header()[i]
  {
    NameShape(ColumnAt(i));
  }

  lemma HeaderStripped()
    ensures StripAll(Header()) == Header()
  {
    forall i | 0 <= i < WIDTH ensures StripAll(Header())[i] == Header()[i] {
      HeaderShape(i);
    }
  }

  lemma {:induction false} StripKeepsHead(s: string)
    requires s != "" && !IsSpace(s[0])
    ensures Strip(s) != ""
  {
    StripRightKeepsHead(s);
  }

  lemma TextStart(rows: seq<Row>)
    ensures Render(rows) != "" && Render(rows)[0] == 'H'
  {
    var h := Header();
    assert h[0] == "HostName";
    var all := [h] + Table(rows);
    assert all[0] == h;
    assert h != [""];
    HeaderShape(0);
    assert Csv.WriteField(h[0]) == h[0];
    assert Csv.WriteFields(h)[0] == h[0][0];
    assert Csv.WriteRecord(h) == Csv.WriteFields(h);
  }

  /** Some cell holds the replacement character. */
  predicate HasReplacement(rows: seq<Row>) {
    exists k :: 0 <= k < |rows| && RowHasReplacement(rows[k])
  }

  predicate RowHasReplacement(r: Row) {
    exists i :: 0 <= i < WIDTH && REPLACEMENT in CellAt(r, ColumnAt(i))
  }

  /** Every cell is short enough for the reader. */
  predicate Readable(rows: seq<Row>) {
    forall k :: 0 <= k < |rows| ==> Csv.WithinLimit(Cells(rows[k]))
  }

  lemma {:induction false} TableChars(rows: seq<Row>)
    ensures REPLACEMENT in Csv.Write(Table(rows)) <==> HasReplacement(rows)
  {
    if rows != [] {
      var rest := rows[1..];
      TableChars(rest);
      assert Table(rows)[1..] == Table(rest);
      var fields := Cells(rows[0]);
      Csv.FieldsChars(fields, REPLACEMENT);
      assert fields != [""];
      assert REPLACEMENT in Csv.Write(Table(rows)) <==>
             REPLACEMENT in Csv.WriteFields(fields) || REPLACEMENT in Csv.Write(Table(rest));
      assert REPLACEMENT in Csv.WriteFields(fields) <==> RowHasReplacement(rows[0]) by {
        if RowHasReplacement(rows[0]) {
          var i :| 0 <= i < WIDTH && REPLACEMENT in CellAt(rows[0], ColumnAt(i));
          assert REPLACEMENT in fields[i];
        }
      }
      assert HasReplacement(rows) <==> RowHasReplacement(rows[0]) || HasReplacement(rest) by {
        if k :| 0 <= k < |rest| && RowHasReplacement(rest[k]) {
          assert RowHasReplacement(rows[k + 1]);
        }
        if k :| 0 <= k < |rows| && RowHasReplacement(rows[k]) {
          assert k > 0 ==> RowHasReplacement(rest[k - 1]);
        }
      }
    }
  }

  lemma TextChars(rows: seq<Row>)
    ensures REPLACEMENT in Render(rows) <==> HasReplacement(rows)
  {
    var h := Header();
    var all := [h] + Table(rows);
    assert all[0] == h && all[1..] == Table(rows) && h != [""];
    TableChars(rows);
    Csv.FieldsChars(h, REPLACEMENT);
    forall i | 0 <= i < WIDTH ensures REPLACEMENT !in h[i] {
      HeaderShape(i);
    }
  }

  lemma TextReads(rows: seq<Row>)
    requires forall k :: 0 <= k < |rows| ==> Sanitized(rows[k])
    ensures Csv.Read(Render(rows)) == if Readable(rows) then Some([Header()] + Table(rows)) else None
  {
    var all := [Header()] + Table(rows);
    hide Sanitized, CellAt, Header, ColumnAt, Strip;
    forall k | 0 <= k < |all| ensures Csv.WithoutReturns(all[k]) {
      forall i | 0 <= i < WIDTH ensures '\r' !in all[k][i] {
        if k == 0 {
          HeaderShape(i);
        } else {
          CellsPlain(rows[k - 1], ColumnAt(i));
        }
      }
    }
    forall i | 0 <= i < WIDTH ensures |Header()[i]| <= Csv.FIELD_LIMIT {
      HeaderShape(i);
    }
    Csv.ReadWrite(all);
    assert (forall k :: 0 <= k < |all| ==> Csv.WithinLimit(all[k])) <==> Readable(rows) by {
      if forall k :: 0 <= k < |all| ==> Csv.WithinLimit(all[k]) {
        forall k | 0 <= k < |rows| ensures Csv.WithinLimit(Cells(rows[k])) {
          assert Csv.WithinLimit(all[k + 1]);
        }
      }
      if Readable(rows) {
        forall k | 0 < k < |all| ensures Csv.WithinLimit(all[k]) {
          assert all[k] == Cells(rows[k - 1]);
        }
      }
    }
  }

  lemma SameValues(a: RawRow, b: RawRow)
    requires forall c :: a(c) == b(c)
    ensures Sanitize(a) == Sanitize(b)
  {
    hide Clean, ToInt, ToPort, ToBool, ToCountryCode, ToConfig, ToTag, SplitSstpEndpoint, NormalizeIp, NormalizeHost;
  }

  lemma RowParses(r: Row)
    requires Sanitized(r)
    ensures ParseRow(Header(), Cells(r)) == Some(r)
  {
    SanitizeFixpoint(r);
    var raw := RawOf(Header(), Cells(r));
    hide Sanitize, Sanitized, LastIndex, ColumnAt, Name, Header, CellAt, Position;
    forall c ensures raw(c) == AsText(r)(c) {
      HeaderIndex(c);
      assert ColumnAt(Position(c)) == c;
    }
    SameValues(raw, AsText(r));
  }

  lemma SchemaMatches(r: Row)
    ensures Name(SchemaVersion) in Header() && !WrongSchema(Header(), Cells(r))
  {
    HeaderIndex(SchemaVersion);
    hide LastIndex, Name, Header, IsSpace;
    assert Cells(r)[Position(SchemaVersion)] == SCHEMA_VERSION;
    assert !IsSpace('1') && !IsSpace('0') by { NotSpace(); }
    assert StripLeft(SCHEMA_VERSION) == SCHEMA_VERSION && StripRight(SCHEMA_VERSION) == SCHEMA_VERSION;
  }

  lemma NotSpace()
    ensures !IsSpace('1') && !IsSpace('0') && !IsSpace('H')
  {
  }

  lemma {:induction false} RowsParse(rows: seq<Row>)
    requires forall k :: 0 <= k < |rows| ==> Sanitized(rows[k])
    ensures ParseRows(Header(), Table(rows)) == (rows, 0)
  {
    hide Sanitized, ParseRow, Header, Cells;
    if rows != [] {
      var n := |rows| - 1;
      assert Table(rows)[..n] == Table(rows[..n]);
      RowsParse(rows[..n]);
      RowParses(rows[n]);
      assert rows == rows[..n] + [rows[n]];
    }
  }

  lemma {:induction false} NoBlanks(records: seq<Csv.Record>)
    requires forall k :: 0 <= k < |records| ==> records[k] != []
    ensures NonBlank(records) == records
  {
    if records != [] {
      NoBlanks(records[1..]);
    }
  }

  predicate HasRequired(columns: Csv.Record) {
    forall i :: 0 <= i < |REQUIRED| ==> Name(REQUIRED[i]) in columns
  }

  lemma HeaderHasRequired()
    ensures HasRequired(Header())
  {
    hide Header, Name;
    forall i | 0 <= i < |REQUIRED| ensures Name(REQUIRED[i]) in Header() {
      HeaderIndex(REQUIRED[i]);
    }
  }

  lemma SchemasMatch(rows: seq<Row>)
    ensures Name(SchemaVersion) in Header()
    ensures forall k :: 0 <= k < |rows| ==> !WrongSchema(Header(), Table(rows)[k])
  {
    HeaderIndex(SchemaVersion);
    hide WrongSchema, Name, Header;
    forall k | 0 <= k < |rows| ensures !WrongSchema(Header(), Table(rows)[k]) {
      SchemaMatches(rows[k]);
    }
  }

  lemma RecordsParse(rows: seq<Row>)
    requires forall k :: 0 <= k < |rows| ==> Sanitized(rows[k])
    ensures ParseRecords([Header()] + Table(rows)) ==
            if rows == [] then Malformed(HeaderOnly, 0) else Parsed(rows, 0)
  {
    hide Sanitized, WrongSchema, Cells, Name, Strip, StripAll, Header, ParseRows, HasRequired;
    var all := [Header()] + Table(rows);
    RowsParse(rows);
    HeaderStripped();
    HeaderHasRequired();
    SchemasMatch(rows);
    NoBlanks(all);
    assert all[0] == Header() && all[1..] == Table(rows);
  }

  /** What the publisher reads back from a file it rendered: the same rows in the same order with
      none rejected, exactly when there are rows, no cell holds U+FFFD and none exceeds the reader's
      field limit. A single U+FFFD makes the parser reject the whole file. */
  lemma RoundTrip(rows: seq<Row>)
    requires forall k :: 0 <= k < |rows| ==> Sanitized(rows[k])
    ensures Parse(Render(rows)) ==
            if HasReplacement(rows) then Malformed(NotUtf8, 0)
            else if !Readable(rows) then FieldTooLong
            else if rows == [] then Malformed(HeaderOnly, 0)
            else Parsed(rows, 0)
  {
    hide Render, ParseRecords, Csv.Read, Strip, Sanitized, HasReplacement, Readable;
    TextStart(rows);
    StripKeepsHead(Render(rows));
    TextChars(rows);
    TextReads(rows);
    RecordsParse(rows);
  }

  lemma {:induction false} ParsedRowsSanitized(columns: Csv.Record, data: seq<Csv.Record>)
    ensures forall k :: 0 <= k < |ParseRows(columns, data).0| ==> Sanitized(ParseRows(columns, data).0[k])
    ensures |ParseRows(columns, data).0| + ParseRows(columns, data).1 == |data|
  {
    hide Sanitized, Sanitize;
    if data != [] {
      var n := |data| - 1;
      ParsedRowsSanitized(columns, data[..n]);
      if |data[n]| == |columns| {
        SanitizeIsSanitized(RawOf(columns, data[n]));
      }
    }
  }

  /** Whatever the text, accepted rows are sanitized. */
  lemma ParseSanitized(text: string)
    ensures var p := Parse(text); p.Parsed? ==> p.rows != [] && forall k :: 0 <= k < |p.rows| ==> Sanitized(p.rows[k])
  {
    hide Sanitized, ParseRows;
    if Parse(text).Parsed? {
      var records := NonBlank(Csv.Read(text).value);
      ParsedRowsSanitized(StripAll(records[0]), records[1..]);
    }
  }
}
