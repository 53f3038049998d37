/** The API source (`parse_api_csv`) and the merge of both sources (`fetch_fresh`). The text is the decoded
    body; fields that unquoted commas split are folded back before a row is sanitized. */
module ApiFeed {
  import opened Text
  import opened Rows
  import opened Feed
  import opened Merge
  import opened Repair
  import Csv

  // ---------- lines ----------

  /** The characters at which `str.splitlines` ends a line; CR LF is one end. */
  predicate IsLineEnd(c: char) {
    || '\n' <= c <= '\r' || '\U{001C}' <= c <= '\U{001E}'
    || c == '\U{0085}' || c == '\U{2028}' || c == '\U{2029}'
  }

  function LineLength(s: string): (n: nat)
    ensures n <= |s| && (n < |s| ==> IsLineEnd(s[n])) && forall i :: 0 <= i < n ==> !IsLineEnd(s[i])
  {
    if s == "" || IsLineEnd(s[0]) then 0 else 1 + LineLength(s[1..])
  }

  function SplitLines(s: string): seq<string>
    decreases |s|
  {
    if s == "" then []
    else
      var n := LineLength(s);
      var end := if n == |s| then 0 else if "\r\n" <= s[n..] then 2 else 1;
      [s[..n]] + SplitLines(s[n + end..])
  }

  function StripHashes(s: string): string {
    if s != "" && s[0] == '#' then StripHashes(s[1..]) else s
  }

  const HEADER_START := "hostname,ip,"

  predicate IsHeaderLine(line: string) {
    HEADER_START <= Lower(Strip(StripHashes(line)))
  }

  /** The first header line, or the number of lines. */
  function FirstHeader(lines: seq<string>): (k: nat)
    ensures k <= |lines| && (k < |lines| ==> IsHeaderLine(lines[k]))
    ensures forall j :: 0 <= j < k ==> !IsHeaderLine(lines[j])
  {
    if lines == [] || IsHeaderLine(lines[0]) then 0 else 1 + FirstHeader(lines[1..])
  }

  /** What the csv reader is given: the text from the header line on, less one leading `#`. */
  function Body(lines: seq<string>): string {
    var text := StripLeft(Join(lines, "\n"));
    if text != "" && text[0] == '#' then text[1..] else text
  }

  // ---------- records ----------

  /** Blank lines and the trailer. */
  predicate Skipped(vals: Csv.Record) {
    vals == [] || (|vals| == 1 && Strip(vals[0]) == "") || (vals[0] != "" && vals[0][0] == '*')
  }

  /** The first fifteen columns come from the line; the program adds the time and the source. */
  function ApiValue(fields: Csv.Record, seen: int, c: Column): Value
    requires |fields| == FIELDS
  {
    if c == FirstSeenAt then Num(seen)
    else if c == SourceTag then Str(TagText(ApiIphone))
    else if Position(c) < FIELDS then Str(fields[Position(c)])
    else Nil
  }

  function ApiRaw(fields: Csv.Record, seen: int): RawRow
    requires |fields| == FIELDS
  {
    c => ApiValue(fields, seen, c)
  }

  function ApiRow(vals: Csv.Record, seen: int): Option<Row> {
    match RepairPublisher(vals)
    case None => None
    case Some(fields) => Sanitize(ApiRaw(fields, seen))
  }

  /** `TooLong` is the reader's exception, which nothing catches. */
  datatype ApiResult = Accepted(rows: seq<Row>, bad: nat) | TooLong

  function ApiRows(records: seq<Csv.Record>, seen: int): (r: ApiResult)
    ensures r.Accepted?
  {
    if records == [] then Accepted([], 0)
    else
      var n := |records| - 1;
      var before := ApiRows(records[..n], seen);
      if Skipped(records[n]) then before
      else
        match ApiRow(records[n], seen)
        case Some(row) => Accepted(before.rows + [row], before.bad)
        case None => Accepted(before.rows, before.bad + 1)
  }

  /** The reader is given a field over its limit. */
  predicate FieldOverLimit(text: string) {
    var lines := SplitLines(text);
    var start := FirstHeader(lines);
    start < |lines| && Csv.Read(Body(lines[start..])).None?
  }

  function ParseApi(text: string, seen: int): ApiResult {
    var lines := SplitLines(text);
    var start := FirstHeader(lines);
    if start == |lines| then Accepted([], 0)
    else
      match Csv.Read(Body(lines[start..]))
      case None => TooLong
      case Some(records) => if records == [] || records[0] == [] then Accepted([], 0) else ApiRows(records[1..], seen)
  }

  /** Both sources merged; an absent API body counts as no rows. None is the reader's exception. */
  function FetchFresh(api: Option<string>, html: seq<Row>, seen: int): Option<seq<Row>> {
    if api.None? then Some(MergeFresh([], html))
    else
      match ParseApi(api.value, seen)
      case TooLong => None
      case Accepted(rows, _) => Some(MergeFresh(rows, html))
  }

  // ---------- the program ----------

  method ParseApiCsv(text: string, seen: int) returns (result: ApiResult)
    ensures result == ParseApi(text, seen)
  {
    hide SplitLines, IsHeaderLine, Body, Csv.Read, Skipped, ApiRow;
    var lines := SplitLines(text);
    var start := 0;
    while start < |lines| && !IsHeaderLine(lines[start])
      invariant start <= |lines| && forall j :: 0 <= j < start ==> !IsHeaderLine(lines[j])
    {
      start := start + 1;
    }
    assert start == FirstHeader(lines);
    if start == |lines| {
      return Accepted([], 0);
    }
    var read := Csv.Read(Body(lines[start..]));
    if read.None? {
      return TooLong;
    }
    if read.value == [] || read.value[0] == [] {
      return Accepted([], 0);
    }
    var records := read.value[1..];
    var rows, bad := [], 0;
    for k := 0 to |records|
      invariant Accepted(rows, bad) == ApiRows(records[..k], seen)
    {
      assert records[..k + 1][..k] == records[..k];
      if !Skipped(records[k]) {
        var row := ApiRow(records[k], seen);
        if row.None? {
          bad := bad + 1;
        } else {
          rows := rows + [row.value];
        }
      }
    }
    assert records[..|records|] == records;
    result := Accepted(rows, bad);
  }

  method FetchFreshRows(api: Option<string>, html: seq<Row>, seen: int) returns (fetched: Option<seq<Row>>)
    ensures fetched == FetchFresh(api, html, seen)
  {
    hide ParseApi, MergeFresh;
    var rows := [];
    if api.Some? {
      var parsed := ParseApiCsv(api.value, seen);
      if parsed.TooLong? {
        return None;
      }
      rows := parsed.rows;
    }
    var merged := MergeFreshRows(rows, html);
    fetched := Some(merged);
  }

  // ---------- what every text comes to ----------

  predicate FromApi(r: Row, seen: int) {
    Sanitized(r) && r.firstSeenAt == Some(seen) && r.lastSeenAt == None && r.sourceTag == ApiIphone
  }

  function Counted(records: seq<Csv.Record>): nat {
    if records == [] then 0 else Counted(records[..|records| - 1]) + (if Skipped(records[|records| - 1]) then 0 else 1)
  }

  lemma ApiRowShape(vals: Csv.Record, seen: int)
    ensures ApiRow(vals, seen).Some? ==> FromApi(ApiRow(vals, seen).value, seen)
  {
    hide Sanitized, Sanitize, NormalizeIp, IsClean;
    if ApiRow(vals, seen).Some? {
      var fields := RepairPublisher(vals).value;
      var raw := ApiRaw(fields, seen);
      SanitizeIsSanitized(raw);
      ApiRawMarks(fields, seen);
      ApiMarks(raw, seen);
    }
  }

  lemma ApiRawMarks(fields: Csv.Record, seen: int)
    requires |fields| == FIELDS
    ensures var raw := ApiRaw(fields, seen);
            raw(FirstSeenAt) == Num(seen) && raw(LastSeenAt) == Nil && raw(SourceTag) == Str(TagText(ApiIphone))
  {
    hide TagText;
    assert Position(LastSeenAt) == 27;
    hide Position;
  }

  lemma ApiMarks(raw: RawRow, seen: int)
    requires raw(FirstSeenAt) == Num(seen) && raw(LastSeenAt) == Nil && raw(SourceTag) == Str(TagText(ApiIphone))
    requires Sanitize(raw).Some?
    ensures var r := Sanitize(raw).value; r.firstSeenAt == Some(seen) && r.lastSeenAt == None && r.sourceTag == ApiIphone
  {
    IntCell(Some(seen));
    IntCell(None);
    TagCell(ApiIphone);
    hide ToInt, ToTag, Clean, NormalizeIp, NormalizeHost, SplitSstpEndpoint;
  }

  /** Every accepted row is sanitized and stamped with the time and the source, and every line that is neither
      blank nor the trailer is either accepted or counted. */
  lemma {:induction false} ApiRowsShape(records: seq<Csv.Record>, seen: int)
    ensures var r := ApiRows(records, seen);
            |r.rows| + r.bad == Counted(records) && forall k :: 0 <= k < |r.rows| ==> FromApi(r.rows[k], seen)
  {
    hide FromApi, ApiRow, Skipped;
    if records != [] {
      var n := |records| - 1;
      ApiRowsShape(records[..n], seen);
      ApiRowShape(records[n], seen);
    }
  }

  lemma ParseApiShape(text: string, seen: int)
    ensures var r := ParseApi(text, seen);
            r.Accepted? ==> forall k :: 0 <= k < |r.rows| ==> FromApi(r.rows[k], seen)
  {
    hide FromApi, ApiRows, Body, SplitLines, IsHeaderLine, Csv.Read;
    var lines := SplitLines(text);
    var start := FirstHeader(lines);
    if start < |lines| {
      var read := Csv.Read(Body(lines[start..]));
      if read.Some? && read.value != [] {
        ApiRowsShape(read.value[1..], seen);
      }
    }
  }

  lemma FetchFailsExactly(api: Option<string>, html: seq<Row>, seen: int)
    ensures FetchFresh(api, html, seen).None? <==> api.Some? && FieldOverLimit(api.value)
  {
    hide SplitLines, Body, Csv.Read, MergeFresh;
  }

  // ---------- which lines count ----------

  /** Empty, blank, or a line that starts with a star. */
  predicate NoRecord(vals: Csv.Record) {
    || vals == []
    || (|vals| == 1 && forall i :: 0 <= i < |vals[0]| ==> IsSpace(vals[0][i]))
    || (vals[0] != "" && vals[0][0] == '*')
  }

  lemma {:induction false} ApiRowsConcat(a: seq<Csv.Record>, b: seq<Csv.Record>, seen: int)
    ensures var x, y, z := ApiRows(a, seen), ApiRows(b, seen), ApiRows(a + b, seen);
            z.rows == x.rows + y.rows && z.bad == x.bad + y.bad
  {
    hide ApiRow, Skipped;
    if b == [] {
      assert a + b == a;
    } else {
      var n := |b| - 1;
      assert (a + b)[..|a + b| - 1] == a + b[..n];
      ApiRowsConcat(a, b[..n], seen);
    }
  }

  lemma OneRecord(r: Csv.Record, seen: int)
    ensures var x := ApiRows([r], seen);
            && (NoRecord(r) ==> x == Accepted([], 0))
            && (!NoRecord(r) ==> |x.rows| + x.bad == 1 && (|r| < FIELDS ==> x.bad == 1))
  {
    hide IsSpace, Sanitize, Strip;
    var one := [r];
    assert one[..0] == [];
    if |r| == 1 {
      StripBlank(r[0]);
    }
  }

  /** Wherever it stands, a line without a record changes nothing; any other line makes one row or counts as bad, a
      short one as bad. */
  lemma EachLineCounts(a: seq<Csv.Record>, r: Csv.Record, b: seq<Csv.Record>, seen: int)
    ensures var without, with := ApiRows(a + b, seen), ApiRows(a + [r] + b, seen);
            if NoRecord(r) then with == without
            else |with.rows| + with.bad == |without.rows| + without.bad + 1 && (|r| < FIELDS ==> with.rows == without.rows)
  {
    hide ApiRows, NoRecord;
    ApiRowsConcat(a, b, seen);
    ApiRowsConcat(a + [r], b, seen);
    ApiRowsConcat(a, [r], seen);
    OneRecord(r, seen);
  }

  /** The header line is known in any case, behind any number of `#`, with blanks around it. */
  lemma HeaderSpelled(hashes: string, before: string, head: string, after: string)
    requires forall i :: 0 <= i < |hashes| ==> hashes[i] == '#'
    requires forall i :: 0 <= i < |before| ==> IsSpace(before[i])
    requires forall i :: 0 <= i < |after| ==> IsSpace(after[i])
    requires head != "" && Trimmed(head) && head[0] != '#'
    ensures IsHeaderLine(hashes + before + head + after) <==>
            |head| >= 12 && forall i :: 0 <= i < 12 ==>
              head[i] == HEADER_START[i] || ('A' <= head[i] <= 'Z' && head[i] as int + 32 == HEADER_START[i] as int)
  {
    HashIsNoSpace();
    hide IsSpace;
    var rest := before + head + after;
    assert rest[0] == if before == "" then head[0] else before[0];
    assert hashes + before + head + after == hashes + rest;
    HashesStripped(hashes, rest);
    StripBlanks(before, head, after);
    var low := Lower(head);
    assert HEADER_START <= low <==> |low| >= 12 && forall i :: 0 <= i < 12 ==> low[i] == HEADER_START[i];
  }

  lemma HashIsNoSpace()
    ensures !IsSpace('#')
  {
  }

  lemma {:induction false} HashesStripped(hashes: string, rest: string)
    requires (forall i :: 0 <= i < |hashes| ==> hashes[i] == '#') && rest != "" && rest[0] != '#'
    ensures StripHashes(hashes + rest) == rest
  {
    if hashes == "" {
      assert hashes + rest == rest;
    } else {
      assert (hashes + rest)[1..] == hashes[1..] + rest;
      HashesStripped(hashes[1..], rest);
    }
  }

  // ---------- the reader always finds a header ----------

  lemma {:induction false} StripLeftPrefix(a: string, b: string)
    requires StripLeft(a) != ""
    ensures StripLeft(a + b) == StripLeft(a) + b
  {
    hide IsSpace;
    assert (a + b)[0] == a[0];
    if IsSpace(a[0]) {
      assert (a + b)[1..] == a[1..] + b;
      StripLeftPrefix(a[1..], b);
    }
  }

  lemma HeaderLineText(line: string)
    requires IsHeaderLine(line)
    ensures StripLeft(line) != "" && StripLeft(line) != "#"
  {
    StripLeftShape(line);
    assert Lower(Strip(StripHashes(line)))[0] == 'h';
    assert line != "" && line[0] != '#' ==> StripHashes(line) == line;
    assert line == "#" ==> StripHashes(line) == StripHashes("") == "";
  }

  lemma {:induction false} LinesUnbroken(s: string)
    ensures forall k, i :: 0 <= k < |SplitLines(s)| && 0 <= i < |SplitLines(s)[k]| ==> !IsLineEnd(SplitLines(s)[k][i])
    decreases |s|
  {
    hide IsLineEnd;
    if s != "" {
      var n := LineLength(s);
      var end := if n == |s| then 0 else if "\r\n" <= s[n..] then 2 else 1;
      LinesUnbroken(s[n + end..]);
    }
  }

  lemma BodyStart(lines: seq<string>)
    requires lines != [] && IsHeaderLine(lines[0]) && forall i :: 0 <= i < |lines[0]| ==> !IsLineEnd(lines[0][i])
    ensures Body(lines) != "" && !IsLineEnd(Body(lines)[0])
  {
    hide IsSpace, IsHeaderLine, StripLeft;
    var line, bare := lines[0], StripLeft(lines[0]);
    HeaderLineText(line);
    StripLeftShape(line);
    var rest := if |lines| == 1 then "" else "\n" + Join(lines[1..], "\n");
    assert Join(lines, "\n") == line + rest;
    StripLeftPrefix(line, rest);
    var start := |line| - |bare|;
    assert bare[0] == line[start];
    assert |bare| > 1 ==> bare[1] == line[start + 1];
    assert bare[0] == '#' ==> |bare| > 1 by {
      assert |bare| == 1 ==> bare == [bare[0]];
    }
  }

  /** Once a first field has begun, no first record is empty. */
  predicate Begun(r: Csv.Reader) {
    r.Reader? ==>
      if r.records == [] then r.mode != Csv.StartRecord && r.mode != Csv.AfterReturn else r.records[0] != []
  }

  lemma {:induction false} RunBegun(r: Csv.Reader, s: string)
    requires Begun(r)
    ensures Begun(Csv.Run(r, s))
    decreases s
  {
    if s != "" {
      RunBegun(Csv.Step(r, s[0]), s[1..]);
    }
  }

  /** When a header line is found, the reader's first record is not empty: the program's return for a missing
      header is never taken, and reading ahead of it loses nothing. */
  lemma HeaderIsNeverMissing(text: string)
    ensures var lines := SplitLines(text);
            var start := FirstHeader(lines);
            start < |lines| ==>
              var read := Csv.Read(Body(lines[start..]));
              read.Some? ==> read.value != [] && read.value[0] != []
  {
    hide SplitLines, IsHeaderLine, Body, Csv.Step;
    var lines := SplitLines(text);
    var start := FirstHeader(lines);
    if start < |lines| {
      LinesUnbroken(text);
      BodyStart(lines[start..]);
      var body := Body(lines[start..]);
      FirstCharBegins(body[0]);
      RunBegun(Csv.Step(Csv.FRESH, body[0]), body[1..]);
    }
  }

  lemma FirstCharBegins(c: char)
    requires !IsLineEnd(c)
    ensures Begun(Csv.Step(Csv.FRESH, c))
  {
  }

  // ---------- a published text is read back ----------

  /** A text without quotes and line ends. */
  predicate Whole(s: string) {
    forall i :: 0 <= i < |s| ==> s[i] != '"' && !IsLineEnd(s[i])
  }

  lemma SplitLast(line: string)
    requires line != "" && Whole(line)
    ensures SplitLines(line) == [line]
  {
    hide IsLineEnd;
    assert LineLength(line) == |line|;
    assert line[..|line|] == line && line[|line|..] == "";
  }

  lemma LineEndsAt(line: string, tail: string)
    requires (forall i :: 0 <= i < |line| ==> !IsLineEnd(line[i])) && tail != "" && IsLineEnd(tail[0])
    ensures LineLength(line + tail) == |line|
  {
    hide IsLineEnd;
    var s := line + tail;
    assert forall i :: 0 <= i < |line| ==> s[i] == line[i];
    assert s[|line|] == tail[0];
  }

  lemma SepSlices(line: string, sep: string, rest: string)
    requires sep == "\n" || sep == "\r\n"
    ensures var s, n := line + sep + rest, |line|;
            && s == line + (sep + rest) && s[..n] == line && s[n..] == sep + rest && s[n + |sep|..] == rest
            && (sep + rest)[0] == sep[0] && ("\r\n" <= sep + rest <==> |sep| == 2)
  {
  }

  lemma SplitUnfolds(s: string, end: nat)
    requires LineLength(s) < |s| && end == if "\r\n" <= s[LineLength(s)..] then 2 else 1
    ensures SplitLines(s) == [s[..LineLength(s)]] + SplitLines(s[LineLength(s) + end..])
  {
    hide IsLineEnd, LineLength;
    assert s != "";
  }

  lemma SplitFirst(line: string, sep: string, rest: string)
    requires Whole(line) && (sep == "\n" || sep == "\r\n")
    ensures SplitLines(line + sep + rest) == [line] + SplitLines(rest)
  {
    hide SplitLines;
    var s := line + sep + rest;
    SepSlices(line, sep, rest);
    assert IsLineEnd(sep[0]);
    hide IsLineEnd;
    LineEndsAt(line, sep + rest);
    SplitUnfolds(s, |sep|);
  }

  /** The ten characters that end a line. */
  const LINE_ENDS: set<char> := {
    '\U{000A}', '\U{000B}', '\U{000C}', '\U{000D}', '\U{001C}', '\U{001D}', '\U{001E}', '\U{0085}', '\U{2028}', '\U{2029}'}

  lemma LineEndsAre(c: char)
    ensures IsLineEnd(c) <==> c in LINE_ENDS
  {
  }

  /** A text is cut at each of these characters and at no other; CR LF is cut once, and a final end adds no line. */
  lemma LinesAreCut(line: string, c: char, rest: string)
    requires forall i :: 0 <= i < |line| ==> line[i] !in LINE_ENDS
    ensures SplitLines(line) == if line == "" then [] else [line]
    ensures c in LINE_ENDS ==>
              SplitLines(line + [c] + rest) ==
              [line] + SplitLines(if c == '\r' && rest != "" && rest[0] == '\n' then rest[1..] else rest)
  {
    forall i | 0 <= i < |line| ensures !IsLineEnd(line[i]) {
      LineEndsAre(line[i]);
    }
    LineEndsAre(c);
    hide IsLineEnd, LINE_ENDS, SplitLines;
    CutNowhere(line);
    if IsLineEnd(c) {
      CutAfter(line, c, rest);
    }
  }

  lemma CutNowhere(line: string)
    requires forall i :: 0 <= i < |line| ==> !IsLineEnd(line[i])
    ensures SplitLines(line) == if line == "" then [] else [line]
  {
    hide IsLineEnd;
    if line != "" {
      assert LineLength(line) == |line|;
      assert line[..|line|] == line && line[|line|..] == "";
    }
  }

  lemma CutAfter(line: string, c: char, rest: string)
    requires (forall i :: 0 <= i < |line| ==> !IsLineEnd(line[i])) && IsLineEnd(c)
    ensures SplitLines(line + [c] + rest) ==
            [line] + SplitLines(if c == '\r' && rest != "" && rest[0] == '\n' then rest[1..] else rest)
  {
    hide IsLineEnd, SplitLines, LineLength;
    var tail := [c] + rest;
    var s := line + tail;
    assert line + [c] + rest == s;
    LineEndsAt(line, tail);
    var two := c == '\r' && rest != "" && rest[0] == '\n';
    PairOfEnds(c, rest);
    var end := if two then 2 else 1;
    EndSlices(line, tail, end);
    SplitUnfolds(s, end);
    assert tail[end..] == if two then rest[1..] else rest;
  }

  lemma PairOfEnds(c: char, rest: string)
    ensures "\r\n" <= [c] + rest <==> c == '\r' && rest != "" && rest[0] == '\n'
  {
    var tail := [c] + rest;
    assert tail[0] == c && (rest != "" ==> tail[1] == rest[0]);
  }

  lemma EndSlices(line: string, tail: string, end: nat)
    requires end <= |tail|
    ensures var s := line + tail; s[..|line|] == line && s[|line|..] == tail && s[|line| + end..] == tail[end..]
  {
  }

  lemma {:induction false} SplitLinesJoin(lines: seq<string>, sep: string)
    requires sep == "\n" || sep == "\r\n"
    requires lines != [] && forall k :: 0 <= k < |lines| ==> lines[k] != "" && Whole(lines[k])
    ensures SplitLines(Join(lines, sep)) == lines
  {
    hide SplitLines, IsLineEnd;
    if |lines| == 1 {
      SplitLast(lines[0]);
    } else {
      SplitLinesJoin(lines[1..], sep);
      SplitFirst(lines[0], sep, Join(lines[1..], sep));
      assert lines == [lines[0]] + lines[1..];
    }
  }

  /** The text as the server sends it: a first line, the header behind a `#`, and the rest. */
  function ApiText(head: string, rest: seq<string>, sep: string): string {
    Join(["*vpn_servers", "#" + head] + rest, sep)
  }

  predicate HeaderText(head: string) {
    HEADER_START <= Lower(head) && Trimmed(head) && Whole(head) && Csv.WithinLimit(Split(head, ','))
  }

  lemma HeaderFound(head: string)
    requires HEADER_START <= Lower(head) && Trimmed(head)
    ensures IsHeaderLine("#" + head) && !IsHeaderLine("*vpn_servers")
  {
    assert Lower(head)[0] == 'h';
    assert ("#" + head)[1..] == head && StripHashes("#" + head) == StripHashes(head) == head;
    assert Strip(head) == head;
    var banner := "*vpn_servers";
    assert Strip(banner) == banner && Lower(banner)[0] == '*';
  }

  lemma TextBody(head: string, rest: seq<string>, sep: string)
    requires sep == "\n" || sep == "\r\n"
    requires HeaderText(head) && forall k :: 0 <= k < |rest| ==> rest[k] != "" && Whole(rest[k])
    ensures var lines := SplitLines(ApiText(head, rest, sep));
            FirstHeader(lines) == 1 && |lines| > 1 && Body(lines[1..]) == Join([head] + rest, "\n")
  {
    hide IsHeaderLine, Lower, Trimmed, SplitLines;
    var lines := ["*vpn_servers", "#" + head] + rest;
    SplitLinesJoin(lines, sep);
    HeaderFound(head);
    assert lines[1..] == ["#" + head] + rest;
    assert lines[1..][0] == "#" + head && lines[1..][1..] == rest && ([head] + rest)[1..] == rest;
    var text := Join(lines[1..], "\n");
    assert text == "#" + Join([head] + rest, "\n");
    assert !IsSpace('#');
  }

  function Terminated(lines: seq<string>): string {
    if lines == [] then "" else lines[0] + "\n" + Terminated(lines[1..])
  }

  lemma {:induction false} JoinTerminated(lines: seq<string>, last: string)
    ensures Join(lines + [last], "\n") == Terminated(lines) + last
  {
    if lines != [] {
      assert (lines + [last])[1..] == lines[1..] + [last];
      JoinTerminated(lines[1..], last);
    }
  }

  function Pieces(lines: seq<string>): (records: seq<Csv.Record>)
    ensures |records| == |lines| && forall k :: 0 <= k < |lines| ==> records[k] == Split(lines[k], ',')
  {
    seq(|lines|, k requires 0 <= k < |lines| => Split(lines[k], ','))
  }

  predicate ReadableLine(line: string) {
    line != "" && Whole(line) && Csv.WithinLimit(Split(line, ','))
  }

  lemma RunOneLine(line: string, done: seq<Csv.Record>)
    requires ReadableLine(line)
    ensures Csv.Run(Csv.Reader(Csv.StartRecord, "", [], done), line + "\n") ==
            Csv.Reader(Csv.StartRecord, "", [], done + [Split(line, ',')])
  {
    hide Csv.Run, Csv.Step, Split;
    var r, start := Csv.Reader(Csv.StartRecord, "", [], done), Csv.Reader(Csv.StartField, "", [], done);
    assert Bare(line);
    FirstStep(line, done);
    TailWithin(Split(line, ','));
    RunLine(start, line);
    var q := Csv.Run(start, line);
    Csv.RunConcat(r, line, "\n");
    LineEnds(q);
    assert "" + Split(line, ',')[0] == Split(line, ',')[0];
    assert Seen(q) == Split(line, ',');
  }

  lemma LineEnds(q: Csv.Reader)
    requires Open(q)
    ensures Csv.Run(q, "\n") == Csv.Reader(Csv.StartRecord, "", [], q.records + [Seen(q)])
  {
    assert Csv.Run(q, "\n") == Csv.Run(Csv.Step(q, '\n'), "\n"[1..]);
  }

  lemma {:induction false} RunLines(lines: seq<string>, done: seq<Csv.Record>)
    requires forall k :: 0 <= k < |lines| ==> ReadableLine(lines[k])
    ensures Csv.Run(Csv.Reader(Csv.StartRecord, "", [], done), Terminated(lines)) ==
            Csv.Reader(Csv.StartRecord, "", [], done + Pieces(lines))
  {
    hide ReadableLine, Csv.Step, Split;
    var r := Csv.Reader(Csv.StartRecord, "", [], done);
    if lines == [] {
      assert done + Pieces(lines) == done;
    } else {
      var rest := lines[1..];
      RunOneLine(lines[0], done);
      Csv.RunConcat(r, lines[0] + "\n", Terminated(rest));
      var more := done + [Split(lines[0], ',')];
      RunLines(rest, more);
      assert more + Pieces(rest) == done + Pieces(lines);
    }
  }

  /** A published line: commas in Message alone, no quotes, no line ends, no piece over the reader's limit. */
  predicate ApiLine(fields: Csv.Record) {
    CommasOnlyInMessage(fields) && ReadableLine(Join(fields, ",")) && (fields[0] == "" || fields[0][0] != '*')
  }

  function Texts(lines: seq<Csv.Record>): (texts: seq<string>)
    ensures |texts| == |lines| && forall k :: 0 <= k < |lines| ==> texts[k] == Join(lines[k], ",")
  {
    seq(|lines|, k requires 0 <= k < |lines| => Join(lines[k], ","))
  }

  lemma LineRecovered(fields: Csv.Record, seen: int)
    requires ApiLine(fields)
    ensures var vals := Split(Join(fields, ","), ',');
            !Skipped(vals) && !Skipped(fields) && ApiRow(vals, seen) == ApiRow(fields, seen)
  {
    hide Join, Split, Whole, Csv.WithinLimit, Sanitize;
    var vals := Split(Join(fields, ","), ',');
    RepairFindsMessage(fields);
    assert |vals| >= FIELDS && vals[0] == fields[0];
    assert RepairPublisher(fields) == Some(fields);
  }

  lemma {:induction false} LinesRecovered(lines: seq<Csv.Record>, seen: int)
    requires forall k :: 0 <= k < |lines| ==> ApiLine(lines[k])
    ensures ApiRows(Pieces(Texts(lines)), seen) == ApiRows(lines, seen)
  {
    hide ApiLine, Skipped, ApiRow, Split, Join;
    if lines != [] {
      var n := |lines| - 1;
      LinesRecovered(lines[..n], seen);
      LineRecovered(lines[n], seen);
      assert Pieces(Texts(lines))[..n] == Pieces(Texts(lines[..n]));
    }
  }

  lemma TrailerRead(done: seq<Csv.Record>, text: string)
    requires Csv.Run(Csv.FRESH, text) == Csv.Reader(Csv.StartRecord, "", [], done)
    ensures Csv.Read(text + "*") == Some(done + [["*"]])
  {
    Csv.RunConcat(Csv.FRESH, text, "*");
    var r := Csv.Reader(Csv.StartRecord, "", [], done);
    assert Csv.Run(r, "*") == Csv.Run(Csv.Step(r, '*'), "*"[1..]);
    assert [] + ["*"] == ["*"] && "" + "*" == "*";
  }

  lemma LinesRead(lines: seq<string>)
    requires forall k :: 0 <= k < |lines| ==> ReadableLine(lines[k])
    ensures Csv.Read(Terminated(lines) + "*") == Some(Pieces(lines) + [["*"]])
  {
    hide Csv.Run, Csv.Step, Csv.Read, Terminated, Pieces, Split, ReadableLine;
    RunLines(lines, []);
    var records := Pieces(lines);
    assert [] + records == records;
    TrailerRead(records, Terminated(lines));
  }

  lemma HeaderFirst(head: string, texts: seq<string>)
    ensures var lines := [head] + texts;
            && [head] + (texts + ["*"]) == lines + ["*"]
            && forall k :: 0 <= k < |lines| ==> lines[k] == if k == 0 then head else texts[k - 1]
  {
  }

  lemma TextRecords(head: string, texts: seq<string>)
    requires HeaderText(head) && forall k :: 0 <= k < |texts| ==> ReadableLine(texts[k])
    ensures Csv.Read(Join([head] + (texts + ["*"]), "\n")) == Some(Pieces([head] + texts) + [["*"]])
  {
    hide *;
    HeaderReadable(head);
    HeaderFirst(head, texts);
    var lines := [head] + texts;
    JoinTerminated(lines, "*");
    LinesRead(lines);
  }

  lemma WholeStar()
    ensures Whole("*")
  {
  }

  /** Every line comes back with the fields it was written with, although its Message was split at each comma,
      and the parser's verdicts are those on the fields themselves. */
  lemma ApiTextRecovered(head: string, lines: seq<Csv.Record>, sep: string, seen: int)
    requires sep == "\n" || sep == "\r\n"
    requires HeaderText(head) && forall k :: 0 <= k < |lines| ==> ApiLine(lines[k])
    ensures ParseApi(ApiText(head, Texts(lines) + ["*"], sep), seen) == ApiRows(lines, seen)
  {
    hide ApiText, ApiRow, Skipped, SplitLines, Csv.Read, Split, Join, FirstHeader, CommasOnlyInMessage, HeaderText, Body,
      Whole, Csv.WithinLimit;
    var texts := Texts(lines);
    WholeStar();
    TextBody(head, texts + ["*"], sep);
    TextRecords(head, texts);
    var records := Pieces([head] + texts);
    assert (records + [["*"]])[1..] == Pieces(texts) + [["*"]];
    TrailerSkipped(Pieces(texts), seen);
    LinesRecovered(lines, seen);
  }

  lemma HeaderReadable(head: string)
    requires HeaderText(head)
    ensures ReadableLine(head)
  {
    assert Lower(head) != "";
  }

  lemma TrailerSkipped(records: seq<Csv.Record>, seen: int)
    ensures ApiRows(records + [["*"]], seen) == ApiRows(records, seen)
  {
    hide ApiRow;
    assert (records + [["*"]])[..|records|] == records;
    assert Skipped(["*"]);
  }

  // ---------- a server's own columns return ----------

  /** The columns of a row that the API publishes. */
  function BaseCells(r: Row): (fields: Csv.Record)
    ensures |fields| == FIELDS
  {
    Cells(r)[..FIELDS]
  }

  /** What the API can say of a row: no protocol columns, first seen now. */
  function ApiPart(r: Row, seen: int): Row {
    r.(seTcpPort := 0, seUdpSupported := false, seUdpPort := 0, openVpnTcpPort := 0, openVpnUdpPort := 0,
       l2tpSupported := false, sstpSupported := false, sstpHostname := "", sstpPort := 0, hasIpv6 := false,
       firstSeenAt := Some(seen), lastSeenAt := None, sourceTag := ApiIphone)
  }

  lemma BaseCell(r: Row, c: Column)
    requires Position(c) < FIELDS
    ensures BaseCells(r)[Position(c)] == CellAt(r, c)
  {
    hide Position, ColumnAt, CellAt;
  }

  lemma BaseRaw(r: Row, seen: int, c: Column)
    ensures ApiRaw(BaseCells(r), seen)(c) ==
            if c == FirstSeenAt then Num(seen) else if c == SourceTag then Str(TagText(ApiIphone))
            else if Position(c) < FIELDS then AsText(r)(c) else Nil
  {
    hide Position, ColumnAt, CellAt, TagText, BaseCells;
    if Position(c) < FIELDS {
      BaseCell(r, c);
    }
  }

  lemma NilCell()
    ensures Clean(Nil) == "" && ToInt(Nil) == None && ToPort(Nil) == 0 && !ToBool(Nil)
  {
    IntCell(None);
    assert Lower("") == "";
  }

  lemma ApiPartSanitized(r: Row, seen: int)
    requires Sanitized(r)
    ensures Sanitized(ApiPart(r, seen))
  {
    hide IsClean, NormalizeIp, NormalizeHost, ValidBase64;
    GraphicIsClean("");
    assert Split("", ':') == [""];
  }

  lemma TextPositions()
    ensures forall c :: c in {HostName, Ip, CountryLong, LogType, OperatorName, Message} ==> Position(c) < FIELDS
    ensures Position(CountryShort) < FIELDS && Position(Config) < FIELDS && Position(SstpHostname) >= FIELDS
  {
  }

  lemma IntPositions()
    ensures forall c :: c in {Score, Ping, Speed, NumVpnSessions, Uptime, TotalUsers, TotalTraffic} ==> Position(c) < FIELDS
    ensures Position(LastSeenAt) >= FIELDS
  {
  }

  lemma ProtocolPositions()
    ensures forall c :: c in {SeTcpPort, SeUdpPort, OpenVpnTcpPort, OpenVpnUdpPort, SstpPort} ==> Position(c) >= FIELDS
    ensures forall c :: c in {SeUdpSupported, L2tpSupported, SstpSupported, HasIpv6} ==> Position(c) >= FIELDS
  {
  }

  lemma BaseTexts(r: Row, seen: int)
    requires Sanitized(r)
    ensures TextsRead(ApiRaw(BaseCells(r), seen), ApiPart(r, seen))
  {
    hide Clean, NormalizeIp, Sanitized, AsText, ApiRaw, BaseCells, Position;
    TextsCells(r);
    NilCell();
    TextPositions();
    BaseRaw(r, seen, HostName);
    BaseRaw(r, seen, Ip);
    BaseRaw(r, seen, CountryLong);
    BaseRaw(r, seen, LogType);
    BaseRaw(r, seen, OperatorName);
    BaseRaw(r, seen, Message);
    BaseRaw(r, seen, SstpHostname);
  }

  lemma BaseInts(r: Row, seen: int)
    ensures IntsRead(ApiRaw(BaseCells(r), seen), ApiPart(r, seen))
  {
    hide ToInt, AsText, ApiRaw, BaseCells, Position;
    IntsCells(r);
    NilCell();
    IntCell(Some(seen));
    IntPositions();
    BaseRaw(r, seen, Score);
    BaseRaw(r, seen, Ping);
    BaseRaw(r, seen, Speed);
    BaseRaw(r, seen, NumVpnSessions);
    BaseRaw(r, seen, Uptime);
    BaseRaw(r, seen, TotalUsers);
    BaseRaw(r, seen, TotalTraffic);
    BaseRaw(r, seen, FirstSeenAt);
    BaseRaw(r, seen, LastSeenAt);
  }

  lemma BasePorts(r: Row, seen: int)
    ensures PortsRead(ApiRaw(BaseCells(r), seen), ApiPart(r, seen))
  {
    hide ToPort, AsText, ApiRaw, BaseCells, Position;
    NilCell();
    ProtocolPositions();
    BaseRaw(r, seen, SeTcpPort);
    BaseRaw(r, seen, SeUdpPort);
    BaseRaw(r, seen, OpenVpnTcpPort);
    BaseRaw(r, seen, OpenVpnUdpPort);
    BaseRaw(r, seen, SstpPort);
  }

  lemma BaseFlags(r: Row, seen: int)
    ensures FlagsRead(ApiRaw(BaseCells(r), seen), ApiPart(r, seen))
  {
    hide ToBool, AsText, ApiRaw, BaseCells, Position;
    NilCell();
    ProtocolPositions();
    BaseRaw(r, seen, SeUdpSupported);
    BaseRaw(r, seen, L2tpSupported);
    BaseRaw(r, seen, SstpSupported);
    BaseRaw(r, seen, HasIpv6);
  }

  lemma BaseCodes(r: Row, seen: int)
    requires r.countryShort == "" || IsCountryCode(r.countryShort)
    requires r.config == "" || ValidBase64(r.config)
    ensures CodesRead(ApiRaw(BaseCells(r), seen), ApiPart(r, seen))
  {
    hide ToCountryCode, ToConfig, ToTag, TagText, AsText, ApiRaw, BaseCells, Position;
    CodesCells(r);
    TagCell(ApiIphone);
    TextPositions();
    BaseRaw(r, seen, CountryShort);
    BaseRaw(r, seen, Config);
    BaseRaw(r, seen, SourceTag);
  }

  /** A sanitized server sent with its own columns is the server received. */
  lemma BaseReturns(r: Row, seen: int)
    requires Sanitized(r)
    ensures ApiRow(BaseCells(r), seen) == Some(ApiPart(r, seen))
  {
    BaseCodes(r, seen);
    hide Sanitized, Sanitize, TextsRead, IntsRead, PortsRead, FlagsRead, CodesRead, ApiRaw, BaseCells, ApiPart, IsCountryCode,
      ValidBase64;
    BaseTexts(r, seen);
    BaseInts(r, seen);
    BasePorts(r, seen);
    BaseFlags(r, seen);
    ApiPartSanitized(r, seen);
    ReadsSanitize(ApiRaw(BaseCells(r), seen), ApiPart(r, seen));
  }

  function BaseLines(rows: seq<Row>): (lines: seq<Csv.Record>)
    ensures |lines| == |rows| && forall k :: 0 <= k < |rows| ==> lines[k] == BaseCells(rows[k])
  {
    seq(|rows|, k requires 0 <= k < |rows| => BaseCells(rows[k]))
  }

  function ApiParts(rows: seq<Row>, seen: int): (parts: seq<Row>)
    ensures |parts| == |rows| && forall k :: 0 <= k < |rows| ==> parts[k] == ApiPart(rows[k], seen)
  {
    seq(|rows|, k requires 0 <= k < |rows| => ApiPart(rows[k], seen))
  }

  lemma {:induction false} BaseLinesAccepted(rows: seq<Row>, seen: int)
    requires SanitizedRows(rows) && forall k :: 0 <= k < |rows| ==> ApiLine(BaseCells(rows[k]))
    ensures ApiRows(BaseLines(rows), seen) == Accepted(ApiParts(rows, seen), 0)
  {
    hide Sanitized, ApiLine, ApiRow, ApiPart, Skipped, BaseCells;
    if rows != [] {
      var n := |rows| - 1;
      BaseLinesAccepted(rows[..n], seen);
      BaseReturns(rows[n], seen);
      LineRecovered(BaseCells(rows[n]), seen);
      assert BaseLines(rows)[..n] == BaseLines(rows[..n]);
      assert ApiParts(rows, seen) == ApiParts(rows[..n], seen) + [ApiPart(rows[n], seen)];
    }
  }

  /** Sanitized servers sent to the publisher are the rows it reads, none lost or refused, as far as the API's columns
      go. */
  lemma SentRowsReturn(head: string, rows: seq<Row>, sep: string, seen: int)
    requires (sep == "\n" || sep == "\r\n") && HeaderText(head)
    requires SanitizedRows(rows) && forall k :: 0 <= k < |rows| ==> ApiLine(BaseCells(rows[k]))
    ensures ParseApi(ApiText(head, Texts(BaseLines(rows)) + ["*"], sep), seen) == Accepted(ApiParts(rows, seen), 0)
  {
    hide Sanitized, ApiLine, ParseApi, ApiText, HeaderText, ApiRows, BaseCells;
    ApiTextRecovered(head, BaseLines(rows), sep, seen);
    BaseLinesAccepted(rows, seen);
  }
}
