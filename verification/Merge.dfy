/** Merging rows of the same server (`merge_two`, `merge_fresh`, `merge_with_previous`) and keeping
    one row per host name (`dedupe_hostnames`). */
module Merge {
  import opened Text
  import opened Rows
  import opened Ordering
  import opened Ranking
  import opened Upsert

  // ---------- rows with the marks of this run ----------

  datatype Endpoint = Endpoint(ip: string, port: Port)

  datatype Verdict = NotProbed | Connected | ConnectFailed | NoEndpoint | Skipped

  /** `_healthy`, `_reason` and `_probed`; absent keys are None. */
  datatype Marks = Marks(healthy: Option<bool>, verdict: Verdict, probed: Option<Endpoint>)

  const UNMARKED := Marks(None, NotProbed, None)

  datatype Entry = Entry(row: Row, marks: Marks)

  function RowsOf(entries: seq<Entry>): (rows: seq<Row>)
    ensures |rows| == |entries| && forall k :: 0 <= k < |entries| ==> rows[k] == entries[k].row
  {
    seq(|entries|, k requires 0 <= k < |entries| => entries[k].row)
  }

  // ---------- merge_two ----------

  /** A non-empty value beats an empty one; between two non-empty ones the preference decides. */
  function Pick(empty: Value, base: Value, other: Value, preferOther: bool): Value {
    if other == empty then base else if base == empty || preferOther then other else base
  }

  function PickText(base: string, other: string, preferOther: bool): string {
    if other == "" then base else if base == "" || preferOther then other else base
  }

  function PickInt(base: Option<int>, other: Option<int>, preferOther: bool): Option<int> {
    if other.None? then base else if base.None? || preferOther then other else base
  }

  function PickPort(base: Port, other: Port, preferOther: bool): Port {
    if other == 0 then base else if base == 0 || preferOther then other else base
  }

  function PickFlag(base: bool, other: bool, preferOther: bool): bool {
    if !other then base else if !base || preferOther then other else base
  }

  function MinSeen(a: Option<int>, b: Option<int>): Option<int> {
    if a.None? then b else if b.None? then a else Some(if b.value < a.value then b.value else a.value)
  }

  function MaxSeen(a: Option<int>, b: Option<int>): Option<int> {
    if a.None? then b else if b.None? then a else Some(if b.value > a.value then b.value else a.value)
  }

  function CombineTags(a: Tag, b: Tag): Tag {
    if a == b then a else Merged
  }

  function MergeTwo(b: Row, o: Row, prefer: bool): Row {
    Row(
      PickText(b.hostName, o.hostName, prefer), PickText(b.ip, o.ip, prefer),
      PickInt(b.score, o.score, prefer), PickInt(b.ping, o.ping, prefer),
      PickInt(b.speed, o.speed, prefer), PickText(b.countryLong, o.countryLong, prefer),
      PickText(b.countryShort, o.countryShort, prefer), PickInt(b.numVpnSessions, o.numVpnSessions, prefer),
      PickInt(b.uptime, o.uptime, prefer), PickInt(b.totalUsers, o.totalUsers, prefer),
      PickInt(b.totalTraffic, o.totalTraffic, prefer), PickText(b.logType, o.logType, prefer),
      PickText(b.operatorName, o.operatorName, prefer), PickText(b.message, o.message, prefer),
      PickText(b.config, o.config, prefer),
      PickPort(b.seTcpPort, o.seTcpPort, prefer), PickFlag(b.seUdpSupported, o.seUdpSupported, prefer),
      PickPort(b.seUdpPort, o.seUdpPort, prefer), PickPort(b.openVpnTcpPort, o.openVpnTcpPort, prefer),
      PickPort(b.openVpnUdpPort, o.openVpnUdpPort, prefer),
      PickFlag(b.l2tpSupported, o.l2tpSupported, prefer),
      PickFlag(b.sstpSupported, o.sstpSupported, prefer),
      PickText(b.sstpHostname, o.sstpHostname, prefer), PickPort(b.sstpPort, o.sstpPort, prefer),
      PickFlag(b.hasIpv6, o.hasIpv6, prefer),
      MinSeen(b.firstSeenAt, o.firstSeenAt), MaxSeen(b.lastSeenAt, o.lastSeenAt),
      CombineTags(b.sourceTag, o.sourceTag))
  }

  // ---------- the algebra of merge_two ----------

  /** `_empty`. */
  function EmptyValue(c: Column): Value {
    match c
    case SeTcpPort | SeUdpPort | OpenVpnTcpPort | OpenVpnUdpPort | SstpPort => Num(0)
    case SeUdpSupported | L2tpSupported | SstpSupported | HasIpv6 => Flag(false)
    case Score | Ping | Speed | NumVpnSessions | Uptime | TotalUsers | TotalTraffic | FirstSeenAt | LastSeenAt => Nil
    case _ => Str("")
  }

  /** The columns the pairwise merge decides by emptiness and preference. */
  predicate IsDataColumn(c: Column) {
    !c.SchemaVersion? && !c.SourceTag? && !c.FirstSeenAt? && !c.LastSeenAt?
  }

  /** Merging in favour of the other row is the swapped merge in favour of the base. */
  lemma MergeSwap(a: Row, b: Row)
    ensures MergeTwo(a, b, true) == MergeTwo(b, a, false)
  {
  }

  lemma MergeText(a: Row, b: Row, prefer: bool, c: Column)
    requires IsDataColumn(c) && EmptyValue(c).Str?
    ensures ValueAt(MergeTwo(a, b, prefer), c) == Pick(EmptyValue(c), ValueAt(a, c), ValueAt(b, c), prefer)
  {
    hide PickInt, PickPort, PickFlag, MinSeen, MaxSeen, CombineTags;
  }

  lemma MergeInt(a: Row, b: Row, prefer: bool, c: Column)
    requires IsDataColumn(c) && EmptyValue(c).Nil?
    ensures ValueAt(MergeTwo(a, b, prefer), c) == Pick(EmptyValue(c), ValueAt(a, c), ValueAt(b, c), prefer)
  {
    hide PickText, PickPort, PickFlag, MinSeen, MaxSeen, CombineTags;
  }

  lemma MergePort(a: Row, b: Row, prefer: bool, c: Column)
    requires IsDataColumn(c) && EmptyValue(c).Num?
    ensures ValueAt(MergeTwo(a, b, prefer), c) == Pick(EmptyValue(c), ValueAt(a, c), ValueAt(b, c), prefer)
  {
    hide PickText, PickInt, PickFlag, MinSeen, MaxSeen, CombineTags, IsDataColumn;
    assert c.SeTcpPort? || c.SeUdpPort? || c.OpenVpnTcpPort? || c.OpenVpnUdpPort? || c.SstpPort?;
  }

  lemma MergeFlag(a: Row, b: Row, prefer: bool, c: Column)
    requires IsDataColumn(c) && EmptyValue(c).Flag?
    ensures ValueAt(MergeTwo(a, b, prefer), c) == Pick(EmptyValue(c), ValueAt(a, c), ValueAt(b, c), prefer)
  {
    hide PickText, PickInt, PickPort, MinSeen, MaxSeen, CombineTags;
  }

  /** The merge acts on every data column in the same way, whatever its type. */
  lemma MergeColumnwise(a: Row, b: Row, prefer: bool, c: Column)
    requires IsDataColumn(c)
    ensures ValueAt(MergeTwo(a, b, prefer), c) == Pick(EmptyValue(c), ValueAt(a, c), ValueAt(b, c), prefer)
  {
    hide MergeTwo, ValueAt;
    match EmptyValue(c)
    case Str(_) => MergeText(a, b, prefer, c);
    case Nil => MergeInt(a, b, prefer, c);
    case Num(_) => MergePort(a, b, prefer, c);
    case Flag(_) => MergeFlag(a, b, prefer, c);
  }

  lemma MergeAssociativeOther(a: Row, b: Row, c: Row)
    ensures MergeTwo(MergeTwo(a, b, true), c, true) == MergeTwo(a, MergeTwo(b, c, true), true)
  {
  }

  /** Merging is associative: three sources may be merged in either grouping. */
  lemma MergeAssociative(a: Row, b: Row, c: Row, prefer: bool)
    ensures MergeTwo(MergeTwo(a, b, prefer), c, prefer) == MergeTwo(a, MergeTwo(b, c, prefer), prefer)
  {
    hide MergeTwo;
    if prefer {
      MergeAssociativeOther(a, b, c);
    } else {
      MergeSwap(c, MergeTwo(a, b, false));
      MergeSwap(b, a);
      MergeSwap(c, b);
      MergeSwap(MergeTwo(b, c, false), a);
      MergeAssociativeOther(c, b, a);
    }
  }

  /** A merged value is one of the two, the preferred one when both are there, and empty only when
      both are: merging never loses a value. */
  lemma MergeKeepsValues(a: Row, b: Row, prefer: bool, c: Column)
    requires IsDataColumn(c)
    ensures var x, y, z := ValueAt(a, c), ValueAt(b, c), ValueAt(MergeTwo(a, b, prefer), c);
            && (z == EmptyValue(c) <==> x == EmptyValue(c) && y == EmptyValue(c))
            && (z == x || z == y)
            && (x != EmptyValue(c) && y != EmptyValue(c) ==> z == if prefer then y else x)
  {
    MergeColumnwise(a, b, prefer, c);
    hide ValueAt, EmptyValue, MergeTwo;
  }

  predicate IsLeast(m: Option<int>, a: Option<int>, b: Option<int>) {
    && (m == a || m == b)
    && (a.Some? ==> m.Some? && m.value <= a.value)
    && (b.Some? ==> m.Some? && m.value <= b.value)
  }

  predicate IsGreatest(m: Option<int>, a: Option<int>, b: Option<int>) {
    && (m == a || m == b)
    && (a.Some? ==> m.Some? && m.value >= a.value)
    && (b.Some? ==> m.Some? && m.value >= b.value)
  }

  /** The remaining columns: first seen is the minimum, last seen the maximum, unknown times are
      ignored; tags join with `merged` on top; support flags are the disjunction. */
  lemma MergeSeenAndTags(a: Row, b: Row, prefer: bool)
    ensures var m := MergeTwo(a, b, prefer);
            && IsLeast(m.firstSeenAt, a.firstSeenAt, b.firstSeenAt)
            && IsGreatest(m.lastSeenAt, a.lastSeenAt, b.lastSeenAt)
            && (m.sourceTag == Merged <==> a.sourceTag != b.sourceTag || a.sourceTag == Merged)
            && (m.sourceTag != Merged ==> m.sourceTag == a.sourceTag == b.sourceTag)
            && (m.l2tpSupported <==> a.l2tpSupported || b.l2tpSupported)
            && (m.sstpSupported <==> a.sstpSupported || b.sstpSupported)
            && (m.seUdpSupported <==> a.seUdpSupported || b.seUdpSupported)
            && (m.hasIpv6 <==> a.hasIpv6 || b.hasIpv6)
  {
  }

  /** Merging two sanitized rows of one server gives a sanitized row of that server. */
  lemma MergeSanitized(a: Row, b: Row, prefer: bool)
    requires Sanitized(a) && Sanitized(b) && a.ip == b.ip
    ensures var m := MergeTwo(a, b, prefer); Sanitized(m) && m.ip == a.ip
  {
    hide IsClean, NormalizeIp, NormalizeHost, HasPortSuffix, ValidBase64, IsCountryCode;
  }

  // ---------- merge_fresh ----------

  /** An API row with an HTML row of the same server: after the ordinary merge, non-empty HTML
      values replace the protocol columns. */
  function MergeHtml(cur: Row, h: Row): Row {
    var m := MergeTwo(cur, h, false);
    m.(seTcpPort := if h.seTcpPort != 0 then h.seTcpPort else m.seTcpPort,
       seUdpSupported := if h.seUdpSupported then true else m.seUdpSupported,
       seUdpPort := if h.seUdpPort != 0 then h.seUdpPort else m.seUdpPort,
       openVpnTcpPort := if h.openVpnTcpPort != 0 then h.openVpnTcpPort else m.openVpnTcpPort,
       openVpnUdpPort := if h.openVpnUdpPort != 0 then h.openVpnUdpPort else m.openVpnUdpPort,
       l2tpSupported := if h.l2tpSupported then true else m.l2tpSupported,
       sstpSupported := if h.sstpSupported then true else m.sstpSupported,
       sstpHostname := if h.sstpHostname != "" then h.sstpHostname else m.sstpHostname,
       sstpPort := if h.sstpPort != 0 then h.sstpPort else m.sstpPort,
       hasIpv6 := if h.hasIpv6 then true else m.hasIpv6,
       sourceTag := Merged)
  }

  predicate IsProtocolColumn(c: Column) {
    || c.SeTcpPort? || c.SeUdpSupported? || c.SeUdpPort? || c.OpenVpnTcpPort? || c.OpenVpnUdpPort?
    || c.L2tpSupported? || c.SstpSupported? || c.SstpHostname? || c.SstpPort? || c.HasIpv6?
  }

  lemma HtmlFlag(cur: Row, h: Row, c: Column)
    requires c.SeUdpSupported? || c.L2tpSupported? || c.SstpSupported? || c.HasIpv6? || c.SstpHostname?
    ensures ValueAt(MergeHtml(cur, h), c) ==
            if ValueAt(h, c) != EmptyValue(c) then ValueAt(h, c) else ValueAt(MergeTwo(cur, h, false), c)
  {
    hide MergeTwo;
  }

  lemma HtmlPort(cur: Row, h: Row, c: Column)
    requires c.SeTcpPort? || c.SeUdpPort? || c.OpenVpnTcpPort? || c.OpenVpnUdpPort? || c.SstpPort?
    ensures ValueAt(MergeHtml(cur, h), c) ==
            if ValueAt(h, c) != EmptyValue(c) then ValueAt(h, c) else ValueAt(MergeTwo(cur, h, false), c)
  {
    hide MergeTwo;
  }

  lemma HtmlBase(cur: Row, h: Row, c: Column)
    requires !IsProtocolColumn(c) && IsDataColumn(c)
    ensures ValueAt(MergeHtml(cur, h), c) == ValueAt(MergeTwo(cur, h, false), c)
  {
    hide MergeTwo;
  }

  lemma HtmlOverride(cur: Row, h: Row, c: Column)
    requires IsDataColumn(c)
    ensures ValueAt(MergeHtml(cur, h), c) ==
            if IsProtocolColumn(c) && ValueAt(h, c) != EmptyValue(c) then ValueAt(h, c)
            else ValueAt(MergeTwo(cur, h, false), c)
  {
    hide MergeTwo, ValueAt, MergeHtml, EmptyValue;
    if !IsProtocolColumn(c) {
      HtmlBase(cur, h, c);
    } else if c.SeTcpPort? || c.SeUdpPort? || c.OpenVpnTcpPort? || c.OpenVpnUdpPort? || c.SstpPort? {
      HtmlPort(cur, h, c);
    } else {
      HtmlFlag(cur, h, c);
    }
  }

  /** The API owns the base columns and HTML the protocol columns; either fills the other's gaps. */
  lemma HtmlOwnsProtocolColumns(cur: Row, h: Row, c: Column)
    requires IsDataColumn(c)
    ensures ValueAt(MergeHtml(cur, h), c) ==
            Pick(EmptyValue(c), ValueAt(cur, c), ValueAt(h, c), IsProtocolColumn(c))
  {
    HtmlOverride(cur, h, c);
    MergeColumnwise(cur, h, false, c);
    hide ValueAt, EmptyValue, MergeTwo, MergeHtml, IsProtocolColumn, IsDataColumn;
  }

  lemma MergeHtmlSanitized(a: Row, b: Row)
    requires Sanitized(a) && Sanitized(b) && a.ip == b.ip
    ensures var m := MergeHtml(a, b); Sanitized(m) && m.ip == a.ip
  {
    MergeSanitized(a, b, false);
    hide IsClean, NormalizeIp, NormalizeHost, HasPortSuffix, ValidBase64, IsCountryCode;
  }

  function IpOf(r: Row): string { r.ip }

  /** `{r["IP"]: r for r in rows}`: the last row of an IP wins. */
  const BY_IP: Rule<Row, string, Row> := Rule(IpOf, Itself, Latest)

  function Itself(r: Row): Row { r }

  function Latest(cur: Row, r: Row): Row { r }

  const HTML_RULE: Rule<Row, string, Row> := Rule(IpOf, Itself, MergeHtml)

  function FreshDict(api: seq<Row>, html: seq<Row>): Dict<string, Row> {
    AddAll(AddAll(Empty(), api, BY_IP), html, HTML_RULE)
  }

  lemma FreshDictValid(api: seq<Row>, html: seq<Row>)
    ensures FreshDict(api, html).Valid()
  {
    AddAllValid(Empty(), api, BY_IP);
    AddAllValid(AddAll(Empty(), api, BY_IP), html, HTML_RULE);
  }

  function MergeFresh(api: seq<Row>, html: seq<Row>): seq<Row> {
    FreshDictValid(api, html);
    FreshDict(api, html).Values()
  }

  /** `merge_fresh` as a program over a dictionary. */
  method MergeFreshRows(api: seq<Row>, html: seq<Row>) returns (merged: seq<Row>)
    ensures merged == MergeFresh(api, html)
  {
    hide MergeHtml;
    var byIp: Dict<string, Row> := Empty();
    for k := 0 to |api|
      invariant byIp == AddAll(Empty(), api[..k], BY_IP)
    {
      assert api[..k + 1][..k] == api[..k];
      byIp := byIp.Put(api[k].ip, api[k]);
    }
    assert api[..|api|] == api;
    for k := 0 to |html|
      invariant byIp == AddAll(AddAll(Empty(), api, BY_IP), html[..k], HTML_RULE)
    {
      assert html[..k + 1][..k] == html[..k];
      var h := html[k];
      var cur := byIp.Get(h.ip);
      byIp := byIp.Put(h.ip, if cur.None? then h else MergeHtml(cur.value, h));
    }
    assert html[..|html|] == html;
    FreshDictValid(api, html);
    merged := byIp.Values();
  }

  // ---------- merge_with_previous ----------

  function EntryIp(e: Entry): string { e.row.ip }

  function ItselfEntry(e: Entry): Entry { e }

  function LatestEntry(cur: Entry, e: Entry): Entry { e }

  function NewEntry(f: Row): Entry { Entry(f, UNMARKED) }

  /** A fresh row over a previous one: the fresh values win, the marks of this run survive. */
  function MergePrevious(cur: Entry, f: Row): Entry {
    Entry(MergeTwo(cur.row, f, true), cur.marks)
  }

  const PREVIOUS_BY_IP: Rule<Entry, string, Entry> := Rule(EntryIp, ItselfEntry, LatestEntry)

  const FRESH_RULE: Rule<Row, string, Entry> := Rule(IpOf, NewEntry, MergePrevious)

  function MergedDict(previous: seq<Entry>, fetched: seq<Row>): Dict<string, Entry> {
    AddAll(AddAll(Empty(), previous, PREVIOUS_BY_IP), fetched, FRESH_RULE)
  }

  lemma MergedDictValid(previous: seq<Entry>, fetched: seq<Row>)
    ensures MergedDict(previous, fetched).Valid()
  {
    AddAllValid(Empty(), previous, PREVIOUS_BY_IP);
    AddAllValid(AddAll(Empty(), previous, PREVIOUS_BY_IP), fetched, FRESH_RULE);
  }

  function MergeWithPrevious(previous: seq<Entry>, fetched: seq<Row>): seq<Entry> {
    MergedDictValid(previous, fetched);
    MergedDict(previous, fetched).Values()
  }

  method MergeWithPreviousRows(previous: seq<Entry>, fetched: seq<Row>) returns (merged: seq<Entry>)
    ensures merged == MergeWithPrevious(previous, fetched)
  {
    hide MergeTwo;
    var byIp: Dict<string, Entry> := Empty();
    for k := 0 to |previous|
      invariant byIp == AddAll(Empty(), previous[..k], PREVIOUS_BY_IP)
    {
      assert previous[..k + 1][..k] == previous[..k];
      byIp := byIp.Put(previous[k].row.ip, previous[k]);
    }
    assert previous[..|previous|] == previous;
    for k := 0 to |fetched|
      invariant byIp == AddAll(AddAll(Empty(), previous, PREVIOUS_BY_IP), fetched[..k], FRESH_RULE)
    {
      assert fetched[..k + 1][..k] == fetched[..k];
      var f := fetched[k];
      var cur := byIp.Get(f.ip);
      byIp := byIp.Put(f.ip,
        if cur.None? then Entry(f, UNMARKED) else Entry(MergeTwo(cur.value.row, f, true), cur.value.marks));
    }
    assert fetched[..|fetched|] == fetched;
    MergedDictValid(previous, fetched);
    merged := byIp.Values();
  }

  // ---------- what the merges produce ----------

  predicate DistinctEntries(entries: seq<Entry>) {
    forall i, j :: 0 <= i < j < |entries| ==> entries[i].row.ip != entries[j].row.ip
  }

  predicate HasIp(rows: seq<Row>, ip: string) {
    exists k :: 0 <= k < |rows| && rows[k].ip == ip
  }

  predicate SanitizedRows(rows: seq<Row>) {
    forall k :: 0 <= k < |rows| ==> Sanitized(rows[k])
  }

  predicate SanitizedEntries(entries: seq<Entry>) {
    forall k :: 0 <= k < |entries| ==> Sanitized(entries[k].row)
  }

  predicate GoodRow(ip: string, r: Row) { r.ip == ip && Sanitized(r) }

  predicate GoodEntry(ip: string, e: Entry) { e.row.ip == ip && Sanitized(e.row) }

  lemma FreshDictGood(api: seq<Row>, html: seq<Row>)
    requires SanitizedRows(api) && SanitizedRows(html)
    ensures Holds(FreshDict(api, html), GoodRow)
  {
    hide Sanitized, MergeHtml;
    AddAllInvariant(Empty(), api, BY_IP, GoodRow);
    forall h, v | h in html && GoodRow(h.ip, v) ensures GoodRow(h.ip, MergeHtml(v, h)) {
      MergeHtmlSanitized(v, h);
    }
    AddAllInvariant(AddAll(Empty(), api, BY_IP), html, HTML_RULE, GoodRow);
  }

  /** `merge_fresh` yields one sanitized row per IP, for exactly the IPs it was given. */
  lemma MergeFreshRowsPerIp(api: seq<Row>, html: seq<Row>)
    requires SanitizedRows(api) && SanitizedRows(html)
    ensures var m := MergeFresh(api, html);
            && SanitizedRows(m) && DistinctIps(m)
            && forall ip :: HasIp(m, ip) <==> HasIp(api, ip) || HasIp(html, ip)
  {
    hide Sanitized, MergeHtml;
    FreshDictValid(api, html);
    FreshDictGood(api, html);
    var d, m := FreshDict(api, html), MergeFresh(api, html);
    forall k | 0 <= k < |m| ensures m[k].ip == d.keys[k] && Sanitized(m[k]) {
      assert GoodRow(d.keys[k], d.vals[d.keys[k]]);
    }
    forall ip
      ensures HasIp(m, ip) <==> HasIp(api, ip) || HasIp(html, ip)
    {
      AddAllKeys(Empty(), api, BY_IP, ip);
      AddAllKeys(AddAll(Empty(), api, BY_IP), html, HTML_RULE, ip);
      assert ip in d.vals <==> ip in d.keys;
      assert ip in d.keys <==> HasIp(m, ip);
    }
  }

  lemma MergedDictGood(previous: seq<Entry>, fetched: seq<Row>)
    requires SanitizedEntries(previous) && SanitizedRows(fetched)
    ensures Holds(MergedDict(previous, fetched), GoodEntry)
  {
    hide Sanitized, MergeTwo;
    AddAllInvariant(Empty(), previous, PREVIOUS_BY_IP, GoodEntry);
    forall f, v | f in fetched && GoodEntry(f.ip, v) ensures GoodEntry(f.ip, MergePrevious(v, f)) {
      MergeSanitized(v.row, f, true);
    }
    AddAllInvariant(AddAll(Empty(), previous, PREVIOUS_BY_IP), fetched, FRESH_RULE, GoodEntry);
  }

  /** The merge with the previous file yields one sanitized row per IP, for exactly the union. */
  lemma MergeWithPreviousRowsPerIp(previous: seq<Entry>, fetched: seq<Row>)
    requires SanitizedEntries(previous) && SanitizedRows(fetched)
    ensures var m := MergeWithPrevious(previous, fetched);
            && SanitizedEntries(m) && DistinctEntries(m)
            && forall ip :: HasIp(RowsOf(m), ip) <==> HasIp(RowsOf(previous), ip) || HasIp(fetched, ip)
  {
    hide Sanitized, MergeTwo;
    MergedDictValid(previous, fetched);
    MergedDictGood(previous, fetched);
    var d, m := MergedDict(previous, fetched), MergeWithPrevious(previous, fetched);
    forall k | 0 <= k < |m| ensures m[k].row.ip == d.keys[k] && Sanitized(m[k].row) {
      assert GoodEntry(d.keys[k], d.vals[d.keys[k]]);
    }
    forall ip
      ensures HasIp(RowsOf(m), ip) <==> HasIp(RowsOf(previous), ip) || HasIp(fetched, ip)
    {
      AddAllKeys(Empty(), previous, PREVIOUS_BY_IP, ip);
      AddAllKeys(AddAll(Empty(), previous, PREVIOUS_BY_IP), fetched, FRESH_RULE, ip);
      assert ip in d.vals <==> ip in d.keys;
      assert ip in d.keys <==> HasIp(RowsOf(m), ip);
    }
  }

  /** Of several previous rows with one IP the last counts. */
  lemma {:induction false} PreviousByIp(previous: seq<Entry>, ip: string)
    ensures AddAll(Empty(), previous, PREVIOUS_BY_IP).Get(ip) == Find(previous, EntryIp, ip)
  {
    if previous != [] {
      PreviousByIp(previous[..|previous| - 1], ip);
    }
  }

  /** What the merge makes of one server: a previous-only row passes unchanged with its marks, a
      new server enters unmarked, a known one is merged in favour of the fresh values. */
  lemma MergedPerServer(previous: seq<Entry>, fetched: seq<Row>, e: Entry)
    requires SanitizedEntries(previous) && SanitizedRows(fetched) && DistinctIps(fetched)
    ensures e in MergeWithPrevious(previous, fetched) <==>
            Some(e) == match (Find(previous, EntryIp, e.row.ip), Find(fetched, IpOf, e.row.ip))
                       case (None, None) => None
                       case (Some(p), None) => Some(p)
                       case (None, Some(f)) => Some(Entry(f, UNMARKED))
                       case (Some(p), Some(f)) => Some(Entry(MergeTwo(p.row, f, true), p.marks))
  {
    hide Sanitized, MergeTwo;
    MergedDictValid(previous, fetched);
    MergedDictGood(previous, fetched);
    var d0, d, ip := AddAll(Empty(), previous, PREVIOUS_BY_IP), MergedDict(previous, fetched), e.row.ip;
    ValuesMembers(d);
    assert e in d.Values() <==> d.Get(ip) == Some(e) by {
      if e in d.Values() {
        var k :| k in d.vals && d.vals[k] == e;
        assert GoodEntry(k, e);
      }
    }
    assert DistinctKeys(fetched, FRESH_RULE.key);
    PreviousByIp(previous, ip);
    AddAllAt(d0, fetched, FRESH_RULE, ip);
  }

  /** Without fresh rows the merge returns the previous list as it is. */
  lemma MergeNothingFresh(previous: seq<Entry>)
    requires DistinctEntries(previous)
    ensures MergeWithPrevious(previous, []) == previous
  {
    MergedDictValid(previous, []);
    assert DistinctKeys(previous, PREVIOUS_BY_IP.key);
    AddAllDistinct(previous, PREVIOUS_BY_IP);
    var d := MergedDict(previous, []);
    forall i | 0 <= i < |previous| ensures d.Values()[i] == previous[i] {
      assert d.Get(d.keys[i]) == Some(previous[i]);
    }
  }

  // ---------- the merge of the two sources, server by server ----------

  lemma {:induction false} ApiByIp(api: seq<Row>, ip: string)
    ensures AddAll(Empty(), api, BY_IP).Get(ip) == Find(api, IpOf, ip)
  {
    if api != [] {
      ApiByIp(api[..|api| - 1], ip);
    }
  }

  /** A server of one source passes as it is, the last row of its IP; one of both is merged in the html's favour. */
  lemma MergeFreshPerServer(api: seq<Row>, html: seq<Row>, r: Row)
    requires SanitizedRows(api) && SanitizedRows(html) && DistinctIps(html)
    ensures r in MergeFresh(api, html) <==>
            Some(r) == match (Find(api, IpOf, r.ip), Find(html, IpOf, r.ip))
                       case (None, None) => None
                       case (Some(a), None) => Some(a)
                       case (None, Some(h)) => Some(h)
                       case (Some(a), Some(h)) => Some(MergeHtml(a, h))
  {
    hide Sanitized, MergeHtml;
    FreshDictValid(api, html);
    FreshDictGood(api, html);
    var d, ip := FreshDict(api, html), r.ip;
    ValuesMembers(d);
    assert r in d.Values() <==> d.Get(ip) == Some(r) by {
      if r in d.Values() {
        var k :| k in d.vals && d.vals[k] == r;
        assert GoodRow(k, r);
      }
    }
    assert DistinctKeys(html, HTML_RULE.key);
    ApiByIp(api, ip);
    AddAllAt(AddAll(Empty(), api, BY_IP), html, HTML_RULE, ip);
  }

  // ---------- the order of the merged lists ----------

  /** Servers are listed where their IP first appears: the previous list's, then the new ones. */
  lemma MergedInOrder(previous: seq<Entry>, fetched: seq<Row>)
    requires SanitizedEntries(previous) && SanitizedRows(fetched)
    ensures var m := MergeWithPrevious(previous, fetched);
            KeysOf(m, EntryIp) == Firsts(KeysOf(previous, EntryIp) + KeysOf(fetched, IpOf))
  {
    hide Sanitized, MergeTwo;
    MergedDictValid(previous, fetched);
    MergedDictGood(previous, fetched);
    var none: Dict<string, Entry> := Empty();
    FirstAppearance([], none, previous, PREVIOUS_BY_IP);
    assert [] + KeysOf(previous, EntryIp) == KeysOf(previous, EntryIp);
    AddAllValid(none, previous, PREVIOUS_BY_IP);
    FirstAppearance(KeysOf(previous, EntryIp), AddAll(none, previous, PREVIOUS_BY_IP), fetched, FRESH_RULE);
    var d, m := MergedDict(previous, fetched), MergeWithPrevious(previous, fetched);
    forall i | 0 <= i < |m| ensures KeysOf(m, EntryIp)[i] == d.keys[i] {
      assert GoodEntry(d.keys[i], d.vals[d.keys[i]]);
    }
  }

  // ---------- dedupe_hostnames ----------

  function HostKey(e: Entry): string { NormalizeHost(e.row.hostName) }

  /** `r["Score"] or -1`: a score of 0 counts as unknown here, unlike in the ranking. */
  function ScoreOrUnknown(r: Row): int {
    if r.score.None? || r.score.value == 0 then -1 else r.score.value
  }

  /** The strength of `a` exceeds that of `b`. */
  predicate Stronger(a: Row, b: Row) {
    if ProtocolCount(a) != ProtocolCount(b) then ProtocolCount(a) > ProtocolCount(b)
    else if ScoreOrUnknown(a) != ScoreOrUnknown(b) then ScoreOrUnknown(a) > ScoreOrUnknown(b)
    else IpTextLess(b, a)
  }

  function KeepStronger(cur: Entry, e: Entry): Entry {
    if Stronger(e.row, cur.row) then e else cur
  }

  const HOST_RULE: Rule<Entry, string, Entry> := Rule(HostKey, ItselfEntry, KeepStronger)

  function HostDict(entries: seq<Entry>): Dict<string, Entry> {
    AddAll(Empty(), entries, HOST_RULE)
  }

  function DedupeHostnames(entries: seq<Entry>): seq<Entry> {
    AddAllValid(Empty<string, Entry>(), entries, HOST_RULE);
    HostDict(entries).Values()
  }

  method DedupeHostnameRows(entries: seq<Entry>) returns (kept: seq<Entry>)
    ensures kept == DedupeHostnames(entries)
  {
    hide NormalizeHost, Stronger;
    var best: Dict<string, Entry> := Empty();
    for k := 0 to |entries|
      invariant best == AddAll(Empty(), entries[..k], HOST_RULE)
    {
      assert entries[..k + 1][..k] == entries[..k];
      var r := entries[k];
      var key := NormalizeHost(r.row.hostName);
      var cur := best.Get(key);
      if cur.None? || Stronger(r.row, cur.value.row) {
        best := best.Put(key, r);
      } else {
        best := best.Put(key, cur.value);
      }
    }
    assert entries[..|entries|] == entries;
    AddAllValid(Empty<string, Entry>(), entries, HOST_RULE);
    kept := best.Values();
  }

  lemma StrongerOrder(a: Row, b: Row, c: Row)
    ensures !Stronger(a, a)
    ensures Stronger(a, b) && Stronger(b, c) ==> Stronger(a, c)
    ensures Stronger(a, c) ==> Stronger(a, b) || Stronger(b, c)
    ensures a.ip != b.ip ==> Stronger(a, b) || Stronger(b, a)
  {
    IpTextOrder(a, b, c);
    IpTextOrder(c, b, a);
    hide IpTextLess, ProtocolCount;
  }

  /** The survivor among one host's entries. */
  predicate Strongest(e: Entry, group: seq<Entry>) {
    e in group && forall x :: x in group ==> !Stronger(x.row, e.row)
  }

  lemma {:induction false} FoldStrongest(group: seq<Entry>)
    requires group != []
    ensures FoldOne(None, group, HOST_RULE).Some? && Strongest(FoldOne(None, group, HOST_RULE).value, group)
  {
    hide Stronger, NormalizeHost;
    var init, last := group[..|group| - 1], group[|group| - 1];
    assert group == init + [last];
    if init == [] {
      StrongerOrder(last.row, last.row, last.row);
    } else {
      FoldStrongest(init);
      var cur := FoldOne(None, init, HOST_RULE).value;
      var r := KeepStronger(cur, last);
      forall x | x in group ensures !Stronger(x.row, r.row) {
        StrongerOrder(x.row, last.row, cur.row);
        StrongerOrder(x.row, cur.row, last.row);
        StrongerOrder(last.row, last.row, last.row);
      }
    }
  }

  /** Exactly the strongest entry of every host survives; with distinct IPs it is unique, so the
      outcome does not depend on the order in which collisions are met. */
  lemma DedupeKeepsStrongest(entries: seq<Entry>, e: Entry)
    requires DistinctEntries(entries)
    ensures e in DedupeHostnames(entries) <==> Strongest(e, Select(entries, HostKey, HostKey(e)))
  {
    hide Stronger, NormalizeHost, HostKey;
    var d, host := HostDict(entries), HostKey(e);
    var group := Select(entries, HostKey, host);
    AddAllValid(Empty<string, Entry>(), entries, HOST_RULE);
    AddAllIsLocal(Empty<string, Entry>(), entries, HOST_RULE, host);
    ValuesMembers(d);
    HostsMatch(entries);
    assert e in d.Values() <==> d.Get(host) == Some(e);
    if group == [] {
      assert d.Get(host) == None;
    } else {
      FoldStrongest(group);
      SelectMembers(entries, HostKey, host);
      var best := FoldOne(None, group, HOST_RULE).value;
      if Strongest(e, group) && e != best {
        SameIpSameEntry(entries, e, best);
        StrongerOrder(e.row, best.row, e.row);
      }
    }
  }

  lemma SameIpSameEntry(entries: seq<Entry>, a: Entry, b: Entry)
    requires DistinctEntries(entries) && a in entries && b in entries
    ensures a != b ==> a.row.ip != b.row.ip
  {
    var i :| 0 <= i < |entries| && entries[i] == a;
    var j :| 0 <= j < |entries| && entries[j] == b;
  }

  predicate HostMatches(host: string, e: Entry) { HostKey(e) == host }

  lemma HostsMatch(entries: seq<Entry>)
    ensures Holds(HostDict(entries), HostMatches)
  {
    hide HostKey, Stronger;
    AddAllInvariant(Empty(), entries, HOST_RULE, HostMatches);
  }

  ghost predicate DistinctHosts(entries: seq<Entry>) {
    DistinctKeys(entries, HostKey)
  }

  /** What survives has distinct hosts, and comes from the given entries. */
  lemma DedupeShape(entries: seq<Entry>)
    ensures var kept := DedupeHostnames(entries);
            DistinctHosts(kept) && forall e :: e in kept ==> e in entries
  {
    hide HostKey, Stronger;
    var d, kept := HostDict(entries), DedupeHostnames(entries);
    AddAllValid(Empty<string, Entry>(), entries, HOST_RULE);
    HostsMatch(entries);
    forall k | 0 <= k < |kept| ensures HostKey(kept[k]) == d.keys[k] {
      assert HostMatches(d.keys[k], d.vals[d.keys[k]]);
    }
    forall e | e in kept ensures e in entries {
      var k :| 0 <= k < |kept| && kept[k] == e;
      AddAllIsLocal(Empty<string, Entry>(), entries, HOST_RULE, d.keys[k]);
      var group := Select(entries, HostKey, d.keys[k]);
      assert group != [];
      FoldStrongest(group);
      SelectMembers(entries, HostKey, d.keys[k]);
    }
  }

  /** Entries whose hosts already differ all survive, in their order. */
  lemma DedupeDistinct(entries: seq<Entry>)
    requires DistinctHosts(entries)
    ensures DedupeHostnames(entries) == entries
  {
    hide HostKey, Stronger;
    AddAllValid(Empty<string, Entry>(), entries, HOST_RULE);
    AddAllDistinct(entries, HOST_RULE);
    var d := HostDict(entries);
    forall i | 0 <= i < |entries| ensures d.Values()[i] == entries[i] {
      assert d.Get(d.keys[i]) == Some(entries[i]);
    }
  }
}
