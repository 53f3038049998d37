/** One server row of the emergency feed: its columns, the rules that make a raw row publishable
    (`sanitize_row`), and the text cells it is written as. */
module Rows {
  import opened Text

  const SCHEMA_VERSION := "1.0"

  datatype Tag = ApiIphone | HtmlParse | Merged

  type Port = p: int | 0 <= p <= 65535

  /** The data columns; `schema_version` is the same for every row and is not stored. */
  datatype Row = Row(
    hostName: string, ip: string, score: Option<int>, ping: Option<int>, speed: Option<int>,
    countryLong: string, countryShort: string, numVpnSessions: Option<int>, uptime: Option<int>,
    totalUsers: Option<int>, totalTraffic: Option<int>, logType: string, operatorName: string,
    message: string, config: string, seTcpPort: Port, seUdpSupported: bool, seUdpPort: Port,
    openVpnTcpPort: Port, openVpnUdpPort: Port, l2tpSupported: bool, sstpSupported: bool,
    sstpHostname: string, sstpPort: Port, hasIpv6: bool, firstSeenAt: Option<int>,
    lastSeenAt: Option<int>, sourceTag: Tag)

  datatype Column =
    | HostName | Ip | Score | Ping | Speed | CountryLong | CountryShort
    | NumVpnSessions | Uptime | TotalUsers | TotalTraffic | LogType
    | OperatorName | Message | Config | SchemaVersion
    | SeTcpPort | SeUdpSupported | SeUdpPort | OpenVpnTcpPort
    | OpenVpnUdpPort | L2tpSupported | SstpSupported | SstpHostname
    | SstpPort | HasIpv6 | FirstSeenAt | LastSeenAt | SourceTag

  /** A value of a raw row; `Nil` stands for a missing key and for `None`. */
  datatype Value = Nil | Str(s: string) | Num(n: int) | Flag(b: bool)

  type RawRow = Column -> Value

  // ---------- conversions ----------

  function ValueText(v: Value): string {
    match v
    case Nil => ""
    case Str(s) => s
    case Num(n) => IntText(n)
    case Flag(b) => if b then "True" else "False"
  }

  function Clean(v: Value): string {
    CleanText(ValueText(v))
  }

  function ToInt(v: Value): Option<int> {
    ParseInt(Clean(v))
  }

  function ToPort(v: Value): Port {
    match ToInt(v)
    case Some(n) => if 0 <= n <= 65535 then n else 0
    case None => 0
  }

  function ToBool(v: Value): bool {
    if v.Flag? then v.b else Lower(Clean(v)) in ["true", "1", "yes"]
  }

  function TagText(t: Tag): string {
    match t case ApiIphone => "api_iphone" case HtmlParse => "html_parse" case Merged => "merged"
  }

  function ToTag(v: Value): Tag {
    var s := Clean(v);
    if s == "api_iphone" then ApiIphone else if s == "merged" then Merged else HtmlParse
  }

  predicate IsCountryCode(s: string) {
    |s| == 2 && 'A' <= s[0] <= 'Z' && 'A' <= s[1] <= 'Z'
  }

  function ToCountryCode(v: Value): string {
    var s := Upper(Clean(v));
    if IsCountryCode(s) then s else ""
  }

  /** The alphabet of section 4 of RFC 4648, without padding. */
  predicate IsBase64Char(c: char) {
    'A' <= c <= 'Z' || 'a' <= c <= 'z' || '0' <= c <= '9' || c == '+' || c == '/'
  }

  /** Non-empty padded Base64: whole quartets, at most two pad characters, all at the end. */
  predicate ValidBase64(s: string) {
    && s != "" && |s| % 4 == 0
    && (forall i :: 0 <= i < |s| ==> IsBase64Char(s[i]) || s[i] == '=')
    && (forall i :: 0 <= i < |s| && s[i] == '=' ==> |s| - 2 <= i && s[|s| - 1] == '=')
  }

  function ToConfig(v: Value): string {
    var s := RemoveChar(Clean(v), ' ');
    if ValidBase64(s) then s else ""
  }

  predicate IsHostChar(c: char) {
    'A' <= c <= 'Z' || 'a' <= c <= 'z' || IsDigit(c) || c == '.' || c == '_' || c == '-'
  }

  /** `host:port` with a plain host and at most five digits. */
  predicate HasPortSuffix(host: string) {
    var parts := Split(host, ':');
    && |parts| == 2 && parts[0] != "" && (forall i :: 0 <= i < |parts[0]| ==> IsHostChar(parts[0][i]))
    && AllDigits(parts[1]) && |parts[1]| <= 5
  }

  /** Splits a `host:port` suffix off; an explicit port column wins over the suffix. */
  function SplitSstpEndpoint(host: string, port: Port): (string, Port) {
    if !HasPortSuffix(host) then (host, port)
    else
      var parts := Split(host, ':');
      var suffix := ParseNat(parts[1]);
      (parts[0], if port > 0 then port else if 1 <= suffix <= 65535 then suffix else port)
  }

  // ---------- sanitize_row ----------

  function Sanitize(raw: RawRow): Option<Row> {
    var ip := NormalizeIp(Clean(raw(Ip)));
    var host := Clean(raw(HostName));
    if ip == "" || NormalizeHost(host) == "" then None
    else
      var (sstpHost, sstpPort) := SplitSstpEndpoint(Clean(raw(SstpHostname)), ToPort(raw(SstpPort)));
      Some(Row(
        host, ip, ToInt(raw(Score)), ToInt(raw(Ping)), ToInt(raw(Speed)),
        Clean(raw(CountryLong)), ToCountryCode(raw(CountryShort)), ToInt(raw(NumVpnSessions)),
        ToInt(raw(Uptime)), ToInt(raw(TotalUsers)), ToInt(raw(TotalTraffic)), Clean(raw(LogType)),
        Clean(raw(OperatorName)), Clean(raw(Message)), ToConfig(raw(Config)),
        ToPort(raw(SeTcpPort)), ToBool(raw(SeUdpSupported)), ToPort(raw(SeUdpPort)),
        ToPort(raw(OpenVpnTcpPort)), ToPort(raw(OpenVpnUdpPort)), ToBool(raw(L2tpSupported)),
        ToBool(raw(SstpSupported)), sstpHost, sstpPort, ToBool(raw(HasIpv6)),
        ToInt(raw(FirstSeenAt)), ToInt(raw(LastSeenAt)), ToTag(raw(SourceTag))))
  }

  /** What section 10.4 of the feed's design asks of a published row. */
  predicate Sanitized(r: Row) {
    && r.ip != "" && NormalizeIp(r.ip) == r.ip
    && IsClean(r.hostName) && NormalizeHost(r.hostName) != ""
    && IsClean(r.countryLong) && IsClean(r.logType) && IsClean(r.operatorName) && IsClean(r.message)
    && (r.countryShort == "" || IsCountryCode(r.countryShort))
    && (r.config == "" || ValidBase64(r.config))
    && IsClean(r.sstpHostname) && !HasPortSuffix(r.sstpHostname)
  }

  function OptNum(v: Option<int>): Value {
    match v case Some(n) => Num(n) case None => Nil
  }

  /** A typed row read back through its keys. */
  function ValueAt(r: Row, c: Column): Value {
    match c
    case HostName => Str(r.hostName)
    case Ip => Str(r.ip)
    case Score => OptNum(r.score)
    case Ping => OptNum(r.ping)
    case Speed => OptNum(r.speed)
    case CountryLong => Str(r.countryLong)
    case CountryShort => Str(r.countryShort)
    case NumVpnSessions => OptNum(r.numVpnSessions)
    case Uptime => OptNum(r.uptime)
    case TotalUsers => OptNum(r.totalUsers)
    case TotalTraffic => OptNum(r.totalTraffic)
    case LogType => Str(r.logType)
    case OperatorName => Str(r.operatorName)
    case Message => Str(r.message)
    case Config => Str(r.config)
    case SchemaVersion => Str(SCHEMA_VERSION)
    case SeTcpPort => Num(r.seTcpPort)
    case SeUdpSupported => Flag(r.seUdpSupported)
    case SeUdpPort => Num(r.seUdpPort)
    case OpenVpnTcpPort => Num(r.openVpnTcpPort)
    case OpenVpnUdpPort => Num(r.openVpnUdpPort)
    case L2tpSupported => Flag(r.l2tpSupported)
    case SstpSupported => Flag(r.sstpSupported)
    case SstpHostname => Str(r.sstpHostname)
    case SstpPort => Num(r.sstpPort)
    case HasIpv6 => Flag(r.hasIpv6)
    case FirstSeenAt => OptNum(r.firstSeenAt)
    case LastSeenAt => OptNum(r.lastSeenAt)
    case SourceTag => Str(TagText(r.sourceTag))
  }

  function AsRaw(r: Row): RawRow {
    c => ValueAt(r, c)
  }

  /** `_cell`. */
  function CellText(v: Value): string {
    match v
    case Nil => ""
    case Str(s) => s
    case Num(n) => IntText(n)
    case Flag(b) => if b then "true" else "false"
  }

  function CellAt(r: Row, c: Column): string {
    CellText(ValueAt(r, c))
  }

  /** The row as the reader sees it: every value is text. */
  function AsText(r: Row): RawRow {
    c => Str(CellAt(r, c))
  }

  // ---------- the result of sanitize_row is sanitized ----------

  lemma HostWithoutColon(host: string)
    requires ':' !in host
    ensures !HasPortSuffix(host)
  {
    SplitWord(host, ':');
  }

  lemma SplitResult(host: string, port: Port)
    requires IsClean(host)
    ensures var r := SplitSstpEndpoint(host, port).0; IsClean(r) && !HasPortSuffix(r)
  {
    if HasPortSuffix(host) {
      var parts := Split(host, ':');
      JoinSplit(host, ':');
      HostWithoutColon(parts[0]);
      GraphicIsClean(parts[0]);
    }
  }

  lemma SanitizeIsSanitized(raw: RawRow)
    ensures Sanitize(raw).Some? ==> Sanitized(Sanitize(raw).value)
  {
    if Sanitize(raw).Some? {
      CleanTextIsClean(ValueText(raw(HostName)));
      CleanTextIsClean(ValueText(raw(CountryLong)));
      CleanTextIsClean(ValueText(raw(LogType)));
      CleanTextIsClean(ValueText(raw(OperatorName)));
      CleanTextIsClean(ValueText(raw(Message)));
      CleanTextIsClean(ValueText(raw(SstpHostname)));
      SplitResult(Clean(raw(SstpHostname)), ToPort(raw(SstpPort)));
      NormalizeIpFixpoint(Clean(raw(Ip)));
    }
  }

  // ---------- sanitized rows survive typed and textual re-reading ----------

  lemma CleanStr(s: string)
    requires IsClean(s)
    ensures Clean(Str(s)) == s
  {
    CleanTextFixpoint(s);
  }

  lemma IntCell(v: Option<int>)
    ensures ToInt(OptNum(v)) == v && ToInt(Str(CellText(OptNum(v)))) == v
  {
    match v
    case None =>
      assert CleanText("") == "";
    case Some(n) =>
      IntTextShape(n);
      CleanTextFixpoint(IntText(n));
      ParseIntText(n);
  }

  lemma PortCell(p: Port)
    ensures ToPort(Num(p)) == p && ToPort(Str(CellText(Num(p)))) == p
  {
    IntCell(Some(p));
  }

  lemma BoolCell(b: bool)
    ensures ToBool(Flag(b)) == b && ToBool(Str(CellText(Flag(b)))) == b
  {
    hide IsClean, CleanText;
    if b {
      GraphicIsClean("true");
      CleanStr("true");
      assert Lower("true") == "true";
    } else {
      GraphicIsClean("false");
      CleanStr("false");
      assert Lower("false") == "false";
      assert "false"[0] == 'f';
    }
  }

  lemma TagCell(t: Tag)
    ensures ToTag(Str(TagText(t))) == t
  {
    var s := TagText(t);
    hide IsClean;
    GraphicIsClean(s);
    CleanStr(s);
    assert s[0] == if t.ApiIphone? then 'a' else if t.Merged? then 'm' else 'h';
  }

  lemma CountryCell(s: string)
    requires s == "" || IsCountryCode(s)
    ensures ToCountryCode(Str(s)) == s
  {
    hide IsClean, CleanText;
    GraphicIsClean(s);
    CleanStr(s);
    assert Upper(s) == s;
  }

  lemma ConfigCell(s: string)
    requires s == "" || ValidBase64(s)
    ensures ToConfig(Str(s)) == s
  {
    hide IsClean, CleanText;
    assert forall i :: 0 <= i < |s| ==> IsBase64Char(s[i]) || s[i] == '=';
    GraphicIsClean(s);
    CleanStr(s);
    RemoveCharAbsent(s, ' ');
  }

  /** Raw values that read the same as the row's own, column by column. */
  predicate Reads(raw: RawRow, r: Row) {
    TextsRead(raw, r) && IntsRead(raw, r) && PortsRead(raw, r) && FlagsRead(raw, r) && CodesRead(raw, r)
  }

  predicate TextsRead(raw: RawRow, r: Row) {
    && Clean(raw(HostName)) == r.hostName && NormalizeIp(Clean(raw(Ip))) == r.ip
    && Clean(raw(CountryLong)) == r.countryLong && Clean(raw(LogType)) == r.logType
    && Clean(raw(OperatorName)) == r.operatorName && Clean(raw(Message)) == r.message
    && Clean(raw(SstpHostname)) == r.sstpHostname
  }

  predicate LoadRead(raw: RawRow, r: Row) {
    && ToInt(raw(Score)) == r.score && ToInt(raw(Ping)) == r.ping && ToInt(raw(Speed)) == r.speed
    && ToInt(raw(NumVpnSessions)) == r.numVpnSessions
  }

  predicate UsageRead(raw: RawRow, r: Row) {
    && ToInt(raw(Uptime)) == r.uptime && ToInt(raw(TotalUsers)) == r.totalUsers
    && ToInt(raw(TotalTraffic)) == r.totalTraffic
  }

  predicate SeenRead(raw: RawRow, r: Row) {
    ToInt(raw(FirstSeenAt)) == r.firstSeenAt && ToInt(raw(LastSeenAt)) == r.lastSeenAt
  }

  predicate IntsRead(raw: RawRow, r: Row) {
    LoadRead(raw, r) && UsageRead(raw, r) && SeenRead(raw, r)
  }

  predicate TunnelPortsRead(raw: RawRow, r: Row) {
    && ToPort(raw(SeTcpPort)) == r.seTcpPort && ToPort(raw(SeUdpPort)) == r.seUdpPort
    && ToPort(raw(SstpPort)) == r.sstpPort
  }

  predicate OpenVpnPortsRead(raw: RawRow, r: Row) {
    ToPort(raw(OpenVpnTcpPort)) == r.openVpnTcpPort && ToPort(raw(OpenVpnUdpPort)) == r.openVpnUdpPort
  }

  predicate PortsRead(raw: RawRow, r: Row) {
    TunnelPortsRead(raw, r) && OpenVpnPortsRead(raw, r)
  }

  predicate FlagsRead(raw: RawRow, r: Row) {
    && ToBool(raw(SeUdpSupported)) == r.seUdpSupported && ToBool(raw(L2tpSupported)) == r.l2tpSupported
    && ToBool(raw(SstpSupported)) == r.sstpSupported && ToBool(raw(HasIpv6)) == r.hasIpv6
  }

  predicate CodesRead(raw: RawRow, r: Row) {
    && ToCountryCode(raw(CountryShort)) == r.countryShort && ToConfig(raw(Config)) == r.config
    && ToTag(raw(SourceTag)) == r.sourceTag
  }

  lemma ReadsSanitize(raw: RawRow, r: Row)
    requires Sanitized(r) && Reads(raw, r)
    ensures Sanitize(raw) == Some(r)
  {
  }

  lemma TextsCells(r: Row)
    requires Sanitized(r)
    ensures TextsRead(AsRaw(r), r) && TextsRead(AsText(r), r)
  {
    NormalizeIpFixpoint(r.ip);
    hide Clean, IsClean, NormalizeIp, NormalizeHost, HasPortSuffix, ValidBase64, Split, Join, Octets, DecAll;
    CleanStr(r.hostName);
    CleanStr(r.ip);
    CleanStr(r.countryLong);
    CleanStr(r.logType);
    CleanStr(r.operatorName);
    CleanStr(r.message);
    CleanStr(r.sstpHostname);
  }

  lemma LoadCells(r: Row)
    ensures LoadRead(AsRaw(r), r) && LoadRead(AsText(r), r)
  {
    hide ToInt, CellText;
    IntCell(r.score);
    IntCell(r.ping);
    IntCell(r.speed);
    IntCell(r.numVpnSessions);
  }

  lemma UsageCells(r: Row)
    ensures UsageRead(AsRaw(r), r) && UsageRead(AsText(r), r)
  {
    hide ToInt, CellText;
    IntCell(r.uptime);
    IntCell(r.totalUsers);
    IntCell(r.totalTraffic);
  }

  lemma SeenCells(r: Row)
    ensures SeenRead(AsRaw(r), r) && SeenRead(AsText(r), r)
  {
    hide ToInt, CellText;
    IntCell(r.firstSeenAt);
    IntCell(r.lastSeenAt);
  }

  lemma IntsCells(r: Row)
    ensures IntsRead(AsRaw(r), r) && IntsRead(AsText(r), r)
  {
    hide LoadRead, UsageRead, SeenRead;
    LoadCells(r);
    UsageCells(r);
    SeenCells(r);
  }

  lemma TunnelPortsCells(r: Row)
    ensures TunnelPortsRead(AsRaw(r), r) && TunnelPortsRead(AsText(r), r)
  {
    hide ToPort, CellText;
    PortCell(r.seTcpPort);
    PortCell(r.seUdpPort);
    PortCell(r.sstpPort);
  }

  lemma OpenVpnPortsCells(r: Row)
    ensures OpenVpnPortsRead(AsRaw(r), r) && OpenVpnPortsRead(AsText(r), r)
  {
    hide ToPort, CellText;
    PortCell(r.openVpnTcpPort);
    PortCell(r.openVpnUdpPort);
  }

  lemma PortsCells(r: Row)
    ensures PortsRead(AsRaw(r), r) && PortsRead(AsText(r), r)
  {
    hide TunnelPortsRead, OpenVpnPortsRead;
    TunnelPortsCells(r);
    OpenVpnPortsCells(r);
  }

  lemma FlagsCells(r: Row)
    ensures FlagsRead(AsRaw(r), r) && FlagsRead(AsText(r), r)
  {
    hide ToBool, CellText;
    BoolCell(r.seUdpSupported);
    BoolCell(r.l2tpSupported);
    BoolCell(r.sstpSupported);
    BoolCell(r.hasIpv6);
  }

  lemma CodesCells(r: Row)
    requires r.countryShort == "" || IsCountryCode(r.countryShort)
    requires r.config == "" || ValidBase64(r.config)
    ensures CodesRead(AsRaw(r), r) && CodesRead(AsText(r), r)
  {
    hide ToCountryCode, ToConfig, ToTag, TagText;
    CountryCell(r.countryShort);
    ConfigCell(r.config);
    TagCell(r.sourceTag);
  }

  /** The fixpoints of `sanitize_row` are exactly the sanitized rows, and a sanitized row is
      recovered from its text cells as well as from its typed values. */
  lemma SanitizeFixpoint(r: Row)
    ensures Sanitized(r) <==> Sanitize(AsRaw(r)) == Some(r)
    ensures Sanitized(r) ==> Sanitize(AsText(r)) == Some(r)
  {
    SanitizeIsSanitized(AsRaw(r));
    if Sanitized(r) {
      CodesCells(r);
      TextsCells(r);
      IntsCells(r);
      PortsCells(r);
      FlagsCells(r);
      hide TextsRead, IntsRead, PortsRead, FlagsRead, CodesRead, Sanitize;
      ReadsSanitize(AsRaw(r), r);
      ReadsSanitize(AsText(r), r);
    }
  }

  /** Sanitising is idempotent on arbitrary input. */
  lemma SanitizeIdempotent(raw: RawRow)
    ensures Sanitize(raw).Some? ==> Sanitize(AsRaw(Sanitize(raw).value)) == Sanitize(raw)
  {
    SanitizeIsSanitized(raw);
    if Sanitize(raw).Some? {
      SanitizeFixpoint(Sanitize(raw).value);
    }
  }

  // ---------- cells hold no carriage return, and only text columns hold exotic characters ----------

  predicate Plain(s: string) {
    forall i :: 0 <= i < |s| ==> s[i] != '\r' && s[i] != '\n'
  }

  lemma CleanIsPlain(s: string)
    requires IsClean(s)
    ensures Plain(s)
  {
    assert IsSpace('\r') && IsSpace('\n');
  }

  lemma CellsPlain(r: Row, c: Column)
    requires Sanitized(r)
    ensures Plain(CellAt(r, c))
  {
    hide IsClean, Sanitized, IntText;
    match ValueAt(r, c)
    case Nil =>
    case Flag(_) =>
    case Num(n) =>
      IntTextShape(n);
      CleanIsPlain(IntText(n));
    case Str(s) =>
      TextCellClean(r, c);
      CleanIsPlain(s);
  }

  lemma TextCellClean(r: Row, c: Column)
    requires Sanitized(r) && ValueAt(r, c).Str?
    ensures IsClean(ValueAt(r, c).s)
  {
    hide Sanitized, IsClean, TagText;
    SanitizedTexts(r);
  }

  lemma SanitizedTexts(r: Row)
    requires Sanitized(r)
    ensures IsClean(r.hostName) && IsClean(r.ip) && IsClean(r.countryLong) && IsClean(r.countryShort) && IsClean(r.logType)
    ensures IsClean(r.operatorName) && IsClean(r.message) && IsClean(r.config) && IsClean(r.sstpHostname)
    ensures IsClean(TagText(r.sourceTag)) && IsClean(SCHEMA_VERSION)
  {
    hide IsClean, NormalizeIp, NormalizeHost, HasPortSuffix, ValidBase64, Octets;
    NormalizeIpFixpoint(r.ip);
    ShortTextClean(r.countryShort, r.config, r.sourceTag);
  }

  lemma ShortTextClean(country: string, config: string, tag: Tag)
    requires country == "" || IsCountryCode(country)
    requires config == "" || ValidBase64(config)
    ensures IsClean(country) && IsClean(config) && IsClean(TagText(tag)) && IsClean(SCHEMA_VERSION)
  {
    hide IsClean;
    assert forall i :: 0 <= i < |config| ==> IsBase64Char(config[i]) || config[i] == '=';
    GraphicIsClean(config);
    GraphicIsClean(country);
    GraphicIsClean(TagText(tag));
    GraphicIsClean(SCHEMA_VERSION);
  }
}
