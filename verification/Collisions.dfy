/** Rows of one host name: how the survivor is chosen, when that choice goes against the ranking, and what
    a run loses by choosing before it checks. */
module Collisions {
  import opened Text
  import opened Rows
  import opened Ordering
  import opened Ranking
  import opened Merge
  import opened Ports
  import opened Probe
  import opened Stages
  import opened Publisher
  import opened Pipeline
  import opened Samples
  import opened Upsert

  // ---------- two orders on rows ----------

  /** `a` is ahead of `b` by score, 0 and unknown alike, and then by IP text. */
  predicate AheadByScore(a: Row, b: Row) {
    ScoreOrUnknown(a) > ScoreOrUnknown(b) || (ScoreOrUnknown(a) == ScoreOrUnknown(b) && IpTextLess(b, a))
  }

  /** `a` was seen longer ago, and its score is ahead. */
  predicate StaleButAhead(a: Row, b: Row) {
    Seen(a) < Seen(b) && AheadByScore(a, b)
  }

  /** `b`'s score is 0, `a`'s is -1 or unknown, and `a` has the larger IP. */
  predicate ZeroCountsAsUnknown(a: Row, b: Row) {
    Seen(a) == Seen(b) && b.score == Some(0) && ScoreOf(a) == -1 && IpTextLess(b, a)
  }

  /** The survivor of a collision ranks below the row it displaced exactly in these two cases. */
  lemma CollisionAgainstRanking(a: Row, b: Row)
    ensures Stronger(a, b) && RankLess(a, b) <==>
            ProtocolCount(a) == ProtocolCount(b) && (StaleButAhead(a, b) || ZeroCountsAsUnknown(a, b))
  {
    IpTextOrder(a, b, a);
    hide IpTextLess, ProtocolCount, Seen;
  }

  /** On rows with different IPs the two orders agree exactly if neither case occurs, either way round. */
  lemma OrdersAgreeExactly(a: Row, b: Row)
    requires a.ip != b.ip
    ensures (Stronger(a, b) <==> RankLess(b, a)) <==>
            ProtocolCount(a) == ProtocolCount(b) ==>
              !StaleButAhead(a, b) && !StaleButAhead(b, a) && !ZeroCountsAsUnknown(a, b) && !ZeroCountsAsUnknown(b, a)
  {
    CollisionAgainstRanking(a, b);
    CollisionAgainstRanking(b, a);
    StrongerOrder(a, b, a);
    StrongerOrder(b, a, b);
    RankTotal(a, b);
    hide Stronger, RankLess, ProtocolCount;
  }

  lemma RankTotal(a: Row, b: Row)
    requires a.ip != b.ip
    ensures RankLess(a, b) <==> !RankLess(b, a)
  {
    IpTextOrder(a, b, a);
    IpTextOrder(b, a, b);
    hide IpTextLess, ProtocolCount, Seen, ScoreOf;
  }

  /** Both cases occur among sanitized rows of one host. */
  lemma StaleSurvivorOccurs() returns (a: Row, b: Row)
    ensures Sanitized(a) && Sanitized(b) && HostOf(a) == HostOf(b)
    ensures a.score == Some(2) && b.score == Some(1) && StaleButAhead(a, b) && Stronger(a, b) && RankLess(a, b)
  {
    hide Sanitized, NormalizeHost, NormalizeIp, IsClean, Address, IpTextLess;
    var p, q := TwoAddresses();
    EmptyIsClean();
    SampleIsSanitized(p, "", Some(2), Some(1));
    SampleIsSanitized(q, "", Some(1), Some(2));
    a, b := Sample(p, "", Some(2), Some(1)), Sample(q, "", Some(1), Some(2));
    CollisionAgainstRanking(a, b);
  }

  lemma ZeroLosesToUnknown() returns (a: Row, b: Row)
    ensures Sanitized(a) && Sanitized(b) && HostOf(a) == HostOf(b)
    ensures a.score == None && b.score == Some(0) && ZeroCountsAsUnknown(a, b) && Stronger(a, b) && RankLess(a, b)
  {
    hide Sanitized, NormalizeHost, NormalizeIp, IsClean, Address;
    var p, q := TwoAddresses();
    EmptyIsClean();
    SampleIsSanitized(q, "", None, Some(1));
    SampleIsSanitized(p, "", Some(0), Some(1));
    a, b := Sample(q, "", None, Some(1)), Sample(p, "", Some(0), Some(1));
    assert IpTextLess(b, a);
    CollisionAgainstRanking(a, b);
  }

  lemma EmptyIsClean()
    ensures IsClean("")
  {
    GraphicIsClean("");
  }

  // ---------- what a run keeps of a host ----------

  /** Stage 4's rows before one per host is chosen. */
  function RepairedRows(args: Args, previous: seq<Entry>, fetched: seq<Row>): seq<Entry> {
    EnforceAll(NormalizeAll(Keep(MergeWithPrevious(previous, fetched), IsValid)), args.decode)
  }

  /** The merged rows of one host, before the collision is settled. */
  function Contenders(args: Args, previous: seq<Row>, fetched: seq<Row>, started: int, net: Network, host: string)
    : seq<Entry>
  {
    Select(RepairedRows(args, Stamped(CheckedPrevious(args, previous, net), started), fetched), HostKey, host)
  }

  lemma RepairedGood(args: Args, previous: seq<Entry>, fetched: seq<Row>)
    requires SanitizedEntries(previous) && SanitizedRows(fetched)
    ensures Good(RepairedRows(args, previous, fetched))
  {
    hide Sanitized, MergeWithPrevious, IsValid, PortsAgree;
    var all := MergeWithPrevious(previous, fetched);
    MergeWithPreviousRowsPerIp(previous, fetched);
    ValidKeepsAll(all);
    NormalizeIsRedundant(all);
    EnforceGood(all, args.decode);
  }

  /** The second check sees exactly the strongest contender of each host, and that only if it is routable. */
  lemma MergedAreStrongest(args: Args, previous: seq<Row>, fetched: seq<Row>, started: int, net: Network, e: Entry)
    requires SanitizedRows(previous) && SanitizedRows(fetched)
    ensures e in MergedList(args, previous, fetched, started, net) <==>
            Strongest(e, Contenders(args, previous, fetched, started, net, HostKey(e))) && args.isPublic(e.row.ip)
  {
    hide Sanitized, MergeWithPrevious, DedupeHostnames, IsValid, HostKey, CheckedPrevious, Stronger;
    var entries := Stamped(CheckedPrevious(args, previous, net), started);
    PreviousSanitized(args, previous, started, net);
    RepairedGood(args, entries, fetched);
    DedupeKeepsStrongest(RepairedRows(args, entries, fetched), e);
    KeepMembers(DedupeHostnames(RepairedRows(args, entries, fetched)), PublicTest(args.isPublic));
  }

  lemma StrongestPublic(args: Args, previous: seq<Row>, fetched: seq<Row>, started: int, net: Network, k: nat)
    requires SanitizedRows(previous) && SanitizedRows(fetched)
    requires k < |MergedList(args, previous, fetched, started, net)|
    ensures var e := MergedList(args, previous, fetched, started, net)[k];
            args.isPublic(e.row.ip) && Strongest(e, Contenders(args, previous, fetched, started, net, HostKey(e)))
  {
    hide MergedList, Contenders, Strongest, HostKey, Sanitized;
    var m := MergedList(args, previous, fetched, started, net);
    assert m[k] in m;
    MergedAreStrongest(args, previous, fetched, started, net, m[k]);
  }

  /** A row a run may publish is an entry that passed the second check. */
  lemma CandidateEntry(args: Args, previous: seq<Row>, fetched: seq<Row>, started: int, net: Network, r: Row)
    returns (k: nat)
    requires r in Candidates(args, previous, fetched, started, net)
    ensures var m := MergedList(args, previous, fetched, started, net);
            k < |m| && HostKey(m[k]) == HostOf(r) && IsHealthy(Checked(m, args.skipHealthCheck, 4, net)[k])
  {
    hide MergedList, HostKey, NormalizeHost, Checked, IsHealthy, Stamp;
    var m := MergedList(args, previous, fetched, started, net);
    var checked := Checked(m, args.skipHealthCheck, 4, net);
    var stamped := Stamped(checked, started);
    var kept := Keep(stamped, IsHealthy);
    KeepMembers(stamped, IsHealthy);
    var i :| 0 <= i < |kept| && RowsOf(kept)[i] == r;
    assert kept[i] in kept;
    k :| 0 <= k < |stamped| && stamped[k] == kept[i];
    CheckedRows(m, args.skipHealthCheck, 4, net, k);
    StampedHost(checked[k], m[k], started);
  }

  lemma HealthyEntryStays(args: Args, previous: seq<Row>, fetched: seq<Row>, started: int, net: Network, k: nat)
    requires var m := MergedList(args, previous, fetched, started, net);
             k < |m| && IsHealthy(Checked(m, args.skipHealthCheck, 4, net)[k])
    ensures exists r :: r in Candidates(args, previous, fetched, started, net) &&
                        HostOf(r) == HostKey(MergedList(args, previous, fetched, started, net)[k])
  {
    hide MergedList, HostKey, NormalizeHost, Checked, IsHealthy, Stamp;
    var m := MergedList(args, previous, fetched, started, net);
    var checked := Checked(m, args.skipHealthCheck, 4, net);
    var stamped := Stamped(checked, started);
    var kept := Keep(stamped, IsHealthy);
    KeepMembers(stamped, IsHealthy);
    CheckedRows(m, args.skipHealthCheck, 4, net, k);
    StampedHost(checked[k], m[k], started);
    assert stamped[k] in stamped;
    var i :| 0 <= i < |kept| && kept[i] == stamped[k];
    assert RowsOf(kept)[i] in RowsOf(kept);
  }

  /** A host is among the rows a run may publish if and only if its strongest contender is routable and
      healthy at the second check. No other contender stands in for it. */
  lemma HostSurvivesExactly(args: Args, previous: seq<Row>, fetched: seq<Row>, started: int, net: Network, host: string)
    requires SanitizedRows(previous) && SanitizedRows(fetched)
    ensures var m := MergedList(args, previous, fetched, started, net);
            (exists r :: r in Candidates(args, previous, fetched, started, net) && HostOf(r) == host) <==>
            exists k :: 0 <= k < |m| && HostKey(m[k]) == host && args.isPublic(m[k].row.ip) &&
                        Strongest(m[k], Contenders(args, previous, fetched, started, net, host)) &&
                        IsHealthy(Checked(m, args.skipHealthCheck, 4, net)[k])
  {
    hide MergedList, Contenders, Strongest, HostKey, NormalizeHost, Checked, Candidates, IsHealthy;
    var m := MergedList(args, previous, fetched, started, net);
    var checked := Checked(m, args.skipHealthCheck, 4, net);
    if r :| r in Candidates(args, previous, fetched, started, net) && HostOf(r) == host {
      var k := CandidateEntry(args, previous, fetched, started, net, r);
      StrongestPublic(args, previous, fetched, started, net, k);
    }
    if k: nat :| k < |m| && HostKey(m[k]) == host && IsHealthy(checked[k]) {
      HealthyEntryStays(args, previous, fetched, started, net, k);
    }
  }

  lemma StampedHost(e: Entry, before: Entry, started: int)
    requires e.row == before.row
    ensures HostOf(Stamp(e, started).row) == HostKey(before) && (IsHealthy(Stamp(e, started)) <==> IsHealthy(e))
  {
    hide NormalizeHost;
  }

  // ---------- a healthy row lost ----------

  /** A fetched row that cannot be published: its address is not routable, it has no listener, or its probe fails. */
  predicate Unpublishable(args: Args, r: Row, net: Network) {
    || !args.isPublic(r.ip)
    || TcpEndpoint(r).None?
    || (!args.skipHealthCheck && !net(4, 0, TcpEndpoint(r).value))
  }

  /** A previous row after the first check and stamping. */
  function Carry(args: Args, r: Row, started: int, net: Network): Entry {
    Stamp(CheckedEntry(Entry(r, UNMARKED), args.skipHealthCheck, Answer(Entry(r, UNMARKED), 2, 0, net)), started)
  }

  lemma CarryRow(args: Args, r: Row, started: int, net: Network)
    ensures var e := Carry(args, r, started, net); e.row == r || e.row == r.(lastSeenAt := Some(started))
  {
    hide TcpEndpoint;
  }

  lemma StampStrength(a: Row, b: Row, t: int)
    ensures Stronger(b, a.(lastSeenAt := Some(t))) <==> Stronger(b, a)
  {
  }

  lemma CarryKeeps(args: Args, r: Row, strong: Row, started: int, net: Network)
    requires Sanitized(r) && PortsAgree(r, args.decode) && Stronger(strong, r)
    ensures var e := Carry(args, r, started, net);
            && Sanitized(e.row) && PortsAgree(e.row, args.decode) && e.row.ip == r.ip && HostKey(e) == HostOf(r)
            && Stronger(strong, e.row)
  {
    hide Sanitized, PortsAgree, NormalizeHost, Carry, Stronger;
    CarryRow(args, r, started, net);
    StampSanitized(r, started);
    StampPorts(r, started, args.decode);
    StampStrength(r, strong, started);
  }

  lemma PairListed(known: Entry, r: Row)
    requires known.row.ip != r.ip
    ensures MergedDict([known], [r]) ==
            Dict([known.row.ip, r.ip], map[known.row.ip := known, r.ip := Entry(r, UNMARKED)])
  {
    hide MergeTwo, AddAll;
    var none: Dict<string, Entry> := Empty();
    AddAllOne(none, known, PREVIOUS_BY_IP);
    var one := Add(none, known, PREVIOUS_BY_IP);
    AddAllOne(one, r, FRESH_RULE);
    assert one == Dict([known.row.ip], map[known.row.ip := known]);
    assert [known.row.ip] + [r.ip] == [known.row.ip, r.ip];
  }

  /** A new server is listed behind the known one. */
  lemma NewServerListed(known: Entry, r: Row)
    requires known.row.ip != r.ip
    ensures MergeWithPrevious([known], [r]) == [known, Entry(r, UNMARKED)]
  {
    hide MergedDict;
    MergedDictValid([known], [r]);
    PairListed(known, r);
    assert MergedDict([known], [r]).Values() == [known, Entry(r, UNMARKED)];
  }

  /** One host's known row and its stronger new one through stage 4. */
  lemma PairMerged(args: Args, weak: Entry, strong: Row)
    requires Sanitized(weak.row) && Sanitized(strong) && weak.row.ip != strong.ip
    requires PortsAgree(weak.row, args.decode) && HostKey(weak) == HostOf(strong)
    requires Stronger(EnforceRow(strong, args.decode), weak.row)
    ensures MergeStage(args, [weak], [strong]) ==
            if args.isPublic(strong.ip) then [Entry(EnforceRow(strong, args.decode), UNMARKED)] else []
  {
    hide Sanitized, PortsAgree, MergeWithPrevious, IsValid, EnforceRow, HostKey, Stronger, DedupeHostnames, NormalizeHost;
    var pair := [weak, Entry(strong, UNMARKED)];
    var repaired := Entry(EnforceRow(strong, args.decode), UNMARKED);
    NewServerListed(weak, strong);
    ValidKeepsAll(pair);
    NormalizeIsRedundant(pair);
    EnforceAgrees(weak.row, args.decode);
    EnforceHost(strong, args.decode);
    assert EnforceAll(pair, args.decode) == [weak, repaired];
    PairDeduped(weak, repaired);
    KeepOne(repaired, PublicTest(args.isPublic));
  }

  lemma EnforceHost(r: Row, decode: Decoder)
    ensures var q := EnforceRow(r, decode); q.ip == r.ip && HostKey(Entry(q, UNMARKED)) == HostOf(r)
  {
    hide ConfigPorts, NormalizeHost;
  }

  lemma PairDeduped(weak: Entry, strong: Entry)
    requires HostKey(weak) == HostKey(strong) && Stronger(strong.row, weak.row)
    ensures DedupeHostnames([weak, strong]) == [strong]
  {
    hide HostKey, Stronger, HostDict;
    var pair, h := [weak, strong], HostKey(weak);
    PairFolded(weak, strong);
    HostDictValid(pair);
    assert HostDict(pair).Values() == [strong];
  }

  lemma HostDictValid(entries: seq<Entry>)
    ensures HostDict(entries).Valid()
  {
    AddAllValid(Empty<string, Entry>(), entries, HOST_RULE);
  }

  lemma PairFolded(weak: Entry, strong: Entry)
    requires HostKey(weak) == HostKey(strong) && Stronger(strong.row, weak.row)
    ensures HostDict([weak, strong]) == Dict([HostKey(weak)], map[HostKey(weak) := strong])
  {
    hide HostKey, Stronger, AddAll;
    var h := HostKey(weak);
    var one := Dict([h], map[h := weak]);
    assert [weak] + [strong] == [weak, strong];
    AddAllOne(Empty(), weak, HOST_RULE);
    assert Add(Empty(), weak, HOST_RULE) == one;
    AddAllTwo(Empty(), weak, strong, HOST_RULE);
    assert map[h := weak][h := strong] == map[h := strong];
  }

  lemma KeepOne(e: Entry, p: Entry -> bool)
    ensures Keep([e], p) == if p(e) then [e] else []
  {
    assert [e][..0] == [];
  }

  /** A published server and a stronger one of its host that was just fetched and cannot be published: the run
      drops both, even if the known one has just been reached. */
  lemma HealthyRowLost(args: Args, weak: Row, strong: Row, started: int, net: Network)
    requires Sanitized(weak) && PortsAgree(weak, args.decode)
    requires Sanitized(strong) && weak.ip != strong.ip && HostOf(weak) == HostOf(strong)
    requires var repaired := EnforceRow(strong, args.decode);
             Stronger(repaired, weak) && Unpublishable(args, repaired, net)
    ensures Candidates(args, [weak], [strong], started, net) == []
  {
    hide Sanitized, PortsAgree, HostKey, NormalizeHost, Stronger, MergeStage, CheckedEntry, Stamp, Unpublishable, EnforceRow;
    var known := Carry(args, weak, started, net);
    var repaired := EnforceRow(strong, args.decode);
    assert Stamped(CheckedPrevious(args, [weak], net), started) == [known];
    CarryKeeps(args, weak, repaired, started, net);
    PairMerged(args, known, strong);
    var m := MergedList(args, [weak], [strong], started, net);
    if args.isPublic(strong.ip) {
      EnforceHost(strong, args.decode);
      var e := Entry(repaired, UNMARKED);
      var last := Stamp(CheckedEntry(e, args.skipHealthCheck, Answer(e, 4, 0, net)), started);
      NewRowFails(args, repaired, started, net);
      assert Stamped(Checked(m, args.skipHealthCheck, 4, net), started) == [last];
      KeepOne(last, IsHealthy);
    }
  }

  lemma NewRowFails(args: Args, r: Row, started: int, net: Network)
    requires args.isPublic(r.ip) && Unpublishable(args, r, net)
    ensures var e := Entry(r, UNMARKED);
            !IsHealthy(Stamp(CheckedEntry(e, args.skipHealthCheck, Answer(e, 4, 0, net)), started))
  {
    hide TcpEndpoint;
  }

  /** Such a pair occurs: the known server is routable and reached, and still nothing of its host is left. */
  lemma HealthyRowsAreLost(args: Args, started: int) returns (weak: Row, strong: Row, net: Network)
    requires !args.skipHealthCheck && args.isPublic(Address(1)) && args.isPublic(Address(2))
    ensures Sanitized(weak) && args.isPublic(weak.ip) && IsHealthy(CheckedPrevious(args, [weak], net)[0])
    ensures Sanitized(strong) && args.isPublic(strong.ip)
    ensures Candidates(args, [weak], [strong], started, net) == []
  {
    hide Sanitized, NormalizeHost, NormalizeIp, IsClean, Address, Candidates, IpTextLess;
    var p, q := TwoAddresses();
    assert p in {Address(1), Address(2)} && q in {Address(1), Address(2)};
    EmptyIsClean();
    SampleIsSanitized(p, "", Some(1), None);
    SampleIsSanitized(q, "", Some(2), None);
    weak, strong := Sample(p, "", Some(1), None), Sample(q, "", Some(2), None);
    net := (stage, k, e) => stage == 2;
    assert EnforceRow(strong, args.decode) == strong;
    HealthyRowLost(args, weak, strong, started, net);
    hide Stronger, Unpublishable, PortsAgree;
    assert TcpEndpoint(weak) == Some(Endpoint(p, 443));
  }
}
