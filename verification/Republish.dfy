/** Republishing a published file without fresh rows changes nothing but the time stamps. */
module Republish {
  import opened Text
  import opened Rows
  import opened Ordering
  import opened Ranking
  import opened Feed
  import opened Budget
  import opened Merge
  import opened Ports
  import opened Probe
  import opened Stages
  import opened Publisher
  import opened Pipeline
  import Csv
  import Upsert

  function Restamp(r: Row, t: int): Row {
    r.(lastSeenAt := Some(t))
  }

  function RestampAll(rows: seq<Row>, t: int): (out: seq<Row>)
    ensures |out| == |rows| && forall k :: 0 <= k < |rows| ==> out[k] == Restamp(rows[k], t)
  {
    seq(|rows|, k requires 0 <= k < |rows| => Restamp(rows[k], t))
  }

  /** The clock value the rows carry. */
  predicate SeenAt(rows: seq<Row>, t: int) {
    forall k :: 0 <= k < |rows| ==> rows[k].lastSeenAt == Some(t)
  }

  // ---------- a restamped row ----------

  lemma RestampCells(r: Row, t: int, c: Column)
    ensures CellAt(Restamp(r, t), c) == if c.LastSeenAt? then IntText(t) else CellAt(r, c)
  {
  }

  lemma NumberCell(t: int)
    ensures Csv.WriteField(IntText(t)) == IntText(t) && Utf8Size(IntText(t)) == |IntText(t)|
    ensures REPLACEMENT !in IntText(t)
  {
    assert forall i :: 0 <= i < |IntText(t)| ==> IsDigit(IntText(t)[i]) || IntText(t)[i] == '-';
    Utf8SizeAscii(IntText(t));
  }

  /** A time stamp of the same decimal width takes the same room. */
  lemma RestampSize(r: Row, s: int, t: int)
    requires r.lastSeenAt == Some(s) && |IntText(s)| == |IntText(t)|
    ensures RowSize(Restamp(r, t)) == RowSize(r)
  {
    var q := Restamp(r, t);
    NumberCell(s);
    NumberCell(t);
    RestampCells(r, t, LastSeenAt);
    assert CellAt(r, LastSeenAt) == IntText(s);
    hide RowSize, OtherCellsSize, CellAt, IntText, Utf8Size, Csv.WriteField, Restamp;
    forall d: Column | d != LastSeenAt ensures CellAt(r, d) == CellAt(q, d) {
      RestampCells(r, t, d);
    }
    OtherCellsAgree(r, q, LastSeenAt);
    RowSizeSplit(r, LastSeenAt);
    RowSizeSplit(q, LastSeenAt);
  }

  lemma {:induction false} RestampSizes(rows: seq<Row>, s: int, t: int)
    requires SeenAt(rows, s) && |IntText(s)| == |IntText(t)|
    ensures RowsSize(RestampAll(rows, t)) == RowsSize(rows)
  {
    hide RowSize, IntText;
    if rows != [] {
      RestampSize(rows[0], s, t);
      assert RestampAll(rows, t)[1..] == RestampAll(rows[1..], t);
      RestampSizes(rows[1..], s, t);
    }
  }

  lemma RestampFeedSize(rows: seq<Row>, s: int, t: int)
    requires SeenAt(rows, s) && |IntText(s)| == |IntText(t)|
    ensures FeedSize(RestampAll(rows, t)) == FeedSize(rows)
  {
    hide FeedSize, HeaderSize, RowsSize, IntText;
    RestampSizes(rows, s, t);
    FeedSizeSum(rows);
    FeedSizeSum(RestampAll(rows, t));
  }

  lemma RestampReplacement(rows: seq<Row>, t: int)
    requires !HasReplacement(rows)
    ensures !HasReplacement(RestampAll(rows, t))
  {
    NumberCell(t);
    hide CellAt, IntText, ColumnAt;
    var out := RestampAll(rows, t);
    forall k | 0 <= k < |out| ensures !RowHasReplacement(out[k]) {
      assert !RowHasReplacement(rows[k]);
      forall i | 0 <= i < WIDTH ensures REPLACEMENT !in CellAt(out[k], ColumnAt(i)) {
        RestampCells(rows[k], t, ColumnAt(i));
      }
    }
  }

  lemma RestampReadable(rows: seq<Row>, s: int, t: int)
    requires Readable(rows) && SeenAt(rows, s) && |IntText(s)| == |IntText(t)|
    ensures Readable(RestampAll(rows, t))
  {
    hide CellAt, IntText, ColumnAt, Position;
    var out := RestampAll(rows, t);
    forall k | 0 <= k < |out| ensures Csv.WithinLimit(Cells(out[k])) {
      assert Csv.WithinLimit(Cells(rows[k]));
      forall i | 0 <= i < WIDTH ensures |Cells(out[k])[i]| <= Csv.FIELD_LIMIT {
        RestampCells(rows[k], t, ColumnAt(i));
        StampCell(rows[k], s);
        assert |Cells(rows[k])[i]| <= Csv.FIELD_LIMIT;
      }
    }
  }

  lemma StampCell(r: Row, s: int)
    requires r.lastSeenAt == Some(s)
    ensures CellAt(r, LastSeenAt) == IntText(s)
  {
  }

  lemma RestampCandidate(args: Args, s: int, t: int, r: Row)
    requires Candidate(args, s, r)
    ensures Candidate(args, t, Restamp(r, t))
  {
    StampSanitized(r, t);
    StampPorts(r, t, args.decode);
    EndpointIgnores(r, r.config, Some(t));
    hide Sanitized, PortsAgree, TcpEndpoint;
  }

  lemma RestampConcat(a: seq<Row>, b: seq<Row>, t: int)
    ensures RestampAll(a + b, t) == RestampAll(a, t) + RestampAll(b, t)
  {
    hide Restamp;
  }

  lemma RestampRemove(rows: seq<Row>, k: nat, t: int)
    requires k < |rows|
    ensures multiset(RestampAll(rows, t)) ==
            multiset{Restamp(rows[k], t)} + multiset(RestampAll(rows[..k] + rows[k + 1..], t))
  {
    hide Restamp;
    RestampConcat(rows[..k], rows[k + 1..], t);
    RestampConcat(rows[..k], [rows[k]], t);
    RestampConcat(rows[..k] + [rows[k]], rows[k + 1..], t);
    assert rows == rows[..k] + [rows[k]] + rows[k + 1..];
    assert RestampAll([rows[k]], t) == [Restamp(rows[k], t)];
  }

  lemma {:induction false} RestampPermutation(a: seq<Row>, b: seq<Row>, t: int)
    requires multiset(a) == multiset(b)
    ensures multiset(RestampAll(a, t)) == multiset(RestampAll(b, t))
  {
    hide Restamp, RestampAll;
    if a == [] {
      assert |multiset(b)| == 0;
    } else {
      assert a[0] in multiset(b);
      var k :| 0 <= k < |b| && b[k] == a[0];
      var rest := b[..k] + b[k + 1..];
      assert b == b[..k] + [a[0]] + b[k + 1..];
      assert a == [a[0]] + a[1..];
      assert multiset(rest) == multiset(b) - multiset{a[0]};
      RestampPermutation(a[1..], rest, t);
      RestampRemove(b, k, t);
      RestampRemove(a, 0, t);
      assert a[..0] + a[1..] == a[1..];
    }
  }

  // ---------- the stages on a published file ----------

  /** A published row as the second run carries it: probed, healthy and restamped. */
  predicate Carried(e: Entry, r: Row, t: int) {
    e.row == Restamp(r, t) && e.marks.healthy == Some(true) && e.marks.probed == TcpEndpoint(r)
  }

  ghost predicate AllUp(args: Args, net: Network) {
    args.skipHealthCheck || forall s, k, e :: net(s, k, e)
  }

  lemma CheckedUp(args: Args, rows: seq<Row>, net: Network, k: nat)
    requires AllUp(args, net) && k < |rows| && TcpEndpoint(rows[k]).Some?
    ensures var e := CheckedPrevious(args, rows, net)[k];
            e.row == rows[k] && e.marks.healthy == Some(true) && e.marks.probed == TcpEndpoint(rows[k])
  {
    hide TcpEndpoint;
  }

  lemma RecheckNothing(e: Entry, r: Row, t: int, skip: bool, connected: bool)
    requires Carried(e, r, t) && TcpEndpoint(r).Some?
    ensures CheckedEntry(e, skip, connected) == e && Stamp(e, t) == e
  {
    EndpointIgnores(r, r.config, Some(t));
    hide TcpEndpoint;
  }

  lemma CarriedMergeStage(args: Args, rows: seq<Row>, entries: seq<Entry>, s: int, t: int)
    requires |entries| == |rows| && DistinctIps(rows) && Upsert.DistinctKeys(rows, HostOf)
    requires forall k :: 0 <= k < |rows| ==> Candidate(args, s, rows[k]) && Carried(entries[k], rows[k], t)
    ensures MergeStage(args, entries, []) == entries
  {
    hide Sanitized, PortsAgree, TcpEndpoint, NormalizeHost, MergeWithPrevious, DedupeHostnames, IsValid, EnforceRow, HostKey;
    assert DistinctEntries(entries);
    MergeNothingFresh(entries);
    forall k | 0 <= k < |entries| ensures Candidate(args, t, entries[k].row) {
      RestampCandidate(args, s, t, rows[k]);
    }
    ValidKeepsAll(entries);
    NormalizeIsRedundant(entries);
    assert EnforceAll(entries, args.decode) == entries by {
      forall k | 0 <= k < |entries| ensures EnforceRow(entries[k].row, args.decode) == entries[k].row {
        EnforceAgrees(entries[k].row, args.decode);
      }
    }
    assert DistinctHosts(entries) by {
      forall i, j | 0 <= i < j < |entries| ensures HostKey(entries[i]) != HostKey(entries[j]) {
        CarriedHost(entries[i], rows[i], t);
        CarriedHost(entries[j], rows[j], t);
        assert HostOf(rows[i]) != HostOf(rows[j]);
      }
    }
    DedupeDistinct(entries);
    KeepAll(entries, PublicTest(args.isPublic));
  }

  lemma CarriedHost(e: Entry, r: Row, t: int)
    requires Carried(e, r, t)
    ensures HostKey(e) == HostOf(r)
  {
    hide NormalizeHost, TcpEndpoint;
  }

  lemma SecondCandidates(args: Args, rows: seq<Row>, s: int, t: int, net: Network)
    requires AllUp(args, net) && DistinctIps(rows) && Upsert.DistinctKeys(rows, HostOf)
    requires forall k :: 0 <= k < |rows| ==> Candidate(args, s, rows[k])
    ensures Candidates(args, rows, [], t, net) == RestampAll(rows, t)
    ensures |Keep(CheckedPrevious(args, rows, net), IsHealthy)| == |rows|
  {
    hide Sanitized, PortsAgree, TcpEndpoint, NormalizeHost, MergeStage;
    var checked := CheckedPrevious(args, rows, net);
    var entries := Stamped(checked, t);
    forall k | 0 <= k < |rows| ensures Carried(entries[k], rows[k], t) && IsHealthy(checked[k]) {
      CheckedUp(args, rows, net, k);
    }
    KeepAll(checked, IsHealthy);
    CarriedMergeStage(args, rows, entries, s, t);
    var again := Stamped(Checked(entries, args.skipHealthCheck, 4, net), t);
    hide Checked, CheckedPrevious, NeedsProbe;
    assert again == entries by {
      forall k | 0 <= k < |entries| ensures again[k] == entries[k] {
        RecheckEntry(entries, rows, t, args.skipHealthCheck, net, k);
      }
    }
    KeepAll(entries, IsHealthy);
    assert RowsOf(entries) == RestampAll(rows, t);
  }

  lemma RecheckEntry(entries: seq<Entry>, rows: seq<Row>, t: int, skip: bool, net: Network, k: nat)
    requires k < |entries| == |rows| && Carried(entries[k], rows[k], t) && TcpEndpoint(rows[k]).Some?
    ensures Checked(entries, skip, 4, net)[k] == entries[k] && Stamp(entries[k], t) == entries[k]
  {
    RecheckNothing(entries[k], rows[k], t, skip, Answer(entries[k], 4, k, net));
    hide TcpEndpoint;
  }

  // ---------- the budget on a published file ----------

  /** What a greedy pass leaves behind, as the next pass sees it. */
  function Masked(configs: seq<string>, picks: seq<bool>): (out: seq<string>)
    requires |picks| == |configs|
    ensures |out| == |configs| && forall k :: 0 <= k < |out| ==> out[k] == if picks[k] then configs[k] else ""
  {
    seq(|configs|, k requires 0 <= k < |configs| => if picks[k] then configs[k] else "")
  }

  /** The greedy choice is stable: run again on what it restored, it restores the same configs. */
  lemma {:induction false} GreedyIsStable(configs: seq<string>, slack: int)
    ensures Picks(Masked(configs, Picks(configs, slack)), slack) == Picks(configs, slack)
  {
    if configs != [] {
      var g := Picks(configs, slack);
      var fits := configs[0] != "" && |configs[0]| <= slack;
      var rest := if fits then slack - |configs[0]| else slack;
      var tail := Picks(configs[1..], rest);
      assert g == [fits] + tail && g[1..] == tail;
      GreedyIsStable(configs[1..], rest);
      var m := Masked(configs, g);
      assert m[1..] == Masked(configs[1..], tail);
      assert m[0] == if fits then configs[0] else "";
    }
  }

  lemma SameRank(a: Row, b: Row, c: Row, d: Row)
    requires Seen(a) == Seen(b) && Seen(c) == Seen(d)
    requires ProtocolCount(a) == ProtocolCount(c) && ScoreOf(a) == ScoreOf(c) && a.ip == c.ip
    requires ProtocolCount(b) == ProtocolCount(d) && ScoreOf(b) == ScoreOf(d) && b.ip == d.ip
    ensures Better(a, b) <==> Better(c, d)
  {
  }

  lemma RankIgnores(r: Row, config: string, t: int)
    ensures var q := r.(config := config, lastSeenAt := Some(t));
            ProtocolCount(q) == ProtocolCount(r) && ScoreOf(q) == ScoreOf(r) && q.ip == r.ip && Seen(q) == t
  {
  }

  /** Two rows of one stamp keep their order when both are stamped anew, with or without their configs. */
  lemma RestampedPair(a: Row, keepA: bool, b: Row, keepB: bool, s: int, t: int)
    requires a.lastSeenAt == Some(s) && b.lastSeenAt == Some(s)
    ensures var x, y := if keepA then a else Stripped(a), if keepB then b else Stripped(b);
            Better(Restamp(y, t), Restamp(x, t)) <==> Better(b, a)
  {
    hide Better, ProtocolCount, ScoreOf;
    var x, y := if keepA then a else Stripped(a), if keepB then b else Stripped(b);
    RankIgnores(a, x.config, t);
    RankIgnores(b, y.config, t);
    RankIgnores(a, a.config, s);
    RankIgnores(b, b.config, s);
    SameRank(Restamp(y, t), Restamp(x, t), b, a);
  }

  /** Restoring configs and restamping keep a ranking with one common time stamp. */
  lemma RestampedRanking(top: seq<Row>, picks: seq<bool>, s: int, t: int)
    requires |picks| == |top| && Sorted(top, Better) && SeenAt(top, s)
    ensures Sorted(RestampAll(Restore(top, picks), t), Better)
  {
    hide Better;
    var out := RestampAll(Restore(top, picks), t);
    forall i, j | 0 <= i < j < |out| ensures !Better(out[j], out[i]) {
      assert !Better(top[j], top[i]);
      RestampedPair(top[i], picks[i], top[j], picks[j], s, t);
    }
  }

  lemma StripRestored(top: seq<Row>, picks: seq<bool>, t: int)
    requires |picks| == |top|
    ensures StripConfigs(RestampAll(Restore(top, picks), t)) == RestampAll(StripConfigs(top), t)
    ensures ConfigsOf(RestampAll(Restore(top, picks), t)) == Masked(ConfigsOf(top), picks)
    ensures Restore(RestampAll(Restore(top, picks), t), picks) == RestampAll(Restore(top, picks), t)
  {
    var out := RestampAll(Restore(top, picks), t);
    forall k | 0 <= k < |out|
      ensures Stripped(out[k]) == Restamp(Stripped(top[k]), t)
      ensures !picks[k] ==> Stripped(out[k]) == out[k]
    {
    }
  }

  lemma RankedStays(out: seq<Row>)
    requires Sorted(out, Better) && DistinctIps(out)
    ensures Sort(out, Better) == out
  {
    RankOrder();
    RankSeparated(out);
    hide Better;
    SortSorts(out, Better);
    SortedUnique(out, Sort(out, Better), Better);
  }

  /** The file's rows fitted again, in rank order. */
  lemma RefitRanked(top: seq<Row>, maxBytes: int, s: int, t: int)
    requires Sorted(top, Better) && DistinctIps(top) && SeenAt(top, s) && |IntText(s)| == |IntText(t)|
    requires FeedSize(StripConfigs(top)) <= maxBytes
    ensures var picks := Picks(ConfigsOf(top), maxBytes - FeedSize(StripConfigs(top)));
            var out := RestampAll(Restore(top, picks), t);
            FitRows(out, maxBytes) == out
  {
    hide Better, FeedSize, IntText, Picks, Sort;
    var slack := maxBytes - FeedSize(StripConfigs(top));
    var picks := Picks(ConfigsOf(top), slack);
    var out := RestampAll(Restore(top, picks), t);
    RestampedRanking(top, picks, s, t);
    assert DistinctIps(out);
    RankedStays(out);
    StripRestored(top, picks, t);
    RestampFeedSize(StripConfigs(top), s, t);
    GreedyIsStable(ConfigsOf(top), slack);
    assert out[..|out|] == out;
    assert LargestFit(StripConfigs(out), maxBytes) == |out|;
    assert Top(out, maxBytes) == out;
    assert Chosen(out, maxBytes) == picks;
  }

  lemma FitRowsPermutation(rows: seq<Row>, other: seq<Row>, maxBytes: int)
    requires DistinctIps(rows) && multiset(rows) == multiset(other)
    ensures FitRows(rows, maxBytes) == FitRows(other, maxBytes)
  {
    RankOrder();
    RankSeparated(rows);
    SortOrderIndependent(rows, other, Better);
    hide Better, LargestFit, StripConfigs, Sort, Separated, StrictWeak, DistinctIps, FitRows;
    assert Top(rows, maxBytes) == Top(other, maxBytes);
    SameTopSameFit(rows, other, maxBytes);
  }

  // ---------- the theorem ----------

  lemma IpSortedStays(rows: seq<Row>, fitted: seq<Row>)
    requires Sorted(rows, IpLess) && DistinctIps(rows) && SanitizedRows(rows) && multiset(rows) == multiset(fitted)
    ensures Sort(fitted, IpLess) == rows
  {
    hide IpLess;
    forall k | 0 <= k < |rows| ensures rows[k].ip != "" && NormalizeIp(rows[k].ip) == rows[k].ip {
      SanitizedIp(rows[k]);
    }
    IpSeparated(rows);
    IpOrder();
    hide Sanitized, NormalizeIp;
    SortSorts(fitted, IpLess);
    SortedUnique(rows, Sort(fitted, IpLess), IpLess);
  }

  lemma SanitizedIp(r: Row)
    requires Sanitized(r)
    ensures r.ip != "" && NormalizeIp(r.ip) == r.ip
  {
  }

  lemma RestampIpOrder(rows: seq<Row>, t: int)
    requires Sorted(rows, IpLess)
    ensures Sorted(RestampAll(rows, t), IpLess)
  {
    forall i, j | 0 <= i < j < |rows| ensures !IpLess(Restamp(rows[j], t), Restamp(rows[i], t)) {
      assert !IpLess(rows[j], rows[i]);
    }
  }

  /** Fitting the restamped rows of a published file keeps them all, configs included. */
  lemma RefitWritten(args: Args, healthy: seq<Row>, s: int, t: int)
    requires DistinctIps(healthy) && SeenAt(healthy, s) && |IntText(s)| == |IntText(t)|
    requires Written(args, healthy) != []
    ensures var out := RestampAll(FitRows(Prune(healthy, args.maxServers), args.maxBytes), t);
            FitRows(out, args.maxBytes) == out
  {
    hide Better, IpLess, FeedSize, IntText, Picks, Sanitized, Restamp, Prune, Sort, Written;
    KeptIsTopSegment(args, healthy);
    RankedTop(healthy, s, |Written(args, healthy)|);
    RefitRanked(Top(Prune(healthy, args.maxServers), args.maxBytes), args.maxBytes, s, t);
  }

  lemma WrittenIsPermutation(args: Args, healthy: seq<Row>)
    ensures multiset(Written(args, healthy)) == multiset(FitRows(Prune(healthy, args.maxServers), args.maxBytes))
    ensures Sorted(Written(args, healthy), IpLess)
  {
    hide IpLess, FitRows, Prune;
    IpOrder();
    SortSorts(FitRows(Prune(healthy, args.maxServers), args.maxBytes), IpLess);
  }

  /** The rows a file was published with, fitted and sorted again after restamping. */
  lemma RewrittenRows(args: Args, healthy: seq<Row>, s: int, t: int)
    requires DistinctIps(healthy) && SanitizedRows(healthy) && SeenAt(healthy, s) && |IntText(s)| == |IntText(t)|
    requires Written(args, healthy) != []
    ensures var again := RestampAll(Written(args, healthy), t);
            |again| <= args.maxServers && Sort(FitRows(again, args.maxBytes), IpLess) == again
  {
    hide Better, IpLess, IntText, Sanitized, Restamp, Prune, Sort, Written, FitRows, Sorted, DistinctIps;
    var rows := Written(args, healthy);
    var fitted := FitRows(Prune(healthy, args.maxServers), args.maxBytes);
    var again, out := RestampAll(rows, t), RestampAll(fitted, t);
    KeptIsTopSegment(args, healthy);
    WrittenIsPermutation(args, healthy);
    RestampPermutation(rows, fitted, t);
    WrittenDistinct(args, healthy);
    WrittenSanitized(args, healthy);
    RestampDistinct(rows, t);
    FitRowsPermutation(again, out, args.maxBytes);
    RefitWritten(args, healthy, s, t);
    RestampIpOrder(rows, t);
    RestampSanitized(rows, t);
    IpSortedStays(again, out);
  }

  lemma DistinctPrefix(rows: seq<Row>, k: nat)
    requires DistinctIps(rows) && k <= |rows|
    ensures DistinctIps(rows[..k])
  {
  }

  lemma RankedTop(healthy: seq<Row>, s: int, k: nat)
    requires DistinctIps(healthy) && SeenAt(healthy, s) && k <= |healthy|
    ensures var top := Sort(healthy, Better)[..k]; Sorted(top, Better) && DistinctIps(top) && SeenAt(top, s)
  {
    hide Better, Sort, DistinctIps;
    var ranked := Sort(healthy, Better);
    RankOrder();
    SortSorts(healthy, Better);
    DistinctIpsPermutation(healthy, ranked);
    DistinctPrefix(ranked, k);
    PermutationMembers(healthy, ranked);
    forall i | 0 <= i < k ensures ranked[i].lastSeenAt == Some(s) {
      assert ranked[i] in healthy;
    }
  }

  lemma RestampDistinct(rows: seq<Row>, t: int)
    requires DistinctIps(rows)
    ensures DistinctIps(RestampAll(rows, t))
  {
  }

  lemma RestampSanitized(rows: seq<Row>, t: int)
    requires SanitizedRows(rows)
    ensures SanitizedRows(RestampAll(rows, t))
  {
    hide Sanitized;
    forall k | 0 <= k < |rows| ensures Sanitized(RestampAll(rows, t)[k]) {
      StampSanitized(rows[k], t);
    }
  }

  lemma WithinCap(args: Args, rows: seq<Row>)
    requires |rows| <= args.maxServers
    ensures Prune(rows, args.maxServers) == rows
    ensures Written(args, rows) == Sort(FitRows(rows, args.maxBytes), IpLess)
  {
  }

  lemma SecondPublish(args: Args, healthy: seq<Row>, s: int, t: int)
    requires DistinctIps(healthy) && SanitizedRows(healthy) && SeenAt(healthy, s) && |IntText(s)| == |IntText(t)|
    requires Publish(args, healthy).Published?
    ensures var again := RestampAll(Publish(args, healthy).rows, t);
            Publish(args, again) == Published(again, Render(again))
  {
    hide Sanitized, Written, HasReplacement, Readable, Render, IntText, FitRows, Publish, Prune;
    PublishOutcome(args, healthy);
    var rows := Written(args, healthy);
    var again := RestampAll(rows, t);
    KeptIsTopSegment(args, healthy);
    WrittenSanitized(args, healthy);
    RestampSanitized(rows, t);
    RewrittenRows(args, healthy, s, t);
    WrittenSeen(args, healthy, s);
    RestampReplacement(rows, t);
    RestampReadable(rows, s, t);
    PublishOutcome(args, again);
    WithinCap(args, again);
  }

  lemma WrittenSeen(args: Args, healthy: seq<Row>, s: int)
    requires SeenAt(healthy, s)
    ensures SeenAt(Written(args, healthy), s)
  {
    hide Written;
    forall k | 0 <= k < |Written(args, healthy)| ensures Written(args, healthy)[k].lastSeenAt == Some(s) {
      var i := Origin(args, healthy, k);
    }
  }

  /** Running again on the published file, with nothing fresh, every probe succeeding and a start
      time of the same decimal width, publishes exactly the same rows with only the time stamp
      replaced, configs included. The one way out is a health-ratio limit above 1. */
  lemma RepublishIsFixpoint(
      args: Args, body: Option<string>, fetched: seq<Row>, s: int, net: Network, t: int, up: Network)
    requires SanitizedRows(fetched) && Run(args, body, fetched, s, net).Published?
    requires AllUp(args, up) && |IntText(s)| == |IntText(t)|
    ensures var first := Run(args, body, fetched, s, net);
            var again := RestampAll(first.rows, t);
            Run(args, Some(first.text), [], t, up) ==
              if |first.rows| >= args.minPreviousForRatio && !args.skipHealthCheck && !args.force && args.minHealthyRatio > 1.0
              then Refused(LowHealth)
              else Published(again, Render(again))
  {
    hide Candidates, CheckedPrevious, RatioGuard, Publish, Candidate, Sanitized, Parse, Render, Written, IntText;
    var first := Run(args, body, fetched, s, net);
    PublishedFile(args, body, fetched, s, net);
    var previous := LoadPrevious(body).value;
    LoadedSanitized(body);
    CandidatesShape(args, previous, fetched, s, net);
    var healthy := Candidates(args, previous, fetched, s, net);
    CandidatesSanitized(args, s, healthy);
    CandidatesSeen(args, s, healthy);
    assert first == Publish(args, healthy);
    SecondCandidates(args, first.rows, s, t, up);
    SecondGuard(args, first.rows, up);
    SecondPublish(args, healthy, s, t);
  }

  lemma CandidatesSeen(args: Args, s: int, rows: seq<Row>)
    requires forall k :: 0 <= k < |rows| ==> Candidate(args, s, rows[k])
    ensures SeenAt(rows, s)
  {
    hide Sanitized, TcpEndpoint, PortsAgree;
  }

  lemma AllOfThem(n: real)
    requires n > 0.0
    ensures n / n == 1.0
  {
  }

  lemma SecondGuard(args: Args, rows: seq<Row>, net: Network)
    requires rows != [] && |Keep(CheckedPrevious(args, rows, net), IsHealthy)| == |rows|
    ensures RatioGuard(args, CheckedPrevious(args, rows, net)) ==
            if |rows| >= args.minPreviousForRatio && !args.skipHealthCheck && !args.force && args.minHealthyRatio > 1.0
            then Some(LowHealth) else None
  {
    assert |CheckedPrevious(args, rows, net)| == |rows|;
    hide Keep, CheckedPrevious;
    AllOfThem(|rows| as real);
  }
}
