/** What every published file satisfies: shape of the rows, probes behind them, the top segment of
    the ranking, and when the final checks can fail. */
module Pipeline {
  import opened Text
  import opened Rows
  import opened Ordering
  import opened Ranking
  import opened Feed
  import opened Budget
  import opened Merge
  import opened Ports
  import opened Probe
  import opened Stages
  import opened Publisher
  import Upsert
  import ApiFeed

  // ---------- what a run fetches ----------

  /** The rows read from the API's body, none if there is no body. */
  function ApiRowsOf(api: Option<string>, started: int): seq<Row> {
    if api.None? then []
    else match ApiFeed.ParseApi(api.value, started) case Accepted(rows, _) => rows case TooLong => []
  }

  /** Whatever the API sends, the rows a run fetches are sanitized, one for each IP of either source and no other. */
  lemma FetchedRows(api: Option<string>, html: seq<Row>, started: int)
    requires SanitizedRows(html)
    ensures var fetched := ApiFeed.FetchFresh(api, html, started);
            fetched.Some? ==>
              && SanitizedRows(fetched.value) && DistinctIps(fetched.value)
              && forall ip :: HasIp(fetched.value, ip) <==> HasIp(ApiRowsOf(api, started), ip) || HasIp(html, ip)
  {
    hide Sanitized, MergeFresh, ApiFeed.ParseApi;
    if api.None? {
      MergeFreshRowsPerIp([], html);
    } else {
      ApiSanitized(api.value, started);
      var parsed := ApiFeed.ParseApi(api.value, started);
      if parsed.Accepted? {
        MergeFreshRowsPerIp(parsed.rows, html);
      }
    }
  }

  lemma ApiSanitized(text: string, started: int)
    ensures var r := ApiFeed.ParseApi(text, started);
            r.Accepted? ==> SanitizedRows(r.rows) && forall k :: 0 <= k < |r.rows| ==> r.rows[k].firstSeenAt == Some(started)
  {
    hide Sanitized, ApiFeed.ParseApi;
    ApiFeed.ParseApiShape(text, started);
    var r := ApiFeed.ParseApi(text, started);
    if r.Accepted? {
      forall k | 0 <= k < |r.rows| ensures Sanitized(r.rows[k]) && r.rows[k].firstSeenAt == Some(started) {
        assert ApiFeed.FromApi(r.rows[k], started);
      }
    }
  }

  // ---------- stages keep lists good ----------

  /** One sanitized row per IP. */
  predicate Good(entries: seq<Entry>) {
    SanitizedEntries(entries) && DistinctEntries(entries)
  }

  lemma {:induction false} KeepMembers(entries: seq<Entry>, p: Entry -> bool)
    ensures forall e :: e in Keep(entries, p) <==> e in entries && p(e)
  {
    if entries != [] {
      var init, last := entries[..|entries| - 1], entries[|entries| - 1];
      KeepMembers(init, p);
      assert entries == init + [last];
      assert Keep(entries, p) == Keep(init, p) + (if p(last) then [last] else []);
    }
  }

  lemma {:induction false} KeepDistinct(entries: seq<Entry>, p: Entry -> bool)
    requires DistinctEntries(entries)
    ensures DistinctEntries(Keep(entries, p))
  {
    if entries != [] {
      var init, last := entries[..|entries| - 1], entries[|entries| - 1];
      KeepDistinct(init, p);
      KeepMembers(init, p);
      var kept := Keep(init, p);
      forall i | 0 <= i < |kept| ensures kept[i].row.ip != last.row.ip {
        assert kept[i] in kept;
        assert kept[i] in init;
      }
    }
  }

  lemma {:induction false} KeepAll(entries: seq<Entry>, p: Entry -> bool)
    requires forall k :: 0 <= k < |entries| ==> p(entries[k])
    ensures Keep(entries, p) == entries
  {
    if entries != [] {
      KeepAll(entries[..|entries| - 1], p);
    }
  }

  lemma KeepGood(entries: seq<Entry>, p: Entry -> bool)
    requires Good(entries)
    ensures Good(Keep(entries, p))
  {
    hide Sanitized;
    KeepDistinct(entries, p);
    KeepMembers(entries, p);
    var kept := Keep(entries, p);
    forall k | 0 <= k < |kept| ensures Sanitized(kept[k].row) {
      assert kept[k] in kept;
      assert kept[k] in entries;
    }
  }

  /** On sanitized rows the separate host:port pass changes nothing. */
  lemma NormalizeIsRedundant(entries: seq<Entry>)
    requires SanitizedEntries(entries)
    ensures NormalizeAll(entries) == entries
  {
    forall k | 0 <= k < |entries| ensures NormalizeAll(entries)[k] == entries[k] {
      NormalizeSstpSplits(entries[k].row);
    }
  }

  lemma EnforceGood(entries: seq<Entry>, decode: Decoder)
    requires Good(entries)
    ensures Good(EnforceAll(entries, decode))
    ensures forall k :: 0 <= k < |entries| ==> PortsAgree(EnforceAll(entries, decode)[k].row, decode)
  {
    hide Sanitized, EnforceRow, PortsAgree;
    var out := EnforceAll(entries, decode);
    forall k | 0 <= k < |entries|
      ensures Sanitized(out[k].row) && out[k].row.ip == entries[k].row.ip && PortsAgree(out[k].row, decode)
    {
      EnforceAgrees(entries[k].row, decode);
    }
  }

  lemma DedupeGood(entries: seq<Entry>)
    requires Good(entries)
    ensures Good(DedupeHostnames(entries)) && DistinctHosts(DedupeHostnames(entries))
    ensures forall e :: e in DedupeHostnames(entries) ==> e in entries
  {
    hide Sanitized, DedupeHostnames;
    DedupeShape(entries);
    var kept := DedupeHostnames(entries);
    forall k | 0 <= k < |kept| ensures Sanitized(kept[k].row) {
      assert kept[k] in kept;
      assert kept[k] in entries;
    }
    forall i, j | 0 <= i < j < |kept| ensures kept[i].row.ip != kept[j].row.ip {
      assert kept[i] in kept && kept[j] in kept;
      assert HostKey(kept[i]) != HostKey(kept[j]);
      SameIpSameEntry(entries, kept[i], kept[j]);
    }
  }

  lemma {:induction false} KeepHosts(entries: seq<Entry>, p: Entry -> bool)
    requires DistinctHosts(entries)
    ensures DistinctHosts(Keep(entries, p))
  {
    hide HostKey;
    if entries != [] {
      var init, last := entries[..|entries| - 1], entries[|entries| - 1];
      KeepHosts(init, p);
      KeepMembers(init, p);
      var kept := Keep(init, p);
      forall i | 0 <= i < |kept| ensures HostKey(kept[i]) != HostKey(last) {
        assert kept[i] in kept;
        assert kept[i] in init;
      }
    }
  }

  lemma CheckedRows(entries: seq<Entry>, skip: bool, stage: nat, net: Network, k: nat)
    requires k < |entries|
    ensures Checked(entries, skip, stage, net)[k].row == entries[k].row
  {
  }

  lemma CheckedGood(entries: seq<Entry>, skip: bool, stage: nat, net: Network)
    requires Good(entries)
    ensures Good(Checked(entries, skip, stage, net))
  {
    hide Sanitized, Checked;
    forall k | 0 <= k < |entries| ensures Checked(entries, skip, stage, net)[k].row == entries[k].row {
      CheckedRows(entries, skip, stage, net, k);
    }
  }

  lemma StampSanitized(r: Row, t: int)
    ensures Sanitized(r.(lastSeenAt := Some(t))) <==> Sanitized(r)
  {
    hide IsClean, NormalizeIp, NormalizeHost, HasPortSuffix, ValidBase64;
  }

  lemma StampedGood(entries: seq<Entry>, started: int)
    requires Good(entries)
    ensures Good(Stamped(entries, started))
  {
    hide Sanitized;
    forall k | 0 <= k < |entries| ensures Sanitized(Stamped(entries, started)[k].row) {
      StampSanitized(entries[k].row, started);
    }
  }

  /** Checking and stamping keep sanitized lists sanitized, distinct or not. */
  lemma PreviousSanitized(args: Args, previous: seq<Row>, started: int, net: Network)
    requires SanitizedRows(previous)
    ensures SanitizedEntries(Stamped(CheckedPrevious(args, previous, net), started))
  {
    hide Sanitized;
    var checked := CheckedPrevious(args, previous, net);
    forall k | 0 <= k < |checked| ensures Sanitized(Stamped(checked, started)[k].row) {
      CheckedRows(Unmarked(previous), args.skipHealthCheck, 2, net, k);
      StampSanitized(previous[k], started);
    }
  }

  // ---------- the merged list ----------

  /** What holds of every entry after stage 4's repairs. */
  predicate Repaired(args: Args, e: Entry) {
    Sanitized(e.row) && PortsAgree(e.row, args.decode) && args.isPublic(e.row.ip)
  }

  lemma ValidKeepsAll(entries: seq<Entry>)
    requires SanitizedEntries(entries)
    ensures Keep(entries, IsValid) == entries
  {
    hide Sanitized, Sanitize;
    forall k | 0 <= k < |entries| ensures IsValid(entries[k]) {
      SanitizeFixpoint(entries[k].row);
    }
    KeepAll(entries, IsValid);
  }

  lemma MergeStageGood(args: Args, previous: seq<Entry>, fetched: seq<Row>)
    requires SanitizedEntries(previous) && SanitizedRows(fetched)
    ensures var m := MergeStage(args, previous, fetched);
            && Good(m) && DistinctHosts(m)
            && forall e :: e in m ==> Repaired(args, e)
  {
    hide Sanitized, MergeWithPrevious, DedupeHostnames, PortsAgree, IsValid, HostKey;
    var all := MergeWithPrevious(previous, fetched);
    MergeWithPreviousRowsPerIp(previous, fetched);
    ValidKeepsAll(all);
    NormalizeIsRedundant(all);
    var repaired := EnforceAll(all, args.decode);
    EnforceGood(all, args.decode);
    var unique := DedupeHostnames(repaired);
    DedupeGood(repaired);
    var test := PublicTest(args.isPublic);
    KeepGood(unique, test);
    KeepHosts(unique, test);
    KeepMembers(unique, test);
    forall e | e in Keep(unique, test) ensures Repaired(args, e) {
      assert e in unique && test(e);
      assert e in repaired;
      var k :| 0 <= k < |repaired| && repaired[k] == e;
    }
  }

  // ---------- the candidates and the probes behind them ----------

  /** All probes of a run: those of the previous file's rows, then those of changed endpoints. */
  function RunProbes(args: Args, previous: seq<Row>, fetched: seq<Row>, started: int, net: Network): seq<Outcome> {
    ProbesOf(Unmarked(previous), args.skipHealthCheck, 2, net) +
    ProbesOf(MergedList(args, previous, fetched, started, net), args.skipHealthCheck, 4, net)
  }

  /** The verdict an entry carries is backed by `probes`, and an unprobed entry carries none. */
  predicate MarksBacked(e: Entry, probes: seq<Outcome>) {
    BackedBefore(e, probes) && (e.marks.healthy.None? ==> e.marks.probed.None?)
  }

  lemma PreviousBacked(args: Args, previous: seq<Row>, started: int, net: Network)
    requires !args.skipHealthCheck
    ensures var entries := Stamped(CheckedPrevious(args, previous, net), started);
            forall e :: e in entries ==> MarksBacked(e, ProbesOf(Unmarked(previous), false, 2, net))
  {
    hide TcpEndpoint;
    var probes := ProbesOf(Unmarked(previous), false, 2, net);
    var checked := CheckedPrevious(args, previous, net);
    forall k | 0 <= k < |checked| ensures MarksBacked(Stamped(checked, started)[k], probes) {
      CheckBacks(Unmarked(previous), 2, net, [], k);
      assert [] + probes == probes;
    }
  }

  lemma MergeKeepsMarks(previous: seq<Entry>, fetched: seq<Row>, probes: seq<Outcome>)
    requires forall e :: e in previous ==> MarksBacked(e, probes)
    ensures forall e :: e in MergeWithPrevious(previous, fetched) ==> MarksBacked(e, probes)
  {
    hide MergeTwo;
    var inv := (ip: string, e: Entry) => MarksBacked(e, probes);
    Upsert.AddAllInvariant(Upsert.Empty(), previous, PREVIOUS_BY_IP, inv);
    Upsert.AddAllInvariant(Upsert.AddAll(Upsert.Empty(), previous, PREVIOUS_BY_IP), fetched, FRESH_RULE, inv);
    MergedDictValid(previous, fetched);
    Upsert.ValuesMembers(MergedDict(previous, fetched));
  }

  lemma MergeStageMarks(args: Args, previous: seq<Entry>, fetched: seq<Row>, probes: seq<Outcome>)
    requires forall e :: e in previous ==> MarksBacked(e, probes)
    ensures forall e :: e in MergeStage(args, previous, fetched) ==> MarksBacked(e, probes)
  {
    hide MergeWithPrevious, DedupeHostnames, IsValid, EnforceRow, NormalizeSstpRow, MarksBacked;
    var all := MergeWithPrevious(previous, fetched);
    MergeKeepsMarks(previous, fetched, probes);
    var valid := Keep(all, IsValid);
    KeepMembers(all, IsValid);
    var repaired := EnforceAll(NormalizeAll(valid), args.decode);
    forall k | 0 <= k < |repaired| ensures MarksBacked(repaired[k], probes) {
      SameMarks(valid[k], repaired[k], probes);
    }
    var unique := DedupeHostnames(repaired);
    DedupeShape(repaired);
    KeepMembers(unique, PublicTest(args.isPublic));
  }

  lemma SameMarks(a: Entry, b: Entry, probes: seq<Outcome>)
    requires a.marks == b.marks
    ensures MarksBacked(a, probes) <==> MarksBacked(b, probes)
  {
  }

  lemma EndpointIgnores(r: Row, config: string, seen: Option<int>)
    ensures TcpEndpoint(r.(config := config, lastSeenAt := seen)) == TcpEndpoint(r)
  {
  }

  lemma HealthyHasEndpoint(entries: seq<Entry>, skip: bool, stage: nat, net: Network, k: nat)
    requires k < |entries|
    ensures IsHealthy(Checked(entries, skip, stage, net)[k]) ==> TcpEndpoint(entries[k].row).Some?
  {
    hide TcpEndpoint;
  }

  /** What holds of every row that may be published. */
  predicate Candidate(args: Args, started: int, r: Row) {
    && Sanitized(r) && PortsAgree(r, args.decode) && args.isPublic(r.ip)
    && r.lastSeenAt == Some(started) && TcpEndpoint(r).Some?
  }

  function HostOf(r: Row): string { NormalizeHost(r.hostName) }

  lemma StampPorts(r: Row, t: int, decode: Decoder)
    ensures PortsAgree(r.(lastSeenAt := Some(t)), decode) <==> PortsAgree(r, decode)
  {
    hide ConfigPorts;
  }

  /** Every candidate row is sanitized, publicly routable, agrees with its profile, carries this
      run's start time and has an endpoint; no two share an IP or a host. */
  lemma CandidatesShape(args: Args, previous: seq<Row>, fetched: seq<Row>, started: int, net: Network)
    requires SanitizedRows(previous) && SanitizedRows(fetched)
    ensures var c := Candidates(args, previous, fetched, started, net);
            && DistinctIps(c) && Upsert.DistinctKeys(c, HostOf)
            && forall k :: 0 <= k < |c| ==> Candidate(args, started, c[k])
  {
    hide Sanitized, PortsAgree, TcpEndpoint, MergeStage, CheckedPrevious, HostKey, NormalizeHost, NeedsProbe;
    PreviousSanitized(args, previous, started, net);
    MergeStageGood(args, Stamped(CheckedPrevious(args, previous, net), started), fetched);
    var merged := MergedList(args, previous, fetched, started, net);
    var checked := Checked(merged, args.skipHealthCheck, 4, net);
    var stamped := Stamped(checked, started);
    CheckedGood(merged, args.skipHealthCheck, 4, net);
    StampedGood(checked, started);
    forall k | 0 <= k < |merged|
      ensures IsHealthy(stamped[k]) ==> Candidate(args, started, stamped[k].row)
      ensures HostKey(stamped[k]) == HostKey(merged[k])
    {
      CheckedRows(merged, args.skipHealthCheck, 4, net, k);
      HealthyHasEndpoint(merged, args.skipHealthCheck, 4, net, k);
      StampPorts(merged[k].row, started, args.decode);
      StampHost(merged[k], checked[k].marks, started);
      EndpointIgnores(merged[k].row, merged[k].row.config, Some(started));
      assert merged[k] in merged;
      assert Repaired(args, merged[k]);
      if IsHealthy(stamped[k]) {
        var r := merged[k].row;
        assert stamped[k].row == r.(lastSeenAt := Some(started));
        assert Candidate(args, started, stamped[k].row);
      }
    }
    assert DistinctHosts(stamped);
    KeepGood(stamped, IsHealthy);
    KeepHosts(stamped, IsHealthy);
    KeepMembers(stamped, IsHealthy);
    var kept := Keep(stamped, IsHealthy);
    forall k | 0 <= k < |kept| ensures Candidate(args, started, kept[k].row) {
      assert kept[k] in kept;
      assert kept[k] in stamped;
      var j :| 0 <= j < |stamped| && stamped[j] == kept[k];
    }
    HostsOfRows(kept);
  }

  lemma StampHost(e: Entry, marks: Marks, t: int)
    ensures HostKey(Stamp(Entry(e.row, marks), t)) == HostKey(e)
  {
  }

  lemma HostsOfRows(entries: seq<Entry>)
    requires DistinctHosts(entries)
    ensures Upsert.DistinctKeys(RowsOf(entries), HostOf)
  {
    hide NormalizeHost;
    forall i, j | 0 <= i < j < |entries| ensures HostOf(RowsOf(entries)[i]) != HostOf(RowsOf(entries)[j]) {
      assert HostKey(entries[i]) != HostKey(entries[j]);
    }
  }

  /** With health checks on, every candidate was reached in this same run at the endpoint it has. */
  lemma CandidatesWereProbed(args: Args, previous: seq<Row>, fetched: seq<Row>, started: int, net: Network)
    requires !args.skipHealthCheck
    ensures var c := Candidates(args, previous, fetched, started, net);
            forall k :: 0 <= k < |c| ==>
              TcpEndpoint(c[k]).Some? &&
              Outcome(TcpEndpoint(c[k]).value, true) in RunProbes(args, previous, fetched, started, net)
  {
    hide TcpEndpoint, MergeStage, CheckedPrevious, NeedsProbe;
    var first := ProbesOf(Unmarked(previous), false, 2, net);
    PreviousBacked(args, previous, started, net);
    MergeStageMarks(args, Stamped(CheckedPrevious(args, previous, net), started), fetched, first);
    var merged := MergedList(args, previous, fetched, started, net);
    var checked := Checked(merged, false, 4, net);
    var stamped := Stamped(checked, started);
    var all := RunProbes(args, previous, fetched, started, net);
    forall k | 0 <= k < |merged| && IsHealthy(stamped[k])
      ensures TcpEndpoint(stamped[k].row).Some? && Outcome(TcpEndpoint(stamped[k].row).value, true) in all
    {
      assert merged[k] in merged;
      CheckBacks(merged, 4, net, first, k);
      EndpointIgnores(checked[k].row, checked[k].row.config, Some(started));
    }
    KeepMembers(stamped, IsHealthy);
    var kept := Keep(stamped, IsHealthy);
    forall k | 0 <= k < |kept|
      ensures TcpEndpoint(kept[k].row).Some? && Outcome(TcpEndpoint(kept[k].row).value, true) in all
    {
      assert kept[k] in kept;
      assert kept[k] in stamped && IsHealthy(kept[k]);
      var j :| 0 <= j < |stamped| && stamped[j] == kept[k];
    }
  }

  /** In the second check exactly the rows whose endpoint is new or changed are probed. */
  lemma OnlyChangedEndpointsAreProbed(args: Args, previous: seq<Row>, fetched: seq<Row>, started: int, net: Network, e: Entry)
    requires !args.skipHealthCheck && e in MergedList(args, previous, fetched, started, net)
    ensures NeedsProbe(e) <==> TcpEndpoint(e.row).Some? && e.marks.probed != TcpEndpoint(e.row)
  {
    hide TcpEndpoint, MergeStage, CheckedPrevious;
    PreviousBacked(args, previous, started, net);
    MergeStageMarks(args, Stamped(CheckedPrevious(args, previous, net), started), fetched,
                    ProbesOf(Unmarked(previous), false, 2, net));
  }

  // ---------- pruning, budget and self-check ----------

  function Written(args: Args, healthy: seq<Row>): seq<Row> {
    Sort(FitRows(Prune(healthy, args.maxServers), args.maxBytes), IpLess)
  }

  lemma MembersSanitized(rows: seq<Row>, from: seq<Row>)
    requires SanitizedRows(from) && multiset(rows) <= multiset(from)
    ensures SanitizedRows(rows)
  {
    hide Sanitized;
    forall k | 0 <= k < |rows| ensures Sanitized(rows[k]) {
      assert rows[k] in multiset(rows);
      assert rows[k] in multiset(from);
      assert rows[k] in from;
    }
  }

  lemma StrippedSanitized(r: Row)
    requires Sanitized(r)
    ensures Sanitized(Stripped(r))
  {
    hide IsClean, NormalizeIp, NormalizeHost, HasPortSuffix, ValidBase64;
  }

  lemma SanitizedConfigs(rows: seq<Row>)
    requires SanitizedRows(rows)
    ensures ConfigsValid(rows)
  {
    hide IsClean, NormalizeIp, NormalizeHost, HasPortSuffix, ValidBase64;
  }

  lemma WrittenMembers(args: Args, healthy: seq<Row>, r: Row)
    ensures var kept := Prune(healthy, args.maxServers);
            r in Written(args, healthy) ==> exists q :: q in healthy && (r == q || r == Stripped(q))
  {
    hide Better, IpLess, Chosen, LargestFit;
    var kept := Prune(healthy, args.maxServers);
    var fitted := FitRows(kept, args.maxBytes);
    IpOrder();
    RankOrder();
    SortSorts(fitted, IpLess);
    PermutationMembers(fitted, Written(args, healthy));
    SortSorts(kept, Better);
    PermutationMembers(kept, Sort(kept, Better));
    PruneMembers(healthy, args.maxServers);
    if r in Written(args, healthy) {
      assert r in fitted;
      var k :| 0 <= k < |fitted| && fitted[k] == r;
      var q := Top(kept, args.maxBytes)[k];
      assert q in Sort(kept, Better);
      assert q in multiset(kept);
      assert q in multiset(healthy);
      assert q in healthy && (r == q || r == Stripped(q));
    }
  }

  lemma WrittenSanitized(args: Args, healthy: seq<Row>)
    requires SanitizedRows(healthy)
    ensures SanitizedRows(Written(args, healthy))
  {
    hide Sanitized, Written;
    forall k | 0 <= k < |Written(args, healthy)| ensures Sanitized(Written(args, healthy)[k]) {
      var r := Written(args, healthy)[k];
      WrittenMembers(args, healthy, r);
      var q :| q in healthy && (r == q || r == Stripped(q));
      var j :| 0 <= j < |healthy| && healthy[j] == q;
      StrippedSanitized(q);
    }
  }

  /** When stage 6 refuses what pruning and budget let through: only an empty list, a U+FFFD in some
      cell or a field beyond the reader's limit. The size guard cannot fire on a non-empty list. */
  lemma PublishOutcome(args: Args, healthy: seq<Row>)
    requires SanitizedRows(healthy)
    ensures var kept := Prune(healthy, args.maxServers);
            var written := Written(args, healthy);
            Publish(args, healthy) ==
              if |kept| < args.minRows then Refused(TooFewHealthy)
              else if |written| < args.minRows then Refused(TooFewFit)
              else if written == [] then Refused(if HeaderSize() > args.maxBytes then TooManyBytes else SelfCheckFailed)
              else if HasReplacement(written) then Refused(SelfCheckFailed)
              else if !Readable(written) then Refused(ReaderFieldLimit)
              else Published(written, Render(written))
  {
    hide Better, IpLess, FitRows, Parse, Render, HasReplacement, Readable, Sanitized, Utf8Size, HeaderSize;
    var kept := Prune(healthy, args.maxServers);
    var fitted := FitRows(kept, args.maxBytes);
    var written := Written(args, healthy);
    WrittenSanitized(args, healthy);
    RoundTrip(written);
    PruneMembers(healthy, args.maxServers);
    MembersSanitized(kept, healthy);
    SanitizedConfigs(kept);
    IpOrder();
    SortSorts(fitted, IpLess);
    SizeGuard(kept, args.maxBytes, written);
    assert written == [] ==> !HasReplacement(written) by { NothingReplaced(); }
    assert written == [] ==> Readable(written) by { NothingReplaced(); }
  }

  lemma NothingReplaced()
    ensures !HasReplacement([]) && Readable([])
  {
  }

  /** The number of healthy rows the cap admits. */
  function Capped(args: Args, healthy: seq<Row>): nat {
    if |healthy| <= args.maxServers then |healthy| else args.maxServers
  }

  /** How many rows are kept: as many as the longest fitting prefix of their ranking has. */
  lemma FittedLength(kept: seq<Row>, maxBytes: int)
    ensures var ranked := Sort(kept, Better);
            var k := LargestFit(StripConfigs(ranked), maxBytes);
            Top(kept, maxBytes) == ranked[..k] && |Sort(FitRows(kept, maxBytes), IpLess)| == k
  {
    hide Better, IpLess, LargestFit, Chosen;
  }

  /** The longest fitting prefix of a prefix, in terms of the whole. */
  lemma LargestFitOnPrefixes(ranked: seq<Row>, n: nat, maxBytes: int)
    requires n <= |ranked|
    ensures var k := LargestFit(StripConfigs(ranked[..n]), maxBytes);
            && k <= n && ranked[..n][..k] == ranked[..k]
            && (k > 0 ==> FeedSize(StripConfigs(ranked[..k])) <= maxBytes)
            && (forall m :: k < m <= n ==> FeedSize(StripConfigs(ranked[..m])) > maxBytes)
  {
    hide FeedSize, LargestFit;
    var stripped := StripConfigs(ranked[..n]);
    LargestFitIsLargest(stripped, maxBytes);
    forall m | 0 <= m <= n ensures stripped[..m] == StripConfigs(ranked[..m]) {
    }
  }

  /** Pruning and the byte budget together keep the first k rows of the whole ranking, for the
      largest k within the cap whose rendering without configs fits. */
  lemma KeptIsTopSegment(args: Args, healthy: seq<Row>)
    requires DistinctIps(healthy)
    ensures var ranked := Sort(healthy, Better);
            var k := |Written(args, healthy)|;
            && k <= Capped(args, healthy)
            && Top(Prune(healthy, args.maxServers), args.maxBytes) == ranked[..k]
            && (k > 0 ==> FeedSize(StripConfigs(ranked[..k])) <= args.maxBytes)
            && (forall m :: k < m <= Capped(args, healthy) ==> FeedSize(StripConfigs(ranked[..m])) > args.maxBytes)
  {
    hide Better, IpLess, Prune, FeedSize, FitRows, LargestFit, Top, Sort;
    var kept := Prune(healthy, args.maxServers);
    var ranked, n := Sort(healthy, Better), Capped(args, healthy);
    PruneIsTopSegment(healthy, args.maxServers);
    FittedLength(kept, args.maxBytes);
    LargestFitOnPrefixes(ranked, n, args.maxBytes);
  }

  lemma TopDistinct(args: Args, healthy: seq<Row>)
    requires DistinctIps(healthy)
    ensures DistinctIps(FitRows(Prune(healthy, args.maxServers), args.maxBytes))
  {
    hide Better, IpLess, Prune, FeedSize, Chosen, LargestFit, Written;
    KeptIsTopSegment(args, healthy);
    var ranked := Sort(healthy, Better);
    RankOrder();
    SortSorts(healthy, Better);
    DistinctIpsPermutation(healthy, ranked);
    var top := Top(Prune(healthy, args.maxServers), args.maxBytes);
    var fitted := FitRows(Prune(healthy, args.maxServers), args.maxBytes);
    forall i, j | 0 <= i < j < |fitted| ensures fitted[i].ip != fitted[j].ip {
      assert fitted[i].ip == ranked[i].ip && fitted[j].ip == ranked[j].ip;
    }
  }

  lemma WrittenDistinct(args: Args, healthy: seq<Row>)
    requires DistinctIps(healthy)
    ensures DistinctIps(Written(args, healthy))
  {
    hide FitRows, IpLess;
    var fitted := FitRows(Prune(healthy, args.maxServers), args.maxBytes);
    TopDistinct(args, healthy);
    IpOrder();
    SortSorts(fitted, IpLess);
    DistinctIpsPermutation(fitted, Written(args, healthy));
  }

  /** The order in which the healthy rows arrive does not matter. */
  lemma WrittenOrderIndependent(args: Args, healthy: seq<Row>, other: seq<Row>)
    requires DistinctIps(healthy) && SanitizedRows(healthy) && multiset(healthy) == multiset(other)
    ensures Written(args, healthy) == Written(args, other)
  {
    hide Better, IpLess, FitRows, Prune, Sanitized, Sort, DistinctIps;
    DistinctIpsPermutation(healthy, other);
    RankOrder();
    RankSeparated(healthy);
    SortOrderIndependent(healthy, other, Better);
    assert |healthy| == |multiset(healthy)| == |multiset(other)| == |other|;
    PruneIsTopSegment(healthy, args.maxServers);
    PruneIsTopSegment(other, args.maxServers);
    SameTopSameFit(Prune(healthy, args.maxServers), Prune(other, args.maxServers), args.maxBytes);
  }

  // ---------- the published file ----------

  ghost predicate PublishedShape(args: Args, started: int, rows: seq<Row>, text: string) {
    && rows != [] && args.minRows <= |rows| <= args.maxServers
    && text == Render(rows) && Utf8Size(text) <= args.maxBytes && Parse(text) == Parsed(rows, 0)
    && Sorted(rows, IpLess) && DistinctIps(rows) && Upsert.DistinctKeys(rows, HostOf)
    && forall k :: 0 <= k < |rows| ==> Candidate(args, started, rows[k])
  }

  lemma StrippedCandidate(args: Args, started: int, r: Row)
    requires Candidate(args, started, r)
    ensures Candidate(args, started, Stripped(r))
  {
    StrippedSanitized(r);
    EndpointIgnores(r, "", r.lastSeenAt);
    hide Sanitized, TcpEndpoint;
  }

  lemma WrittenCandidates(args: Args, healthy: seq<Row>, started: int)
    requires DistinctIps(healthy) && Upsert.DistinctKeys(healthy, HostOf)
    requires forall k :: 0 <= k < |healthy| ==> Candidate(args, started, healthy[k])
    ensures var w := Written(args, healthy);
            && Upsert.DistinctKeys(w, HostOf)
            && forall k :: 0 <= k < |w| ==> Candidate(args, started, w[k])
  {
    hide Written, Candidate, NormalizeHost;
    var w := Written(args, healthy);
    WrittenDistinct(args, healthy);
    forall k | 0 <= k < |w| ensures Candidate(args, started, w[k]) {
      var i := Origin(args, healthy, k);
      StrippedCandidate(args, started, healthy[i]);
    }
    forall i, j | 0 <= i < j < |w| ensures HostOf(w[i]) != HostOf(w[j]) {
      var a := Origin(args, healthy, i);
      var b := Origin(args, healthy, j);
      assert w[i].ip != w[j].ip;
      assert a < b || b < a;
    }
  }

  lemma Origin(args: Args, healthy: seq<Row>, k: nat) returns (i: nat)
    requires k < |Written(args, healthy)|
    ensures i < |healthy|
    ensures Written(args, healthy)[k] == healthy[i] || Written(args, healthy)[k] == Stripped(healthy[i])
  {
    hide Written;
    var r := Written(args, healthy)[k];
    WrittenMembers(args, healthy, r);
    var q :| q in healthy && (r == q || r == Stripped(q));
    i :| 0 <= i < |healthy| && healthy[i] == q;
  }

  /** Every published file: within all limits, sorted, re-readable as exactly its rows, one row per
      server and host, each row valid, routable, consistent and stamped with this run. */
  lemma PublishedFile(args: Args, body: Option<string>, fetched: seq<Row>, started: int, net: Network)
    requires SanitizedRows(fetched) && Run(args, body, fetched, started, net).Published?
    ensures var p := Run(args, body, fetched, started, net); PublishedShape(args, started, p.rows, p.text)
  {
    hide Candidates, CheckedPrevious, RatioGuard, Publish, Candidate, Sanitized, Parse, Render, Written, IpLess;
    var previous := LoadPrevious(body).value;
    LoadedSanitized(body);
    CandidatesShape(args, previous, fetched, started, net);
    var healthy := Candidates(args, previous, fetched, started, net);
    CandidatesSanitized(args, started, healthy);
    PublishOutcome(args, healthy);
    PublishedList(args, started, healthy);
  }

  lemma CandidatesSanitized(args: Args, started: int, healthy: seq<Row>)
    requires forall k :: 0 <= k < |healthy| ==> Candidate(args, started, healthy[k])
    ensures SanitizedRows(healthy)
  {
    hide Sanitized, TcpEndpoint, PortsAgree;
  }

  lemma LoadedSanitized(body: Option<string>)
    ensures LoadPrevious(body).Some? ==> SanitizedRows(LoadPrevious(body).value)
  {
    hide Sanitized, Parse;
    if body.Some? {
      ParseSanitized(body.value);
    }
  }

  lemma PublishedList(args: Args, started: int, healthy: seq<Row>)
    requires DistinctIps(healthy) && Upsert.DistinctKeys(healthy, HostOf) && SanitizedRows(healthy)
    requires forall k :: 0 <= k < |healthy| ==> Candidate(args, started, healthy[k])
    requires Publish(args, healthy).Published?
    ensures var p := Publish(args, healthy);
            p.rows == Written(args, healthy) && PublishedShape(args, started, p.rows, p.text)
  {
    hide Candidate, Sanitized, Parse, Render, IpLess, HasReplacement, Readable, FitRows, Utf8Size;
    PublishOutcome(args, healthy);
    WrittenCandidates(args, healthy, started);
    WrittenDistinct(args, healthy);
    KeptIsTopSegment(args, healthy);
    WrittenSanitized(args, healthy);
    var w := Written(args, healthy);
    RoundTrip(w);
    IpOrder();
    SortSorts(FitRows(Prune(healthy, args.maxServers), args.maxBytes), IpLess);
  }

  /** With health checks on, every published row was reached in this same run at exactly the
      endpoint it is published with. */
  lemma PublishedWereProbed(args: Args, body: Option<string>, fetched: seq<Row>, started: int, net: Network, k: nat)
    requires SanitizedRows(fetched) && !args.skipHealthCheck
    requires Run(args, body, fetched, started, net).Published?
    requires k < |Run(args, body, fetched, started, net).rows|
    ensures var r := Run(args, body, fetched, started, net).rows[k];
            && TcpEndpoint(r).Some?
            && Outcome(TcpEndpoint(r).value, true) in RunProbes(args, LoadPrevious(body).value, fetched, started, net)
  {
    hide Candidates, CheckedPrevious, RatioGuard, Publish, Candidate, Sanitized, Parse, Render, Written, TcpEndpoint, RunProbes;
    var previous := LoadPrevious(body).value;
    LoadedSanitized(body);
    CandidatesShape(args, previous, fetched, started, net);
    CandidatesWereProbed(args, previous, fetched, started, net);
    var healthy := Candidates(args, previous, fetched, started, net);
    CandidatesSanitized(args, started, healthy);
    PublishedList(args, started, healthy);
    var i := Origin(args, healthy, k);
    EndpointIgnores(healthy[i], "", healthy[i].lastSeenAt);
  }
}
