/** Health checks (`tcp_endpoint`, `health_check`). The network is an oracle: `net(stage, k, e)` is the
    outcome of probing endpoint `e` for the row at position `k` of the list checked in that stage. */
module Probe {
  import opened Text
  import opened Rows
  import opened Merge

  type Network = (nat, nat, Endpoint) -> bool

  datatype Outcome = Outcome(endpoint: Endpoint, connected: bool)

  /** First usable TCP listener, in the documented priority. */
  function TcpEndpoint(r: Row): Option<Endpoint> {
    if r.seTcpPort > 0 then Some(Endpoint(r.ip, r.seTcpPort))
    else if r.openVpnTcpPort > 0 then Some(Endpoint(r.ip, r.openVpnTcpPort))
    else if r.sstpPort > 0 then Some(Endpoint(r.ip, r.sstpPort))
    else if r.sstpSupported then Some(Endpoint(r.ip, 443))
    else None
  }

  /** The row's TCP listeners in the documented priority; 0 for one it does not have. */
  function Listeners(r: Row): (ports: seq<Port>)
    ensures |ports| == 4
  {
    [r.seTcpPort, r.openVpnTcpPort, r.sstpPort, if r.sstpSupported then 443 else 0]
  }

  /** The endpoint is the first listener there is; a row has none exactly if it has no listener. */
  lemma EndpointIsFirstListener(r: Row)
    ensures match TcpEndpoint(r)
            case None => forall i :: 0 <= i < 4 ==> Listeners(r)[i] == 0
            case Some(e) => e.ip == r.ip && e.port > 0 &&
                            exists i :: 0 <= i < 4 && Listeners(r)[i] == e.port && forall j :: 0 <= j < i ==> Listeners(r)[j] == 0
  {
    var i := if r.seTcpPort > 0 then 0 else if r.openVpnTcpPort > 0 then 1 else if r.sstpPort > 0 then 2 else 3;
    assert Listeners(r)[0] == r.seTcpPort && Listeners(r)[1] == r.openVpnTcpPort && Listeners(r)[2] == r.sstpPort;
    assert TcpEndpoint(r).Some? ==> Listeners(r)[i] == TcpEndpoint(r).value.port;
  }

  /** The row must be probed: it has an endpoint other than the one probed before. */
  predicate NeedsProbe(e: Entry) {
    var ep := TcpEndpoint(e.row);
    ep.Some? && !(e.marks.probed == ep && e.marks.healthy.Some?)
  }

  function CheckedEntry(e: Entry, skip: bool, connected: bool): Entry {
    var ep := TcpEndpoint(e.row);
    if ep.None? then e.(marks := e.marks.(healthy := Some(false), verdict := NoEndpoint))
    else if !NeedsProbe(e) then e
    else if skip then e.(marks := Marks(Some(true), Skipped, ep))
    else e.(marks := Marks(Some(connected), if connected then Connected else ConnectFailed, ep))
  }

  function Answer(e: Entry, stage: nat, k: nat, net: Network): bool {
    TcpEndpoint(e.row).Some? && net(stage, k, TcpEndpoint(e.row).value)
  }

  function Checked(entries: seq<Entry>, skip: bool, stage: nat, net: Network): (out: seq<Entry>)
    ensures |out| == |entries|
    ensures forall k :: 0 <= k < |entries| ==> out[k] == CheckedEntry(entries[k], skip, Answer(entries[k], stage, k, net))
  {
    seq(|entries|, k requires 0 <= k < |entries| => CheckedEntry(entries[k], skip, Answer(entries[k], stage, k, net)))
  }

  /** The probes a check makes, in list order. */
  function ProbesOf(entries: seq<Entry>, skip: bool, stage: nat, net: Network): seq<Outcome> {
    if entries == [] then []
    else
      var k := |entries| - 1;
      ProbesOf(entries[..k], skip, stage, net) +
      (if NeedsProbe(entries[k]) && !skip
       then [Outcome(TcpEndpoint(entries[k].row).value, Answer(entries[k], stage, k, net))] else [])
  }

  /** The row's health verdict is backed by a probe at the endpoint it has now. */
  predicate Backed(e: Entry, probes: seq<Outcome>) {
    e.marks.healthy == Some(true) ==> TcpEndpoint(e.row).Some? && e.marks.probed == TcpEndpoint(e.row) &&
                                      Outcome(TcpEndpoint(e.row).value, true) in probes
  }

  /** The health verdict is backed at the endpoint last probed, which may no longer be current. */
  predicate BackedBefore(e: Entry, probes: seq<Outcome>) {
    e.marks.healthy == Some(true) ==> e.marks.probed.Some? && Outcome(e.marks.probed.value, true) in probes
  }

  lemma {:induction false} ProbesIncludes(entries: seq<Entry>, stage: nat, net: Network, k: nat)
    requires k < |entries| && NeedsProbe(entries[k])
    ensures Outcome(TcpEndpoint(entries[k].row).value, Answer(entries[k], stage, k, net)) in
            ProbesOf(entries, false, stage, net)
  {
    hide TcpEndpoint, NeedsProbe, Answer;
    var n := |entries| - 1;
    if k < n {
      ProbesIncludes(entries[..n], stage, net, k);
    }
  }

  /** After a check every healthy row is backed at its current endpoint, by an earlier probe of this
      run when that endpoint is unchanged and by a new one otherwise; rows without an endpoint are
      unhealthy. */
  lemma CheckBacks(entries: seq<Entry>, stage: nat, net: Network, earlier: seq<Outcome>, k: nat)
    requires k < |entries| && BackedBefore(entries[k], earlier)
    ensures var after := Checked(entries, false, stage, net)[k];
            && Backed(after, earlier + ProbesOf(entries, false, stage, net))
            && after.row == entries[k].row
            && after.marks.healthy.Some?
            && (TcpEndpoint(after.row).None? ==> after.marks.healthy == Some(false))
            && (!NeedsProbe(entries[k]) && TcpEndpoint(after.row).Some? ==> after == entries[k])
  {
    if NeedsProbe(entries[k]) {
      ProbesIncludes(entries, stage, net, k);
    }
    hide TcpEndpoint;
  }

  /** The positions of the rows that must be probed. */
  function Needing(entries: seq<Entry>): set<int> {
    set k | 0 <= k < |entries| && NeedsProbe(entries[k])
  }

  /** An unchanged endpoint is not probed again: the probes are exactly one per row that needs it. */
  lemma {:induction false} ProbeCount(entries: seq<Entry>, stage: nat, net: Network)
    ensures |ProbesOf(entries, false, stage, net)| == |Needing(entries)|
  {
    hide TcpEndpoint, NeedsProbe, Answer;
    if entries != [] {
      var n := |entries| - 1;
      ProbeCount(entries[..n], stage, net);
      assert Needing(entries) == Needing(entries[..n]) + if NeedsProbe(entries[n]) then {n} else {};
    }
  }

  // ---------- probes that are still to come ----------

  function OutcomeAt(e: Entry, stage: nat, k: nat, net: Network): Outcome
    requires NeedsProbe(e)
  {
    Outcome(TcpEndpoint(e.row).value, Answer(e, stage, k, net))
  }

  /** The outcomes of the rows whose answers are awaited. */
  function Awaited(entries: seq<Entry>, pending: set<int>, stage: nat, net: Network): multiset<Outcome>
    requires forall k :: k in pending && 0 <= k < |entries| ==> NeedsProbe(entries[k])
  {
    if entries == [] then multiset{}
    else
      var n := |entries| - 1;
      Awaited(entries[..n], pending, stage, net) +
      (if n in pending then multiset{OutcomeAt(entries[n], stage, n, net)} else multiset{})
  }

  lemma {:induction false} AwaitedAtFirst(entries: seq<Entry>, pending: set<int>, stage: nat, net: Network)
    requires forall k :: 0 <= k < |entries| ==> (k in pending <==> NeedsProbe(entries[k]))
    ensures Awaited(entries, pending, stage, net) == multiset(ProbesOf(entries, false, stage, net))
  {
    hide TcpEndpoint, NeedsProbe, Answer;
    if entries != [] {
      AwaitedAtFirst(entries[..|entries| - 1], pending, stage, net);
    }
  }

  lemma {:induction false} AwaitedLess(entries: seq<Entry>, pending: set<int>, stage: nat, net: Network, k: nat)
    requires forall j :: j in pending && 0 <= j < |entries| ==> NeedsProbe(entries[j])
    requires k in pending && k < |entries|
    ensures Awaited(entries, pending, stage, net) ==
            Awaited(entries, pending - {k}, stage, net) + multiset{OutcomeAt(entries[k], stage, k, net)}
  {
    hide TcpEndpoint, NeedsProbe, OutcomeAt;
    var n := |entries| - 1;
    var init, less := entries[..n], pending - {k};
    if k < n {
      AwaitedLess(init, pending, stage, net, k);
      assert n in less <==> n in pending;
    } else {
      AwaitedSame(init, pending, stage, net, k);
      assert n !in less;
    }
  }

  lemma {:induction false} AwaitedSame(entries: seq<Entry>, pending: set<int>, stage: nat, net: Network, k: nat)
    requires forall j :: j in pending && 0 <= j < |entries| ==> NeedsProbe(entries[j])
    requires k >= |entries|
    ensures Awaited(entries, pending, stage, net) == Awaited(entries, pending - {k}, stage, net)
  {
    hide NeedsProbe, OutcomeAt;
    if entries != [] {
      AwaitedSame(entries[..|entries| - 1], pending, stage, net, k);
    }
  }

  lemma {:induction false} NoneAwaited(entries: seq<Entry>, stage: nat, net: Network)
    ensures Awaited(entries, {}, stage, net) == multiset{}
  {
    if entries != [] {
      NoneAwaited(entries[..|entries| - 1], stage, net);
    }
  }

  lemma {:induction false} SkippedProbes(entries: seq<Entry>, stage: nat, net: Network)
    ensures ProbesOf(entries, true, stage, net) == []
  {
    if entries != [] {
      SkippedProbes(entries[..|entries| - 1], stage, net);
    }
  }
}
