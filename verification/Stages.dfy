/** Lists of rows that the publisher's stages change in place. */
module Stages {
  import opened Text
  import opened Rows
  import opened Merge
  import opened Ports
  import opened Probe

  function Stamp(e: Entry, started: int): Entry {
    if e.marks.healthy == Some(true) then e.(row := e.row.(lastSeenAt := Some(started))) else e
  }

  function Stamped(entries: seq<Entry>, started: int): (out: seq<Entry>)
    ensures |out| == |entries| && forall k :: 0 <= k < |entries| ==> out[k] == Stamp(entries[k], started)
  {
    seq(|entries|, k requires 0 <= k < |entries| => Stamp(entries[k], started))
  }

  /** The row is changed exactly if it is healthy and was not seen at that time. */
  lemma OnlyHealthyStamped(e: Entry, started: int)
    ensures Stamp(e, started) == e <==> e.marks.healthy != Some(true) || e.row.lastSeenAt == Some(started)
    ensures e.marks.healthy == Some(true) ==> Stamp(e, started).row.lastSeenAt == Some(started)
    ensures Stamp(e, started).row.(lastSeenAt := e.row.lastSeenAt) == e.row
  {
  }

  function NormalizeAll(entries: seq<Entry>): (out: seq<Entry>)
    ensures |out| == |entries|
    ensures forall k :: 0 <= k < |entries| ==> out[k] == Entry(NormalizeSstpRow(entries[k].row), entries[k].marks)
  {
    seq(|entries|, k requires 0 <= k < |entries| => Entry(NormalizeSstpRow(entries[k].row), entries[k].marks))
  }

  function EnforceAll(entries: seq<Entry>, decode: Decoder): (out: seq<Entry>)
    ensures |out| == |entries|
    ensures forall k :: 0 <= k < |entries| ==> out[k] == Entry(EnforceRow(entries[k].row, decode), entries[k].marks)
  {
    seq(|entries|, k requires 0 <= k < |entries| => Entry(EnforceRow(entries[k].row, decode), entries[k].marks))
  }

  lemma SomePending(pending: set<int>)
    ensures pending == {} || exists j :: j in pending
  {
    assert (forall j :: j !in pending) ==> pending == {};
  }

  lemma NoEndpointNoProbe(e: Entry)
    ensures NeedsProbe(e) ==> TcpEndpoint(e.row).Some?
  {
  }

  lemma NotAsked(e: Entry, skip: bool, connected: bool)
    requires !NeedsProbe(e)
    ensures CheckedEntry(e, skip, connected) == CheckedEntry(e, skip, false)
  {
    hide TcpEndpoint;
  }

  lemma Asked(e: Entry, skip: bool, connected: bool)
    requires NeedsProbe(e)
    ensures CheckedEntry(e, skip, connected) == e.(marks :=
              if skip then Marks(Some(true), Skipped, TcpEndpoint(e.row))
              else Marks(Some(connected), if connected then Connected else ConnectFailed, TcpEndpoint(e.row)))
  {
    NoEndpointNoProbe(e);
    hide TcpEndpoint, NeedsProbe;
  }

  lemma AnswerIs(e: Entry, stage: nat, k: nat, net: Network)
    requires TcpEndpoint(e.row).Some?
    ensures Answer(e, stage, k, net) == net(stage, k, TcpEndpoint(e.row).value)
  {
  }

  // ---------- lists of rows that the stages change in place ----------

  class RowList {
    var entries: seq<Entry>
    /** The probes made for this list, in the order of their answers. */
    ghost var outcomes: seq<Outcome>

    constructor (entries: seq<Entry>)
      ensures this.entries == entries && outcomes == []
    {
      this.entries := entries;
      outcomes := [];
    }

    /** `health_check`: rows without an endpoint are marked at once; the rest are probed once each, and the
        answers arrive in any order. */
    method HealthCheck(skip: bool, stage: nat, net: Network)
      modifies this
      ensures entries == Checked(old(entries), skip, stage, net)
      ensures old(outcomes) <= outcomes
      ensures multiset(outcomes[|old(outcomes)|..]) == multiset(ProbesOf(old(entries), skip, stage, net))
    {
      hide TcpEndpoint, NeedsProbe, Answer, ProbesOf, Awaited, CheckedEntry, OutcomeAt;
      ghost var before := entries;
      var pending := MarkUnreachable(skip);
      ghost var made: seq<Outcome> := [];
      forall j: nat | j < |before| && !NeedsProbe(before[j])
        ensures CheckedEntry(before[j], skip, false) == CheckedEntry(before[j], skip, Answer(before[j], stage, j, net))
      {
        NotAsked(before[j], skip, Answer(before[j], stage, j, net));
      }
      AwaitedAtFirst(before, pending, stage, net);
      SkippedProbes(before, stage, net);
      while pending != {}
        invariant |entries| == |before|
        invariant forall j :: j in pending ==> 0 <= j < |before| && NeedsProbe(before[j])
        invariant forall j :: 0 <= j < |before| ==>
          entries[j] == if j in pending then before[j] else CheckedEntry(before[j], skip, Answer(before[j], stage, j, net))
        invariant outcomes == old(outcomes) + made
        invariant if skip then made == []
                  else multiset(made) + Awaited(before, pending, stage, net) == multiset(ProbesOf(before, false, stage, net))
        decreases |pending|
      {
        SomePending(pending);
        var k: int :| k in pending;
        RecordAnswer(k, skip, stage, net);
        if !skip {
          made := made + [OutcomeAt(before[k], stage, k, net)];
          AwaitedLess(before, pending, stage, net, k);
        }
        pending := pending - {k};
      }
      NoneAwaited(before, stage, net);
      assert outcomes[|old(outcomes)|..] == made;
    }

    /** One probe's answer is recorded in its row; nothing is probed when checks are skipped. */
    method RecordAnswer(k: nat, skip: bool, stage: nat, net: Network)
      requires k < |entries| && NeedsProbe(entries[k])
      modifies this
      ensures entries == old(entries)[k := CheckedEntry(old(entries)[k], skip, Answer(old(entries)[k], stage, k, net))]
      ensures outcomes == old(outcomes) + if skip then [] else [OutcomeAt(old(entries)[k], stage, k, net)]
    {
      hide TcpEndpoint, NeedsProbe, Answer, CheckedEntry;
      var e := entries[k];
      var ep := TcpEndpoint(e.row);
      NoEndpointNoProbe(e);
      Asked(e, skip, Answer(e, stage, k, net));
      if skip {
        entries := entries[k := e.(marks := Marks(Some(true), Skipped, ep))];
      } else {
        var connected := net(stage, k, ep.value);
        AnswerIs(e, stage, k, net);
        entries := entries[k := e.(marks := Marks(Some(connected), if connected then Connected else ConnectFailed, ep))];
        outcomes := outcomes + [Outcome(ep.value, connected)];
      }
    }

    /** Marks the rows without an endpoint and collects the positions of those to probe. */
    method MarkUnreachable(skip: bool) returns (pending: set<int>)
      modifies this`entries
      ensures |entries| == |old(entries)|
      ensures forall j :: j in pending <==> 0 <= j < |entries| && NeedsProbe(old(entries)[j])
      ensures forall j :: 0 <= j < |entries| ==>
        entries[j] == if j in pending then old(entries)[j] else CheckedEntry(old(entries)[j], skip, false)
    {
      hide TcpEndpoint, NeedsProbe;
      ghost var before := entries;
      pending := {};
      for k := 0 to |entries|
        invariant |entries| == |before|
        invariant forall j :: j in pending <==> 0 <= j < k && NeedsProbe(before[j])
        invariant forall j :: 0 <= j < |before| ==>
          entries[j] == if j < k && TcpEndpoint(before[j].row).None? then CheckedEntry(before[j], skip, false) else before[j]
      {
        var e := entries[k];
        if TcpEndpoint(e.row).None? {
          assert !NeedsProbe(e) by { NoEndpointNoProbe(e); }
          entries := entries[k := e.(marks := e.marks.(healthy := Some(false), verdict := NoEndpoint))];
        } else if NeedsProbe(e) {
          pending := pending + {k};
        }
      }
      forall j | j in pending ensures TcpEndpoint(before[j].row).Some? {
        NoEndpointNoProbe(before[j]);
      }
    }

    /** Rows that passed are stamped with the run's start time. */
    method StampHealthy(started: int)
      modifies this`entries
      ensures entries == Stamped(old(entries), started)
    {
      ghost var before := entries;
      for k := 0 to |entries|
        invariant |entries| == |before|
        invariant forall j :: 0 <= j < |before| ==> entries[j] == if j < k then Stamp(before[j], started) else before[j]
      {
        if entries[k].marks.healthy == Some(true) {
          entries := entries[k := entries[k].(row := entries[k].row.(lastSeenAt := Some(started)))];
        }
      }
      assert entries == Stamped(before, started);
    }

    /** `normalize_sstp_rows`. */
    method NormalizeSstp()
      modifies this`entries
      ensures entries == NormalizeAll(old(entries))
    {
      hide SplitSstpEndpoint;
      ghost var before := entries;
      for k := 0 to |entries|
        invariant |entries| == |before|
        invariant forall j :: 0 <= j < |before| ==>
          entries[j] == if j < k then Entry(NormalizeSstpRow(before[j].row), before[j].marks) else before[j]
      {
        var row := entries[k].row;
        var (host, port) := SplitSstpEndpoint(row.sstpHostname, row.sstpPort);
        if host != row.sstpHostname || port != row.sstpPort {
          entries := entries[k := entries[k].(row := row.(sstpHostname := host, sstpPort := port))];
        }
      }
    }

    /** `enforce_config_ports`. */
    method EnforceConfigPorts(decode: Decoder)
      modifies this`entries
      ensures entries == EnforceAll(old(entries), decode)
    {
      hide ConfigPorts;
      ghost var before := entries;
      for k := 0 to |entries|
        invariant |entries| == |before|
        invariant forall j :: 0 <= j < |before| ==>
          entries[j] == if j < k then Entry(EnforceRow(before[j].row, decode), before[j].marks) else before[j]
      {
        var row := entries[k].row;
        if row.config != "" {
          var ports := ConfigTransportPorts(decode(row.config));
          if ports.tcp.Some? && ports.tcp.value != row.openVpnTcpPort {
            row := row.(openVpnTcpPort := ports.tcp.value);
          }
          if ports.udp.Some? && ports.udp.value != row.openVpnUdpPort {
            row := row.(openVpnUdpPort := ports.udp.value);
          }
        }
        entries := entries[k := entries[k].(row := row)];
      }
    }
  }
}
