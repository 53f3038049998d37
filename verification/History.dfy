/** Any number of publishing runs, each reading the file the last successful one wrote. */
module History {
  import opened Text
  import opened Rows
  import opened Ranking
  import opened Feed
  import opened Merge
  import opened Ports
  import opened Probe
  import opened Stages
  import opened Publisher
  import opened Pipeline
  import opened Upsert
  import ApiFeed

  /** What one run meets: its command line, the API's body, the rows of the HTML page, the clock, the network. */
  datatype Event = Event(args: Args, api: Option<string>, html: seq<Row>, started: int, net: Network)

  function ResultOf(file: Option<string>, ev: Event): RunResult {
    RunSources(ev.args, file, ev.api, ev.html, ev.started, ev.net)
  }

  /** A run that refuses leaves the file alone. */
  function Next(file: Option<string>, ev: Event): Option<string> {
    match ResultOf(file, ev)
    case Published(_, text) => Some(text)
    case Refused(_) => file
  }

  function FileAfter(file: Option<string>, events: seq<Event>): Option<string> {
    if events == [] then file
    else Next(FileAfter(file, events[..|events| - 1]), events[|events| - 1])
  }

  /** The start of the last run that published. */
  function LastStart(file: Option<string>, events: seq<Event>): Option<int> {
    if events == [] then None
    else
      var n := |events| - 1;
      if ResultOf(FileAfter(file, events[..n]), events[n]).Published? then Some(events[n].started)
      else LastStart(file, events[..n])
  }

  function RowsIn(file: Option<string>): seq<Row> {
    match LoadPrevious(file) case Some(rows) => rows case None => []
  }

  predicate Lists(file: Option<string>, ip: string) {
    Find(RowsIn(file), IpOf, ip).Some?
  }

  function FirstSeen(file: Option<string>, ip: string): Option<int> {
    match Find(RowsIn(file), IpOf, ip) case Some(r) => r.firstSeenAt case None => None
  }

  predicate FirstSeenNow(rows: seq<Row>, started: int) {
    forall k :: 0 <= k < |rows| ==> rows[k].firstSeenAt == Some(started)
  }

  /** The HTML page's rows carry the run's start as their first sighting; nothing is asked of the API's body. */
  predicate FetchedNow(ev: Event) {
    SanitizedRows(ev.html) && FirstSeenNow(ev.html, ev.started)
  }

  /** A readable file with one row per IP whose first sightings are not in the future. */
  predicate Timely(file: Option<string>, clock: int) {
    && LoadPrevious(file).Some? && DistinctIps(RowsIn(file))
    && forall k :: 0 <= k < |RowsIn(file)| ==> SeenBy(RowsIn(file)[k], clock)
  }

  predicate SeenBy(r: Row, clock: int) {
    r.firstSeenAt.Some? ==> r.firstSeenAt.value <= clock
  }

  predicate Clocked(clock: int, events: seq<Event>) {
    && (forall i :: 0 <= i < |events| ==> clock <= events[i].started && FetchedNow(events[i]))
    && (forall i, j :: 0 <= i < j < |events| ==> events[i].started <= events[j].started)
  }

  // ---------- where a published row comes from ----------

  predicate SameServer(a: Row, b: Row) {
    a.ip == b.ip && a.firstSeenAt == b.firstSeenAt
  }

  lemma RepairsKeepServer(e: Entry, decode: Decoder)
    ensures SameServer(EnforceRow(NormalizeSstpRow(e.row), decode), e.row)
  {
    hide ConfigPorts, SplitSstpEndpoint;
  }

  lemma MergeStageOrigin(args: Args, previous: seq<Entry>, fetched: seq<Row>, e: Entry) returns (o: Entry)
    requires e in MergeStage(args, previous, fetched)
    ensures o in MergeWithPrevious(previous, fetched) && SameServer(e.row, o.row)
  {
    hide MergeWithPrevious, DedupeHostnames, IsValid, EnforceRow, NormalizeSstpRow;
    var all := MergeWithPrevious(previous, fetched);
    var valid := Keep(all, IsValid);
    var repaired := EnforceAll(NormalizeAll(valid), args.decode);
    KeepMembers(DedupeHostnames(repaired), PublicTest(args.isPublic));
    DedupeShape(repaired);
    assert e in repaired;
    var k :| 0 <= k < |repaired| && repaired[k] == e;
    o := valid[k];
    RepairsKeepServer(o, args.decode);
    KeepMembers(all, IsValid);
    assert o in valid;
  }

  lemma CandidateOrigin(args: Args, previous: seq<Row>, fetched: seq<Row>, started: int, net: Network, k: nat)
    returns (o: Entry)
    requires k < |Candidates(args, previous, fetched, started, net)|
    ensures o in MergeWithPrevious(Stamped(CheckedPrevious(args, previous, net), started), fetched)
    ensures SameServer(Candidates(args, previous, fetched, started, net)[k], o.row)
  {
    hide MergeStage, CheckedPrevious, MergeWithPrevious, Checked;
    var merged := MergedList(args, previous, fetched, started, net);
    var checked := Checked(merged, args.skipHealthCheck, 4, net);
    var stamped := Stamped(checked, started);
    var kept := Keep(stamped, IsHealthy);
    KeepMembers(stamped, IsHealthy);
    assert kept[k] in kept;
    assert kept[k] in stamped;
    var j :| 0 <= j < |stamped| && stamped[j] == kept[k];
    CheckedRows(merged, args.skipHealthCheck, 4, net, j);
    assert merged[j] in merged;
    o := MergeStageOrigin(args, Stamped(CheckedPrevious(args, previous, net), started), fetched, merged[j]);
  }

  // ---------- where the fetched rows come from ----------

  lemma MergeHtmlSeen(v: Row, h: Row)
    ensures MergeHtml(v, h).firstSeenAt == MinSeen(v.firstSeenAt, h.firstSeenAt)
  {
  }

  /** Both sources stamp their rows with the run's start, and merging them keeps it. */
  lemma MergeFreshSeen(api: seq<Row>, html: seq<Row>, started: int)
    requires FirstSeenNow(api, started) && FirstSeenNow(html, started)
    ensures FirstSeenNow(MergeFresh(api, html), started)
  {
    hide MergeHtml;
    forall v: Row, h: Row | v.firstSeenAt == Some(started) && h.firstSeenAt == Some(started)
      ensures MergeHtml(v, h).firstSeenAt == Some(started)
    {
      MergeHtmlSeen(v, h);
    }
    var inv := (ip: string, r: Row) => r.firstSeenAt == Some(started);
    AddAllInvariant(Empty(), api, BY_IP, inv);
    AddAllInvariant(AddAll(Empty(), api, BY_IP), html, HTML_RULE, inv);
    FreshDictValid(api, html);
    ValuesMembers(FreshDict(api, html));
    forall k | 0 <= k < |MergeFresh(api, html)| ensures MergeFresh(api, html)[k].firstSeenAt == Some(started) {
      assert MergeFresh(api, html)[k] in FreshDict(api, html).Values();
    }
  }

  /** What a run fetches, whatever the API sent: sanitized rows of distinct IPs, first seen now. */
  lemma FetchedIsNow(ev: Event)
    requires FetchedNow(ev)
    ensures var fetched := ApiFeed.FetchFresh(ev.api, ev.html, ev.started);
            fetched.Some? ==>
              SanitizedRows(fetched.value) && DistinctIps(fetched.value) && FirstSeenNow(fetched.value, ev.started)
  {
    hide Sanitized, MergeFresh, ApiFeed.ParseApi;
    FetchedRows(ev.api, ev.html, ev.started);
    if ev.api.None? {
      MergeFreshSeen([], ev.html, ev.started);
    } else {
      ApiSanitized(ev.api.value, ev.started);
      var parsed := ApiFeed.ParseApi(ev.api.value, ev.started);
      if parsed.Accepted? {
        MergeFreshSeen(parsed.rows, ev.html, ev.started);
      }
    }
  }

  // ---------- one run ----------

  /** The first sighting a row must have, given the previous file. */
  predicate FirstSeenKept(previous: seq<Row>, started: int, r: Row) {
    && SeenBy(r, started)
    && forall p :: p in previous && p.ip == r.ip && p.firstSeenAt.Some? ==> r.firstSeenAt == p.firstSeenAt
  }

  lemma MergedFirstSeen(previous: seq<Row>, entries: seq<Entry>, fetched: seq<Row>, started: int, o: Entry)
    requires SanitizedRows(fetched) && DistinctIps(fetched) && FirstSeenNow(fetched, started)
    requires SanitizedEntries(entries) && DistinctEntries(entries) && DistinctIps(previous)
    requires |entries| == |previous| && forall k :: 0 <= k < |previous| ==> SameServer(entries[k].row, previous[k])
    requires forall k :: 0 <= k < |previous| ==> SeenBy(previous[k], started)
    requires o in MergeWithPrevious(entries, fetched)
    ensures FirstSeenKept(previous, started, o.row)
  {
    hide MergeWithPrevious, Sanitized;
    MergedPerServer(entries, fetched, o);
    var p, f := Find(entries, EntryIp, o.row.ip), Find(fetched, IpOf, o.row.ip);
    FindDistinct(entries, EntryIp, o.row.ip);
    FindDistinct(fetched, IpOf, o.row.ip);
    if f.Some? {
      assert f.value in fetched;
    }
    if p.Some? {
      assert p.value in entries;
      var k :| 0 <= k < |entries| && entries[k] == p.value;
      assert SameServer(entries[k].row, previous[k]);
      forall q | q in previous && q.ip == o.row.ip && q.firstSeenAt.Some? ensures o.row.firstSeenAt == q.firstSeenAt {
        var j :| 0 <= j < |previous| && previous[j] == q;
        assert previous[j].ip == previous[k].ip;
        assert j == k;
      }
    } else {
      forall q | q in previous ensures q.ip != o.row.ip {
        var j :| 0 <= j < |previous| && previous[j] == q;
        assert SameServer(entries[j].row, previous[j]);
        assert entries[j] in entries;
        assert Find(entries, EntryIp, o.row.ip) != Some(entries[j]);
      }
    }
  }

  lemma StampedServers(args: Args, previous: seq<Row>, started: int, net: Network)
    requires SanitizedRows(previous) && DistinctIps(previous)
    ensures var entries := Stamped(CheckedPrevious(args, previous, net), started);
            && |entries| == |previous| && SanitizedEntries(entries) && DistinctEntries(entries)
            && forall k :: 0 <= k < |previous| ==> SameServer(entries[k].row, previous[k])
  {
    PreviousSanitized(args, previous, started, net);
    hide Sanitized, Checked;
    var entries := Stamped(CheckedPrevious(args, previous, net), started);
    forall k | 0 <= k < |previous| ensures SameServer(entries[k].row, previous[k]) {
      CheckedRows(Unmarked(previous), args.skipHealthCheck, 2, net, k);
    }
  }

  /** One run keeps every first sighting that was set, stamps every row with its start, and leaves a
      file the next run reads in full. */
  lemma RunKeepsFirstSeen(file: Option<string>, ev: Event)
    requires Timely(file, ev.started) && FetchedNow(ev)
    requires ResultOf(file, ev).Published?
    ensures var p := ResultOf(file, ev);
            && RowsIn(Some(p.text)) == p.rows && Timely(Some(p.text), ev.started)
            && (forall k :: 0 <= k < |p.rows| ==>
                  p.rows[k].lastSeenAt == Some(ev.started) && FirstSeenKept(RowsIn(file), ev.started, p.rows[k]))
  {
    hide Candidates, CheckedPrevious, RatioGuard, Publish, Sanitized, Parse, Render, Written, PortsAgree, TcpEndpoint,
      MergeWithPrevious, FirstSeenKept, ApiFeed.FetchFresh;
    var args, previous := ev.args, RowsIn(file);
    var p := ResultOf(file, ev);
    FetchedIsNow(ev);
    var fetched := ApiFeed.FetchFresh(ev.api, ev.html, ev.started).value;
    PublishedFile(args, file, fetched, ev.started, ev.net);
    LoadedSanitized(file);
    CandidatesShape(args, previous, fetched, ev.started, ev.net);
    var healthy := Candidates(args, previous, fetched, ev.started, ev.net);
    CandidatesSanitized(args, ev.started, healthy);
    PublishedList(args, ev.started, healthy);
    StampedServers(args, previous, ev.started, ev.net);
    var entries := Stamped(CheckedPrevious(args, previous, ev.net), ev.started);
    forall k | 0 <= k < |p.rows| ensures FirstSeenKept(previous, ev.started, p.rows[k]) && SeenBy(p.rows[k], ev.started) {
      var i := Origin(args, healthy, k);
      var o := CandidateOrigin(args, previous, fetched, ev.started, ev.net, i);
      MergedFirstSeen(previous, entries, fetched, ev.started, o);
      SameServerKept(previous, ev.started, o.row, p.rows[k]);
    }
  }

  lemma SameServerKept(previous: seq<Row>, started: int, a: Row, b: Row)
    requires SameServer(a, b) && FirstSeenKept(previous, started, a)
    ensures FirstSeenKept(previous, started, b) && SeenBy(b, started)
  {
  }

  // ---------- all runs ----------

  lemma NextTimely(file: Option<string>, ev: Event)
    requires Timely(file, ev.started) && FetchedNow(ev)
    ensures Timely(Next(file, ev), ev.started)
  {
    hide Timely, FetchedNow, ResultOf;
    if ResultOf(file, ev).Published? {
      RunKeepsFirstSeen(file, ev);
    }
  }

  lemma LaterTimely(file: Option<string>, clock: int, later: int)
    requires Timely(file, clock) && clock <= later
    ensures Timely(file, later)
  {
    hide LoadPrevious;
    forall k | 0 <= k < |RowsIn(file)| ensures SeenBy(RowsIn(file)[k], later) {
      assert SeenBy(RowsIn(file)[k], clock);
    }
  }

  predicate StampedAt(file: Option<string>, t: int) {
    forall k :: 0 <= k < |RowsIn(file)| ==> RowsIn(file)[k].lastSeenAt == Some(t)
  }

  lemma NextStamped(file: Option<string>, ev: Event)
    requires Timely(file, ev.started) && FetchedNow(ev) && ResultOf(file, ev).Published?
    ensures StampedAt(Next(file, ev), ev.started)
  {
    hide Timely, FetchedNow, ResultOf, LoadPrevious;
    RunKeepsFirstSeen(file, ev);
  }

  /** Every file of every history is readable, has one row per IP and no future sightings, and each of its rows
      carries the start of the last run that published; until one does, the file is the first one. */
  lemma {:induction false} HistoryTimely(file: Option<string>, clock: int, events: seq<Event>)
    requires Timely(file, clock) && Clocked(clock, events)
    ensures Timely(FileAfter(file, events), if events == [] then clock else events[|events| - 1].started)
    ensures match LastStart(file, events)
            case Some(t) => StampedAt(FileAfter(file, events), t)
            case None => FileAfter(file, events) == file
  {
    hide Timely, FetchedNow, ResultOf, StampedAt;
    if events != [] {
      var n := |events| - 1;
      HistoryTimely(file, clock, events[..n]);
      if ResultOf(FileAfter(file, events[..n]), events[n]).Published? {
        LaterTimely(FileAfter(file, events[..n]), if n == 0 then clock else events[n - 1].started, events[n].started);
        NextStamped(FileAfter(file, events[..n]), events[n]);
      }
      LaterTimely(FileAfter(file, events[..n]), if n == 0 then clock else events[n - 1].started, events[n].started);
      NextTimely(FileAfter(file, events[..n]), events[n]);
    }
  }

  lemma KeptSighting(previous: seq<Row>, started: int, r: Row, p: Row)
    requires FirstSeenKept(previous, started, r) && p in previous && p.ip == r.ip && p.firstSeenAt.Some?
    ensures r.firstSeenAt == p.firstSeenAt
  {
  }

  lemma NextFirstSeen(file: Option<string>, ev: Event, ip: string, f: int)
    requires Timely(file, ev.started) && FetchedNow(ev)
    requires FirstSeen(file, ip) == Some(f) && Lists(Next(file, ev), ip)
    ensures FirstSeen(Next(file, ev), ip) == Some(f)
  {
    hide LoadPrevious, ResultOf, Sanitized, FirstSeenKept;
    var result := ResultOf(file, ev);
    if result.Published? {
      RunKeepsFirstSeen(file, ev);
      FindDistinct(RowsIn(file), IpOf, ip);
      FindDistinct(result.rows, IpOf, ip);
      var p := Find(RowsIn(file), IpOf, ip).value;
      var r := Find(result.rows, IpOf, ip).value;
      assert p in RowsIn(file) && r in result.rows;
      var k :| 0 <= k < |result.rows| && result.rows[k] == r;
      KeptSighting(RowsIn(file), ev.started, r, p);
    }
  }

  /** Over any number of runs with a clock that does not go back: while a server stays listed, its
      first sighting never changes once it is set. */
  lemma {:induction false} FirstSeenNeverChanges(
      file: Option<string>, clock: int, events: seq<Event>, ip: string, f: int)
    requires Timely(file, clock) && Clocked(clock, events)
    requires FirstSeen(file, ip) == Some(f)
    requires forall m :: 0 <= m <= |events| ==> Lists(FileAfter(file, events[..m]), ip)
    ensures FirstSeen(FileAfter(file, events), ip) == Some(f)
  {
    hide Timely, FetchedNow, Next, Lists, FirstSeen;
    if events != [] {
      var n := |events| - 1;
      var init := events[..n];
      forall m | 0 <= m <= |init| ensures Lists(FileAfter(file, init[..m]), ip) {
        assert init[..m] == events[..m];
      }
      FirstSeenNeverChanges(file, clock, init, ip, f);
      HistoryTimely(file, clock, init);
      LaterTimely(FileAfter(file, init), if n == 0 then clock else events[n - 1].started, events[n].started);
      assert events[..|events|] == events;
      NextFirstSeen(FileAfter(file, init), events[n], ip, f);
    }
  }

  lemma {:induction false} FileAfterSplit(file: Option<string>, events: seq<Event>, m: nat)
    requires m <= |events|
    ensures FileAfter(FileAfter(file, events[..m]), events[m..]) == FileAfter(file, events)
    decreases |events|
  {
    hide Next;
    if m == |events| {
      assert events[..m] == events;
    } else {
      var n := |events| - 1;
      FileAfterSplit(file, events[..n], m);
      assert events[..n][..m] == events[..m] && events[..n][m..] == events[m..][..n - m];
    }
  }

  lemma ClockedSplit(clock: int, events: seq<Event>, m: nat)
    requires Clocked(clock, events) && m <= |events|
    ensures Clocked(clock, events[..m]) && Clocked(if m == 0 then clock else events[m - 1].started, events[m..])
  {
    hide FetchedNow;
  }

  /** The same in a history that starts from nothing: from the run that lists a server on, as long as it stays
      listed. */
  lemma FirstSeenFromNothing(clock: int, events: seq<Event>, m: nat, ip: string, f: int)
    requires Clocked(clock, events) && m <= |events|
    requires FirstSeen(FileAfter(None, events[..m]), ip) == Some(f)
    requires forall k :: m <= k <= |events| ==> Lists(FileAfter(None, events[..k]), ip)
    ensures FirstSeen(FileAfter(None, events), ip) == Some(f)
  {
    hide FetchedNow, FileAfter, Lists, FirstSeen, Timely, Clocked, LastStart, StampedAt;
    NothingIsTimely(clock);
    var early, late := events[..m], events[m..];
    ClockedSplit(clock, events, m);
    HistoryTimely(None, clock, early);
    var now := if m == 0 then clock else events[m - 1].started;
    FileAfterSplit(None, events, m);
    forall k | 0 <= k <= |late| ensures Lists(FileAfter(FileAfter(None, early), late[..k]), ip) {
      FileAfterSplit(None, events[..m + k], m);
      assert events[..m + k][..m] == early && events[..m + k][m..] == late[..k];
    }
    FirstSeenNeverChanges(FileAfter(None, early), now, late, ip, f);
  }

  lemma NothingIsTimely(clock: int)
    ensures Timely(None, clock)
  {
  }
}
