/** One publishing run (`run`): previous file, probes, merge, repairs, pruning, byte budget, rendering
    and self-check. */
module Publisher {
  import opened Text
  import opened Rows
  import opened Ordering
  import opened Ranking
  import opened Feed
  import opened Budget
  import opened Merge
  import opened Ports
  import opened Probe
  import opened Stages
  import ApiFeed

  /** Command-line limits; `isPublic` and `decode` stand for the address tables and for turning an
      embedded profile into lines of words. */
  datatype Args = Args(
    maxServers: nat, minRows: int, maxBytes: int, minPreviousForRatio: int, minHealthyRatio: real,
    force: bool, skipHealthCheck: bool, isPublic: string -> bool, decode: Decoder)

  datatype Why =
    | LowHealth | NothingToPublish | TooFewHealthy | TooFewFit | TooManyBytes | SelfCheckFailed
    | DivisionByZero | ReaderFieldLimit

  /** `Refused` also covers the two exceptions the program does not handle. */
  datatype RunResult = Published(rows: seq<Row>, text: string) | Refused(why: Why)

  // ---------- the stages as functions ----------

  function Unmarked(rows: seq<Row>): (entries: seq<Entry>)
    ensures |entries| == |rows| && forall k :: 0 <= k < |rows| ==> entries[k] == Entry(rows[k], UNMARKED)
  {
    seq(|rows|, k requires 0 <= k < |rows| => Entry(rows[k], UNMARKED))
  }

  function Keep(entries: seq<Entry>, p: Entry -> bool): seq<Entry> {
    if entries == [] then []
    else
      var e := entries[|entries| - 1];
      Keep(entries[..|entries| - 1], p) + (if p(e) then [e] else [])
  }

  function IsValid(e: Entry): bool { Sanitize(AsRaw(e.row)).Some? }

  function IsHealthy(e: Entry): bool { e.marks.healthy == Some(true) }

  function PublicTest(isPublic: string -> bool): Entry -> bool {
    (e: Entry) => isPublic(e.row.ip)
  }

  /** The previous file's rows; a missing, undecodable or malformed file counts as empty, a field
      beyond the reader's limit is an exception. */
  function LoadPrevious(body: Option<string>): Option<seq<Row>> {
    if body.None? then Some([])
    else
      match Parse(body.value)
      case Parsed(rows, _) => Some(rows)
      case Malformed(_, _) => Some([])
      case FieldTooLong => None
  }

  function CheckedPrevious(args: Args, previous: seq<Row>, net: Network): seq<Entry> {
    Checked(Unmarked(previous), args.skipHealthCheck, 2, net)
  }

  /** Stage 4 up to the second health check. */
  function MergeStage(args: Args, previous: seq<Entry>, fetched: seq<Row>): seq<Entry> {
    var valid := Keep(MergeWithPrevious(previous, fetched), IsValid);
    var repaired := EnforceAll(NormalizeAll(valid), args.decode);
    Keep(DedupeHostnames(repaired), PublicTest(args.isPublic))
  }

  function MergedList(args: Args, previous: seq<Row>, fetched: seq<Row>, started: int, net: Network): seq<Entry> {
    MergeStage(args, Stamped(CheckedPrevious(args, previous, net), started), fetched)
  }

  /** The healthy rows that enter pruning. */
  function Candidates(args: Args, previous: seq<Row>, fetched: seq<Row>, started: int, net: Network): seq<Row> {
    var merged := MergedList(args, previous, fetched, started, net);
    RowsOf(Keep(Stamped(Checked(merged, args.skipHealthCheck, 4, net), started), IsHealthy))
  }

  function IpsOf(rows: seq<Row>): seq<string> {
    seq(|rows|, k requires 0 <= k < |rows| => rows[k].ip)
  }

  /** Stage 6: render, check the size, read back. */
  function SelfChecked(args: Args, written: seq<Row>): RunResult {
    var text := Render(written);
    if Utf8Size(text) > args.maxBytes then Refused(TooManyBytes)
    else
      match Parse(text)
      case FieldTooLong => Refused(ReaderFieldLimit)
      case Malformed(_, _) => Refused(SelfCheckFailed)
      case Parsed(rows, rejected) =>
        if rejected > 0 || multiset(IpsOf(rows)) != multiset(IpsOf(written)) then Refused(SelfCheckFailed)
        else Published(written, text)
  }

  /** Stages 5 and 6. */
  function Publish(args: Args, healthy: seq<Row>): RunResult {
    var kept := Prune(healthy, args.maxServers);
    if |kept| < args.minRows then Refused(TooFewHealthy)
    else
      var fitted := FitRows(kept, args.maxBytes);
      if |fitted| < args.minRows then Refused(TooFewFit)
      else SelfChecked(args, Sort(fitted, IpLess))
  }

  /** The test that stops a run whose network is probably broken; a division by zero when the
      threshold admits an empty previous file. */
  function RatioGuard(args: Args, entries: seq<Entry>): Option<Why> {
    if |entries| >= args.minPreviousForRatio && !args.skipHealthCheck then
      if entries == [] then Some(DivisionByZero)
      else if |Keep(entries, IsHealthy)| as real / |entries| as real < args.minHealthyRatio && !args.force
      then Some(LowHealth) else None
    else None
  }

  /** A run from its fetched rows on. */
  function Run(args: Args, body: Option<string>, fetched: seq<Row>, started: int, net: Network): RunResult {
    match LoadPrevious(body)
    case None => Refused(ReaderFieldLimit)
    case Some(previous) =>
      var guard := RatioGuard(args, CheckedPrevious(args, previous, net));
      if guard.Some? then Refused(guard.value)
      else if fetched == [] && previous == [] then Refused(NothingToPublish)
      else Publish(args, Candidates(args, previous, fetched, started, net))
  }

  /** A run from its sources: the previous file's body, the API's body, the rows of the HTML page. The API is
      read after the guard, and its reader's exception ends the run. */
  function RunSources(args: Args, body: Option<string>, api: Option<string>, html: seq<Row>, started: int, net: Network)
    : RunResult
  {
    match LoadPrevious(body)
    case None => Refused(ReaderFieldLimit)
    case Some(previous) =>
      var guard := RatioGuard(args, CheckedPrevious(args, previous, net));
      if guard.Some? then Refused(guard.value)
      else
        match ApiFeed.FetchFresh(api, html, started)
        case None => Refused(ReaderFieldLimit)
        case Some(fetched) => Run(args, body, fetched, started, net)
  }

  // ---------- the program ----------

  method KeepIf(entries: seq<Entry>, p: Entry -> bool) returns (kept: seq<Entry>)
    ensures kept == Keep(entries, p)
  {
    kept := [];
    for k := 0 to |entries|
      invariant kept == Keep(entries[..k], p)
    {
      assert entries[..k + 1][..k] == entries[..k];
      if p(entries[k]) {
        kept := kept + [entries[k]];
      }
    }
    assert entries[..|entries|] == entries;
  }

  method LoadPreviousRows(body: Option<string>) returns (previous: Option<seq<Row>>)
    ensures previous == LoadPrevious(body)
  {
    if body.None? {
      return Some([]);
    }
    var parsed := ParseEmergencyCsv(body.value);
    match parsed {
      case Parsed(rows, _) => previous := Some(rows);
      case Malformed(_, _) => previous := Some([]);
      case FieldTooLong => previous := None;
    }
  }

  method PublishRows(args: Args, healthy: seq<Row>) returns (result: RunResult)
    ensures result == Publish(args, healthy)
  {
    hide Parse, Render, FitRows, Prune, IpLess, Sort;
    var kept := Prune(healthy, args.maxServers);
    if |kept| < args.minRows {
      return Refused(TooFewHealthy);
    }
    var fitted, restored, stripped := FitBudget(kept, args.maxBytes);
    if |fitted| < args.minRows {
      return Refused(TooFewFit);
    }
    var written := Sort(fitted, IpLess);
    var text := Render(written);
    if Utf8Size(text) > args.maxBytes {
      return Refused(TooManyBytes);
    }
    var check := ParseEmergencyCsv(text);
    match check {
      case FieldTooLong => result := Refused(ReaderFieldLimit);
      case Malformed(_, _) => result := Refused(SelfCheckFailed);
      case Parsed(rows, rejected) =>
        if rejected > 0 || multiset(IpsOf(rows)) != multiset(IpsOf(written)) {
          result := Refused(SelfCheckFailed);
        } else {
          result := Published(written, text);
        }
    }
  }

  /** `run`, with the bodies it receives, the clock and the network as inputs. */
  method RunOnce(args: Args, body: Option<string>, api: Option<string>, html: seq<Row>, started: int, net: Network)
    returns (result: RunResult)
    ensures result == RunSources(args, body, api, html, started, net)
  {
    hide LoadPrevious, Keep, Checked, Stamped, Unmarked, MergeStage, ApiFeed.FetchFresh, Publish, ProbesOf, IsHealthy;
    var loaded := LoadPreviousRows(body);
    if loaded.None? {
      return Refused(ReaderFieldLimit);
    }
    var previous := new RowList(Unmarked(loaded.value));
    previous.HealthCheck(args.skipHealthCheck, 2, net);
    var up := KeepIf(previous.entries, IsHealthy);
    if |previous.entries| >= args.minPreviousForRatio && !args.skipHealthCheck {
      if previous.entries == [] {
        return Refused(DivisionByZero);
      }
      if |up| as real / |previous.entries| as real < args.minHealthyRatio && !args.force {
        return Refused(LowHealth);
      }
    }
    previous.StampHealthy(started);
    var fetched := ApiFeed.FetchFreshRows(api, html, started);
    if fetched.None? {
      return Refused(ReaderFieldLimit);
    }
    if fetched.value == [] && loaded.value == [] {
      return Refused(NothingToPublish);
    }
    var merged := MergeRows(args, previous.entries, fetched.value);
    var healthy := CheckMerged(args, merged, started, net);
    result := PublishRows(args, RowsOf(healthy));
  }

  /** Stage 4 up to the second health check; the list is repaired in place. */
  method MergeRows(args: Args, previous: seq<Entry>, fetched: seq<Row>) returns (merged: seq<Entry>)
    ensures merged == MergeStage(args, previous, fetched)
  {
    hide IsValid, MergeWithPrevious, DedupeHostnames, Keep, NormalizeAll, EnforceAll;
    var all := MergeWithPreviousRows(previous, fetched);
    var valid := KeepIf(all, IsValid);
    var list := new RowList(valid);
    list.NormalizeSstp();
    list.EnforceConfigPorts(args.decode);
    var unique := DedupeHostnameRows(list.entries);
    merged := KeepIf(unique, PublicTest(args.isPublic));
  }

  /** The second health check, in place, and the rows that passed it. */
  method CheckMerged(args: Args, merged: seq<Entry>, started: int, net: Network) returns (healthy: seq<Entry>)
    ensures healthy == Keep(Stamped(Checked(merged, args.skipHealthCheck, 4, net), started), IsHealthy)
  {
    hide Keep, Checked, Stamped, ProbesOf;
    var list := new RowList(merged);
    list.HealthCheck(args.skipHealthCheck, 4, net);
    list.StampHealthy(started);
    healthy := KeepIf(list.entries, IsHealthy);
  }
}
