/** The two exceptions a run does not handle and the refusals of its self-check: exactly when, and that they occur. */
module Failures {
  import opened Text
  import opened Rows
  import opened Ordering
  import opened Ranking
  import opened Feed
  import opened Budget
  import opened Merge
  import opened Ports
  import opened Probe
  import opened Stages
  import opened Publisher
  import opened Pipeline
  import opened Republish
  import opened Samples
  import opened Repair
  import ApiFeed
  import Csv
  import Upsert

  // ---------- division by zero ----------

  /** The health ratio divides by zero exactly when the previous list is empty (no file, or a refused one), the
      threshold for the ratio is not positive, and health checks are on. */
  lemma DividesByZeroExactly(
      args: Args, body: Option<string>, api: Option<string>, html: seq<Row>, started: int, net: Network)
    ensures RunSources(args, body, api, html, started, net) == Refused(DivisionByZero) <==>
            LoadPrevious(body) == Some([]) && args.minPreviousForRatio <= 0 && !args.skipHealthCheck
  {
    hide LoadPrevious, Candidates, Keep, Prune, FitRows, Sort, Render, Parse, Checked, Utf8Size, ApiFeed.FetchFresh;
  }

  /** The first run of all divides by zero under such a threshold, whatever it would fetch. */
  lemma FirstRunDividesByZero(args: Args, api: Option<string>, html: seq<Row>, started: int, net: Network)
    requires args.minPreviousForRatio <= 0 && !args.skipHealthCheck
    ensures RunSources(args, None, api, html, started, net) == Refused(DivisionByZero)
  {
    DividesByZeroExactly(args, None, api, html, started, net);
  }

  /** A previous file that the parser refuses counts as none. */
  lemma RefusedFileIsNoFile(
      args: Args, text: string, api: Option<string>, html: seq<Row>, started: int, net: Network)
    requires Parse(text).Malformed?
    ensures RunSources(args, Some(text), api, html, started, net) == RunSources(args, None, api, html, started, net)
  {
    hide Parse, Candidates, CheckedPrevious, Publish, ApiFeed.FetchFresh;
    assert LoadPrevious(Some(text)) == Some([]) == LoadPrevious(None);
  }

  // ---------- too few servers reached ----------

  /** The previous rows whose listener answered the first check. */
  function Reached(previous: seq<Row>, net: Network): set<int> {
    set k | 0 <= k < |previous| && TcpEndpoint(previous[k]).Some? && net(2, k, TcpEndpoint(previous[k]).value)
  }

  function HealthyAt(entries: seq<Entry>): set<int> {
    set k | 0 <= k < |entries| && IsHealthy(entries[k])
  }

  lemma {:induction false} HealthyCounted(entries: seq<Entry>)
    ensures |Keep(entries, IsHealthy)| == |HealthyAt(entries)|
  {
    hide IsHealthy;
    if entries != [] {
      var n := |entries| - 1;
      HealthyCounted(entries[..n]);
      assert HealthyAt(entries) == HealthyAt(entries[..n]) + if IsHealthy(entries[n]) then {n} else {};
    }
  }

  lemma ReachedAreHealthy(args: Args, previous: seq<Row>, net: Network)
    requires !args.skipHealthCheck
    ensures |Keep(CheckedPrevious(args, previous, net), IsHealthy)| == |Reached(previous, net)|
  {
    hide TcpEndpoint;
    var entries := CheckedPrevious(args, previous, net);
    HealthyCounted(entries);
    assert HealthyAt(entries) == Reached(previous, net);
  }

  lemma RatioBelow(x: nat, y: nat, limit: real)
    requires y > 0
    ensures x as real / y as real < limit <==> x as real < limit * y as real
  {
    var q := x as real / y as real;
    assert q * y as real == x as real;
    if q < limit {
      Scaled(q, limit, y as real);
    } else {
      Scaled(limit, q, y as real);
    }
  }

  lemma Scaled(a: real, b: real, y: real)
    requires a <= b && y > 0.0
    ensures a * y <= b * y && (a < b ==> a * y < b * y)
  {
    assert (b - a) * y >= 0.0;
  }

  /** A run is refused for its health exactly when checks are on and not overruled, there are previous rows, enough of
      them for the ratio, and the share that answered is below the limit. */
  lemma LowHealthExactly(
      args: Args, body: Option<string>, api: Option<string>, html: seq<Row>, started: int, net: Network)
    ensures RunSources(args, body, api, html, started, net) == Refused(LowHealth) <==>
            && LoadPrevious(body).Some? && !args.skipHealthCheck && !args.force
            && var previous := LoadPrevious(body).value;
               && previous != [] && |previous| >= args.minPreviousForRatio
               && |Reached(previous, net)| as real < args.minHealthyRatio * |previous| as real
  {
    hide LoadPrevious, Candidates, Keep, Prune, FitRows, Sort, Render, Parse, Checked, Utf8Size, ApiFeed.FetchFresh, Reached;
    if LoadPrevious(body).Some? && !args.skipHealthCheck {
      var previous := LoadPrevious(body).value;
      ReachedAreHealthy(args, previous, net);
      if previous != [] {
        RatioBelow(|Reached(previous, net)|, |previous|, args.minHealthyRatio);
      }
    }
  }

  /** A run has nothing to publish exactly when it gets to fetch, and neither the previous file nor a source has a row. */
  lemma NothingToPublishExactly(
      args: Args, body: Option<string>, api: Option<string>, html: seq<Row>, started: int, net: Network)
    ensures RunSources(args, body, api, html, started, net) == Refused(NothingToPublish) <==>
            LoadPrevious(body) == Some([]) && ApiFeed.FetchFresh(api, html, started) == Some([]) &&
            (args.minPreviousForRatio > 0 || args.skipHealthCheck)
  {
    hide LoadPrevious, Candidates, Keep, Prune, FitRows, Sort, Render, Parse, Checked, Utf8Size, ApiFeed.FetchFresh;
  }

  // ---------- the reader's field limit and the self-check ----------

  /** The run gets past the test of its network. */
  predicate Fetches(args: Args, body: Option<string>, net: Network) {
    LoadPrevious(body).Some? && RatioGuard(args, CheckedPrevious(args, LoadPrevious(body).value, net)) == None
  }

  /** The run gets as far as rendering its file. */
  predicate Renders(args: Args, body: Option<string>, fetched: seq<Row>, started: int, net: Network) {
    && Fetches(args, body, net)
    && (fetched != [] || LoadPrevious(body).value != [])
    && var healthy := Candidates(args, LoadPrevious(body).value, fetched, started, net);
       |Prune(healthy, args.maxServers)| >= args.minRows && |Written(args, healthy)| >= args.minRows
  }

  function RunWritten(args: Args, body: Option<string>, fetched: seq<Row>, started: int, net: Network): seq<Row>
    requires LoadPrevious(body).Some?
  {
    Written(args, Candidates(args, LoadPrevious(body).value, fetched, started, net))
  }

  lemma RunHealthySanitized(args: Args, body: Option<string>, fetched: seq<Row>, started: int, net: Network)
    requires SanitizedRows(fetched) && LoadPrevious(body).Some?
    ensures SanitizedRows(Candidates(args, LoadPrevious(body).value, fetched, started, net))
  {
    hide LoadPrevious, Candidates, Candidate;
    var previous := LoadPrevious(body).value;
    LoadedSanitized(body);
    CandidatesShape(args, previous, fetched, started, net);
    CandidatesSanitized(args, started, Candidates(args, previous, fetched, started, net));
  }

  /** When a run from its fetched rows ends in the reader's exception or in the self-check's refusal. */
  lemma FetchedRunFails(args: Args, body: Option<string>, fetched: seq<Row>, started: int, net: Network)
    requires SanitizedRows(fetched) && Fetches(args, body, net)
    ensures var w := RunWritten(args, body, fetched, started, net);
            var result := Run(args, body, fetched, started, net);
            && (result == Refused(ReaderFieldLimit) <==>
                Renders(args, body, fetched, started, net) && !HasReplacement(w) && !Readable(w))
            && (result == Refused(SelfCheckFailed) <==>
                Renders(args, body, fetched, started, net) &&
                (HasReplacement(w) || (w == [] && HeaderSize() <= args.maxBytes)))
  {
    hide LoadPrevious, Candidates, CheckedPrevious, Publish, Written, Prune, Sanitized, Keep, HeaderSize, RowHasReplacement,
      Csv.WithinLimit;
    RunHealthySanitized(args, body, fetched, started, net);
    PublishOutcome(args, Candidates(args, LoadPrevious(body).value, fetched, started, net));
  }

  /** The csv reader's exception ends a run exactly when the previous file holds an oversized field, when the
      API's body does and the run gets to fetch it, or when the run's own file does and no U+FFFD refuses it
      first. */
  lemma FieldLimitExactly(
      args: Args, body: Option<string>, api: Option<string>, html: seq<Row>, started: int, net: Network)
    requires SanitizedRows(html)
    ensures RunSources(args, body, api, html, started, net) == Refused(ReaderFieldLimit) <==>
            || LoadPrevious(body).None?
            || (Fetches(args, body, net) && api.Some? && ApiFeed.FieldOverLimit(api.value))
            || match ApiFeed.FetchFresh(api, html, started)
               case None => false
               case Some(fetched) =>
                 Renders(args, body, fetched, started, net) &&
                 !HasReplacement(RunWritten(args, body, fetched, started, net)) &&
                 !Readable(RunWritten(args, body, fetched, started, net))
  {
    hide LoadPrevious, CheckedPrevious, Run, RunWritten, Sanitized, HasReplacement, Readable, Keep, Candidates,
      ApiFeed.FetchFresh, ApiFeed.FieldOverLimit, Written, Prune;
    ApiFeed.FetchFailsExactly(api, html, started);
    FetchedRows(api, html, started);
    var fetched := ApiFeed.FetchFresh(api, html, started);
    if Fetches(args, body, net) && fetched.Some? {
      FetchedRunFails(args, body, fetched.value, started, net);
    }
  }

  /** The self-check refuses a run exactly when the file it is about to publish holds U+FFFD, or has no row at all:
      a minimum of no rows lets an empty list through to a parser that wants one. */
  lemma SelfCheckFailsExactly(
      args: Args, body: Option<string>, api: Option<string>, html: seq<Row>, started: int, net: Network)
    requires SanitizedRows(html)
    ensures RunSources(args, body, api, html, started, net) == Refused(SelfCheckFailed) <==>
            match ApiFeed.FetchFresh(api, html, started)
            case None => false
            case Some(fetched) =>
              Renders(args, body, fetched, started, net) &&
              var w := RunWritten(args, body, fetched, started, net);
              HasReplacement(w) || (w == [] && HeaderSize() <= args.maxBytes)
  {
    hide LoadPrevious, CheckedPrevious, Run, RunWritten, Sanitized, HasReplacement, Readable, Keep, Candidates,
      ApiFeed.FetchFresh, Written, Prune, HeaderSize;
    FetchedRows(api, html, started);
    var fetched := ApiFeed.FetchFresh(api, html, started);
    if Fetches(args, body, net) && fetched.Some? {
      FetchedRunFails(args, body, fetched.value, started, net);
    }
  }

  function Repeated(n: nat): (s: string)
    ensures |s| == n && Graphic(s) && forall i :: 0 <= i < n ==> s[i] == 'x'
  {
    seq(n, _ => 'x')
  }

  /** A previous file of one long word. */
  lemma LongPreviousFileRaises(args: Args, api: Option<string>, html: seq<Row>, started: int, net: Network, n: nat)
    requires n > Csv.FIELD_LIMIT
    ensures RunSources(args, Some(Repeated(n)), api, html, started, net) == Refused(ReaderFieldLimit)
  {
    hide Csv.Run, Candidates, CheckedPrevious, Publish, RatioGuard, Strip, ApiFeed.FetchFresh, Run;
    var text := Repeated(n);
    assert Csv.Run(Csv.FRESH, text) == Csv.FieldTooLong by {
      LongWord(n, []);
    }
    assert Strip(text) != "" by {
      GraphicIsClean(text);
      NotBlank(text);
    }
  }

  lemma LongWord(n: nat, done: seq<Csv.Record>)
    requires n > Csv.FIELD_LIMIT
    ensures Csv.Run(Csv.Reader(Csv.StartRecord, "", [], done), Repeated(n)) == Csv.FieldTooLong
  {
    var text := Repeated(n);
    var first := Csv.Step(Csv.Reader(Csv.StartRecord, "", [], done), 'x');
    assert text[0] == 'x';
    Csv.RunBare(first, text[1..]);
  }

  lemma NotBlank(s: string)
    requires s != "" && Graphic(s)
    ensures Strip(s) == s
  {
    assert !IsSpace(s[0]) && !IsSpace(s[|s| - 1]);
  }

  const HEAD := "HostName,IP,Score"

  lemma HeadText()
    ensures ApiFeed.HEADER_START <= Lower(HEAD) && Trimmed(HEAD) && ApiFeed.Whole(HEAD)
  {
    assert forall i :: 0 <= i < 12 ==> Lower(HEAD)[i] == ApiFeed.HEADER_START[i];
  }

  lemma HeadIsHeader()
    ensures ApiFeed.HeaderText(HEAD)
  {
    hide Split, Lower, ApiFeed.IsLineEnd;
    SplitHead("HostName", "IP,Score", ',');
    SplitHead("IP", "Score", ',');
    SplitWord("Score", ',');
    assert HEAD == "HostName" + [','] + "IP,Score" && "IP,Score" == "IP" + [','] + "Score";
    HeadText();
  }

  lemma LongBody(n: nat)
    requires n > Csv.FIELD_LIMIT
    ensures Csv.Read(Join([HEAD] + [Repeated(n)], "\n")).None?
  {
    hide Csv.Run, Csv.Step, ApiFeed.HeaderText, ApiFeed.Terminated, ApiFeed.ReadableLine, Join;
    HeadIsHeader();
    ApiFeed.JoinTerminated([HEAD], Repeated(n));
    ApiFeed.HeaderReadable(HEAD);
    ApiFeed.RunLines([HEAD], []);
    Csv.RunConcat(Csv.FRESH, ApiFeed.Terminated([HEAD]), Repeated(n));
    LongWord(n, [] + ApiFeed.Pieces([HEAD]));
  }

  lemma FirstRunFetches(args: Args, net: Network)
    requires args.minPreviousForRatio > 0 || args.skipHealthCheck
    ensures LoadPrevious(None) == Some([]) && RatioGuard(args, CheckedPrevious(args, [], net)) == None
  {
  }

  /** An API body of one long word. */
  lemma LongApiBodyRaises(args: Args, html: seq<Row>, started: int, net: Network, n: nat)
    requires n > Csv.FIELD_LIMIT && (args.minPreviousForRatio > 0 || args.skipHealthCheck)
    ensures RunSources(args, None, Some(ApiFeed.ApiText(HEAD, [Repeated(n)], "\n")), html, started, net) ==
            Refused(ReaderFieldLimit)
  {
    hide ApiFeed.ApiText, ApiFeed.SplitLines, ApiFeed.HeaderText, ApiFeed.Body, Csv.Read, ApiFeed.FirstHeader, ApiFeed.Whole,
      Join, LoadPrevious, RatioGuard, CheckedPrevious, Run;
    var word := Repeated(n);
    HeadIsHeader();
    WordIsWhole(n);
    ApiFeed.TextBody(HEAD, [word], "\n");
    LongBody(n);
    assert ApiFeed.FetchFresh(Some(ApiFeed.ApiText(HEAD, [word], "\n")), html, started).None?;
    FirstRunFetches(args, net);
  }

  lemma WordIsWhole(n: nat)
    ensures ApiFeed.Whole(Repeated(n))
  {
  }

  // ---------- one fresh row through a first run ----------

  /** A row the first run can carry to its self-check. */
  ghost predicate Carries(args: Args, r: Row, started: int, net: Network) {
    && Sanitized(r) && r.config == "" && args.isPublic(r.ip) && TcpEndpoint(r).Some? && AllUp(args, net)
    && args.maxServers >= 1 && args.minRows <= 1 && (args.minPreviousForRatio > 0 || args.skipHealthCheck)
    && FeedSize([Restamp(r, started)]) <= args.maxBytes
  }

  lemma OneFreshMerged(args: Args, r: Row)
    requires Sanitized(r) && r.config == "" && args.isPublic(r.ip)
    ensures MergeStage(args, [], [r]) == [Entry(r, UNMARKED)]
  {
    hide Sanitized, MergeWithPrevious, IsValid, EnforceRow, DedupeHostnames, HostKey, MergeTwo;
    var e := Entry(r, UNMARKED);
    assert MergeWithPrevious([], [r]) == [e] by {
      OneFreshListed(r);
    }
    ValidKeepsAll([e]);
    NormalizeIsRedundant([e]);
    EnforceAgrees(r, args.decode);
    assert EnforceAll([e], args.decode) == [e];
    DedupeDistinct([e]);
    KeepAll([e], PublicTest(args.isPublic));
  }

  lemma FirstListed(r: Row)
    ensures MergedDict([], [r]) == Upsert.Dict([r.ip], map[r.ip := Entry(r, UNMARKED)])
  {
    hide MergeTwo, Upsert.AddAll;
    var none: Upsert.Dict<string, Entry> := Upsert.Empty();
    Upsert.AddAllNone(none, PREVIOUS_BY_IP);
    Upsert.AddAllOne(none, r, FRESH_RULE);
  }

  lemma OneFreshListed(r: Row)
    ensures MergeWithPrevious([], [r]) == [Entry(r, UNMARKED)]
  {
    hide MergedDict;
    MergedDictValid([], [r]);
    FirstListed(r);
    assert MergedDict([], [r]).Values() == [Entry(r, UNMARKED)];
  }

  lemma OneFreshCandidate(args: Args, r: Row, started: int, net: Network)
    requires Carries(args, r, started, net)
    ensures Candidates(args, [], [r], started, net) == [Restamp(r, started)]
  {
    hide Sanitized, MergeStage, TcpEndpoint, FeedSize;
    OneFreshMerged(args, r);
    var e := Entry(r, UNMARKED);
    assert CheckedPrevious(args, [], net) == [] && Stamped([], started) == [];
    var m := MergedList(args, [], [r], started, net);
    assert m == [e];
    var checked := Checked(m, args.skipHealthCheck, 4, net);
    var up := Stamped(checked, started);
    assert up[0].row == Restamp(r, started) && IsHealthy(up[0]);
    KeepAll(up, IsHealthy);
  }

  lemma OneRowWritten(args: Args, r: Row)
    requires r.config == "" && args.maxServers >= 1 && FeedSize([r]) <= args.maxBytes
    ensures Written(args, [r]) == [r]
  {
    hide Written, FeedSize, Better, Prune, Top;
    KeptIsTopSegment(args, [r]);
    RankOrder();
    SortSorts([r], Better);
    PermutationMembers([r], Sort([r], Better));
    var ranked, w := Sort([r], Better), Written(args, [r]);
    assert ranked == [r];
    assert ranked[..1] == [r] && StripConfigs([r]) == [r];
    assert |w| == 1;
    WrittenMembers(args, [r], w[0]);
    assert w[0] in w;
  }

  /** The first run on one fresh row, to the end. */
  lemma OneFreshRun(args: Args, r: Row, started: int, net: Network)
    requires Carries(args, r, started, net)
    ensures var again := [Restamp(r, started)];
            Run(args, None, [r], started, net) ==
              if HasReplacement(again) then Refused(SelfCheckFailed)
              else if !Readable(again) then Refused(ReaderFieldLimit)
              else Published(again, Render(again))
  {
    hide Candidates, Written, Publish, Sanitized, TcpEndpoint, HasReplacement, Readable, FeedSize, Keep, Render, Prune, Checked,
      HeaderSize;
    var again := [Restamp(r, started)];
    OneFreshCandidate(args, r, started, net);
    StampSanitized(r, started);
    OneRowWritten(args, again[0]);
    PublishOutcome(args, again);
    PruneMembers(again, args.maxServers);
  }

  lemma MessageCell(r: Row)
    ensures Cells(r)[Position(Message)] == r.message && CellAt(r, ColumnAt(Position(Message))) == r.message
  {
  }

  lemma MessageReplaced(r: Row)
    requires REPLACEMENT in r.message
    ensures HasReplacement([r])
  {
    hide CellAt;
    MessageCell(r);
    assert RowHasReplacement([r][0]);
  }

  lemma MessageTooLong(r: Row)
    requires |r.message| > Csv.FIELD_LIMIT
    ensures !Readable([r])
  {
    hide CellAt;
    MessageCell(r);
    assert !Csv.WithinLimit(Cells([r][0]));
  }

  /** Arguments under which every healthy network carries a row of that size. */
  function Roomy(bytes: nat): Args {
    Args(1, 1, bytes, 1, 0.0, false, false, ip => true, config => [])
  }

  function Reachable(): Network {
    (stage, k, e) => true
  }

  // ---------- one server through both sources ----------

  const BLANKS: seq<string> := ["", "", "", "", "", "", "", "", "", "", ""]

  /** The API's line for the sample server. */
  function Fields(message: string): (fields: Csv.Record)
    ensures |fields| == FIELDS
  {
    ["h", Address(1)] + BLANKS + [message, ""]
  }

  function LineText(message: string): string {
    ApiFeed.ApiText(HEAD, ApiFeed.Texts([Fields(message)]) + ["*"], "\n")
  }

  /** A text the API can send as Message: its pieces between commas may each be as long as the reader allows. */
  predicate Sendable(message: string) {
    IsClean(message) && '"' !in message && Csv.WithinLimit(Split(message, ','))
  }

  lemma {:induction false} JoinWhole(parts: seq<string>)
    requires forall k :: 0 <= k < |parts| ==> ApiFeed.Whole(parts[k])
    ensures ApiFeed.Whole(Join(parts, ","))
  {
    hide ApiFeed.IsLineEnd;
    if |parts| > 1 {
      JoinWhole(parts[1..]);
      CommaWhole();
    }
  }

  lemma CommaWhole()
    ensures ApiFeed.Whole(",") && ApiFeed.Whole("h") && ApiFeed.Whole("")
  {
  }

  lemma FirstAddress()
    ensures Address(1) == "1.1.1.1" && ApiFeed.Whole(Address(1))
  {
    assert Dec(1) == "1";
    assert DecAll([1, 1, 1, 1]) == ["1", "1", "1", "1"];
    assert Join(["1", "1", "1", "1"], ".") == "1.1.1.1";
  }

  lemma SendableIsWhole(message: string)
    requires Sendable(message)
    ensures ApiFeed.Whole(message)
  {
  }

  lemma FieldsLine(message: string)
    requires Sendable(message)
    ensures ApiFeed.ApiLine(Fields(message))
  {
    hide Split, Join, IsClean, ApiFeed.IsLineEnd, Address, ApiFeed.Whole;
    FirstAddress();
    CommaWhole();
    SendableIsWhole(message);
    var fields, a := Fields(message), ["h", Address(1)] + BLANKS;
    assert fields == a + [message, ""] && |fields| == FIELDS;
    JoinWhole(fields);
    SplitAround(a, message, "");
    LineStart(fields);
    JoinSplit(message, ',');
  }

  lemma LineStart(fields: Csv.Record)
    requires |fields| > 1
    ensures Join(fields, ",") != ""
  {
  }

  /** That line is the server's own columns. */
  lemma FieldsAreBase(message: string, port: Port, tag: Tag, seen: int)
    ensures ApiFeed.BaseCells(Server(message, port, tag, seen)) == Fields(message)
  {
    hide Address;
    var r := Server(message, port, tag, seen);
    forall i | 0 <= i < FIELDS ensures ApiFeed.BaseCells(r)[i] == Fields(message)[i] {
    }
  }

  /** The HTML page's row of the same server: its listener, and no text. */
  function Page(seen: int): Row {
    Server("", 443, HtmlParse, seen)
  }

  lemma SameAddress(message: string, seen: int)
    ensures var api, html := Server(message, 0, ApiIphone, seen), Page(seen);
            api.ip == html.ip && MergeHtml(api, html) == Server(message, 443, Merged, seen)
  {
    hide Address;
  }

  lemma BothMerged(message: string, seen: int)
    ensures MergeFresh([Server(message, 0, ApiIphone, seen)], [Page(seen)]) == [Server(message, 443, Merged, seen)]
    ensures MergeFresh([Server(message, 0, ApiIphone, seen)], []) == [Server(message, 0, ApiIphone, seen)]
  {
    hide Address, Server, Upsert.AddAll, MergeHtml;
    var api, html := Server(message, 0, ApiIphone, seen), Page(seen);
    SameAddress(message, seen);
    FreshDictValid([api], [html]);
    FreshDictValid([api], []);
    var none: Upsert.Dict<string, Row> := Upsert.Empty();
    Upsert.AddAllOne(none, api, BY_IP);
    var one := Upsert.Dict([api.ip], map[api.ip := api]);
    assert Upsert.Add(none, api, BY_IP) == one;
    Upsert.AddAllNone(one, HTML_RULE);
    Upsert.AddAllOne(one, html, HTML_RULE);
    assert one.Values() == [api];
    assert FreshDict([api], [html]) == Upsert.Dict([api.ip], one.vals[api.ip := MergeHtml(api, html)]);
  }

  lemma LineFetched(message: string, started: int)
    requires Sendable(message)
    ensures ApiFeed.ParseApi(LineText(message), started) == ApiFeed.Accepted([Server(message, 0, ApiIphone, started)], 0)
  {
    hide Sanitized, IsClean, ApiFeed.ApiLine, ApiFeed.ParseApi, Fields, ApiFeed.ApiText, ApiFeed.HeaderText,
      Csv.WithinLimit, Join, Split, Address;
    HeadIsHeader();
    FieldsLine(message);
    var r := Server(message, 0, ApiIphone, started);
    FieldsAreBase(message, 0, ApiIphone, started);
    ServerIsSanitized(message, 0, ApiIphone, started);
    ApiFeed.SentRowsReturn(HEAD, [r], "\n", started);
    assert ApiFeed.BaseLines([r]) == [Fields(message)];
    assert ApiFeed.ApiParts([r], started) == [r];
  }

  // ---------- the two texts that stop it ----------

  lemma ServerCarries(message: string, started: int)
    requires IsClean(message)
    ensures var r := Server(message, 443, Merged, started);
            Carries(Roomy(FeedSize([Restamp(r, started)])), r, started, Reachable())
  {
    hide Sanitized, IsClean, FeedSize, Address;
    ServerIsSanitized(message, 443, Merged, started);
  }

  /** A first run that receives a message from the API, under arguments that let the row through: U+FFFD stops it in the
      self-check, and a message over the reader's limit ends it in an exception. */
  lemma SentMessageStops(message: string, started: int) returns (args: Args)
    requires Sendable(message) && (REPLACEMENT in message || |message| > Csv.FIELD_LIMIT)
    ensures RunSources(args, None, Some(LineText(message)), [Page(started)], started, Reachable()) ==
            Refused(if REPLACEMENT in message then SelfCheckFailed else ReaderFieldLimit)
  {
    hide Sanitized, Run, FeedSize, Carries, IsClean, HasReplacement, Readable, Render, Address, Server, LineText, Page,
      ApiFeed.ParseApi, Csv.WithinLimit, MergeFresh;
    var r := Server(message, 443, Merged, started);
    args := Roomy(FeedSize([Restamp(r, started)]));
    ServerCarries(message, started);
    OneFreshRun(args, r, started, Reachable());
    LineFetched(message, started);
    BothMerged(message, started);
    assert ApiFeed.FetchFresh(Some(LineText(message)), [Page(started)], started) == Some([r]);
    MessageDecides(message, started);
  }

  lemma MessageDecides(message: string, started: int)
    ensures var rows := [Restamp(Server(message, 443, Merged, started), started)];
            (HasReplacement(rows) <==> REPLACEMENT in message) && (|message| > Csv.FIELD_LIMIT ==> !Readable(rows))
  {
    hide CellAt, Address;
    var r := Restamp(Server(message, 443, Merged, started), started);
    if REPLACEMENT in message {
      MessageReplaced(r);
    } else {
      forall c: Column ensures REPLACEMENT !in CellAt(r, c) {
        ServerCell(message, started, c);
      }
    }
    if |message| > Csv.FIELD_LIMIT {
      MessageTooLong(r);
    }
  }

  lemma ServerText(message: string, started: int, c: Column)
    requires ValueAt(Restamp(Server(message, 443, Merged, started), started), c).Str?
    ensures ValueAt(Restamp(Server(message, 443, Merged, started), started), c).s in
            ["h", Address(1), message, "", "merged", SCHEMA_VERSION]
  {
    hide Address;
    assert TagText(Merged) == "merged";
  }

  lemma CellOf(r: Row, c: Column)
    ensures match ValueAt(r, c)
            case Nil => CellAt(r, c) == ""
            case Flag(b) => CellAt(r, c) == if b then "true" else "false"
            case Num(n) => CellAt(r, c) == IntText(n)
            case Str(s) => CellAt(r, c) == s
  {
    hide ValueAt, IntText;
  }

  lemma ShortTexts()
    ensures REPLACEMENT !in "h" && REPLACEMENT !in "1.1.1.1" && REPLACEMENT !in "merged" && REPLACEMENT !in SCHEMA_VERSION
  {
  }

  lemma ServerCell(message: string, started: int, c: Column)
    requires REPLACEMENT !in message
    ensures REPLACEMENT !in CellAt(Restamp(Server(message, 443, Merged, started), started), c)
  {
    hide ValueAt, CellAt, IntText, Address, Server;
    var r := Restamp(Server(message, 443, Merged, started), started);
    CellOf(r, c);
    match ValueAt(r, c)
    case Nil =>
    case Flag(_) =>
    case Num(n) => NumberDigits(n);
    case Str(s) =>
      FirstAddress();
      ServerText(message, started, c);
      ShortTexts();
  }

  lemma NumberDigits(n: int)
    ensures REPLACEMENT !in IntText(n)
  {
    assert forall i :: 0 <= i < |IntText(n)| ==> IsDigit(IntText(n)[i]) || IntText(n)[i] == '-';
  }

  /** The API sends U+FFFD as a message, and the first run that reads it refuses its own file. */
  lemma ReplacedMessageRefused(started: int) returns (args: Args)
    ensures RunSources(args, None, Some(LineText([REPLACEMENT])), [Page(started)], started, Reachable()) ==
            Refused(SelfCheckFailed)
  {
    hide RunSources, LineText, Page, Split;
    assert IsClean([REPLACEMENT]);
    SplitWord([REPLACEMENT], ',');
    args := SentMessageStops([REPLACEMENT], started);
  }

  /** Two pieces the reader accepts on their own fold to a message it does not, and the run that fetches them ends
      in an exception. */
  lemma FoldedMessageRaises(n: nat, started: int) returns (args: Args, message: string)
    requires n <= Csv.FIELD_LIMIT < 2 * n + 1
    ensures message == Repeated(n) + "," + Repeated(n)
    ensures RunSources(args, None, Some(LineText(message)), [Page(started)], started, Reachable()) ==
            Refused(ReaderFieldLimit)
  {
    hide RunSources, LineText, Page, Split, Join, IsClean;
    var word := Repeated(n);
    message := word + "," + word;
    assert Graphic(message) && REPLACEMENT !in message && '"' !in message;
    GraphicIsClean(message);
    SplitWord(word, ',');
    SplitHead(word, word, ',');
    assert Split(message, ',') == [word, word];
    args := SentMessageStops(message, started);
  }

  // ---------- the empty list ----------

  /** With a minimum of no rows, a first run that fetches a server without a listener is refused by the self-check. */
  lemma EmptyListRefused(args: Args, started: int, net: Network)
    requires args.minRows <= 0 && HeaderSize() <= args.maxBytes && args.isPublic(Address(1))
    requires args.minPreviousForRatio > 0 || args.skipHealthCheck
    ensures RunSources(args, None, Some(LineText("")), [], started, net) == Refused(SelfCheckFailed)
  {
    hide Sanitized, IsClean, Address, LineText, ApiFeed.ParseApi, MergeStage, HeaderSize, MergeFresh, Publish, Render, Written,
      Sendable, Server, Candidates;
    var r := Server("", 0, ApiIphone, started);
    EmptySendable();
    LineFetched("", started);
    BothMerged("", started);
    ServerIsSanitized("", 0, ApiIphone, started);
    NoListener(args, started, net);
    PublishOutcome(args, []);
    PruneMembers([], args.maxServers);
    KeptIsTopSegment(args, []);
  }

  lemma EmptySendable()
    ensures Sendable("") && IsClean("")
  {
    GraphicIsClean("");
    assert Split("", ',') == [""];
  }

  lemma NoListener(args: Args, started: int, net: Network)
    requires args.isPublic(Address(1))
    ensures Candidates(args, [], [Server("", 0, ApiIphone, started)], started, net) == []
  {
    hide Sanitized, IsClean, Address, MergeStage;
    var r := Server("", 0, ApiIphone, started);
    EmptySendable();
    ServerIsSanitized("", 0, ApiIphone, started);
    OneFreshMerged(args, r);
    assert CheckedPrevious(args, [], net) == [] && Stamped([], started) == [];
    var m := MergedList(args, [], [r], started, net);
    var last := Stamped(Checked(m, args.skipHealthCheck, 4, net), started);
    assert last == [last[0]] && !IsHealthy(last[0]);
    NoneKept(last[0]);
  }

  lemma NoneKept(e: Entry)
    requires !IsHealthy(e)
    ensures Keep([e], IsHealthy) == []
  {
    assert [e][..0] == [];
  }
}
