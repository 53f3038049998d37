/** What merging a server's records does to one leaf: no value is lost, and which source decides. */
module Authority {
  import opened Leaves
  import opened Provenance
  import opened Text

  predicate RecordFits(r: Record, kinds: Kinds) {
    Fits(Node(r.body), [], kinds)
  }

  /** The scalar a record holds at a leaf. */
  function Read(body: seq<Kid>, p: Path): Scalar {
    ScalarAt(Some(Node(body)), p)
  }

  /** The value a record has at a leaf; Null if it supplies none. */
  function Value(body: seq<Kid>, p: Path): (v: Scalar)
    ensures v == if Read(body, p) in NOTHING then Null else Read(body, p)
  {
    Supplied(Some(Node(body)), p)
  }

  /** One server's records, merged in order. */
  function MergeAll(rs: seq<Record>): Server
    requires rs != []
  {
    if |rs| == 1 then FromRecord(rs[0]) else MergeRecord(MergeAll(rs[..|rs| - 1]), rs[|rs| - 1])
  }

  /** Each leaf of a merge is decided by that leaf of the two records, its two source lists and its own
      log entries, and by nothing else. */
  lemma LeavesAreIndependent(t: Server, r: Record, p: Path, kinds: Kinds)
    requires Fits(Node(t.body), [], kinds) && RecordFits(r, kinds)
    ensures var s := MergeRecord(t, r);
            var was, new' := Value(t.body, p), Value(r.body, p);
            var oldOwner := LastSource(SourcesAt(t.fieldSources, p), "previous");
            var newOwner := LastSource(SourcesAt(r.fieldSources, p), "incoming");
            && Fits(Node(s.body), [], kinds)
            && Value(s.body, p) == MergeLeaf(was, new', oldOwner, newOwner)
            && LogAt(s.conflicts, p) == MergeLog(LogAt(t.conflicts, p), p, was, new', oldOwner, newOwner)
            && SourcesAt(s.fieldSources, p) == AppendNew(SourcesAt(t.fieldSources, p), SourcesAt(r.fieldSources, p))
  {
    hide Fits, Supplied, MergeLeaf, MergeLog, MergeKids, LogAt;
    MergeKidsAt(t.body, r.body, [], Owners(t.fieldSources, r.fieldSources), t.conflicts, p, kinds);
    assert p[0..] == p;
  }

  // ---------- no value is lost ----------

  predicate LogHolds(log: seq<Conflict>, v: Scalar) {
    exists c, owner :: c in log && owner in c.values && c.values[owner] == Leaf(v)
  }

  predicate SuppliedBy(rs: seq<Record>, p: Path, v: Scalar) {
    exists r :: r in rs && Read(r.body, p) == v
  }

  /** What one merge adds to a leaf's log. */
  lemma MergeLogHolds(log: seq<Conflict>, p: Path, was: Scalar, new': Scalar, a: string, b: string, v: Scalar)
    ensures LogHolds(log, v) ==> LogHolds(MergeLog(log, p, was, new', a, b), v)
    ensures LogHolds(MergeLog(log, p, was, new', a, b), v) ==> LogHolds(log, v) || v == was || v == new'
    ensures v == new' && v != Null && was != Null && was != new' ==> LogHolds(MergeLog(log, p, was, new', a, b), v)
    ensures v == was && v != Null && new' != Null && was != new' && a != b
            ==> LogHolds(MergeLog(log, p, was, new', a, b), v)
  {
    var out := MergeLog(log, p, was, new', a, b);
    assert forall c :: c in log ==> c in out;
    if new' != Null && was != Null && was != new' {
      var entry := Conflict(p, map[a := Leaf(was)][b := Leaf(new')]);
      if i :| 0 <= i < |log| && SameConflict(log[i], p, Leaf(was), Leaf(new'), a, b) {
        assert log[i] in out;
      } else {
        assert out == log + [entry];
        assert entry in out && entry.values[b] == Leaf(new');
        assert a != b ==> entry.values[a] == Leaf(was);
      }
    }
  }

  /** A value is replaced only under another owner. */
  lemma ReplacedByAnother(was: Scalar, new': Scalar, a: string, b: string)
    requires was != Null && MergeLeaf(was, new', a, b) != was
    ensures a != b && new' != Null && new' != was && MergeLeaf(was, new', a, b) == new'
  {
  }

  lemma {:induction false} MergeAllFits(rs: seq<Record>, kinds: Kinds)
    requires rs != [] && forall r :: r in rs ==> RecordFits(r, kinds)
    ensures Fits(Node(MergeAll(rs).body), [], kinds)
  {
    hide Fits, MergeRecord;
    var last := rs[|rs| - 1];
    assert last in rs;
    if |rs| == 1 {
      assert RecordFits(rs[0], kinds);
    } else {
      assert forall r :: r in rs[..|rs| - 1] ==> r in rs;
      MergeAllFits(rs[..|rs| - 1], kinds);
      LeavesAreIndependent(MergeAll(rs[..|rs| - 1]), last, [], kinds);
    }
  }

  /** Whatever the order and however often a source repeats: the scalars supplied for a leaf, of any type, are
      exactly its final one and those in its conflict entries. */
  lemma {:induction false} NoValueIsLost(rs: seq<Record>, p: Path, v: Scalar, kinds: Kinds)
    requires rs != [] && forall r :: r in rs ==> RecordFits(r, kinds)
    requires v !in NOTHING
    ensures var s := MergeAll(rs);
            SuppliedBy(rs, p, v) <==> Read(s.body, p) == v || LogHolds(LogAt(s.conflicts, p), v)
  {
    hide Fits, MergeRecord, LogAt, Value, MergeLog, LogHolds, MergeLeaf, Priority, LastSource;
    assert Null in NOTHING;
    var last := rs[|rs| - 1];
    assert last in rs;
    if |rs| == 1 {
      EmptyLog(p, v);
      assert FromRecord(rs[0]).body == last.body;
    } else {
      var init := rs[..|rs| - 1];
      assert rs == init + [last];
      assert forall r :: r in rs <==> r in init || r == last;
      NoValueIsLost(init, p, v, kinds);
      MergeAllFits(init, kinds);
      var t := MergeAll(init);
      LeavesAreIndependent(t, last, p, kinds);
      NoValueLostStep(t, last, p, v, MergeRecord(t, last));
    }
  }

  lemma EmptyLog(p: Path, v: Scalar)
    ensures !LogHolds(LogAt([], p), v)
  {
  }

  lemma NoValueLostStep(t: Server, r: Record, p: Path, v: Scalar, s: Server)
    requires v != Null
    requires var was, new' := Value(t.body, p), Value(r.body, p);
             var oldOwner := LastSource(SourcesAt(t.fieldSources, p), "previous");
             var newOwner := LastSource(SourcesAt(r.fieldSources, p), "incoming");
             && Value(s.body, p) == MergeLeaf(was, new', oldOwner, newOwner)
             && LogAt(s.conflicts, p) == MergeLog(LogAt(t.conflicts, p), p, was, new', oldOwner, newOwner)
    ensures Value(s.body, p) == v || LogHolds(LogAt(s.conflicts, p), v)
       <==> Value(t.body, p) == v || LogHolds(LogAt(t.conflicts, p), v) || Value(r.body, p) == v
  {
    hide LogAt, Value, LogHolds, Priority, LastSource, MergeLog;
    var was, new' := Value(t.body, p), Value(r.body, p);
    var a := LastSource(SourcesAt(t.fieldSources, p), "previous");
    var b := LastSource(SourcesAt(r.fieldSources, p), "incoming");
    MergeLogHolds(LogAt(t.conflicts, p), p, was, new', a, b, v);
    if was != Null && MergeLeaf(was, new', a, b) != was {
      ReplacedByAnother(was, new', a, b);
    }
  }

  // ---------- lists ----------

  lemma {:induction false} AppendNewKeeps<T>(ys: seq<T>, xs: seq<T>)
    ensures var out := AppendNew(ys, xs);
            && ys <= out
            && (forall x :: x in out <==> x in ys || x in xs)
            && (forall i, j :: |ys| <= i < |out| && 0 <= j < i ==> out[i] != out[j])
  {
    if xs != [] {
      AppendNewKeeps(ys, xs[..|xs| - 1]);
      assert xs == xs[..|xs| - 1] + [xs[|xs| - 1]];
    }
  }

  /** A merged list keeps the old items in place and gains exactly the new ones, each once. */
  lemma ListsAreJoined(t: Server, r: Record, p: Path, kinds: Kinds)
    requires Fits(Node(t.body), [], kinds) && RecordFits(r, kinds)
    ensures var was, more := ListAt(Some(Node(t.body)), p), ListAt(Some(Node(r.body)), p);
            var out := ListAt(Some(Node(MergeRecord(t, r).body)), p);
            && was <= out
            && (forall x :: x in out <==> x in was || x in more)
            && (forall i, j :: |was| <= i < |out| && 0 <= j < i ==> out[i] != out[j])
  {
    hide Fits, MergeKids, ListAt;
    MergedKidsList(t.body, r.body, [], Owners(t.fieldSources, r.fieldSources), t.conflicts, p, kinds);
    AppendNewKeeps(ListAt(Some(Node(t.body)), p), ListAt(Some(Node(r.body)), p));
  }

  // ---------- a disagreement ----------

  /** Two pages that differ about a leaf leave one entry, each value under the page that gave it, and the value of
      the stronger page stands; on equal authority the first. */
  lemma TwoPagesDisagree(q: Record, r: Record, p: Path, kinds: Kinds)
    requires RecordFits(q, kinds) && RecordFits(r, kinds) && Parsed(q) && Parsed(r) && SourceOf(q) != SourceOf(r)
    requires Read(q.body, p) !in NOTHING && Read(r.body, p) !in NOTHING && Read(q.body, p) != Read(r.body, p)
    ensures var s, was, new' := MergeAll([q, r]), Read(q.body, p), Read(r.body, p);
            && LogAt(s.conflicts, p) == [Conflict(p, map[SourceOf(q) := Leaf(was), SourceOf(r) := Leaf(new')])]
            && Read(s.body, p) == if Priority(SourceOf(r)) < Priority(SourceOf(q)) then new' else was
  {
    hide Fits, MergeRecord, Value, Priority, Parsed, LogAt;
    ParsedAt(q, p);
    ParsedAt(r, p);
    assert Null in NOTHING;
    assert [q, r][..1] == [q] && MergeAll([q]) == FromRecord(q);
    LeavesAreIndependent(FromRecord(q), r, p, kinds);
    OwnersOfPages(SourceOf(q), SourceOf(r));
    NoLog(p);
    var a, b := SourceOf(q), SourceOf(r);
    var was, new' := Leaf(Read(q.body, p)), Leaf(Read(r.body, p));
    assert map[a := was][b := new'] == map[a := was, b := new'];
    assert RecordConflict([], p, was, new', a, b) == [Conflict(p, map[a := was, b := new'])];
  }

  lemma OwnersOfPages(a: string, b: string)
    ensures a != "" ==> LastSource([a], "previous") == a
    ensures b != "" ==> LastSource([b], "incoming") == b
  {
  }

  lemma NoLog(p: Path)
    ensures LogAt([], p) == []
  {
  }

  // ---------- which source decides ----------

  /** What one parsed record says about a leaf. */
  datatype Supply = Supply(source: string, value: Scalar)

  /** A leaf's value and its sources, in order of first appearance. */
  datatype Held = Held(value: Scalar, sources: seq<string>)

  function Step(h: Held, x: Supply): Held {
    if x.value == Null then h
    else Held(MergeLeaf(h.value, x.value, LastSource(h.sources, "previous"), x.source), AppendNew(h.sources, [x.source]))
  }

  function Hold(xs: seq<Supply>): Held {
    if xs == [] then Held(Null, []) else Step(Hold(xs[..|xs| - 1]), xs[|xs| - 1])
  }

  /** A parser tags each leaf it fills, and no other, with its own source. */
  ghost predicate Parsed(r: Record) {
    && |r.sources| == 1 && SourceOf(r) != ""
    && forall p :: SourcesAt(r.fieldSources, p) == if Value(r.body, p) != Null then [SourceOf(r)] else []
  }

  function SourceOf(r: Record): string {
    if r.sources == [] then "" else r.sources[0]
  }

  function SuppliesAt(rs: seq<Record>, p: Path): (xs: seq<Supply>)
    ensures |xs| == |rs| && forall i :: 0 <= i < |rs| ==> xs[i] == Supply(SourceOf(rs[i]), Value(rs[i].body, p))
  {
    seq(|rs|, i requires 0 <= i < |rs| => Supply(SourceOf(rs[i]), Value(rs[i].body, p)))
  }

  lemma ParsedAt(r: Record, p: Path)
    requires Parsed(r)
    ensures SourceOf(r) != "" && SourcesAt(r.fieldSources, p) == if Value(r.body, p) != Null then [SourceOf(r)] else []
  {
  }

  lemma FirstHeld(r: Record, p: Path)
    requires SourceOf(r) != "" && SourcesAt(r.fieldSources, p) == if Value(r.body, p) != Null then [SourceOf(r)] else []
    ensures Held(Value(r.body, p), SourcesAt(r.fieldSources, p)) == Step(Held(Null, []), Supply(SourceOf(r), Value(r.body, p)))
  {
    hide Value, Priority, LastSource, SourcesAt;
    AppendNewOne([], SourceOf(r));
  }

  /** What one more parsed record does to a leaf. */
  lemma HeldStep(t: Server, r: Record, p: Path, s: Server)
    requires SourceOf(r) != "" && SourcesAt(r.fieldSources, p) == if Value(r.body, p) != Null then [SourceOf(r)] else []
    requires var was, new' := Value(t.body, p), Value(r.body, p);
             && Value(s.body, p) == MergeLeaf(was, new', LastSource(SourcesAt(t.fieldSources, p), "previous"),
                                              LastSource(SourcesAt(r.fieldSources, p), "incoming"))
             && SourcesAt(s.fieldSources, p) == AppendNew(SourcesAt(t.fieldSources, p), SourcesAt(r.fieldSources, p))
    ensures Held(Value(s.body, p), SourcesAt(s.fieldSources, p))
         == Step(Held(Value(t.body, p), SourcesAt(t.fieldSources, p)), Supply(SourceOf(r), Value(r.body, p)))
  {
    hide Value, Priority, LastSource, SourcesAt, AppendNew;
    LastSourceOne(SourceOf(r));
    AppendNewOne(SourcesAt(t.fieldSources, p), SourceOf(r));
  }

  lemma {:induction false} MergedLeafIsHeld(rs: seq<Record>, p: Path, kinds: Kinds)
    requires rs != [] && forall r :: r in rs ==> RecordFits(r, kinds)
    requires forall r :: r in rs ==> Parsed(r)
    ensures var s := MergeAll(rs);
            Held(Value(s.body, p), SourcesAt(s.fieldSources, p)) == Hold(SuppliesAt(rs, p))
  {
    hide Fits, MergeRecord, Value, Priority, LastSource, SourcesAt, Step, Parsed;
    var last, init := rs[|rs| - 1], rs[..|rs| - 1];
    assert last in rs;
    var xs := SuppliesAt(rs, p);
    assert xs[..|xs| - 1] == SuppliesAt(init, p);
    ParsedAt(last, p);
    if |rs| == 1 {
      assert SuppliesAt(init, p) == [];
      FirstHeld(last, p);
    } else {
      assert forall r :: r in init ==> r in rs;
      MergedLeafIsHeld(init, p, kinds);
      MergeAllFits(init, kinds);
      LeavesAreIndependent(MergeAll(init), last, p, kinds);
      HeldStep(MergeAll(init), last, p, MergeRecord(MergeAll(init), last));
    }
  }

  lemma LastSourceOne(source: string)
    ensures source != "" ==> LastSource([source], "incoming") == source
  {
  }

  lemma AppendNewOne(sources: seq<string>, source: string)
    ensures AppendNew(sources, []) == sources
    ensures AppendNew(sources, [source]) == if source in sources then sources else sources + [source]
  {
    assert [source][..0] == [];
    assert AppendNew(sources, [source][..0]) == sources;
  }

  predicate Gives(x: Supply, priority: nat) {
    x.value != Null && Priority(x.source) == priority
  }

  predicate SomeGives(xs: seq<Supply>, priority: nat) {
    exists j :: 0 <= j < |xs| && Gives(xs[j], priority)
  }

  /** The first value of that authority; Null if there is none. */
  function First(xs: seq<Supply>, priority: nat): Scalar {
    if xs == [] then Null
    else
      var n := |xs| - 1;
      if First(xs[..n], priority) != Null then First(xs[..n], priority)
      else if Gives(xs[n], priority) then xs[n].value
      else Null
  }

  /** `v` is a value the api supplied. */
  predicate FromApi(xs: seq<Supply>, v: Scalar) {
    exists j :: 0 <= j < |xs| && Gives(xs[j], 0) && xs[j].value == v
  }

  function Owner(xs: seq<Supply>): string {
    LastSource(Hold(xs).sources, "previous")
  }

  /** Once the api has spoken, and not later than its last word, an html page supplies the leaf while the
      last source to have joined the leaf's list is a mirror. */
  predicate Displaced(xs: seq<Supply>, k: nat) {
    && k < |xs|
    && Gives(xs[k], 10)
    && SomeGives(xs[..k], 0)
    && Priority(Owner(xs[..k])) == 20
    && !SomeGives(xs[k..], 0)
  }

  ghost predicate ApiDisplaced(xs: seq<Supply>) {
    exists k: nat :: Displaced(xs, k)
  }

  /** No source is nameless. */
  predicate Named(xs: seq<Supply>) {
    forall j :: 0 <= j < |xs| ==> xs[j].source != ""
  }

  lemma PriorityCases(source: string)
    ensures Priority(source) == 0 || Priority(source) == 10 || Priority(source) == 20
    ensures Priority("previous") == 20
  {
    assert Lower(Strip("previous")) == "previous";
  }

  /** One more record: the value, and who owns the leaf next. */
  lemma HoldLast(xs: seq<Supply>)
    requires xs != [] && Named(xs)
    ensures var init, x := xs[..|xs| - 1], xs[|xs| - 1];
            && (x.value == Null ==> Hold(xs) == Hold(init) && Owner(xs) == Owner(init))
            && (x.value != Null ==>
                 && Hold(xs).value == MergeLeaf(Hold(init).value, x.value, Owner(init), x.source)
                 && Owner(xs) == if x.source in Hold(init).sources then Owner(init) else x.source)
  {
    hide Priority, MergeLeaf;
    var init, x := xs[..|xs| - 1], xs[|xs| - 1];
    var sources := Hold(init).sources;
    AppendNewOne(sources, x.source);
    assert (sources + [x.source])[|sources + [x.source]| - 1] == x.source;
  }

  predicate Supplies(xs: seq<Supply>, source: string) {
    exists j :: 0 <= j < |xs| && xs[j].value != Null && xs[j].source == source
  }

  lemma SuppliesLast(xs: seq<Supply>, source: string)
    requires xs != []
    ensures var n := |xs| - 1;
            Supplies(xs, source) <==> Supplies(xs[..n], source) || (xs[n].value != Null && xs[n].source == source)
  {
    var n := |xs| - 1;
    if Supplies(xs[..n], source) {
      var j :| 0 <= j < n && xs[..n][j].value != Null && xs[..n][j].source == source;
      assert xs[j].source == source;
    }
    if Supplies(xs, source) {
      var j :| 0 <= j < |xs| && xs[j].value != Null && xs[j].source == source;
      assert j < n ==> xs[..n][j].source == source;
    }
  }

  /** The list names suppliers, and the value is one of theirs. */
  lemma {:induction false} HeldIsSupplied(xs: seq<Supply>)
    requires Named(xs)
    ensures var h := Hold(xs);
            && (forall s :: s in h.sources <==> Supplies(xs, s))
            && (h.value != Null ==> exists j :: 0 <= j < |xs| && xs[j].value == h.value)
            && (h.value == Null <==> h.sources == [])
  {
    if xs != [] {
      var n := |xs| - 1;
      HeldIsSupplied(xs[..n]);
      AppendNewOne(Hold(xs[..n]).sources, xs[n].source);
      var h := Hold(xs);
      forall s ensures Supplies(xs, s) <==> Supplies(xs[..n], s) || (xs[n].value != Null && xs[n].source == s) {
        SuppliesLast(xs, s);
      }
      if h.value != Null && h.value != xs[n].value {
        var j :| 0 <= j < n && xs[..n][j].value == h.value;
        assert xs[j].value == h.value;
      }
    }
  }

  lemma FromApiGrows(xs: seq<Supply>, v: Scalar)
    requires xs != []
    ensures FromApi(xs[..|xs| - 1], v) ==> FromApi(xs, v) && v != Null
    ensures Gives(xs[|xs| - 1], 0) ==> FromApi(xs, xs[|xs| - 1].value)
  {
    var n := |xs| - 1;
    if j :| 0 <= j < n && Gives(xs[..n][j], 0) && xs[..n][j].value == v {
      assert Gives(xs[j], 0) && xs[j].value == v;
    }
  }

  lemma SomeGivesLast(xs: seq<Supply>, priority: nat)
    requires xs != []
    ensures SomeGives(xs, priority) <==> SomeGives(xs[..|xs| - 1], priority) || Gives(xs[|xs| - 1], priority)
  {
    var n := |xs| - 1;
    if j :| 0 <= j < n && Gives(xs[..n][j], priority) {
      assert Gives(xs[j], priority);
    }
    if j :| 0 <= j < |xs| && Gives(xs[j], priority) {
      assert j == n || Gives(xs[..n][j], priority);
    }
  }

  lemma HoldNothing(xs: seq<Supply>)
    requires Named(xs)
    ensures Hold([]) == Held(Null, []) && Owner([]) == "previous"
    ensures Hold(xs).value == Null ==> Priority(Owner(xs)) == 20
  {
    HeldIsSupplied(xs);
    PriorityCases("previous");
  }

  /** While the last source to have joined is the api, the value is the api's. */
  lemma {:induction false} ApiOwnerHoldsApi(xs: seq<Supply>)
    requires Named(xs) && Priority(Owner(xs)) == 0
    ensures FromApi(xs, Hold(xs).value)
  {
    hide Priority, Hold, Owner, FromApi;
    HoldNothing([]);
    PriorityCases("previous");
    if xs != [] {
      var init, x := xs[..|xs| - 1], xs[|xs| - 1];
      HoldLast(xs);
      HeldIsSupplied(init);
      HoldNothing(init);
      PriorityCases(Owner(init));
      FromApiGrows(xs, Hold(init).value);
      if Priority(Owner(init)) == 0 {
        ApiOwnerHoldsApi(init);
      }
    }
  }

  /** One more record that is not the api's: an earlier displacement stays, and this may be one. */
  lemma DisplacedLast(xs: seq<Supply>)
    requires xs != []
    ensures var init, x := xs[..|xs| - 1], xs[|xs| - 1];
            && (!Gives(x, 0) && ApiDisplaced(init) ==> ApiDisplaced(xs))
            && (Gives(x, 10) && SomeGives(init, 0) && Priority(Owner(init)) == 20 ==> ApiDisplaced(xs))
  {
    hide Priority, Hold, Owner, SomeGives;
    var n := |xs| - 1;
    var init, x := xs[..n], xs[n];
    if k: nat :| !Gives(x, 0) && Displaced(init, k) {
      assert xs[k..][..|xs[k..]| - 1] == init[k..];
      SomeGivesLast(xs[k..], 0);
      assert init[..k] == xs[..k];
      assert Displaced(xs, k);
    }
    if Gives(x, 10) && SomeGives(init, 0) && Priority(Owner(init)) == 20 {
      assert xs[n..] == [x];
      SomeGivesOne(x, 0);
      assert Displaced(xs, n);
    }
  }

  /** Unless displaced, a leaf the api supplied holds a value of the api. */
  lemma {:induction false} ApiHoldsUnlessDisplaced(xs: seq<Supply>)
    requires Named(xs) && SomeGives(xs, 0) && !ApiDisplaced(xs)
    ensures FromApi(xs, Hold(xs).value)
  {
    hide Priority, Hold, Owner, FromApi, SomeGives;
    var n := |xs| - 1;
    assert xs != [] by { NoneGives(0); }
    var init, x := xs[..n], xs[n];
    HoldLast(xs);
    HoldNothing(init);
    PriorityCases(Owner(init));
    PriorityCases(x.source);
    FromApiGrows(xs, Hold(init).value);
    SomeGivesLast(xs, 0);
    DisplacedLast(xs);
    if Priority(Owner(init)) == 0 {
      ApiOwnerHoldsApi(init);
    } else if !Gives(x, 0) {
      ApiHoldsUnlessDisplaced(init);
    }
  }

  lemma NoneGives(priority: nat)
    ensures !SomeGives([], priority)
  {
  }

  lemma SomeGivesOne(x: Supply, priority: nat)
    ensures SomeGives([x], priority) <==> Gives(x, priority)
  {
    assert [x][0] == x;
  }

  // ---------- exactly when the api's value is safe ----------

  /** The same records with other values: which source fills the leaf, and when, is unchanged. */
  predicate SameSources(xs: seq<Supply>, ys: seq<Supply>) {
    && |xs| == |ys|
    && forall j :: 0 <= j < |xs| ==> xs[j].source == ys[j].source && (xs[j].value == Null <==> ys[j].value == Null)
  }

  lemma {:induction false} SameSourcesHold(xs: seq<Supply>, ys: seq<Supply>)
    requires SameSources(xs, ys)
    ensures Hold(xs).sources == Hold(ys).sources
  {
    hide MergeLeaf, AppendNew;
    if xs != [] {
      SameSourcesHold(xs[..|xs| - 1], ys[..|ys| - 1]);
    }
  }

  lemma SameSourcesGives(xs: seq<Supply>, ys: seq<Supply>, priority: nat)
    requires SameSources(xs, ys)
    ensures SomeGives(xs, priority) ==> SomeGives(ys, priority)
  {
    if j :| 0 <= j < |xs| && Gives(xs[j], priority) {
      assert Gives(ys[j], priority);
    }
  }

  lemma SameSourcesDisplaced(xs: seq<Supply>, ys: seq<Supply>, k: nat)
    requires SameSources(xs, ys) && Displaced(xs, k)
    ensures Displaced(ys, k)
  {
    hide Priority, Hold, SomeGives, LastSource;
    assert SameSources(ys, xs);
    SameSourcesHold(xs[..k], ys[..k]);
    SameSourcesGives(xs[..k], ys[..k], 0);
    SameSourcesGives(ys[k..], xs[k..], 0);
  }

  /** Every record says who it is. */
  function Signed(xs: seq<Supply>): (ys: seq<Supply>)
    ensures SameSources(xs, ys)
  {
    seq(|xs|, i requires 0 <= i < |xs| => SignedOne(xs[i]))
  }

  function SignedOne(x: Supply): Supply {
    if x.value == Null then x
    else x.(value := if Priority(x.source) == 0 then Text("api") else if Priority(x.source) == 10 then Text("html")
                     else Text("mirror"))
  }

  lemma {:induction false} DisplacedStays(xs: seq<Supply>, k: nat, n: nat)
    requires Named(xs) && k < n <= |xs| && Displaced(xs, k)
    ensures Hold(Signed(xs)[..n]).value == Text("html")
    decreases n
  {
    hide Priority, Hold, Owner;
    var ys := Signed(xs);
    SameSourcesDisplaced(xs, ys, k);
    var init, x := ys[..n - 1], ys[n - 1];
    assert ys[..n][..n - 1] == init;
    HoldLast(ys[..n]);
    PriorityCases(Owner(init));
    PriorityCases(x.source);
    if n == k + 1 {
      var j :| 0 <= j < |init| && Gives(init[j], 0);
      HeldIsSupplied(init);
      assert init[j].source in Hold(init).sources;
    } else {
      DisplacedStays(xs, k, n - 1);
      assert ys[k..][n - 1 - k] == x;
    }
  }

  /** The sources that fill a leaf, and their order, guarantee the api's authority exactly when they
      displace it at no point. */
  lemma ApiAuthorityExactly(xs: seq<Supply>)
    requires Named(xs) && SomeGives(xs, 0)
    ensures (forall ys :: SameSources(xs, ys) ==> FromApi(ys, Hold(ys).value)) <==> !ApiDisplaced(xs)
  {
    hide Priority, Hold, Owner;
    if k: nat :| Displaced(xs, k) {
      DisplacedStays(xs, k, |xs|);
      var ys := Signed(xs);
      assert ys[..|xs|] == ys;
      assert !FromApi(ys, Text("html"));
    } else {
      forall ys | SameSources(xs, ys) ensures FromApi(ys, Hold(ys).value) {
        SameSourcesGives(xs, ys, 0);
        forall k: nat | k < |xs| ensures !Displaced(ys, k) {
          if Displaced(ys, k) {
            SameSourcesDisplaced(ys, xs, k);
          }
        }
        ApiHoldsUnlessDisplaced(ys);
      }
    }
  }

  // ---------- mirrors last ----------

  /** After the first mirror that fills the leaf, only mirrors do. */
  predicate MirrorsLast(xs: seq<Supply>) {
    forall i, j :: 0 <= i < j < |xs| && Gives(xs[i], 20) && xs[j].value != Null ==> Gives(xs[j], 20)
  }

  /** The owner of a filled leaf filled it. */
  lemma OwnerGives(xs: seq<Supply>)
    requires Named(xs) && Hold(xs).value != Null
    ensures SomeGives(xs, Priority(Owner(xs)))
  {
    hide Priority, Hold;
    HeldIsSupplied(xs);
    var sources := Hold(xs).sources;
    assert sources[|sources| - 1] in sources;
    var j :| 0 <= j < |xs| && xs[j].value != Null && xs[j].source == sources[|sources| - 1];
    assert Gives(xs[j], Priority(Owner(xs)));
  }

  /** If a mirror owns the leaf, only a mirror fills it next. */
  lemma MirrorOwnerThenMirror(xs: seq<Supply>, k: nat)
    requires Named(xs) && MirrorsLast(xs) && k < |xs|
    requires SomeGives(xs[..k], 0) && Priority(Owner(xs[..k])) == 20 && xs[k].value != Null
    ensures Gives(xs[k], 20)
  {
    hide Priority, Hold, Owner;
    HeldIsSupplied(xs[..k]);
    var i :| 0 <= i < k && Gives(xs[..k][i], 0);
    assert xs[..k][i].source in Hold(xs[..k]).sources;
    OwnerGives(xs[..k]);
    var j :| 0 <= j < k && Gives(xs[..k][j], 20);
    assert Gives(xs[j], 20);
  }

  lemma MirrorsLastIsSafe(xs: seq<Supply>)
    requires Named(xs) && MirrorsLast(xs)
    ensures !ApiDisplaced(xs)
  {
    hide Priority, Hold, Owner, SomeGives, MirrorsLast;
    forall k: nat | k < |xs| ensures !Displaced(xs, k) {
      if SomeGives(xs[..k], 0) && Priority(Owner(xs[..k])) == 20 && xs[k].value != Null {
        MirrorOwnerThenMirror(xs, k);
      }
    }
  }

  lemma {:induction false} FirstGives(xs: seq<Supply>, priority: nat)
    ensures First(xs, priority) != Null <==> SomeGives(xs, priority)
  {
    hide Priority, SomeGives;
    if xs == [] {
      NoneGives(priority);
    } else {
      FirstGives(xs[..|xs| - 1], priority);
      SomeGivesLast(xs, priority);
    }
  }

  /** Without the api, the first page of the strongest kind decides. */
  lemma {:induction false} FirstHolds(xs: seq<Supply>)
    requires Named(xs) && MirrorsLast(xs) && !SomeGives(xs, 0)
    ensures Hold(xs).value == if SomeGives(xs, 10) then First(xs, 10) else First(xs, 20)
  {
    hide Priority, Hold, Owner, SomeGives;
    FirstGives(xs, 10);
    if xs == [] {
      HoldNothing([]);
    } else {
      var n := |xs| - 1;
      var init, x := xs[..n], xs[n];
      HoldLast(xs);
      SomeGivesLast(xs, 0);
      SomeGivesLast(xs, 10);
      SomeGivesLast(xs, 20);
      FirstHolds(init);
      FirstGives(init, 10);
      FirstGives(init, 20);
      PriorityCases(x.source);
      PriorityCases(Owner(init));
      if Hold(init).value != Null {
        OwnerGives(init);
      }
      if Gives(x, 10) {
        NoMirrorBefore(xs);
      }
    }
  }

  lemma NoMirrorBefore(xs: seq<Supply>)
    requires xs != [] && MirrorsLast(xs) && Gives(xs[|xs| - 1], 10)
    ensures !SomeGives(xs[..|xs| - 1], 20)
  {
    var n := |xs| - 1;
    forall i | 0 <= i < n ensures !Gives(xs[..n][i], 20) {
      assert Gives(xs[i], 20) ==> Gives(xs[n], 20);
    }
  }

  /** The authority order, for any interleaving of api and html records followed by any mirrors: a leaf
      ends at a value of the api if the api ever supplied one, else at the first html value, else at the
      first mirror's. */
  lemma AuthorityDecides(rs: seq<Record>, p: Path, kinds: Kinds)
    requires rs != [] && forall r :: r in rs ==> RecordFits(r, kinds)
    requires forall r :: r in rs ==> Parsed(r)
    requires MirrorsLast(SuppliesAt(rs, p))
    ensures var xs, v := SuppliesAt(rs, p), Value(MergeAll(rs).body, p);
            if SomeGives(xs, 0) then FromApi(xs, v)
            else if SomeGives(xs, 10) then v == First(xs, 10)
            else v == First(xs, 20)
  {
    hide Priority, Hold, Owner, Fits, MergeAll, Value, MirrorsLast, First, SomeGives, FromApi;
    var xs := SuppliesAt(rs, p);
    forall i | 0 <= i < |rs| ensures SourceOf(rs[i]) != "" {
      assert rs[i] in rs && Parsed(rs[i]);
    }
    assert Named(xs);
    MergedLeafIsHeld(rs, p, kinds);
    if SomeGives(xs, 0) {
      MirrorsLastIsSafe(xs);
      ApiHoldsUnlessDisplaced(xs);
    } else {
      FirstHolds(xs);
    }
  }

  // ---------- an order that is not safe ----------

  /** The order api, mirror, html: the html value replaces the api's, whatever the three values are. */
  lemma HtmlDisplacesApi(a: Scalar, m: Scalar, h: Scalar)
    requires a !in NOTHING && m !in NOTHING && h !in NOTHING && a != m && a != h
    ensures Hold([Supply("api", a), Supply("mirror_1", m), Supply("html", h)]).value == h
  {
    hide Priority, AppendNew, Hold;
    NamedPriorities();
    var x, y, z := Supply("api", a), Supply("mirror_1", m), Supply("html", h);
    AppendNewOne([], "api");
    AppendNewOne(["api"], "mirror_1");
    AppendNewOne(["api", "mirror_1"], "html");
    assert Step(Held(Null, []), x) == Held(a, ["api"]);
    assert Step(Held(a, ["api"]), y) == Held(a, ["api", "mirror_1"]);
    assert Step(Held(a, ["api", "mirror_1"]), z).value == h;
    HoldThree(x, y, z);
  }

  lemma HoldThree(x: Supply, y: Supply, z: Supply)
    ensures Hold([x, y, z]) == Step(Step(Step(Held(Null, []), x), y), z)
  {
    hide Step;
    assert [x, y, z][..2] == [x, y] && [x, y][..1] == [x] && [x][..0] == [];
    assert Hold([x]) == Step(Hold([]), x);
    assert Hold([x, y]) == Step(Hold([x]), y);
  }

  lemma NamedPriorities()
    ensures Priority("api") == 0 && Priority("html") == 10 && Priority("mirror_1") == 20
  {
    assert Strip("api") == "api" && Strip("html") == "html" && Strip("mirror_1") == "mirror_1";
    assert Lower("api") == "api" && Lower("html") == "html" && Lower("mirror_1") == "mirror_1";
  }
}
