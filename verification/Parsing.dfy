/** How the collector's parsers fill a record: every leaf goes through `set_field`. */
module Parsing {
  import opened Authority
  import opened Leaves
  import opened Provenance
  import opened Text

  // ---------- the blank record ----------

  function No(key: string, v: Scalar): Kid { Kid(key, Leaf(v)) }

  function Transport(): seq<Kid> {
    [No("supported", Flag(false)), No("port", Null)]
  }

  function Identity(): seq<Kid> {
    [No("hostname", Text("")), No("ip", Text("")), No("ispHostname", Text("")), No("country", Text("")),
     No("countryLong", Text(""))]
  }

  function Performance(): seq<Kid> {
    [No("score", Number(0.0)), No("pingMs", Number(0.0)), No("speedMbps", Number(0.0)), No("sessions", Number(0.0)),
     No("uptimeDays", Number(0.0)), No("totalUsers", Number(0.0)), No("totalTrafficGB", Number(0.0))]
  }

  function SoftEther(): seq<Kid> {
    [No("supported", Flag(false)), Kid("tcp", Node(Transport())), Kid("udp", Node(Transport()))]
  }

  function OpenVpn(): seq<Kid> {
    [No("supported", Flag(false)), Kid("tcp", Node(Transport())), Kid("udp", Node(Transport())),
     No("configAvailable", Flag(false)), Kid("configs", Items([]))]
  }

  function Sstp(): seq<Kid> {
    [No("supported", Flag(false)), No("hostname", Text("")), No("port", Null)]
  }

  function Protocols(): seq<Kid> {
    [Kid("softether", Node(SoftEther())), Kid("openvpn", Node(OpenVpn())), Kid("l2tpIpsec", Node(Transport())),
     Kid("sstp", Node(Sstp()))]
  }

  function Quality(): seq<Kid> {
    [No("overall", Number(0.0)), No("softether", Number(0.0)), No("openvpn", Number(0.0)), No("sstp", Number(0.0)),
     No("l2tp", Number(0.0))]
  }

  /** `new_server`: the leaves the parsers may fill, and the quality scores computed later. */
  function NewServer(): seq<Kid> {
    [Kid("identity", Node(Identity())), Kid("performance", Node(Performance())),
     Kid("logging", Node([No("policy", Text(""))])), Kid("operator", Node([No("name", Text("")), No("message", Text(""))])),
     Kid("protocols", Node(Protocols())), Kid("quality", Node(Quality()))]
  }

  function SubtreeAt(t: Option<Tree>, path: Path): Option<Tree>
    decreases |path|
  {
    if path == [] then t
    else if t.Some? && t.value.Node? then SubtreeAt(Lookup(t.value.kids, path[0]), path[1..])
    else None
  }

  /** What the blank record has at a path; a path it does not have would be a scalar. */
  function KindsOf(root: Tree): Kinds {
    (p: Path) =>
      match SubtreeAt(Some(root), p)
      case None => Scalars
      case Some(Leaf(_)) => Scalars
      case Some(Items(_)) => Lists
      case Some(Node(_)) => Dicts
  }

  function ServerKinds(): Kinds {
    KindsOf(Node(NewServer()))
  }

  predicate Proper(t: Tree) {
    t.Node? ==> UniqueKeys(t.kids) && forall k :: k in t.kids ==> Proper(k.tree)
  }

  lemma {:induction false} SubtreeBelow(t: Option<Tree>, path: Path, key: string)
    requires SubtreeAt(t, path).Some? && SubtreeAt(t, path).value.Node?
    ensures SubtreeAt(t, path + [key]) == Lookup(SubtreeAt(t, path).value.kids, key)
    decreases |path|
  {
    if path == [] {
      assert [key][1..] == [] && ([] + [key])[0] == key;
    } else {
      SubtreeBelow(Lookup(t.value.kids, path[0]), path[1..], key);
      assert (path + [key])[1..] == path[1..] + [key];
    }
  }

  lemma {:induction false} ProperFits(t: Tree, root: Tree, path: Path)
    requires Proper(t) && SubtreeAt(Some(root), path) == Some(t)
    ensures Fits(t, path, KindsOf(root))
    decreases t
  {
    if t.Node? {
      forall k | k in t.kids ensures Fits(k.tree, path + [k.key], KindsOf(root)) {
        var j :| 0 <= j < |t.kids| && t.kids[j] == k;
        LookupUnique(t.kids, j);
        SubtreeBelow(Some(root), path, k.key);
        ProperFits(k.tree, root, path + [k.key]);
      }
    }
  }

  predicate Vacant(t: Tree) {
    match t
    case Leaf(v) => v in NOTHING
    case Items(_) => true
    case Node(kids) => forall k :: k in kids ==> Vacant(k.tree)
  }

  lemma {:induction false} VacantSuppliesNothing(t: Tree, p: Path)
    requires Vacant(t)
    ensures Supplied(Some(t), p) == Null
    decreases |p|
  {
    if t.Node? && p != [] {
      LookupAt(t.kids, p[0]);
      SuppliedBelow(t.kids, p);
      SuppliedNothing(p[1..]);
      if Lookup(t.kids, p[0]).Some? {
        var j :| 0 <= j < |t.kids| && t.kids[j] == Kid(p[0], Lookup(t.kids, p[0]).value);
        assert t.kids[j] in t.kids;
        VacantSuppliesNothing(t.kids[j].tree, p[1..]);
      }
    }
  }

  predicate Blank(t: Tree) {
    Proper(t) && Vacant(t)
  }

  lemma BlankNode(kids: seq<Kid>)
    requires UniqueKeys(kids) && forall i :: 0 <= i < |kids| ==> Blank(kids[i].tree)
    ensures Blank(Node(kids))
  {
  }

  lemma EmptyValuesAreBlank()
    ensures Blank(Leaf(Null)) && Blank(Leaf(Flag(false))) && Blank(Leaf(Text(""))) && Blank(Leaf(Number(0.0)))
    ensures Blank(Items([]))
  {
  }

  lemma ProtocolsAreBlank()
    ensures Blank(Node(Protocols()))
  {
    hide Blank;
    EmptyValuesAreBlank();
    BlankNode(Transport());
    BlankNode(SoftEther());
    BlankNode(OpenVpn());
    BlankNode(Sstp());
    BlankNode(Protocols());
  }

  lemma IdentityIsBlank()
    ensures Blank(Node(Identity()))
  {
    hide Blank;
    EmptyValuesAreBlank();
    BlankNode(Identity());
  }

  lemma PerformanceIsBlank()
    ensures Blank(Node(Performance())) && Blank(Node(Quality()))
  {
    hide Blank;
    EmptyValuesAreBlank();
    BlankNode(Performance());
    BlankNode(Quality());
  }

  lemma FlatGroupsAreBlank()
    ensures Blank(Node(Identity())) && Blank(Node(Performance())) && Blank(Node(Quality()))
    ensures Blank(Node([No("policy", Text(""))])) && Blank(Node([No("name", Text("")), No("message", Text(""))]))
  {
    hide Blank, Identity, Performance, Quality;
    IdentityIsBlank();
    PerformanceIsBlank();
    EmptyValuesAreBlank();
    BlankNode([No("policy", Text(""))]);
    BlankNode([No("name", Text("")), No("message", Text(""))]);
  }

  lemma NewServerKeys()
    ensures UniqueKeys(NewServer())
  {
    hide Protocols, Identity, Performance, Quality;
  }

  lemma EverythingIsBlank()
    ensures Blank(Node(NewServer()))
  {
    hide Blank, Protocols, Identity, Performance, Quality, UniqueKeys;
    EmptyValuesAreBlank();
    FlatGroupsAreBlank();
    ProtocolsAreBlank();
    NewServerKeys();
    BlankNode(NewServer());
  }

  /** A new record fits its own kinds and supplies nothing. */
  lemma NewServerIsBlank(p: Path)
    ensures Fits(Node(NewServer()), [], ServerKinds())
    ensures Value(NewServer(), p) == Null
  {
    hide Fits, KindsOf, NewServer, Proper, Vacant;
    EverythingIsBlank();
    ProperFits(Node(NewServer()), Node(NewServer()), []);
    VacantSuppliesNothing(Node(NewServer()), p);
  }

  // ---------- set_field ----------

  predicate Unset(t: Option<Tree>) {
    match t
    case None => true
    case Some(Leaf(v)) => !Truthy(v)
    case Some(Items(xs)) => xs == []
    case Some(Node(_)) => false
  }

  /** The walk to the leaf; None where a container on the way is missing. */
  function SetLeaf(kids: seq<Kid>, path: Path, v: Scalar): Option<seq<Kid>>
    requires path != []
    decreases |path|
  {
    var child := Lookup(kids, path[0]);
    if |path| == 1 then Some(if Unset(child) then Put(kids, path[0], Leaf(v)) else kids)
    else if child.Some? && child.value.Node? then
      match SetLeaf(child.value.kids, path[1..], v)
      case None => None
      case Some(sub) => Some(Put(kids, path[0], Node(sub)))
    else None
  }

  /** An empty value changes nothing; any other is written only into an unset leaf, but its source is
      noted either way. */
  function SetField(r: Record, path: Path, v: Scalar, source: string): Option<Record>
    requires path != []
  {
    if !Truthy(v) then Some(r)
    else
      match SetLeaf(r.body, path, v)
      case None => None
      case Some(body) =>
        var sources := SourcesAt(r.fieldSources, path);
        Some(r.(body := body, fieldSources := r.fieldSources[path := if source in sources then sources else sources + [source]]))
  }

  lemma UnsetSupplies(child: Option<Tree>)
    requires child.Some? ==> child.value.Leaf?
    ensures Unset(child) <==> Supplied(child, []) == Null
    ensures forall v :: v !in NOTHING ==> Supplied(Some(Leaf(v)), []) == v
  {
  }

  /** Setting a key of this very dictionary. */
  lemma SetHereAt(kids: seq<Kid>, base: Path, key: string, v: Scalar, q: Path, kinds: Kinds)
    requires v !in NOTHING && Fits(Node(kids), base, kinds) && kinds(base + [key]) == Scalars
    ensures var out := SetLeaf(kids, [key], v).value;
            && Fits(Node(out), base, kinds)
            && Value(out, q) == if q == [key] && Value(kids, q) == Null then v else Value(kids, q)
  {
    var child := Lookup(kids, key);
    LookupFits(kids, key, base, kinds);
    assert child.Some? ==> child.value.Leaf?;
    UnsetSupplies(child);
    hide Supplied, Put, Lookup, Unset;
    if Unset(child) {
      PutFits(kids, key, Leaf(v), base, kinds);
    }
    hide Fits;
    var out := SetLeaf(kids, [key], v).value;
    SuppliedBelow(kids, q);
    SuppliedBelow(out, q);
    if q != [] {
      LookupPut(kids, key, Leaf(v), q[0]);
      SuppliedNothing(q[1..]);
      assert q == [q[0]] + q[1..];
      LeafHasNothingBelow(child, q[1..]);
    }
  }

  lemma LeafHasNothingBelow(child: Option<Tree>, q: Path)
    requires child.Some? ==> child.value.Leaf?
    ensures q != [] ==> Supplied(child, q) == Null
  {
  }

  lemma {:induction false} SetLeafAt(kids: seq<Kid>, base: Path, path: Path, v: Scalar, q: Path, kinds: Kinds)
    requires path != [] && v !in NOTHING
    requires Fits(Node(kids), base, kinds) && kinds(base + path) == Scalars
    requires SetLeaf(kids, path, v).Some?
    ensures var out := SetLeaf(kids, path, v).value;
            && Fits(Node(out), base, kinds)
            && Value(out, q) == if q == path && Value(kids, q) == Null then v else Value(kids, q)
    decreases |path|
  {
    hide Supplied, Put, Lookup, Fits;
    var key := path[0];
    if |path| == 1 {
      assert path == [key];
      SetHereAt(kids, base, key, v, q, kinds);
    } else {
      var child := Lookup(kids, key);
      LookupFits(kids, key, base, kinds);
      assert base + path == base + [key] + path[1..];
      var sub := SetLeaf(child.value.kids, path[1..], v).value;
      SetLeafAt(child.value.kids, base + [key], path[1..], v, if q == [] then [] else q[1..], kinds);
      PutFits(kids, key, Node(sub), base, kinds);
      SuppliedBelow(kids, q);
      SuppliedBelow(Put(kids, key, Node(sub)), q);
      if q != [] {
        LookupPut(kids, key, Node(sub), q[0]);
        assert q == [q[0]] + q[1..] && path == [path[0]] + path[1..];
      }
    }
  }

  // ---------- one parser, one record ----------

  datatype Edit = Edit(path: Path, value: Scalar)

  predicate AddressesLeaves(edits: seq<Edit>) {
    forall i :: 0 <= i < |edits| ==> edits[i].path != [] && ServerKinds()(edits[i].path) == Scalars
  }

  function Fill(edits: seq<Edit>, source: string): Option<Record>
    requires AddressesLeaves(edits)
  {
    if edits == [] then Some(Record(NewServer(), [], map[]))
    else
      var n := |edits| - 1;
      match Fill(edits[..n], source)
      case None => None
      case Some(r) => SetField(r, edits[n].path, edits[n].value, source)
  }

  /** A blank record, the parser's `set_field` calls, then its tag. */
  function ParseRecord(edits: seq<Edit>, source: string): Option<Record>
    requires AddressesLeaves(edits)
  {
    match Fill(edits, source)
    case None => None
    case Some(r) => Some(r.(sources := AddSource(r.sources, source)))
  }

  /** The first non-empty value offered for a leaf. */
  function FirstOffer(edits: seq<Edit>, p: Path): Scalar {
    if edits == [] then Null
    else
      var n := |edits| - 1;
      if FirstOffer(edits[..n], p) != Null then FirstOffer(edits[..n], p)
      else if edits[n].path == p && edits[n].value !in NOTHING then edits[n].value
      else Null
  }

  lemma {:induction false} FillAt(edits: seq<Edit>, source: string, p: Path)
    requires AddressesLeaves(edits) && Fill(edits, source).Some?
    ensures var r := Fill(edits, source).value;
            && r.sources == []
            && RecordFits(r, ServerKinds())
            && Value(r.body, p) == FirstOffer(edits, p)
            && SourcesAt(r.fieldSources, p) == if FirstOffer(edits, p) != Null then [source] else []
  {
    hide Fits, ServerKinds, SetLeaf, Value, NewServer;
    NewServerIsBlank(p);
    if edits != [] {
      var n := |edits| - 1;
      FillAt(edits[..n], source, p);
      var r, e := Fill(edits[..n], source).value, edits[n];
      if e.value !in NOTHING {
        assert [] + e.path == e.path;
        SetLeafAt(r.body, [], e.path, e.value, p, ServerKinds());
      }
    }
  }

  /** Whatever a parser sees, its record fits, keeps the first value offered for each leaf, and names its
      source at exactly the leaves it fills. */
  lemma ParsersTagWhatTheyFill(edits: seq<Edit>, source: string)
    requires source != "" && AddressesLeaves(edits) && ParseRecord(edits, source).Some?
    ensures var r := ParseRecord(edits, source).value;
            && Parsed(r) && SourceOf(r) == source
            && RecordFits(r, ServerKinds())
            && forall p :: Value(r.body, p) == FirstOffer(edits, p)
  {
    hide Fits, ServerKinds, SetLeaf, Value, NewServer, Fill;
    FillAt(edits, source, []);
    AddSourceOne(source);
    var r := ParseRecord(edits, source).value;
    forall p: Path
      ensures Value(r.body, p) == FirstOffer(edits, p)
      ensures SourcesAt(r.fieldSources, p) == if Value(r.body, p) != Null then [source] else []
    {
      FillAt(edits, source, p);
    }
  }

  lemma AddSourceOne(source: string)
    requires source != ""
    ensures AddSource([], source) == [source]
  {
  }

  // ---------- every order of sources occurs ----------

  const SCORE: Path := ["performance", "score"]

  lemma ScoreIsALeaf()
    ensures Lookup(NewServer(), "performance") == Some(Node(Performance()))
    ensures ServerKinds()(SCORE) == Scalars
  {
    hide Lookup, SubtreeAt, NewServer, Performance;
    PerformanceAt();
    ScoreAt();
    ScoreSubtree();
  }

  lemma PerformanceAt()
    ensures Lookup(NewServer(), "performance") == Some(Node(Performance()))
  {
    hide Lookup, Identity, Performance, Protocols, Quality;
    LookupUnique(NewServer(), 1);
  }

  lemma ScoreAt()
    ensures Lookup(Performance(), "score") == Some(Leaf(Number(0.0)))
  {
    hide Lookup;
    LookupUnique(Performance(), 0);
  }

  lemma ScoreSubtree()
    requires Lookup(NewServer(), "performance") == Some(Node(Performance()))
    requires Lookup(Performance(), "score") == Some(Leaf(Number(0.0)))
    ensures SubtreeAt(Some(Node(NewServer())), SCORE) == Some(Leaf(Number(0.0)))
  {
    hide Lookup, NewServer, Performance;
    assert SCORE[1..] == ["score"] && ["score"][1..] == [];
  }

  function ScoreEdits(v: Scalar): seq<Edit> {
    if v == Null then [] else [Edit(SCORE, v)]
  }

  /** The page of one source about one server's score. */
  function ScorePage(x: Supply): Record {
    ScoreIsALeaf();
    match ParseRecord(ScoreEdits(x.value), x.source)
    case Some(r) => r
    case None => Record([], [], map[])
  }

  lemma ScorePageIsParsed(x: Supply)
    requires x.source != "" && (x.value == Null || x.value !in NOTHING)
    ensures var r := ScorePage(x);
            RecordFits(r, ServerKinds()) && Parsed(r) && SourceOf(r) == x.source && Value(r.body, SCORE) == x.value
  {
    hide NewServer, ServerKinds, Performance, Fits, Value, Lookup;
    ScoreIsALeaf();
    var edits := ScoreEdits(x.value);
    assert edits[..0] == [];
    assert Fill([], x.source) == Some(Record(NewServer(), [], map[]));
    if x.value != Null {
      assert SCORE[1..] == ["score"];
      assert SetLeaf(NewServer(), SCORE, x.value).Some?;
    }
    assert ParseRecord(edits, x.source).Some?;
    ParsersTagWhatTheyFill(edits, x.source);
    assert FirstOffer(edits[..0], SCORE) == Null;
  }

  /** Every way of filling a leaf is some run of the parsers, so each order of sources has its records. */
  lemma EveryOrderOccurs(xs: seq<Supply>) returns (rs: seq<Record>)
    requires Named(xs) && forall j :: 0 <= j < |xs| ==> xs[j].value == Null || xs[j].value !in NOTHING
    ensures |rs| == |xs| && forall i :: 0 <= i < |xs| ==> rs[i] == ScorePage(xs[i])
    ensures forall r :: r in rs ==> RecordFits(r, ServerKinds())
    ensures forall r :: r in rs ==> Parsed(r)
    ensures SuppliesAt(rs, SCORE) == xs
  {
    hide Parsed, Fits, Value, ScorePage, ServerKinds;
    rs := seq(|xs|, i requires 0 <= i < |xs| => ScorePage(xs[i]));
    forall i | 0 <= i < |rs|
      ensures RecordFits(rs[i], ServerKinds()) && Parsed(rs[i])
      ensures Supply(SourceOf(rs[i]), Value(rs[i].body, SCORE)) == xs[i]
    {
      ScorePageIsParsed(xs[i]);
    }
  }

  /** The order api, mirror, html: merging the three pages leaves the html value, whatever the three values. */
  lemma HtmlAfterMirrorReplacesApi(a: Scalar, m: Scalar, h: Scalar)
    requires a !in NOTHING && m !in NOTHING && h !in NOTHING && a != m && a != h
    ensures var rs := [ScorePage(Supply("api", a)), ScorePage(Supply("mirror_1", m)), ScorePage(Supply("html", h))];
            Value(MergeAll(rs).body, SCORE) == h
  {
    hide Parsed, Fits, Value, ScorePage, ServerKinds, MergeAll, Hold;
    var xs := [Supply("api", a), Supply("mirror_1", m), Supply("html", h)];
    var rs := EveryOrderOccurs(xs);
    assert rs == [ScorePage(xs[0]), ScorePage(xs[1]), ScorePage(xs[2])];
    MergedLeafIsHeld(rs, SCORE, ServerKinds());
    HtmlDisplacesApi(a, m, h);
  }
}
