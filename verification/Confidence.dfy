/** How sure the collector is of each protocol: which independent kinds of source reported it. Scores are
    in hundredths. */
module Confidence {
  import opened Authority
  import opened Provenance
  import opened Text

  predicate OfProtocol(p: Path, protocol: string) {
    |p| >= 3 && p[0] == "protocols" && p[1] == protocol
  }

  /** `protocol_source_groups`. */
  function Groups(fs: FieldSources, protocol: string): set<string> {
    set p, s | p in fs && OfProtocol(p, protocol) && s in fs[p] && SourceGroup(s) != "" :: SourceGroup(s)
  }

  function Unique(groups: set<string>): set<string> {
    set g | g in groups && g != "" :: Lower(g)
  }

  /** `confidence_for_groups`. */
  function Score(groups: set<string>): nat {
    var unique := Unique(groups);
    if unique == {} then 0
    else if |unique| >= 3 then 100
    else if |unique| == 2 then 80
    else if "api" in unique then 75
    else if "html" in unique then 60
    else if "mirror" in unique then 35
    else 30
  }

  function ScoreFor(s: Server, protocol: string): nat {
    Score(Groups(s.fieldSources, protocol))
  }

  lemma MergedSourcesAt(a: FieldSources, b: FieldSources)
    ensures forall p, s :: s in SourcesAt(MergeFieldSources(a, b), p) <==> s in SourcesAt(a, p) || s in SourcesAt(b, p)
  {
    forall p ensures forall s :: s in SourcesAt(MergeFieldSources(a, b), p) <==> s in SourcesAt(a, p) || s in SourcesAt(b, p) {
      AppendNewKeeps(SourcesAt(a, p), SourcesAt(b, p));
    }
  }

  lemma GroupMember(m: FieldSources, protocol: string, g: string)
    ensures g in Groups(m, protocol) <==>
            exists p, s :: OfProtocol(p, protocol) && s in SourcesAt(m, p) && SourceGroup(s) != "" && SourceGroup(s) == g
  {
    hide SourceGroup, OfProtocol;
  }

  /** A merged record has exactly its inputs' groups. */
  lemma MergedGroups(a: FieldSources, b: FieldSources, protocol: string)
    ensures Groups(MergeFieldSources(a, b), protocol) == Groups(a, protocol) + Groups(b, protocol)
  {
    hide SourceGroup, OfProtocol, MergeFieldSources;
    var m := MergeFieldSources(a, b);
    MergedSourcesAt(a, b);
    forall g ensures g in Groups(m, protocol) <==> g in Groups(a, protocol) || g in Groups(b, protocol) {
      GroupMember(m, protocol, g);
      GroupMember(a, protocol, g);
      GroupMember(b, protocol, g);
    }
  }

  function AllGroups(rs: seq<Record>, protocol: string): set<string> {
    if rs == [] then {} else AllGroups(rs[..|rs| - 1], protocol) + Groups(rs[|rs| - 1].fieldSources, protocol)
  }

  /** However many records are merged, the groups are the union of theirs. */
  lemma {:induction false} MergeAllGroups(rs: seq<Record>, protocol: string)
    requires rs != []
    ensures Groups(MergeAll(rs).fieldSources, protocol) == AllGroups(rs, protocol)
  {
    hide Groups, MergeFieldSources;
    if |rs| == 1 {
      assert rs[..0] == [];
      assert AllGroups(rs[..0], protocol) == {};
    } else {
      var init := rs[..|rs| - 1];
      MergeAllGroups(init, protocol);
      MergedGroups(MergeAll(init).fieldSources, rs[|rs| - 1].fieldSources, protocol);
    }
  }

  // ---------- the scale ----------

  lemma SubsetSize<T>(a: set<T>, b: set<T>)
    requires a <= b
    ensures |a| <= |b| && (|a| == |b| ==> a == b)
  {
    assert b == a + (b - a);
    assert |b| == |a| + |b - a|;
  }

  /** The scale: nothing, a source of no known kind, a mirror, html, api, two groups, three. */
  lemma ScoreScale(g: string, h: string, other: set<string>)
    requires Lower(g) == g && Lower(h) == h && g != "" && h != "" && g != h
    requires forall x :: x in other ==> x != "" && Lower(x) == x
    requires |other| >= 3
    ensures Score({}) == 0 && Score({"mirror"}) == 35 && Score({"html"}) == 60 && Score({"api"}) == 75
    ensures g !in {"api", "html", "mirror"} ==> Score({g}) == 30
    ensures Score({g, h}) == 80 && Score(other) == 100
  {
    assert Lower("api") == "api" && Lower("html") == "html" && Lower("mirror") == "mirror";
    hide Score;
    LoweredScore({});
    assert Lowered({g, h}) && |{g, h}| == 2;
    LoweredScore({g, h});
    LoweredScore(other);
    LoweredOne("api");
    LoweredOne("html");
    LoweredOne("mirror");
    LoweredOne(g);
  }

  lemma LoweredOne(g: string)
    requires Lower(g) == g && g != ""
    ensures Score({g}) == if g == "api" then 75 else if g == "html" then 60 else if g == "mirror" then 35 else 30
  {
    UniqueLowered({g});
  }

  /** More groups never make a protocol less certain. */
  lemma ScoreIsMonotone(a: set<string>, b: set<string>)
    requires a <= b
    ensures Score(a) <= Score(b)
  {
    assert Unique(a) <= Unique(b);
    SubsetSize(Unique(a), Unique(b));
  }

  /** Merging a record never lowers the confidence in any protocol. */
  lemma MergingNeverLowersConfidence(t: Server, r: Record, protocol: string)
    ensures ScoreFor(MergeRecord(t, r), protocol) >= ScoreFor(t, protocol)
    ensures ScoreFor(MergeRecord(t, r), protocol) >= Score(Groups(r.fieldSources, protocol))
  {
    hide Groups, Score, MergeFieldSources;
    MergedGroups(t.fieldSources, r.fieldSources, protocol);
    ScoreIsMonotone(Groups(t.fieldSources, protocol), Groups(MergeRecord(t, r).fieldSources, protocol));
    ScoreIsMonotone(Groups(r.fieldSources, protocol), Groups(MergeRecord(t, r).fieldSources, protocol));
  }

  /** Only the set of groups counts, not which record or how many reported: in particular the order of
      merging is irrelevant. */
  lemma OrderDoesNotMatter(rs: seq<Record>, ts: seq<Record>, protocol: string)
    requires rs != [] && ts != [] && multiset(rs) == multiset(ts)
    ensures ScoreFor(MergeAll(rs), protocol) == ScoreFor(MergeAll(ts), protocol)
  {
    MergeAllGroups(rs, protocol);
    MergeAllGroups(ts, protocol);
    AllGroupsMembers(rs, protocol);
    AllGroupsMembers(ts, protocol);
    assert forall r :: r in rs <==> r in multiset(rs);
    assert forall r :: r in ts <==> r in multiset(ts);
    assert AllGroups(rs, protocol) == AllGroups(ts, protocol);
  }

  lemma {:induction false} AllGroupsMembers(rs: seq<Record>, protocol: string)
    ensures forall g :: g in AllGroups(rs, protocol) <==> exists r :: r in rs && g in Groups(r.fieldSources, protocol)
  {
    hide Groups;
    if rs != [] {
      var last := rs[|rs| - 1];
      AllGroupsMembers(rs[..|rs| - 1], protocol);
      assert rs == rs[..|rs| - 1] + [last];
      assert last in rs && forall r :: r in rs[..|rs| - 1] ==> r in rs;
    }
  }

  // ---------- mirrors ----------

  ghost predicate IsNumbered(source: string) {
    exists n: nat :: source == "mirror_" + Dec(n)
  }

  lemma NumberedGroup(source: string)
    requires IsNumbered(source)
    ensures SourceGroup(source) == "mirror"
  {
    var n: nat :| source == "mirror_" + Dec(n);
    NumberedMirror(n);
  }

  /** The same leaves, reported by the same sources but for the numbers of the mirrors. */
  ghost predicate Renumbered(fs: FieldSources, gs: FieldSources) {
    && fs.Keys == gs.Keys
    && forall p :: p in fs ==>
         |fs[p]| == |gs[p]| &&
         forall i :: 0 <= i < |fs[p]| ==> fs[p][i] == gs[p][i] || (IsNumbered(fs[p][i]) && IsNumbered(gs[p][i]))
  }

  lemma RenumberedGroups(fs: FieldSources, gs: FieldSources, protocol: string, g: string)
    requires Renumbered(fs, gs) && g in Groups(fs, protocol)
    ensures g in Groups(gs, protocol)
  {
    hide SourceGroup, OfProtocol, IsNumbered;
    var p, s :| p in fs && OfProtocol(p, protocol) && s in fs[p] && SourceGroup(s) != "" && SourceGroup(s) == g;
    var i :| 0 <= i < |fs[p]| && fs[p][i] == s;
    var t := gs[p][i];
    if s != t {
      NumberedGroup(s);
      NumberedGroup(t);
    }
    assert t in gs[p];
  }

  /** Which mirrors reported, and how many, does not matter. */
  lemma MirrorsCountOnce(fs: FieldSources, gs: FieldSources, protocol: string)
    requires Renumbered(fs, gs)
    ensures Groups(fs, protocol) == Groups(gs, protocol)
  {
    hide Groups, IsNumbered;
    assert Renumbered(gs, fs);
    forall g ensures g in Groups(fs, protocol) <==> g in Groups(gs, protocol) {
      if g in Groups(fs, protocol) {
        RenumberedGroups(fs, gs, protocol, g);
      }
      if g in Groups(gs, protocol) {
        RenumberedGroups(gs, fs, protocol, g);
      }
    }
  }

  /** A protocol that mirrors alone reported, however many, scores 35. */
  lemma MirrorsAlone(fs: FieldSources, protocol: string, path: Path)
    requires path in fs && OfProtocol(path, protocol) && fs[path] != []
    requires forall p, s :: p in fs && OfProtocol(p, protocol) && s in fs[p] ==> IsNumbered(s)
    ensures Score(Groups(fs, protocol)) == 35
  {
    hide SourceGroup, OfProtocol, IsNumbered, Score;
    var s := fs[path][0];
    assert s in fs[path];
    NumberedGroup(s);
    assert "mirror" in Groups(fs, protocol);
    forall g | g in Groups(fs, protocol) ensures g == "mirror" {
      var p, t :| p in fs && OfProtocol(p, protocol) && t in fs[p] && SourceGroup(t) != "" && SourceGroup(t) == g;
      NumberedGroup(t);
    }
    assert Groups(fs, protocol) == {"mirror"};
    assert Lower("mirror") == "mirror";
    LoweredOne("mirror");
  }

  /** The groups of a protocol are those of the sources at its leaves, `protocols`, its name, and at least one key
      more; case and blanks in a source's name do not matter. */
  lemma GroupsOfLeaves(fs: FieldSources, protocol: string, g: string)
    ensures g in Groups(fs, protocol) <==>
            g != "" && exists below: Path, s ::
              below != [] && ["protocols", protocol] + below in fs &&
              s in fs[["protocols", protocol] + below] && SourceGroup(s) == g
  {
    hide SourceGroup;
    if p, s :| p in fs && OfProtocol(p, protocol) && s in fs[p] && SourceGroup(s) != "" && SourceGroup(s) == g {
      var below := p[2..];
      assert p == ["protocols", protocol] + below && below != [];
    }
    if below: Path, s :| below != [] && ["protocols", protocol] + below in fs &&
                         s in fs[["protocols", protocol] + below] && SourceGroup(s) == g {
      var p := ["protocols", protocol] + below;
      assert OfProtocol(p, protocol);
    }
  }

  predicate Lowered(groups: set<string>) {
    forall g :: g in groups ==> g != "" && Lower(g) == g
  }

  lemma GroupsAreLowered(fs: FieldSources, protocol: string)
    ensures Lowered(Groups(fs, protocol))
  {
    hide OfProtocol;
    forall s ensures Lower(SourceGroup(s)) == SourceGroup(s) {
      assert Lower("mirror") == "mirror";
      var name := Lower(Strip(s));
      assert Lower(name) == name;
    }
  }

  lemma LoweredScore(groups: set<string>)
    requires Lowered(groups)
    ensures |groups| == 0 ==> Score(groups) == 0
    ensures |groups| == 1 ==> Score(groups) <= 75
    ensures |groups| == 2 ==> Score(groups) == 80
    ensures |groups| >= 3 ==> Score(groups) == 100
    ensures groups != {} ==> Score(groups) > 0
  {
    UniqueLowered(groups);
  }

  lemma UniqueLowered(groups: set<string>)
    requires Lowered(groups)
    ensures Unique(groups) == groups
  {
    hide Lower;
    forall g ensures g in Unique(groups) <==> g in groups {
      if g in groups {
        assert Lower(g) == g;
      }
    }
  }

  /** The policy's comment says mirrors never lift a protocol above what html alone grants. They do: a mirror
      raises the score exactly when it is a new group and fewer than three groups had reported. */
  lemma WhenAMirrorRaises(groups: set<string>)
    requires Lowered(groups)
    ensures Score(groups + {"mirror"}) > Score(groups) <==> "mirror" !in groups && |groups| < 3
  {
    hide Score;
    var all := groups + {"mirror"};
    assert Lower("mirror") == "mirror";
    assert Lowered(all);
    LoweredScore(groups);
    LoweredScore(all);
    if "mirror" in groups {
      assert all == groups;
    } else {
      assert |all| == |groups| + 1;
    }
  }

  /** A mirror page that fills a leaf of the protocol supplies the group of mirrors and no other. */
  lemma MirrorPageGroups(r: Record, protocol: string, p: Path)
    requires Parsed(r) && IsNumbered(SourceOf(r))
    requires OfProtocol(p, protocol) && Value(r.body, p) != Null
    ensures Groups(r.fieldSources, protocol) == {"mirror"}
  {
    hide Value, OfProtocol, SourceGroup, IsNumbered;
    var source := SourceOf(r);
    NumberedGroup(source);
    assert SourcesAt(r.fieldSources, p) == [source];
    assert p in r.fieldSources && source in r.fieldSources[p];
    assert "mirror" in Groups(r.fieldSources, protocol);
    forall g | g in Groups(r.fieldSources, protocol) ensures g == "mirror" {
      var q, s :| q in r.fieldSources && OfProtocol(q, protocol) && s in r.fieldSources[q] &&
                  SourceGroup(s) != "" && SourceGroup(s) == g;
      assert SourcesAt(r.fieldSources, q) == [source] || SourcesAt(r.fieldSources, q) == [];
    }
  }

  /** On records: merging such a page raises the confidence in the protocol exactly when no mirror and fewer than
      three groups had reported it. */
  lemma MirrorPageRaises(t: Server, r: Record, protocol: string, p: Path)
    requires Parsed(r) && IsNumbered(SourceOf(r))
    requires OfProtocol(p, protocol) && Value(r.body, p) != Null
    ensures var groups := Groups(t.fieldSources, protocol);
            ScoreFor(MergeRecord(t, r), protocol) > ScoreFor(t, protocol) <==> "mirror" !in groups && |groups| < 3
  {
    hide Value, OfProtocol, SourceGroup, Groups, Score, MergeFieldSources, Parsed, IsNumbered;
    MirrorPageGroups(r, protocol, p);
    MergedGroups(t.fieldSources, r.fieldSources, protocol);
    GroupsAreLowered(t.fieldSources, protocol);
    WhenAMirrorRaises(Groups(t.fieldSources, protocol));
  }
}
