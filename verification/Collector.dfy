/** `merge_records`: the collector's records, one server per key, merged in place. */
module Collector {
  import Ordering
  import opened Authority
  import opened Leaves
  import opened Provenance
  import opened Text
  import opened Upsert

  // ---------- a server record, updated in place ----------

  /** Items not yet listed are appended. */
  method AppendItems<T(==)>(ys: seq<T>, xs: seq<T>) returns (out: seq<T>)
    ensures out == AppendNew(ys, xs)
  {
    out := ys;
    var i := 0;
    while i < |xs|
      invariant 0 <= i <= |xs|
      invariant out == AppendNew(ys, xs[..i])
    {
      assert xs[..i + 1][..i] == xs[..i];
      if xs[i] !in out {
        out := out + [xs[i]];
      }
      i := i + 1;
    }
    assert xs[..i] == xs;
  }

  class ServerRecord {
    var body: seq<Kid>
    var sources: seq<string>
    var fieldSources: FieldSources
    var conflicts: seq<Conflict>

    function View(): Server
      reads this
    {
      Server(body, sources, fieldSources, conflicts)
    }

    constructor (r: Record)
      ensures View() == FromRecord(r)
    {
      body, sources, fieldSources, conflicts := r.body, r.sources, r.fieldSources, [];
    }

    /** `source_add`: an ascending list stays ascending and holds the source, once; nothing else changes. */
    method Tag(source: string)
      modifies `sources
      ensures sources == AddSource(old(sources), source)
      ensures Ascending(old(sources)) ==> Ascending(sources)
      ensures source == "" || source in old(sources) ==> sources == old(sources)
      ensures source != "" && source !in old(sources) ==> multiset(sources) == multiset(old(sources)) + multiset{source}
    {
      if source != "" && source !in sources {
        TextOrder();
        Ordering.SortSorts(sources + [source], TextLess);
        sources := sources + [source];
        sources := Ordering.Sort(sources, TextLess);
      }
      if Ascending(old(sources)) {
        AddSourceAscends(old(sources), source, []);
      }
    }

    method LogConflict(field: Path, was: Tree, new': Tree, oldOwner: string, newOwner: string)
      modifies `conflicts
      ensures conflicts == RecordConflict(old(conflicts), field, was, new', oldOwner, newOwner)
    {
      var i := 0;
      while i < |conflicts|
        invariant 0 <= i <= |conflicts|
        invariant forall j :: 0 <= j < i ==> !SameConflict(conflicts[j], field, was, new', oldOwner, newOwner)
      {
        if SameConflict(conflicts[i], field, was, new', oldOwner, newOwner) {
          return;
        }
        i := i + 1;
      }
      conflicts := conflicts + [Conflict(field, map[oldOwner := was][newOwner := new'])];
    }

    /** One level of the walk: `target` is the dictionary at `path`. */
    method MergeDict(target: seq<Kid>, incoming: seq<Kid>, path: Path, o: Owners) returns (out: seq<Kid>)
      modifies `conflicts
      ensures Walk(out, conflicts) == MergeKids(target, incoming, path, o, old(conflicts))
      decreases incoming, 0
    {
      out := target;
      var i := 0;
      while i < |incoming|
        invariant 0 <= i <= |incoming|
        invariant Walk(out, conflicts) == MergeKids(target, incoming[..i], path, o, old(conflicts))
      {
        assert incoming[..i + 1][..i] == incoming[..i];
        var kid := incoming[i];
        var v := MergeChild(Lookup(out, kid.key), kid.tree, path + [kid.key], o);
        if v.Some? {
          out := Put(out, kid.key, v.value);
        }
        i := i + 1;
      }
      assert incoming[..i] == incoming;
    }

    method MergeChild(was: Option<Tree>, new': Tree, path: Path, o: Owners) returns (out: Option<Tree>)
      modifies `conflicts
      ensures Walk(out, conflicts) == MergeValue(was, new', path, o, old(conflicts))
      decreases new', 1
    {
      out := was;
      match new'
      case Node(kids) =>
        var merged := MergeDict(if was.Some? && was.value.Node? then was.value.kids else [], kids, path, o);
        out := Some(Node(merged));
      case Items(xs) =>
        if xs != [] {
          var items := AppendItems(if was.Some? && was.value.Items? then was.value.xs else [], xs);
          out := Some(Items(items));
        }
      case Leaf(v) =>
        if Truthy(v) && TruthyTree(was) {
          if was.value != new' {
            var a, b := o.Old(path), o.New(path);
            if Priority(b) < Priority(a) {
              out := Some(new');
            }
            LogConflict(path, was.value, new', a, b);
          }
        } else if Truthy(v) {
          out := Some(new');
        }
    }

    /** `recursive_merge` at the root of a record. */
    method Merge(r: Record)
      modifies this
      ensures View() == MergeRecord(old(View()), r)
    {
      var o := Owners(fieldSources, r.fieldSources);
      body := MergeDict(body, r.body, [], o);
      var i := 0;
      while i < |r.sources|
        invariant 0 <= i <= |r.sources|
        invariant sources == AddSources(old(sources), r.sources[..i])
        invariant fieldSources == old(fieldSources)
        invariant Walk(body, conflicts) == MergeKids(old(body), r.body, [], o, old(conflicts))
      {
        assert r.sources[..i + 1][..i] == r.sources[..i];
        Tag(r.sources[i]);
        i := i + 1;
      }
      assert r.sources[..i] == r.sources;
      MergeSources(r.fieldSources);
    }

    method MergeSources(more: FieldSources)
      modifies `fieldSources
      ensures fieldSources == MergeFieldSources(old(fieldSources), more)
    {
      var todo := more.Keys;
      while todo != {}
        invariant todo <= more.Keys
        invariant fieldSources.Keys == old(fieldSources).Keys + (more.Keys - todo)
        invariant forall p :: p in fieldSources.Keys ==>
          fieldSources[p] == AppendNew(SourcesAt(old(fieldSources), p), if p in todo then [] else SourcesAt(more, p))
      {
        var p :| p in todo;
        var merged := AppendItems(SourcesAt(fieldSources, p), more[p]);
        fieldSources := fieldSources[p := merged];
        todo := todo - {p};
      }
    }
  }

  // ---------- one server per key ----------

  /** `valid_ip` and `normalize_host`. */
  datatype Naming = Naming(validIp: string -> bool, host: string -> string)

  function TextAt(body: seq<Kid>, path: Path): string {
    var v := ScalarAt(Some(Node(body)), path);
    if v.Text? then v.s else ""
  }

  /** Records are matched by a valid address, else by host name. */
  function KeyOf(naming: Naming): Record -> string {
    (r: Record) =>
      var ip := TextAt(r.body, ["identity", "ip"]);
      if naming.validIp(ip) then ip else naming.host(TextAt(r.body, ["identity", "hostname"]))
  }

  function Merging(naming: Naming): Rule<Record, string, Server> {
    Rule(KeyOf(naming), FromRecord, MergeRecord)
  }

  /** Records without a key are skipped. */
  function Keyed(rs: seq<Record>, naming: Naming): seq<Record> {
    if rs == [] then []
    else
      var n := |rs| - 1;
      Keyed(rs[..n], naming) + if KeyOf(naming)(rs[n]) == "" then [] else [rs[n]]
  }

  function Database(rs: seq<Record>, naming: Naming): Dict<string, Server> {
    AddAll(Empty(), Keyed(rs, naming), Merging(naming))
  }

  lemma DatabaseStep(rs: seq<Record>, i: nat, naming: Naming)
    requires i < |rs|
    ensures var before, after := Keyed(rs[..i], naming), Keyed(rs[..i + 1], naming);
            if KeyOf(naming)(rs[i]) == "" then after == before && Database(rs[..i + 1], naming) == Database(rs[..i], naming)
            else |after| == |before| + 1 &&
                 Database(rs[..i + 1], naming) == Add(Database(rs[..i], naming), rs[i], Merging(naming))
  {
    hide KeyOf;
    assert rs[..i + 1][..i] == rs[..i];
    var before := Keyed(rs[..i], naming);
    if KeyOf(naming)(rs[i]) == "" {
      assert Keyed(rs[..i + 1], naming) == before + [] == before;
    } else {
      assert Keyed(rs[..i + 1], naming) == before + [rs[i]];
      assert (before + [rs[i]])[..|before|] == before;
    }
  }

  lemma DatabaseStart(naming: Naming)
    ensures Keyed([], naming) == [] && Database([], naming) == Empty() && Database([], naming).Valid()
  {
  }

  lemma DatabaseValid(rs: seq<Record>, naming: Naming)
    ensures Database(rs, naming).Valid()
  {
    hide Merging;
    AddAllValid(Empty(), Keyed(rs, naming), Merging(naming));
  }

  /** What one record does to the database. */
  lemma RecordAdded(d: Dict<string, Server>, r: Record, naming: Naming)
    ensures var key := KeyOf(naming)(r);
            Add(d, r, Merging(naming)) ==
              d.Put(key, if key in d.vals then MergeRecord(d.vals[key], r) else FromRecord(r))
  {
    hide KeyOf, MergeRecord;
  }

  /** Returns the servers in order of first appearance, and how many records were merged into an earlier one. */
  method MergeRecords(rs: seq<Record>, naming: Naming) returns (servers: seq<Server>, duplicates: nat)
    ensures Database(rs, naming).Valid() && servers == Database(rs, naming).Values()
    ensures |Keyed(rs, naming)| == |servers| + duplicates
  {
    hide KeyOf, MergeRecord, Database, Keyed, Merging, Add;
    DatabaseStart(naming);
    var database: Dict<string, Server> := Empty();
    var i := 0;
    duplicates := 0;
    while i < |rs|
      invariant 0 <= i <= |rs|
      invariant database == Database(rs[..i], naming)
      invariant |Keyed(rs[..i], naming)| == |database.keys| + duplicates
    {
      var r := rs[i];
      var key := KeyOf(naming)(r);
      DatabaseStep(rs, i, naming);
      if key != "" {
        RecordAdded(database, r, naming);
        if key !in database.vals {
          database := database.Put(key, FromRecord(r));
        } else {
          duplicates := duplicates + 1;
          var server := MergeStored(database.vals[key], r);
          database := database.Put(key, server);
        }
      }
      i := i + 1;
    }
    assert rs[..i] == rs;
    DatabaseValid(rs, naming);
    servers := database.Values();
  }

  method MergeStored(s: Server, r: Record) returns (merged: Server)
    ensures merged == MergeRecord(s, r)
  {
    var server := new ServerRecord(Record(s.body, s.sources, s.fieldSources));
    server.conflicts := s.conflicts;
    server.Merge(r);
    merged := server.View();
  }

  // ---------- what the database holds ----------

  lemma {:induction false} KeyedSelect(rs: seq<Record>, naming: Naming, k: string)
    ensures Select(Keyed(rs, naming), KeyOf(naming), k) == if k == "" then [] else Select(rs, KeyOf(naming), k)
  {
    hide KeyOf;
    if rs != [] {
      var n := |rs| - 1;
      KeyedSelect(rs[..n], naming, k);
      var before := Keyed(rs[..n], naming);
      if KeyOf(naming)(rs[n]) == "" {
        assert before + [] == before;
        assert Select(rs[..n], KeyOf(naming), k) + [] == Select(rs[..n], KeyOf(naming), k);
      } else {
        assert (before + [rs[n]])[..|before|] == before;
      }
    }
  }

  lemma {:induction false} FoldOneIsMergeAll(rs: seq<Record>, naming: Naming)
    ensures FoldOne(None, rs, Merging(naming)) == if rs == [] then None else Some(MergeAll(rs))
  {
    if rs != [] {
      FoldOneIsMergeAll(rs[..|rs| - 1], naming);
    }
  }

  /** Each server is the in-order merge of the records that share its key, and of no others. */
  lemma MergeRecordsIsLocal(rs: seq<Record>, naming: Naming, k: string)
    ensures var own := Select(rs, KeyOf(naming), k);
            Database(rs, naming).Get(k) == if k == "" || own == [] then None else Some(MergeAll(own))
  {
    hide KeyOf, FoldOne, AddAll, Select;
    AddAllIsLocal(Empty(), Keyed(rs, naming), Merging(naming), k);
    KeyedSelect(rs, naming, k);
    var own := Select(rs, KeyOf(naming), k);
    FoldOneIsMergeAll(own, naming);
    FoldOneIsMergeAll([], naming);
  }

  /** The record holds these two texts. */
  predicate Identifies(r: Record, ip: string, host: string) {
    Read(r.body, ["identity", "ip"]) == Text(ip) && Read(r.body, ["identity", "hostname"]) == Text(host)
  }

  /** Two records are merged into one server exactly if they give the same valid address, or neither gives one and
      their hosts are the same, or the host of the one without is spelled like the other's address. */
  lemma SharedServerExactly(rs: seq<Record>, naming: Naming, a: Record, ipA: string, hostA: string,
                            b: Record, ipB: string, hostB: string)
    requires a in rs && b in rs && Identifies(a, ipA, hostA) && Identifies(b, ipB, hostB)
    ensures (exists k :: k != "" && a in Select(rs, KeyOf(naming), k) && b in Select(rs, KeyOf(naming), k) &&
                         Database(rs, naming).Get(k) == Some(MergeAll(Select(rs, KeyOf(naming), k)))) <==>
            if naming.validIp(ipA) && naming.validIp(ipB) then ipA == ipB && ipA != ""
            else if naming.validIp(ipA) then ipA == naming.host(hostB) && ipA != ""
            else if naming.validIp(ipB) then ipB == naming.host(hostA) && ipB != ""
            else naming.host(hostA) == naming.host(hostB) && naming.host(hostA) != ""
  {
    hide Database, Select, MergeAll, Read;
    KeyIs(a, naming, ipA, hostA);
    KeyIs(b, naming, ipB, hostB);
    hide KeyOf;
    var key := KeyOf(naming)(a);
    SelectMembers(rs, KeyOf(naming), key);
    if key != "" && KeyOf(naming)(b) == key {
      assert a in Select(rs, KeyOf(naming), key) && b in Select(rs, KeyOf(naming), key);
      MergeRecordsIsLocal(rs, naming, key);
      assert Select(rs, KeyOf(naming), key) != [];
      assert Database(rs, naming).Get(key) == Some(MergeAll(Select(rs, KeyOf(naming), key)));
    }
    forall k | a in Select(rs, KeyOf(naming), k) && b in Select(rs, KeyOf(naming), k)
      ensures k == key && KeyOf(naming)(b) == key
    {
      SelectMembers(rs, KeyOf(naming), k);
    }
  }

  lemma KeyIs(r: Record, naming: Naming, ip: string, host: string)
    requires Identifies(r, ip, host)
    ensures KeyOf(naming)(r) == if naming.validIp(ip) then ip else naming.host(host)
  {
    assert TextAt(r.body, ["identity", "ip"]) == ip;
    assert TextAt(r.body, ["identity", "hostname"]) == host;
  }

  /** The servers stand in the order in which their keys first appear. */
  lemma ServersInOrder(rs: seq<Record>, naming: Naming)
    ensures Database(rs, naming).keys == Firsts(KeysOf(Keyed(rs, naming), KeyOf(naming)))
  {
    hide KeyOf;
    var none: Dict<string, Server> := Empty();
    var keyed := Keyed(rs, naming);
    FirstAppearance([], none, keyed, Merging(naming));
    assert [] + KeysOf(keyed, KeyOf(naming)) == KeysOf(keyed, KeyOf(naming));
  }

  /** Records of different servers may come in any order. */
  lemma ServersDoNotInterfere(rs: seq<Record>, ts: seq<Record>, naming: Naming)
    requires forall k :: Select(rs, KeyOf(naming), k) == Select(ts, KeyOf(naming), k)
    ensures Database(rs, naming).vals == Database(ts, naming).vals
  {
    hide KeyOf, AddAll;
    var d, e := Database(rs, naming), Database(ts, naming);
    forall k ensures d.Get(k) == e.Get(k) {
      MergeRecordsIsLocal(rs, naming, k);
      MergeRecordsIsLocal(ts, naming, k);
    }
    assert forall k :: k in d.vals <==> d.Get(k).Some?;
    assert forall k :: k in e.vals <==> e.Get(k).Some?;
    assert forall k :: k in d.vals ==> d.vals[k] == d.Get(k).value && e.vals[k] == e.Get(k).value;
  }

  /** Every value any page supplied for a server is that server's value or in its conflict log. */
  lemma EveryInputValueIsKept(rs: seq<Record>, naming: Naming, r: Record, p: Path, kinds: Kinds)
    requires forall x :: x in rs ==> RecordFits(x, kinds)
    requires r in rs && KeyOf(naming)(r) != "" && Read(r.body, p) !in NOTHING
    ensures var server := Database(rs, naming).Get(KeyOf(naming)(r));
            && server.Some?
            && (Read(server.value.body, p) == Read(r.body, p)
                || LogHolds(LogAt(server.value.conflicts, p), Read(r.body, p)))
  {
    hide KeyOf, AddAll, Value, Read, Fits, LogAt, LogHolds, MergeAll, Database, Select;
    var k := KeyOf(naming)(r);
    var own := Select(rs, KeyOf(naming), k);
    SelectMembers(rs, KeyOf(naming), k);
    assert r in own;
    MergeRecordsIsLocal(rs, naming, k);
    NoValueIsLost(own, p, Read(r.body, p), kinds);
  }

  /** The pages are read mirrors last. */
  predicate MirrorPagesLast(rs: seq<Record>) {
    forall i, j :: 0 <= i < j < |rs| && Priority(SourceOf(rs[i])) == 20 ==> Priority(SourceOf(rs[j])) == 20
  }

  lemma {:induction false} SelectMirrorsLast(rs: seq<Record>, key: Record -> string, k: string)
    requires MirrorPagesLast(rs)
    ensures MirrorPagesLast(Select(rs, key, k))
  {
    hide Priority;
    if rs != [] {
      var n := |rs| - 1;
      SelectMirrorsLast(rs[..n], key, k);
      SelectMembers(rs[..n], key, k);
      var own := Select(rs[..n], key, k);
      forall i | 0 <= i < |own| && Priority(SourceOf(own[i])) == 20 ensures Priority(SourceOf(rs[n])) == 20 {
        assert own[i] in rs[..n];
        var j :| 0 <= j < n && rs[..n][j] == own[i];
        assert rs[j] == own[i];
      }
    }
  }

  /** Read mirrors last, every leaf of every server follows the authority order, and only that server's own
      records count. */
  lemma ServersFollowAuthority(rs: seq<Record>, naming: Naming, k: string, p: Path, kinds: Kinds)
    requires forall x :: x in rs ==> RecordFits(x, kinds)
    requires forall x :: x in rs ==> Parsed(x)
    requires k in Database(rs, naming).vals
    requires MirrorPagesLast(rs)
    ensures var xs := SuppliesAt(Select(rs, KeyOf(naming), k), p);
            var v := Value(Database(rs, naming).vals[k].body, p);
            if SomeGives(xs, 0) then FromApi(xs, v)
            else if SomeGives(xs, 10) then v == First(xs, 10)
            else v == First(xs, 20)
  {
    hide KeyOf, AddAll, Value, Fits, MergeAll, Database, Select, First, SomeGives, FromApi, Parsed, Priority;
    var own := Select(rs, KeyOf(naming), k);
    SelectMembers(rs, KeyOf(naming), k);
    SelectMirrorsLast(rs, KeyOf(naming), k);
    assert MirrorsLast(SuppliesAt(own, p));
    MergeRecordsIsLocal(rs, naming, k);
    assert Database(rs, naming).Get(k).Some?;
    AuthorityDecides(own, p, kinds);
  }

  // ---------- the sources of a server ----------

  /** A server lists every source that contributed to it, once, in ascending order. */
  lemma {:induction false} MergedSources(rs: seq<Record>)
    requires rs != [] && forall r :: r in rs ==> Parsed(r)
    ensures var sources := MergeAll(rs).sources;
            Ascending(sources) && forall x :: x in sources <==> exists r :: r in rs && x == SourceOf(r)
  {
    hide Parsed, AddSources, MergeFieldSources, MergeKids, Ascending;
    var last, init := rs[|rs| - 1], rs[..|rs| - 1];
    assert last in rs;
    OneSource(last);
    if |rs| == 1 {
      assert rs == [last];
    } else {
      assert rs == init + [last];
      assert forall r :: r in rs <==> r in init || r == last;
      MergedSources(init);
      AddSourcesAscends(MergeAll(init).sources, last.sources);
    }
  }

  lemma OneSource(r: Record)
    requires Parsed(r)
    ensures r.sources == [SourceOf(r)] && SourceOf(r) != "" && Ascending(r.sources)
  {
  }
}
