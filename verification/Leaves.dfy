/** Merging two records leaf by leaf: the recursive walk treats every leaf on its own. */
module Leaves {
  import opened Provenance
  import opened Text

  /** What a dictionary path holds, the same in every record. */
  datatype Kind = Scalars | Lists | Dicts

  type Kinds = Path -> Kind

  /** The value's shape agrees with the kinds below `path`. */
  predicate Fits(t: Tree, path: Path, kinds: Kinds) {
    match t
    case Leaf(_) => kinds(path) == Scalars
    case Items(_) => kinds(path) == Lists
    case Node(kids) =>
      && kinds(path) == Dicts
      && UniqueKeys(kids)
      && forall k :: k in kids ==> Fits(k.tree, path + [k.key], kinds)
  }

  predicate FitsOption(t: Option<Tree>, path: Path, kinds: Kinds) {
    t.Some? ==> Fits(t.value, path, kinds)
  }

  lemma LookupFits(kids: seq<Kid>, key: string, path: Path, kinds: Kinds)
    requires Fits(Node(kids), path, kinds)
    ensures FitsOption(Lookup(kids, key), path + [key], kinds)
  {
    LookupAt(kids, key);
  }

  lemma PrefixFits(kids: seq<Kid>, path: Path, kinds: Kinds)
    requires kids != [] && Fits(Node(kids), path, kinds)
    ensures Fits(Node(kids[..|kids| - 1]), path, kinds)
    ensures Fits(kids[|kids| - 1].tree, path + [kids[|kids| - 1].key], kinds)
    ensures Lookup(kids[..|kids| - 1], kids[|kids| - 1].key) == None
  {
    var init, last := kids[..|kids| - 1], kids[|kids| - 1];
    assert last in kids;
    assert forall k :: k in init ==> k in kids;
    LookupAt(init, last.key);
  }

  lemma {:induction false} PutMembers(kids: seq<Kid>, key: string, t: Tree)
    requires UniqueKeys(kids)
    ensures forall k :: k in Put(kids, key, t) ==> k == Kid(key, t) || (k in kids && k.key != key)
  {
    if kids != [] {
      var n := |kids| - 1;
      assert forall k :: k in kids[..n] ==> k in kids;
      if kids[n].key == key {
        forall k | k in kids[..n] ensures k.key != key {
          var i :| 0 <= i < n && kids[..n][i] == k;
          assert kids[i].key != kids[n].key;
        }
      } else {
        PutMembers(kids[..n], key, t);
      }
    }
  }

  lemma {:induction false} PutUnique(kids: seq<Kid>, key: string, t: Tree)
    requires UniqueKeys(kids)
    ensures UniqueKeys(Put(kids, key, t))
  {
    if kids != [] && kids[|kids| - 1].key != key {
      var n := |kids| - 1;
      var out := Put(kids[..n], key, t);
      PutUnique(kids[..n], key, t);
      PutMembers(kids[..n], key, t);
      forall i | 0 <= i < |out| ensures out[i].key != kids[n].key {
        assert out[i] in out;
        if out[i] != Kid(key, t) {
          var j :| 0 <= j < n && kids[..n][j] == out[i];
          assert kids[j].key != kids[n].key;
        }
      }
    }
  }

  lemma PutFits(kids: seq<Kid>, key: string, t: Tree, path: Path, kinds: Kinds)
    requires Fits(Node(kids), path, kinds) && Fits(t, path + [key], kinds)
    ensures Fits(Node(Put(kids, key, t)), path, kinds)
  {
    PutMembers(kids, key, t);
    PutUnique(kids, key, t);
  }

  // ---------- one leaf ----------

  /** What an unfilled leaf holds. */
  const NOTHING: set<Scalar> := {Null, Text(""), Number(0.0), Flag(false)}

  /** What a leaf supplies: its scalar, if that is something. */
  function Supplied(t: Option<Tree>, path: Path): Scalar {
    if ScalarAt(t, path) in NOTHING then Null else ScalarAt(t, path)
  }

  /** Merging one leaf: gaps are filled, and a differing value wins only with a stronger owner. */
  function MergeLeaf(was: Scalar, new': Scalar, oldOwner: string, newOwner: string): Scalar {
    if new' == Null || was == new' then was
    else if was == Null then new'
    else if Priority(newOwner) < Priority(oldOwner) then new'
    else was
  }

  /** The disagreements logged about one leaf. */
  function LogAt(log: seq<Conflict>, p: Path): seq<Conflict> {
    if log == [] then []
    else LogAt(log[..|log| - 1], p) + if log[|log| - 1].field == p then [log[|log| - 1]] else []
  }

  function MergeLog(log: seq<Conflict>, p: Path, was: Scalar, new': Scalar, oldOwner: string, newOwner: string)
    : seq<Conflict>
  {
    if new' == Null || was == Null || was == new' then log
    else RecordConflict(log, p, Leaf(was), Leaf(new'), oldOwner, newOwner)
  }

  lemma {:induction false} LogAtMembers(log: seq<Conflict>, p: Path)
    ensures forall c :: c in LogAt(log, p) <==> c in log && c.field == p
  {
    if log != [] {
      LogAtMembers(log[..|log| - 1], p);
      assert log == log[..|log| - 1] + [log[|log| - 1]];
    }
  }

  /** Logging about one leaf leaves every other leaf's entries alone. */
  lemma RecordConflictAt(log: seq<Conflict>, field: Path, was: Tree, new': Tree, a: string, b: string, p: Path)
    ensures LogAt(RecordConflict(log, field, was, new', a, b), p)
         == if p == field then RecordConflict(LogAt(log, p), field, was, new', a, b) else LogAt(log, p)
  {
    LogAtMembers(log, p);
    var r := RecordConflict(log, field, was, new', a, b);
    if i :| 0 <= i < |log| && SameConflict(log[i], field, was, new', a, b) {
      assert log[i] in log;
      if p == field {
        assert log[i] in LogAt(log, p);
        var j :| 0 <= j < |LogAt(log, p)| && LogAt(log, p)[j] == log[i];
        assert SameConflict(LogAt(log, p)[j], field, was, new', a, b);
      }
    } else {
      assert r[..|r| - 1] == log;
      forall j | 0 <= j < |LogAt(log, p)| ensures !SameConflict(LogAt(log, p)[j], field, was, new', a, b) {
        assert LogAt(log, p)[j] in LogAt(log, p);
        var i :| 0 <= i < |log| && log[i] == LogAt(log, p)[j];
      }
      assert LogAt(log, p) + [] == LogAt(log, p);
    }
  }

  // ---------- the walk, leaf by leaf ----------

  predicate ValueMerged(was: Option<Tree>, new': Tree, path: Path, o: Owners, log: seq<Conflict>, p: Path,
                        w: Walk<Option<Tree>>)
    requires path <= p
  {
    var q := p[|path|..];
    var a, b := Supplied(was, q), Supplied(Some(new'), q);
    && Supplied(w.out, q) == MergeLeaf(a, b, o.Old(p), o.New(p))
    && LogAt(w.log, p) == MergeLog(LogAt(log, p), p, a, b, o.Old(p), o.New(p))
  }

  lemma SuppliedNothing(q: Path)
    ensures Supplied(None, q) == Null && Supplied(Some(Node([])), q) == Null
    ensures forall v :: q != [] ==> Supplied(Some(Leaf(v)), q) == Null
  {
    if q != [] {
      assert Lookup([], q[0]) == None;
      assert ScalarAt(None, q[1..]) == Null;
      assert ScalarAt(Some(Node([])), q) == ScalarAt(Lookup([], q[0]), q[1..]);
    }
  }

  lemma SuppliedBelow(kids: seq<Kid>, q: Path)
    ensures Supplied(Some(Node(kids)), q) == if q == [] then Null else Supplied(Lookup(kids, q[0]), q[1..])
  {
  }

  lemma MergeScalarAt(was: Option<Tree>, v: Scalar, path: Path, o: Owners, log: seq<Conflict>, p: Path, kinds: Kinds)
    requires FitsOption(was, path, kinds) && kinds(path) == Scalars
    ensures var w := MergeValue(was, Leaf(v), path, o, log);
            && FitsOption(w.out, path, kinds)
            && (path <= p ==> ValueMerged(was, Leaf(v), path, o, log, p, w))
            && (!(path <= p) ==> LogAt(w.log, p) == LogAt(log, p))
  {
    hide RecordConflict, LogAt, Priority, LastSource, SourcesAt;
    assert was.Some? ==> was.value.Leaf?;
    if Truthy(v) && TruthyTree(was) && was.value != Leaf(v) {
      RecordConflictAt(log, path, was.value, Leaf(v), o.Old(path), o.New(path), p);
    }
    if path <= p {
      var q := p[|path|..];
      SuppliedNothing(q);
      if q == [] {
        assert path == p;
      }
    }
  }

  lemma {:induction false} MergeValueAt(was: Option<Tree>, new': Tree, path: Path, o: Owners, log: seq<Conflict>,
                                        p: Path, kinds: Kinds)
    requires FitsOption(was, path, kinds) && Fits(new', path, kinds)
    ensures var w := MergeValue(was, new', path, o, log);
            && FitsOption(w.out, path, kinds)
            && (path <= p ==> ValueMerged(was, new', path, o, log, p, w))
            && (!(path <= p) ==> LogAt(w.log, p) == LogAt(log, p))
    decreases new', 1
  {
    hide RecordConflict, LogAt, Priority, LastSource, SourcesAt, MergeKids, Lookup;
    match new'
    case Node(kids) =>
      var base := if was.Some? then was.value.kids else [];
      MergeKidsAt(base, kids, path, o, log, p, kinds);
      if path <= p {
        SuppliedNothing(p[|path|..]);
      }
    case Items(xs) =>
    case Leaf(v) =>
      MergeScalarAt(was, v, path, o, log, p, kinds);
  }

  lemma {:induction false} MergeKidsAt(target: seq<Kid>, incoming: seq<Kid>, path: Path, o: Owners,
                                       log: seq<Conflict>, p: Path, kinds: Kinds)
    requires Fits(Node(target), path, kinds) && Fits(Node(incoming), path, kinds)
    ensures var w := MergeKids(target, incoming, path, o, log);
            && Fits(Node(w.out), path, kinds)
            && (path <= p ==> ValueMerged(Some(Node(target)), Node(incoming), path, o, log, p,
                                          Walk(Some(Node(w.out)), w.log)))
            && (!(path <= p) ==> LogAt(w.log, p) == LogAt(log, p))
    decreases incoming, 0
  {
    hide RecordConflict, LogAt, Priority, LastSource, SourcesAt, MergeValue, Fits, Lookup, Put;
    if incoming == [] {
      if path <= p {
        SuppliedNothing(p[|path|..]);
      }
    } else {
      var n := |incoming| - 1;
      var kid := incoming[n];
      PrefixFits(incoming, path, kinds);
      MergeKidsAt(target, incoming[..n], path, o, log, p, kinds);
      var w := MergeKids(target, incoming[..n], path, o, log);
      LookupFits(w.out, kid.key, path, kinds);
      assert kid in incoming;
      MergeValueAt(Lookup(w.out, kid.key), kid.tree, path + [kid.key], o, w.log, p, kinds);
      var v := MergeValue(Lookup(w.out, kid.key), kid.tree, path + [kid.key], o, w.log);
      if v.out.Some? {
        PutFits(w.out, kid.key, v.out.value, path, kinds);
      }
      if path <= p {
        MergeKidAt(target, incoming, path, o, log, p);
      }
    }
  }

  /** One more kid: the leaves below it are merged, the others are as they were. */
  lemma MergeKidAt(target: seq<Kid>, incoming: seq<Kid>, path: Path, o: Owners, log: seq<Conflict>, p: Path)
    requires incoming != [] && path <= p
    requires var n := |incoming| - 1;
             var kid := incoming[n];
             var w := MergeKids(target, incoming[..n], path, o, log);
             var v := MergeValue(Lookup(w.out, kid.key), kid.tree, path + [kid.key], o, w.log);
             && Lookup(incoming[..n], kid.key) == None
             && ValueMerged(Some(Node(target)), Node(incoming[..n]), path, o, log, p, Walk(Some(Node(w.out)), w.log))
             && (path + [kid.key] <= p ==>
                  ValueMerged(Lookup(w.out, kid.key), kid.tree, path + [kid.key], o, w.log, p, v))
             && (!(path + [kid.key] <= p) ==> LogAt(v.log, p) == LogAt(w.log, p))
    ensures var w := MergeKids(target, incoming, path, o, log);
            ValueMerged(Some(Node(target)), Node(incoming), path, o, log, p, Walk(Some(Node(w.out)), w.log))
  {
    hide RecordConflict, LogAt, Priority, LastSource, SourcesAt, MergeValue, Lookup, Put, Supplied, MergeLog, MergeLeaf;
    var n := |incoming| - 1;
    var kid := incoming[n];
    var w := MergeKids(target, incoming[..n], path, o, log);
    var v := MergeValue(Lookup(w.out, kid.key), kid.tree, path + [kid.key], o, w.log);
    var q := p[|path|..];
    var out := MergeKids(target, incoming, path, o, log).out;
    SuppliedBelow(target, q);
    SuppliedBelow(incoming[..n], q);
    SuppliedBelow(incoming, q);
    SuppliedBelow(w.out, q);
    SuppliedBelow(out, q);
    if q != [] {
      assert Lookup(incoming, q[0]) == if q[0] == kid.key then Some(kid.tree) else Lookup(incoming[..n], q[0]) by {
        LookupLast(incoming, q[0]);
      }
      if v.out.Some? {
        LookupPut(w.out, kid.key, v.out.value, q[0]);
      }
      MergeValueKeeps(Lookup(w.out, kid.key), kid.tree, path + [kid.key], o, w.log);
      SuppliedNothing(q[1..]);
      MergeLeafNothing(Supplied(Lookup(target, q[0]), q[1..]), o.Old(p), o.New(p), LogAt(log, p), p);
      if q[0] == kid.key {
        assert p == path + q;
        assert path + [kid.key] <= p;
        assert p[|path + [kid.key]|..] == q[1..];
        assert Lookup(out, q[0]) == v.out;
      } else {
        assert p[|path|] == q[0];
        assert !(path + [kid.key] <= p);
        assert Lookup(out, q[0]) == Lookup(w.out, q[0]);
      }
    }
  }

  /** No value disappears. */
  lemma MergeValueKeeps(was: Option<Tree>, new': Tree, path: Path, o: Owners, log: seq<Conflict>)
    ensures was.Some? ==> MergeValue(was, new', path, o, log).out.Some?
  {
  }

  lemma LookupLast(kids: seq<Kid>, key: string)
    requires kids != []
    ensures Lookup(kids, key)
         == if kids[|kids| - 1].key == key then Some(kids[|kids| - 1].tree) else Lookup(kids[..|kids| - 1], key)
  {
  }

  lemma MergeLeafNothing(was: Scalar, oldOwner: string, newOwner: string, log: seq<Conflict>, p: Path)
    ensures MergeLeaf(was, Null, oldOwner, newOwner) == was
    ensures MergeLog(log, p, was, Null, oldOwner, newOwner) == log
  {
  }

  // ---------- lists ----------

  /** The list at a path below a value; anything but a list reads as empty. */
  function ListAt(t: Option<Tree>, path: Path): seq<Tree>
    decreases |path|
  {
    match t
    case None => []
    case Some(Leaf(_)) => []
    case Some(Items(xs)) => if path == [] then xs else []
    case Some(Node(kids)) => if path == [] then [] else ListAt(Lookup(kids, path[0]), path[1..])
  }

  lemma ListBelow(kids: seq<Kid>, q: Path)
    ensures ListAt(Some(Node(kids)), q) == if q == [] then [] else ListAt(Lookup(kids, q[0]), q[1..])
    ensures ListAt(Some(Node([])), q) == []
  {
    assert Lookup([], "") == None;
    assert q != [] ==> ListAt(Some(Node([])), q) == ListAt(Lookup([], q[0]), q[1..]);
  }

  lemma AppendNothing<T>(ys: seq<T>)
    ensures AppendNew(ys, []) == ys
  {
  }

  lemma {:induction false} MergedValueList(was: Option<Tree>, new': Tree, path: Path, o: Owners, log: seq<Conflict>,
                                           q: Path, kinds: Kinds)
    requires FitsOption(was, path, kinds) && Fits(new', path, kinds)
    ensures var w := MergeValue(was, new', path, o, log);
            FitsOption(w.out, path, kinds) && ListAt(w.out, q) == AppendNew(ListAt(was, q), ListAt(Some(new'), q))
    decreases new', 1
  {
    hide RecordConflict, MergeKids, Lookup, Priority, AppendNew;
    AppendNothing(ListAt(was, q));
    match new'
    case Node(kids) =>
      var base := if was.Some? then was.value.kids else [];
      ListBelow(base, q);
      MergedKidsList(base, kids, path, o, log, q, kinds);
    case Items(xs) =>
    case Leaf(v) =>
  }

  lemma {:induction false} MergedKidsList(target: seq<Kid>, incoming: seq<Kid>, path: Path, o: Owners,
                                          log: seq<Conflict>, q: Path, kinds: Kinds)
    requires Fits(Node(target), path, kinds) && Fits(Node(incoming), path, kinds)
    ensures var w := MergeKids(target, incoming, path, o, log);
            && Fits(Node(w.out), path, kinds)
            && ListAt(Some(Node(w.out)), q) == AppendNew(ListAt(Some(Node(target)), q), ListAt(Some(Node(incoming)), q))
    decreases incoming, 0
  {
    hide RecordConflict, MergeValue, Fits, Lookup, Put, Priority, AppendNew, ListAt;
    AppendNothing(ListAt(Some(Node(target)), q));
    ListBelow(incoming, q);
    if incoming != [] {
      var n := |incoming| - 1;
      var kid := incoming[n];
      PrefixFits(incoming, path, kinds);
      assert kid in incoming;
      MergedKidsList(target, incoming[..n], path, o, log, q, kinds);
      var w := MergeKids(target, incoming[..n], path, o, log);
      LookupFits(w.out, kid.key, path, kinds);
      var v := MergeValue(Lookup(w.out, kid.key), kid.tree, path + [kid.key], o, w.log);
      MergedValueList(Lookup(w.out, kid.key), kid.tree, path + [kid.key], o, w.log, if q == [] then [] else q[1..], kinds);
      if v.out.Some? {
        PutFits(w.out, kid.key, v.out.value, path, kinds);
      }
      MergedKidList(target, incoming, path, o, log, q);
    }
  }

  lemma MergedKidList(target: seq<Kid>, incoming: seq<Kid>, path: Path, o: Owners, log: seq<Conflict>, q: Path)
    requires incoming != []
    requires var n := |incoming| - 1;
             var kid := incoming[n];
             var w := MergeKids(target, incoming[..n], path, o, log);
             var v := MergeValue(Lookup(w.out, kid.key), kid.tree, path + [kid.key], o, w.log);
             && Lookup(incoming[..n], kid.key) == None
             && ListAt(Some(Node(w.out)), q) ==
                AppendNew(ListAt(Some(Node(target)), q), ListAt(Some(Node(incoming[..n])), q))
             && (q == [] ||
                 ListAt(v.out, q[1..]) == AppendNew(ListAt(Lookup(w.out, kid.key), q[1..]), ListAt(Some(kid.tree), q[1..])))
    ensures ListAt(Some(Node(MergeKids(target, incoming, path, o, log).out)), q) ==
            AppendNew(ListAt(Some(Node(target)), q), ListAt(Some(Node(incoming)), q))
  {
    hide RecordConflict, MergeValue, Lookup, Put, AppendNew, ListAt;
    var n := |incoming| - 1;
    var kid := incoming[n];
    var w := MergeKids(target, incoming[..n], path, o, log);
    var v := MergeValue(Lookup(w.out, kid.key), kid.tree, path + [kid.key], o, w.log);
    var out := MergeKids(target, incoming, path, o, log).out;
    ListBelow(target, q);
    ListBelow(incoming[..n], q);
    ListBelow(incoming, q);
    ListBelow(w.out, q);
    ListBelow(out, q);
    AppendNothing(ListAt(Some(Node(target)), q));
    if q != [] {
      LookupLast(incoming, q[0]);
      MergeValueKeeps(Lookup(w.out, kid.key), kid.tree, path + [kid.key], o, w.log);
      if v.out.Some? {
        LookupPut(w.out, kid.key, v.out.value, q[0]);
      }
      NoList(q[1..]);
    }
  }

  lemma NoList(q: Path)
    ensures ListAt(None, q) == []
  {
  }
}
