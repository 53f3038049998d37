/** The collector's record of one server: a nested dictionary of leaves, the sources that supplied
    each leaf, and the log of disagreements. */
module Provenance {
  import Ordering
  import opened Text

  datatype Scalar = Null | Text(s: string) | Number(n: real) | Flag(b: bool)

  /** A value of the nested dictionaries; kids keep the dictionary's order. */
  datatype Tree = Leaf(v: Scalar) | Items(xs: seq<Tree>) | Node(kids: seq<Kid>)

  datatype Kid = Kid(key: string, tree: Tree)

  type Path = seq<string>

  type FieldSources = map<Path, seq<string>>

  datatype Conflict = Conflict(field: Path, values: map<string, Tree>)

  /** A parsed record. */
  datatype Record = Record(body: seq<Kid>, sources: seq<string>, fieldSources: FieldSources)

  /** A record that others were merged into. */
  datatype Server = Server(body: seq<Kid>, sources: seq<string>, fieldSources: FieldSources, conflicts: seq<Conflict>)

  predicate Truthy(v: Scalar) {
    v != Null && v != Text("") && v != Number(0.0) && v != Flag(false)
  }

  // ---------- dictionaries ----------

  function Lookup(kids: seq<Kid>, key: string): Option<Tree> {
    if kids == [] then None
    else if kids[|kids| - 1].key == key then Some(kids[|kids| - 1].tree)
    else Lookup(kids[..|kids| - 1], key)
  }

  /** `d[key] = t`. */
  function Put(kids: seq<Kid>, key: string, t: Tree): seq<Kid> {
    if kids == [] then [Kid(key, t)]
    else
      var n := |kids| - 1;
      if kids[n].key == key then kids[..n] + [Kid(key, t)] else Put(kids[..n], key, t) + [kids[n]]
  }

  predicate UniqueKeys(kids: seq<Kid>) {
    forall i, j :: 0 <= i < j < |kids| ==> kids[i].key != kids[j].key
  }

  lemma {:induction false} LookupPut(kids: seq<Kid>, key: string, t: Tree, other: string)
    ensures Lookup(Put(kids, key, t), other) == if other == key then Some(t) else Lookup(kids, other)
  {
    if kids != [] {
      var n := |kids| - 1;
      if kids[n].key != key {
        LookupPut(kids[..n], key, t, other);
        assert Put(kids, key, t)[..|Put(kids, key, t)| - 1] == Put(kids[..n], key, t);
      } else {
        assert Put(kids, key, t)[..n] == kids[..n];
      }
    }
  }

  lemma {:induction false} LookupAt(kids: seq<Kid>, key: string)
    ensures Lookup(kids, key).Some? <==> exists j :: 0 <= j < |kids| && kids[j].key == key
    ensures Lookup(kids, key).Some? ==> exists j :: 0 <= j < |kids| && kids[j] == Kid(key, Lookup(kids, key).value)
  {
    if kids != [] {
      var n := |kids| - 1;
      LookupAt(kids[..n], key);
      if kids[n].key == key {
        assert kids[n] == Kid(key, kids[n].tree);
      } else {
        if j :| 0 <= j < |kids| && kids[j].key == key {
          assert kids[..n][j].key == key;
        }
        if Lookup(kids[..n], key).Some? {
          var j :| 0 <= j < n && kids[..n][j] == Kid(key, Lookup(kids[..n], key).value);
          assert kids[j] == Kid(key, Lookup(kids, key).value);
        }
      }
    }
  }

  lemma {:induction false} LookupUnique(kids: seq<Kid>, j: nat)
    requires j < |kids| && UniqueKeys(kids)
    ensures Lookup(kids, kids[j].key) == Some(kids[j].tree)
  {
    if j < |kids| - 1 {
      LookupUnique(kids[..|kids| - 1], j);
    }
  }

  // ---------- leaves by path ----------

  /** The scalar at a path below a value; anything but a leaf reads as None. */
  function ScalarAt(t: Option<Tree>, path: Path): Scalar
    decreases |path|
  {
    match t
    case None => Null
    case Some(Leaf(v)) => if path == [] then v else Null
    case Some(Items(_)) => Null
    case Some(Node(kids)) => if path == [] then Null else ScalarAt(Lookup(kids, path[0]), path[1..])
  }

  // ---------- authority ----------

  predicate IsMirror(name: string) {
    |name| > 7 && name[..7] == "mirror_" && AllDigits(name[7..])
  }

  /** Numbered mirrors collapse into one group. */
  function SourceGroup(source: string): string {
    var name := Lower(Strip(source));
    if IsMirror(name) then "mirror" else name
  }

  /** The mirrors' group is that of the numbered mirrors, in any case and between blanks, and of nothing else but
      its own name; any other source is its own group. */
  lemma GroupOfMirrors(source: string)
    ensures var name := Lower(Strip(source));
            if exists d :: AllDigits(d) && name == "mirror_" + d then SourceGroup(source) == "mirror"
            else SourceGroup(source) == name
  {
    var name := Lower(Strip(source));
    if IsMirror(name) {
      assert name == "mirror_" + name[7..];
    }
    if d :| AllDigits(d) && name == "mirror_" + d {
      assert name[..7] == "mirror_" && name[7..] == d;
    }
  }

  lemma LowerNumbered(digits: string)
    requires AllDigits(digits)
    ensures Lower("mirror_" + digits) == "mirror_" + digits
  {
    var name := "mirror_" + digits;
    forall i | 0 <= i < |name| ensures Lower(name)[i] == name[i] {
      assert name[i] == if i < 7 then "mirror_"[i] else digits[i - 7];
      assert i >= 7 ==> IsDigit(digits[i - 7]);
    }
  }

  lemma NumberedMirror(n: nat)
    ensures SourceGroup("mirror_" + Dec(n)) == "mirror"
  {
    var digits := Dec(n);
    var name := "mirror_" + digits;
    assert forall i :: 0 <= i < |digits| ==> IsDigit(digits[i]);
    assert name[0] == 'm' && name[|name| - 1] == digits[|digits| - 1];
    assert Strip(name) == name by {
      assert StripLeft(name) == name && StripRight(name) == name;
    }
    LowerNumbered(digits);
    GroupOfMirrors(name);
  }

  /** Case and surrounding blanks do not matter. */
  lemma GroupIgnoresSpelling(head: string, source: string, tail: string, name: string)
    requires source != "" && Trimmed(source) && Lower(source) == name && Lower(name) == name && Trimmed(name)
    requires forall i :: 0 <= i < |head| ==> IsSpace(head[i])
    requires forall i :: 0 <= i < |tail| ==> IsSpace(tail[i])
    ensures SourceGroup(head + source + tail) == SourceGroup(name)
  {
    hide IsSpace, IsMirror;
    StripBlanks(head, source, tail);
    assert |Lower(source)| == |source|;
    assert StripLeft(name) == name && StripRight(name) == name;
  }

  /** Lower is stronger: api before html before everything else. */
  function Priority(source: string): nat {
    var g := SourceGroup(source);
    if g == "api" then 0 else if g == "html" then 10 else 20
  }

  function SourcesAt(fs: FieldSources, path: Path): seq<string> {
    if path in fs then fs[path] else []
  }

  /** The last non-empty entry of a leaf's source list. */
  function LastSource(sources: seq<string>, default: string): string {
    if sources == [] then default
    else if sources[|sources| - 1] != "" then sources[|sources| - 1]
    else LastSource(sources[..|sources| - 1], default)
  }

  // ---------- conflict log ----------

  predicate SameConflict(c: Conflict, field: Path, was: Tree, new': Tree, oldOwner: string, newOwner: string) {
    && c.field == field
    && oldOwner in c.values && c.values[oldOwner] == was
    && newOwner in c.values && c.values[newOwner] == new'
  }

  /** `record_conflict`: logs the two values under their owners unless exactly that is logged. */
  function RecordConflict(log: seq<Conflict>, field: Path, was: Tree, new': Tree, oldOwner: string, newOwner: string)
    : seq<Conflict>
  {
    if exists i :: 0 <= i < |log| && SameConflict(log[i], field, was, new', oldOwner, newOwner) then log
    else log + [Conflict(field, map[oldOwner := was][newOwner := new'])]
  }

  /** Under two names the same disagreement is logged once; under one name it is logged again each time. */
  lemma LoggedOnce(log: seq<Conflict>, field: Path, was: Tree, new': Tree, a: string, b: string)
    requires was != new'
    ensures var out := RecordConflict(log, field, was, new', a, b);
            if a != b then RecordConflict(out, field, was, new', a, b) == out
            else |out| == |log| + 1 && |RecordConflict(out, field, was, new', a, b)| == |log| + 2
  {
    var out := RecordConflict(log, field, was, new', a, b);
    if a != b && out != log {
      assert SameConflict(out[|log|], field, was, new', a, b);
    }
  }

  // ---------- recursive_merge ----------

  /** Items of `xs` not yet present are appended. */
  function AppendNew<T(==)>(ys: seq<T>, xs: seq<T>): seq<T> {
    if xs == [] then ys
    else
      var r := AppendNew(ys, xs[..|xs| - 1]);
      if xs[|xs| - 1] in r then r else r + [xs[|xs| - 1]]
  }

  predicate TruthyTree(t: Option<Tree>) {
    match t
    case None => false
    case Some(Leaf(v)) => Truthy(v)
    case Some(Items(xs)) => xs != []
    case Some(Node(kids)) => kids != []
  }

  /** The two records' source lists as they were before this merge. */
  datatype Owners = Owners(target: FieldSources, incoming: FieldSources) {
    function Old(path: Path): string { LastSource(SourcesAt(target, path), "previous") }

    function New(path: Path): string { LastSource(SourcesAt(incoming, path), "incoming") }
  }

  datatype Walk<T> = Walk(out: T, log: seq<Conflict>)

  function MergeValue(was: Option<Tree>, new': Tree, path: Path, o: Owners, log: seq<Conflict>): Walk<Option<Tree>>
    decreases new', 1
  {
    match new'
    case Node(kids) =>
      var base := if was.Some? && was.value.Node? then was.value.kids else [];
      var w := MergeKids(base, kids, path, o, log);
      Walk(Some(Node(w.out)), w.log)
    case Items(xs) =>
      if xs == [] then Walk(was, log)
      else
        var base := if was.Some? && was.value.Items? then was.value.xs else [];
        Walk(Some(Items(AppendNew(base, xs))), log)
    case Leaf(v) =>
      if !Truthy(v) then Walk(was, log)
      else if !TruthyTree(was) then Walk(Some(new'), log)
      else if was.value == new' then Walk(was, log)
      else
        Walk(if Priority(o.New(path)) < Priority(o.Old(path)) then Some(new') else was,
             RecordConflict(log, path, was.value, new', o.Old(path), o.New(path)))
  }

  function MergeKids(target: seq<Kid>, incoming: seq<Kid>, path: Path, o: Owners, log: seq<Conflict>): Walk<seq<Kid>>
    decreases incoming, 0
  {
    if incoming == [] then Walk(target, log)
    else
      var kid := incoming[|incoming| - 1];
      var w := MergeKids(target, incoming[..|incoming| - 1], path, o, log);
      var v := MergeValue(Lookup(w.out, kid.key), kid.tree, path + [kid.key], o, w.log);
      Walk(if v.out.Some? then Put(w.out, kid.key, v.out.value) else w.out, v.log)
  }

  function Code(c: char): int { c as int }

  predicate TextLess(a: string, b: string) {
    Ordering.LexLess(a, b, Code)
  }

  /** `source_add`: an unknown name is appended and the list sorted. */
  function AddSource(sources: seq<string>, source: string): seq<string> {
    if source == "" || source in sources then sources else Ordering.Sort(sources + [source], TextLess)
  }

  function AddSources(sources: seq<string>, more: seq<string>): seq<string> {
    if more == [] then sources else AddSource(AddSources(sources, more[..|more| - 1]), more[|more| - 1])
  }

  function MergeFieldSources(a: FieldSources, b: FieldSources): FieldSources {
    map p | p in a.Keys + b.Keys :: AppendNew(SourcesAt(a, p), SourcesAt(b, p))
  }

  /** The merge of one record into another: first the data leaves, with the owners as they were, then
      the sources. */
  function MergeRecord(t: Server, r: Record): Server {
    var w := MergeKids(t.body, r.body, [], Owners(t.fieldSources, r.fieldSources), t.conflicts);
    Server(w.out, AddSources(t.sources, r.sources), MergeFieldSources(t.fieldSources, r.fieldSources), w.log)
  }

  function FromRecord(r: Record): Server {
    Server(r.body, r.sources, r.fieldSources, [])
  }

  // ---------- the source list ----------

  lemma TextOrder()
    ensures Ordering.StrictWeak(TextLess)
  {
    forall a, b, c
      ensures !TextLess(a, a)
      ensures TextLess(a, b) && TextLess(b, c) ==> TextLess(a, c)
      ensures TextLess(a, c) ==> TextLess(a, b) || TextLess(b, c)
    {
      TextOrderOf(a, b, c);
    }
  }

  lemma TextOrderOf(a: string, b: string, c: string)
    ensures !TextLess(a, a)
    ensures TextLess(a, b) && TextLess(b, c) ==> TextLess(a, c)
    ensures TextLess(a, c) ==> TextLess(a, b) || TextLess(b, c)
    ensures a != b ==> TextLess(a, b) || TextLess(b, a)
  {
    Ordering.LexIrreflexive(a, Code);
    if TextLess(a, b) && TextLess(b, c) {
      Ordering.LexTransitive(a, b, c, Code);
    }
    if !TextLess(a, b) && !TextLess(b, a) {
      Ordering.LexTotal(a, b, Code);
    }
    if TextLess(a, c) && !TextLess(a, b) && TextLess(b, a) {
      Ordering.LexTransitive(b, a, c, Code);
    }
  }

  /** Ascending by code point, without repetition. */
  predicate Ascending(sources: seq<string>) {
    forall i, j :: 0 <= i < j < |sources| ==> TextLess(sources[i], sources[j])
  }

  lemma SortedDistinctAscends(sources: seq<string>)
    requires Ordering.Sorted(sources, TextLess) && Ordering.Distinct(sources)
    ensures Ascending(sources)
  {
    hide TextLess;
    forall i, j | 0 <= i < j < |sources| ensures TextLess(sources[i], sources[j]) {
      TextOrderOf(sources[i], sources[j], sources[i]);
    }
  }

  lemma AscendingIsDistinct(sources: seq<string>)
    requires Ascending(sources)
    ensures Ordering.Distinct(sources) && Ordering.Sorted(sources, TextLess)
  {
    hide TextLess;
    TextOrder();
    forall i, j | 0 <= i < j < |sources| ensures sources[i] != sources[j] && !TextLess(sources[j], sources[i]) {
      TextOrderOf(sources[i], sources[j], sources[i]);
    }
  }

  /** An ascending list stays ascending and gains exactly the source, if it names one; no other ascending list
      has these members. */
  lemma AddSourceAscends(sources: seq<string>, source: string, other: seq<string>)
    requires Ascending(sources)
    ensures var out := AddSource(sources, source);
            && Ascending(out)
            && (forall x :: x in out <==> x in sources || (x == source && source != ""))
            && (Ascending(other) && multiset(other) == multiset(out) ==> other == out)
  {
    hide TextLess, Ordering.Sort;
    TextOrder();
    AscendingIsDistinct(sources);
    var all, out := sources + [source], AddSource(sources, source);
    if out != sources {
      Ordering.SortSorts(all, TextLess);
      Ordering.PermutationMembers(all, out);
      assert Ordering.Distinct(all);
      Ordering.DistinctCount(all);
      Ordering.DistinctCount(out);
      SortedDistinctAscends(out);
    }
    if Ascending(other) && multiset(other) == multiset(out) {
      AscendingIsDistinct(other);
      AscendingIsDistinct(out);
      assert Ordering.Separated(out, TextLess);
      Ordering.SortedUnique(out, other, TextLess);
    }
  }

  lemma {:induction false} AddSourcesAscends(sources: seq<string>, more: seq<string>)
    requires Ascending(sources)
    ensures var out := AddSources(sources, more);
            Ascending(out) && forall x :: x in out <==> x in sources || (x in more && x != "")
  {
    hide AddSource, Ascending;
    if more != [] {
      var n := |more| - 1;
      AddSourcesAscends(sources, more[..n]);
      AddSourceAscends(AddSources(sources, more[..n]), more[n], []);
      assert more == more[..n] + [more[n]];
    }
  }
}
