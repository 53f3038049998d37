/** Insertion-ordered dictionaries and the loop shape that fills them: insert the first record of a
    key, merge every later one into it. Every merge of both programs has this shape. */
module Upsert {
  import opened Text

  datatype Dict<K(==), V> = Dict(keys: seq<K>, vals: map<K, V>) {
    ghost predicate Valid() {
      && (forall i, j :: 0 <= i < j < |keys| ==> keys[i] != keys[j])
      && (forall k :: k in keys ==> k in vals)
      && (forall k :: k in vals ==> k in keys)
    }

    function Get(k: K): Option<V> {
      if k in vals then Some(vals[k]) else None
    }

    /** `d[k] = v`: an existing key keeps its place. */
    function Put(k: K, v: V): Dict<K, V> {
      Dict(if k in vals then keys else keys + [k], vals[k := v])
    }

    /** `list(d.values())`. */
    function Values(): (vs: seq<V>)
      requires Valid()
      ensures |vs| == |keys| && forall i :: 0 <= i < |keys| ==> keys[i] in vals && vs[i] == vals[keys[i]]
    {
      assert forall i :: 0 <= i < |keys| ==> keys[i] in keys;
      seq(|keys|, i requires 0 <= i < |keys| => vals[keys[i]])
    }
  }

  datatype Rule<!X, !K, !V> = Rule(key: X -> K, start: X -> V, merge: (V, X) -> V)

  function Empty<K(==), V>(): Dict<K, V> {
    Dict([], map[])
  }

  function Add<X, K, V>(d: Dict<K, V>, x: X, rule: Rule<X, K, V>): Dict<K, V> {
    var k := rule.key(x);
    d.Put(k, if k in d.vals then rule.merge(d.vals[k], x) else rule.start(x))
  }

  function AddAll<X, K, V>(d: Dict<K, V>, xs: seq<X>, rule: Rule<X, K, V>): Dict<K, V> {
    if xs == [] then d else Add(AddAll(d, xs[..|xs| - 1], rule), xs[|xs| - 1], rule)
  }

  /** The records of one key, in order. */
  function Select<X, K(==)>(xs: seq<X>, key: X -> K, k: K): seq<X> {
    if xs == [] then []
    else Select(xs[..|xs| - 1], key, k) + (if key(xs[|xs| - 1]) == k then [xs[|xs| - 1]] else [])
  }

  /** What one key's records come to on their own. */
  function FoldOne<X, K, V>(v: Option<V>, xs: seq<X>, rule: Rule<X, K, V>): Option<V> {
    if xs == [] then v
    else
      var x := xs[|xs| - 1];
      match FoldOne(v, xs[..|xs| - 1], rule)
      case None => Some(rule.start(x))
      case Some(current) => Some(rule.merge(current, x))
  }

  lemma {:induction false} AddAllValid<X, K, V>(d: Dict<K, V>, xs: seq<X>, rule: Rule<X, K, V>)
    requires d.Valid()
    ensures AddAll(d, xs, rule).Valid()
  {
    if xs != [] {
      AddAllValid(d, xs[..|xs| - 1], rule);
    }
  }

  lemma AddAllNone<X, K, V>(d: Dict<K, V>, rule: Rule<X, K, V>)
    ensures AddAll(d, [], rule) == d
  {
  }

  lemma AddAllOne<X, K, V>(d: Dict<K, V>, x: X, rule: Rule<X, K, V>)
    ensures AddAll(d, [x], rule) == Add(d, x, rule)
  {
    assert [x][..0] == [];
    assert AddAll(d, [x][..0], rule) == d;
  }

  lemma AddAllTwo<X, K, V>(d: Dict<K, V>, x: X, y: X, rule: Rule<X, K, V>)
    ensures AddAll(d, [x, y], rule) == Add(Add(d, x, rule), y, rule)
  {
    assert [x, y][..1] == [x];
    AddAllOne(d, x, rule);
  }

  /** Each key's value depends on that key's records alone. */
  lemma {:induction false} AddAllIsLocal<X, K, V>(d: Dict<K, V>, xs: seq<X>, rule: Rule<X, K, V>, k: K)
    ensures AddAll(d, xs, rule).Get(k) == FoldOne(d.Get(k), Select(xs, rule.key, k), rule)
  {
    if xs != [] {
      var init, x := xs[..|xs| - 1], xs[|xs| - 1];
      AddAllIsLocal(d, init, rule, k);
      var s := Select(init, rule.key, k);
      if rule.key(x) == k {
        assert (s + [x])[..|s + [x]| - 1] == s;
      } else {
        assert s + [] == s;
      }
    }
  }

  /** The keys are exactly the old ones and the records' own. */
  lemma {:induction false} AddAllKeys<X, K, V>(d: Dict<K, V>, xs: seq<X>, rule: Rule<X, K, V>, k: K)
    ensures k in AddAll(d, xs, rule).vals <==> k in d.vals || exists i :: 0 <= i < |xs| && rule.key(xs[i]) == k
  {
    if xs != [] {
      var init, x := xs[..|xs| - 1], xs[|xs| - 1];
      AddAllKeys(d, init, rule, k);
      if i :| 0 <= i < |xs| && rule.key(xs[i]) == k {
        assert i == |xs| - 1 || rule.key(init[i]) == k;
      }
    }
  }

  /** The keys of the records, each at its first appearance. */
  function Firsts<K(==)>(keys: seq<K>): (firsts: seq<K>) {
    if keys == [] then []
    else
      var n := |keys| - 1;
      var before := Firsts(keys[..n]);
      if keys[n] in before then before else before + [keys[n]]
  }

  function KeysOf<X, K>(xs: seq<X>, key: X -> K): (keys: seq<K>)
    ensures |keys| == |xs| && forall i :: 0 <= i < |xs| ==> keys[i] == key(xs[i])
  {
    seq(|xs|, i requires 0 <= i < |xs| => key(xs[i]))
  }

  /** A dictionary filled from nothing lists its keys in the order of their first appearance. */
  lemma {:induction false} FirstAppearance<X, K, V>(done: seq<K>, d: Dict<K, V>, xs: seq<X>, rule: Rule<X, K, V>)
    requires d.Valid() && d.keys == Firsts(done)
    ensures AddAll(d, xs, rule).keys == Firsts(done + KeysOf(xs, rule.key))
  {
    if xs == [] {
      assert done + KeysOf(xs, rule.key) == done;
    } else {
      var n := |xs| - 1;
      var all := done + KeysOf(xs, rule.key);
      FirstAppearance(done, d, xs[..n], rule);
      AddAllValid(d, xs[..n], rule);
      assert all[..|all| - 1] == done + KeysOf(xs[..n], rule.key);
      assert all[|all| - 1] == rule.key(xs[n]);
    }
  }

  ghost predicate DistinctKeys<X, K>(xs: seq<X>, key: X -> K) {
    forall i, j :: 0 <= i < j < |xs| ==> key(xs[i]) != key(xs[j])
  }

  lemma {:induction false} SelectMembers<X, K>(xs: seq<X>, key: X -> K, k: K)
    ensures forall x :: x in Select(xs, key, k) <==> x in xs && key(x) == k
  {
    if xs != [] {
      var init, last := xs[..|xs| - 1], xs[|xs| - 1];
      SelectMembers(init, key, k);
      assert xs == init + [last];
      assert Select(xs, key, k) == Select(init, key, k) + (if key(last) == k then [last] else []);
    }
  }

  /** Records with pairwise different new keys are simply listed. */
  lemma {:induction false} AddAllDistinct<X, K, V>(xs: seq<X>, rule: Rule<X, K, V>)
    requires DistinctKeys(xs, rule.key)
    ensures var d := AddAll(Empty(), xs, rule);
            |d.keys| == |xs| &&
            forall i :: 0 <= i < |xs| ==> d.keys[i] == rule.key(xs[i]) && d.Get(d.keys[i]) == Some(rule.start(xs[i]))
  {
    if xs != [] {
      var init, x := xs[..|xs| - 1], xs[|xs| - 1];
      AddAllDistinct(init, rule);
      AddAllKeys(Empty(), init, rule, rule.key(x));
      assert rule.key(x) !in AddAll(Empty(), init, rule).vals;
    }
  }

  ghost predicate Holds<K(!new), V(!new)>(d: Dict<K, V>, inv: (K, V) -> bool) {
    forall k :: k in d.vals ==> inv(k, d.vals[k])
  }

  /** Whatever starting and merging establish for a key holds of every stored value. */
  lemma {:induction false} AddAllInvariant<X(!new), K(!new), V(!new)>(
      d: Dict<K, V>, xs: seq<X>, rule: Rule<X, K, V>, inv: (K, V) -> bool)
    requires Holds(d, inv)
    requires forall x :: x in xs ==> inv(rule.key(x), rule.start(x))
    requires forall x, v :: x in xs && inv(rule.key(x), v) ==> inv(rule.key(x), rule.merge(v, x))
    ensures Holds(AddAll(d, xs, rule), inv)
  {
    if xs != [] {
      var init, last := xs[..|xs| - 1], xs[|xs| - 1];
      assert xs == init + [last] && last in xs;
      assert forall x :: x in init ==> x in xs;
      AddAllInvariant(d, init, rule, inv);
      var r := AddAll(d, init, rule);
      forall k | k in Add(r, last, rule).vals ensures inv(k, Add(r, last, rule).vals[k]) {
        if k == rule.key(last) {
          if k in r.vals {
            assert inv(k, r.vals[k]);
          }
        } else {
          assert inv(k, r.vals[k]);
        }
      }
    }
  }

  /** A stored value is listed, and only stored values are. */
  lemma ValuesMembers<K, V>(d: Dict<K, V>)
    requires d.Valid()
    ensures forall k :: k in d.vals ==> d.vals[k] in d.Values()
    ensures forall v :: v in d.Values() ==> exists k :: k in d.vals && d.vals[k] == v
  {
    forall k | k in d.vals ensures d.vals[k] in d.Values() {
      assert k in d.keys;
      var i :| 0 <= i < |d.keys| && d.keys[i] == k;
      assert d.Values()[i] == d.vals[k];
    }
    forall v | v in d.Values() ensures exists k :: k in d.vals && d.vals[k] == v {
      var i :| 0 <= i < |d.keys| && d.Values()[i] == v;
      assert d.keys[i] in d.vals;
    }
  }

  function Find<X, K(==)>(xs: seq<X>, key: X -> K, k: K): Option<X> {
    if xs == [] then None
    else if key(xs[|xs| - 1]) == k then Some(xs[|xs| - 1])
    else Find(xs[..|xs| - 1], key, k)
  }

  /** With distinct keys, finding is membership. */
  lemma {:induction false} FindDistinct<X, K>(xs: seq<X>, key: X -> K, k: K)
    requires DistinctKeys(xs, key)
    ensures forall x :: Find(xs, key, k) == Some(x) <==> x in xs && key(x) == k
  {
    if xs != [] {
      var init, last := xs[..|xs| - 1], xs[|xs| - 1];
      assert xs == init + [last];
      FindDistinct(init, key, k);
      if key(last) == k {
        forall x | x in init ensures key(x) != k {
          var i :| 0 <= i < |init| && init[i] == x;
          assert key(xs[i]) != key(xs[|xs| - 1]);
        }
      }
    }
  }

  lemma {:induction false} FindNone<X, K>(xs: seq<X>, key: X -> K, k: K)
    requires forall i :: 0 <= i < |xs| ==> key(xs[i]) != k
    ensures Find(xs, key, k) == None
  {
    if xs != [] {
      FindNone(xs[..|xs| - 1], key, k);
    }
  }

  function AddOption<X, K, V>(v: Option<V>, x: Option<X>, rule: Rule<X, K, V>): Option<V> {
    if x.None? then v else if v.None? then Some(rule.start(x.value)) else Some(rule.merge(v.value, x.value))
  }

  /** With distinct keys a value is merged at most once. */
  lemma {:induction false} AddAllAt<X, K, V>(d: Dict<K, V>, xs: seq<X>, rule: Rule<X, K, V>, k: K)
    requires DistinctKeys(xs, rule.key)
    ensures AddAll(d, xs, rule).Get(k) == AddOption(d.Get(k), Find(xs, rule.key, k), rule)
  {
    if xs != [] {
      var init, last := xs[..|xs| - 1], xs[|xs| - 1];
      AddAllAt(d, init, rule, k);
      if rule.key(last) == k {
        FindNone(init, rule.key, k);
      }
    }
  }
}
