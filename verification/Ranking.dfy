/** How rows are ranked (`rank_key`), pruned to the server cap, and ordered in the file. */
module Ranking {
  import opened Text
  import opened Rows
  import opened Ordering

  function Bit(b: bool): nat { if b then 1 else 0 }

  function ProtocolCount(r: Row): nat {
    Bit(r.seTcpPort > 0) + Bit(r.seUdpSupported) + Bit(r.openVpnTcpPort > 0) +
    Bit(r.openVpnUdpPort > 0) + Bit(r.sstpSupported) + Bit(r.l2tpSupported)
  }

  function Seen(r: Row): int {
    match r.lastSeenAt
    case Some(t) => t
    case None => if r.firstSeenAt.Some? then r.firstSeenAt.value else 0
  }

  function ScoreOf(r: Row): int {
    match r.score case Some(n) => n case None => -1
  }

  function CharCode(c: char): int { c as int }

  function IpTextLess(a: Row, b: Row): bool {
    LexLess(a.ip, b.ip, CharCode)
  }

  /** `rank_key(a) < rank_key(b)`: fewer protocols, seen longer ago, lower score, smaller IP text. */
  predicate RankLess(a: Row, b: Row) {
    if ProtocolCount(a) != ProtocolCount(b) then ProtocolCount(a) < ProtocolCount(b)
    else if Seen(a) != Seen(b) then Seen(a) < Seen(b)
    else if ScoreOf(a) != ScoreOf(b) then ScoreOf(a) < ScoreOf(b)
    else IpTextLess(a, b)
  }

  predicate Better(a: Row, b: Row) {
    RankLess(b, a)
  }

  function Nat2Int(n: nat): int { n }

  /** The order of the published file: by the four octets. */
  predicate IpLess(a: Row, b: Row) {
    LexLess(Octets(a.ip), Octets(b.ip), Nat2Int)
  }

  predicate DistinctIps(rows: seq<Row>) {
    forall i, j :: 0 <= i < j < |rows| ==> rows[i].ip != rows[j].ip
  }

  // ---------- the orders are orders ----------

  lemma IpTextOrder(a: Row, b: Row, c: Row)
    ensures !IpTextLess(a, a)
    ensures IpTextLess(a, b) && IpTextLess(b, c) ==> IpTextLess(a, c)
    ensures IpTextLess(a, c) ==> IpTextLess(a, b) || IpTextLess(b, c)
    ensures a.ip != b.ip ==> IpTextLess(a, b) || IpTextLess(b, a)
  {
    LexIrreflexive(a.ip, CharCode);
    if IpTextLess(a, b) && IpTextLess(b, c) {
      LexTransitive(a.ip, b.ip, c.ip, CharCode);
    }
    if IpTextLess(a, c) && !IpTextLess(a, b) && !IpTextLess(b, c) {
      if IpTextLess(b, a) {
        LexTransitive(b.ip, a.ip, c.ip, CharCode);
      } else {
        LexTotal(a.ip, b.ip, CharCode);
      }
    }
    if !IpTextLess(a, b) && !IpTextLess(b, a) {
      LexTotal(a.ip, b.ip, CharCode);
    }
  }

  lemma RankOrder()
    ensures StrictWeak(RankLess) && StrictWeak(Better)
  {
    hide IpTextLess, ProtocolCount, Seen, ScoreOf;
    forall a, b, c
      ensures !RankLess(a, a)
      ensures RankLess(a, b) && RankLess(b, c) ==> RankLess(a, c)
      ensures RankLess(a, c) ==> RankLess(a, b) || RankLess(b, c)
    {
      IpTextOrder(a, b, c);
    }
  }

  lemma IpOrder()
    ensures StrictWeak(IpLess)
  {
    forall a: Row, b: Row, c: Row
      ensures !IpLess(a, a)
      ensures IpLess(a, b) && IpLess(b, c) ==> IpLess(a, c)
      ensures IpLess(a, c) ==> IpLess(a, b) || IpLess(b, c)
    {
      hide Octets;
      LexIrreflexive(Octets(a.ip), Nat2Int);
      if IpLess(a, b) && IpLess(b, c) {
        LexTransitive(Octets(a.ip), Octets(b.ip), Octets(c.ip), Nat2Int);
      }
      if IpLess(a, c) && !IpLess(a, b) && !IpLess(b, c) {
        if IpLess(b, a) {
          LexTransitive(Octets(b.ip), Octets(a.ip), Octets(c.ip), Nat2Int);
        } else {
          LexTotal(Octets(a.ip), Octets(b.ip), Nat2Int);
        }
      }
    }
  }

  /** Rows with distinct IPs are never tied. */
  lemma RankSeparated(rows: seq<Row>)
    requires DistinctIps(rows)
    ensures Separated(rows, RankLess) && Separated(rows, Better)
  {
    hide IpTextLess, ProtocolCount, Seen, ScoreOf;
    forall i, j | 0 <= i < j < |rows| ensures RankLess(rows[i], rows[j]) || RankLess(rows[j], rows[i]) {
      IpTextOrder(rows[i], rows[j], rows[j]);
    }
  }

  /** Neither are rows with distinct canonical IPs in the file order. */
  lemma IpSeparated(rows: seq<Row>)
    requires DistinctIps(rows)
    requires forall k :: 0 <= k < |rows| ==> rows[k].ip != "" && NormalizeIp(rows[k].ip) == rows[k].ip
    ensures Separated(rows, IpLess)
  {
    forall i, j | 0 <= i < j < |rows| ensures IpLess(rows[i], rows[j]) || IpLess(rows[j], rows[i]) {
      var a, b := rows[i], rows[j];
      NormalizeIpFixpoint(a.ip);
      NormalizeIpFixpoint(b.ip);
      hide Octets, NormalizeIp, IsClean;
      if !IpLess(a, b) && !IpLess(b, a) {
        LexTotal(Octets(a.ip), Octets(b.ip), Nat2Int);
      }
    }
  }

  // ---------- prune ----------

  /** Keeps the `cap` best-ranked rows; a list within the cap is returned as it is. */
  function Prune(rows: seq<Row>, cap: nat): seq<Row> {
    if |rows| <= cap then rows else Sort(rows, RankLess)[|rows| - cap..]
  }

  function Reverse<T>(s: seq<T>): (r: seq<T>)
    ensures |r| == |s|
  {
    if s == [] then [] else Reverse(s[1..]) + [s[0]]
  }

  lemma {:induction false} ReverseAt<T>(s: seq<T>, i: nat)
    requires i < |s|
    ensures Reverse(s)[i] == s[|s| - 1 - i]
  {
    if i < |s| - 1 {
      ReverseAt(s[1..], i);
    }
  }

  /** The reverse of a suffix is a prefix of the reverse. */
  lemma {:induction false} ReverseSuffix<T>(s: seq<T>, k: nat)
    requires k <= |s|
    ensures Reverse(s[k..]) == Reverse(s)[..|s| - k]
  {
    if k == 0 {
      assert s[0..] == s;
    } else {
      ReverseSuffix(s[1..], k - 1);
      assert s[1..][k - 1..] == s[k..];
    }
  }

  lemma {:induction false} ReverseMultiset<T>(s: seq<T>)
    ensures multiset(Reverse(s)) == multiset(s)
  {
    if s != [] {
      ReverseMultiset(s[1..]);
      assert s == [s[0]] + s[1..];
    }
  }

  /** Without ties, best-first is weakest-first read backwards. */
  lemma BestFirst(rows: seq<Row>)
    requires DistinctIps(rows)
    ensures Sort(rows, Better) == Reverse(Sort(rows, RankLess))
  {
    RankOrder();
    RankSeparated(rows);
    var up := Sort(rows, RankLess);
    SortSorts(rows, RankLess);
    DistinctIpsPermutation(rows, up);
    hide RankLess, Better, DistinctIps;
    RankingReversed(up);
    SortOrderIndependent(rows, up, Better);
  }

  lemma ReverseSorted(up: seq<Row>)
    requires Sorted(up, RankLess)
    ensures Sorted(Reverse(up), Better)
  {
    hide RankLess;
    var down := Reverse(up);
    forall i, j | 0 <= i < j < |down| ensures !Better(down[j], down[i]) {
      ReverseAt(up, i);
      ReverseAt(up, j);
    }
  }

  lemma DistinctIpsPermutation(rows: seq<Row>, other: seq<Row>)
    requires DistinctIps(rows) && multiset(rows) == multiset(other)
    ensures DistinctIps(other)
  {
    assert Distinct(rows);
    DistinctCount(rows);
    DistinctCount(other);
    PermutationMembers(rows, other);
    forall i, j | 0 <= i < j < |other| ensures other[i].ip != other[j].ip {
      assert other[i] in rows && other[j] in rows && other[i] != other[j];
    }
  }

  lemma SuffixOfRanking(up: seq<Row>, k: nat)
    requires k <= |up| && Sorted(up, RankLess)
    ensures Sorted(up[k..], RankLess)
  {
    hide RankLess;
    var low := up[k..];
    forall i, j | 0 <= i < j < |low| ensures !RankLess(low[j], low[i]) {
      assert low[i] == up[k + i] && low[j] == up[k + j];
    }
  }

  lemma DistinctSuffix(rows: seq<Row>, k: nat)
    requires k <= |rows| && DistinctIps(rows)
    ensures DistinctIps(rows[k..])
  {
  }

  /** A weakest-first list without ties, sorted best first. */
  lemma RankingReversed(up: seq<Row>)
    requires Sorted(up, RankLess) && DistinctIps(up)
    ensures Sort(up, Better) == Reverse(up)
  {
    RankOrder();
    RankSeparated(up);
    hide RankLess, Better, DistinctIps;
    SortSorts(up, Better);
    ReverseSorted(up);
    ReverseMultiset(up);
    SeparatedPermutation(up, Sort(up, Better), Better);
    SortedUnique(Sort(up, Better), Reverse(up), Better);
  }

  lemma RankedUp(rows: seq<Row>)
    requires DistinctIps(rows)
    ensures var up := Sort(rows, RankLess); Sorted(up, RankLess) && DistinctIps(up)
  {
    hide RankLess, DistinctIps;
    RankOrder();
    SortSorts(rows, RankLess);
    DistinctIpsPermutation(rows, Sort(rows, RankLess));
  }

  lemma PrunedRanking(rows: seq<Row>, cap: nat)
    requires DistinctIps(rows) && |rows| > cap
    ensures Sort(Prune(rows, cap), Better) == Sort(rows, Better)[..cap]
  {
    hide RankLess, Better, DistinctIps, Sort, Reverse, Sorted;
    var up, k := Sort(rows, RankLess), |rows| - cap;
    RankedUp(rows);
    SuffixOfRanking(up, k);
    DistinctSuffix(up, k);
    RankingReversed(up[k..]);
    ReverseSuffix(up, k);
    BestFirst(rows);
  }

  /** Pruning and then ranking best first gives the first rows of the whole ranking. */
  lemma PruneIsTopSegment(rows: seq<Row>, cap: nat)
    requires DistinctIps(rows)
    ensures var n := if |rows| <= cap then |rows| else cap;
            Sort(Prune(rows, cap), Better) == Sort(rows, Better)[..n]
  {
    hide RankLess, Better, DistinctIps, Sort;
    if |rows| > cap {
      PrunedRanking(rows, cap);
    } else {
      var best := Sort(rows, Better);
      assert best[..|rows|] == best;
    }
  }

  /** The kept rows are among the given ones, as many as the cap allows. */
  lemma PruneMembers(rows: seq<Row>, cap: nat)
    ensures var kept := Prune(rows, cap);
            |kept| == (if |rows| <= cap then |rows| else cap) && multiset(kept) <= multiset(rows)
  {
    if |rows| > cap {
      RankOrder();
      SortSorts(rows, RankLess);
      var up := Sort(rows, RankLess);
      assert up == up[..|rows| - cap] + up[|rows| - cap..];
    }
  }

  // ---------- the ranking in the row's own columns ----------

  datatype Protocol = SoftEtherTcp | SoftEtherUdp | OpenVpnTcp | OpenVpnUdp | Sstp | L2tp

  predicate Offered(r: Row, p: Protocol) {
    match p
    case SoftEtherTcp => r.seTcpPort > 0
    case SoftEtherUdp => r.seUdpSupported
    case OpenVpnTcp => r.openVpnTcpPort > 0
    case OpenVpnUdp => r.openVpnUdpPort > 0
    case Sstp => r.sstpSupported
    case L2tp => r.l2tpSupported
  }

  const PROTOCOLS: set<Protocol> := {SoftEtherTcp, SoftEtherUdp, OpenVpnTcp, OpenVpnUdp, Sstp, L2tp}

  function Among(r: Row, ps: set<Protocol>): set<Protocol> {
    set p | p in ps && Offered(r, p)
  }

  function Offers(r: Row): set<Protocol> {
    Among(r, PROTOCOLS)
  }

  lemma OneMore(r: Row, ps: set<Protocol>, p: Protocol)
    requires p !in ps
    ensures |Among(r, ps + {p})| == |Among(r, ps)| + Bit(Offered(r, p))
  {
    hide Offered;
    assert Among(r, ps + {p}) == Among(r, ps) + if Offered(r, p) then {p} else {};
  }

  lemma SixProtocols(r: Row)
    ensures |Offers(r)| == Bit(Offered(r, SoftEtherTcp)) + Bit(Offered(r, SoftEtherUdp)) + Bit(Offered(r, OpenVpnTcp)) +
                           Bit(Offered(r, OpenVpnUdp)) + Bit(Offered(r, Sstp)) + Bit(Offered(r, L2tp))
  {
    hide Offered, Bit;
    var none: set<Protocol> := {};
    assert Among(r, none) == {};
    hide Among;
    var a := none + {SoftEtherTcp};
    var b := a + {SoftEtherUdp};
    var c := b + {OpenVpnTcp};
    var d := c + {OpenVpnUdp};
    var e := d + {Sstp};
    OneMore(r, none, SoftEtherTcp);
    OneMore(r, a, SoftEtherUdp);
    OneMore(r, b, OpenVpnTcp);
    OneMore(r, c, OpenVpnUdp);
    OneMore(r, d, Sstp);
    OneMore(r, e, L2tp);
    assert PROTOCOLS == e + {L2tp};
  }

  /** The count is that of the protocols a row offers. */
  lemma ProtocolsCounted(r: Row)
    ensures ProtocolCount(r) == |Offers(r)|
  {
    SixProtocols(r);
  }

  /** When the row was seen last, or else first, or else at 0. */
  predicate SightedAt(r: Row, t: int) {
    match (r.lastSeenAt, r.firstSeenAt)
    case (Some(last), _) => t == last
    case (None, Some(first)) => t == first
    case (None, None) => t == 0
  }

  /** The row's score, -1 if unknown. */
  predicate Scores(r: Row, n: int) {
    if r.score.None? then n == -1 else n == r.score.value
  }

  /** The text `a` comes before `b`: at the first difference by code point, or as a proper prefix. */
  predicate TextBefore(a: string, b: string) {
    exists k :: 0 <= k <= |a| && k < |b| && a[..k] == b[..k] && (k < |a| ==> a[k] < b[k])
  }

  lemma IpTextBefore(a: Row, b: Row)
    ensures IpTextLess(a, b) <==> TextBefore(a.ip, b.ip)
  {
    LexFirstDifference(a.ip, b.ip, CharCode);
  }

  /** What is removed first: fewer protocols, then longer unseen, then a lower score, then the smaller IP text. */
  lemma PruneDropsTheWeaker(rows: seq<Row>, cap: nat, kept: Row, t: int, m: int, dropped: Row, u: int, n: int)
    requires kept in Prune(rows, cap) && dropped in rows && dropped !in Prune(rows, cap)
    requires SightedAt(kept, t) && SightedAt(dropped, u) && Scores(kept, m) && Scores(dropped, n)
    ensures |Offers(dropped)| <= |Offers(kept)|
    ensures |Offers(dropped)| == |Offers(kept)| ==> u <= t
    ensures |Offers(dropped)| == |Offers(kept)| && u == t ==> n <= m
    ensures |Offers(dropped)| == |Offers(kept)| && u == t && n == m ==> !TextBefore(kept.ip, dropped.ip)
  {
    hide Prune, ProtocolCount, IpTextLess, Offers, TextBefore;
    WeakerFirst(rows, cap, kept, dropped);
    ProtocolsCounted(kept);
    ProtocolsCounted(dropped);
    IpTextBefore(kept, dropped);
  }

  lemma WeakerFirst(rows: seq<Row>, cap: nat, kept: Row, dropped: Row)
    requires kept in Prune(rows, cap) && dropped in rows && dropped !in Prune(rows, cap)
    ensures !RankLess(kept, dropped)
  {
    hide RankLess, Better, Sort;
    RankOrder();
    SortSorts(rows, RankLess);
    var up := Sort(rows, RankLess);
    PermutationMembers(rows, up);
    var i :| 0 <= i < |up| && up[i] == dropped;
    var j :| 0 <= j < cap && up[|rows| - cap..][j] == kept;
    forall m | |rows| - cap <= m < |rows| ensures up[m] in Prune(rows, cap) {
      assert up[|rows| - cap..][m - (|rows| - cap)] == up[m];
    }
    assert up[|rows| - cap + j] == kept;
  }

  // ---------- the order of the file ----------

  function AddressValue(o: seq<nat>): nat
    requires |o| == 4
  {
    ((o[0] * 256 + o[1]) * 256 + o[2]) * 256 + o[3]
  }

  lemma OctetsCompare(a: seq<nat>, b: seq<nat>)
    requires |a| == 4 && |b| == 4 && forall i :: 0 <= i < 4 ==> a[i] <= 255 && b[i] <= 255
    ensures LexLess(a, b, Nat2Int) <==> AddressValue(a) < AddressValue(b)
  {
    assert LexLess(a, b, Nat2Int) <==>
           a[0] < b[0] || (a[0] == b[0] && (a[1] < b[1] || (a[1] == b[1] && (a[2] < b[2] || (a[2] == b[2] && a[3] < b[3])))))
    by {
      LexTail(a, b);
      LexTail(a[1..], b[1..]);
      LexTail(a[2..], b[2..]);
      LexTail(a[3..], b[3..]);
      assert a[1..][1..] == a[2..] && b[1..][1..] == b[2..] && a[2..][1..] == a[3..] && b[2..][1..] == b[3..];
      assert a[3..][1..] == [] && b[3..][1..] == [];
    }
  }

  lemma LexTail(a: seq<nat>, b: seq<nat>)
    requires a != [] && b != []
    ensures LexLess(a, b, Nat2Int) <==> a[0] < b[0] || (a[0] == b[0] && LexLess(a[1..], b[1..], Nat2Int))
    ensures !LexLess<nat>([], [], Nat2Int)
  {
  }

  /** The file's rows are in the order of their addresses as numbers. */
  lemma IpLessIsNumeric(a: Row, b: Row, x: seq<nat>, y: seq<nat>)
    requires |x| == 4 && |y| == 4 && forall i :: 0 <= i < 4 ==> x[i] <= 255 && y[i] <= 255
    requires a.ip == Join(DecAll(x), ".") && b.ip == Join(DecAll(y), ".")
    ensures IpLess(a, b) <==> AddressValue(x) < AddressValue(y)
  {
    QuadText(x);
    QuadText(y);
    hide Octets, AddressValue;
    OctetsCompare(x, y);
  }
}
