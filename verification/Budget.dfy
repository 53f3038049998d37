/** Fitting the file into the byte budget (`fit_budget`): the largest ranked prefix that fits without
    embedded configs, then configs restored greedily, best-ranked row first. */
module Budget {
  import opened Text
  import opened Rows
  import opened Ordering
  import opened Ranking
  import opened Feed
  import Csv

  // ---------- sizes ----------

  function HeaderSize(): nat {
    Utf8Size(Csv.WriteRecord(Header()))
  }

  function RowSize(r: Row): nat {
    Utf8Size(Csv.WriteRecord(Cells(r)))
  }

  function RowsSize(rows: seq<Row>): nat {
    if rows == [] then 0 else RowSize(rows[0]) + RowsSize(rows[1..])
  }

  /** `len(render_csv(rows))`. */
  function FeedSize(rows: seq<Row>): nat {
    Utf8Size(Render(rows))
  }

  lemma {:induction false} TableSize(rows: seq<Row>)
    ensures Utf8Size(Csv.Write(Table(rows))) == RowsSize(rows)
  {
    hide Cells, Csv.WriteRecord;
    if rows != [] {
      assert Table(rows)[1..] == Table(rows[1..]);
      TableSize(rows[1..]);
      Utf8SizeConcat(Csv.WriteRecord(Cells(rows[0])), Csv.Write(Table(rows[1..])));
    }
  }

  /** The file is its header and its rows, byte for byte. */
  lemma FeedSizeSum(rows: seq<Row>)
    ensures FeedSize(rows) == HeaderSize() + RowsSize(rows)
  {
    hide Header, Cells, Csv.WriteRecord, Table, Utf8Size;
    var all := [Header()] + Table(rows);
    assert all[0] == Header() && all[1..] == Table(rows);
    TableSize(rows);
    Utf8SizeConcat(Csv.WriteRecord(Header()), Csv.Write(Table(rows)));
  }

  lemma {:induction false} RowsSizeConcat(a: seq<Row>, b: seq<Row>)
    ensures RowsSize(a + b) == RowsSize(a) + RowsSize(b)
  {
    hide RowSize;
    if a == [] {
      assert a + b == b;
    } else {
      assert (a + b)[1..] == a[1..] + b;
      RowsSizeConcat(a[1..], b);
    }
  }

  lemma RowsSizeRemove(rows: seq<Row>, k: nat)
    requires k < |rows|
    ensures RowsSize(rows) == RowSize(rows[k]) + RowsSize(rows[..k] + rows[k + 1..])
  {
    hide RowSize;
    var tail := [rows[k]] + rows[k + 1..];
    RowsSizeConcat(rows[..k], rows[k + 1..]);
    RowsSizeConcat(rows[..k], tail);
    assert rows == rows[..k] + tail;
  }

  lemma FrontMoves(b: seq<Row>, k: nat)
    requires k < |b|
    ensures multiset([b[k]] + (b[..k] + b[k + 1..])) == multiset(b)
  {
    assert b == b[..k] + ([b[k]] + b[k + 1..]);
  }

  /** A permutation has the first row somewhere; without it, the rest remains. */
  lemma RestOf(a: seq<Row>, b: seq<Row>) returns (k: nat)
    requires a != [] && multiset(a) == multiset(b)
    ensures k < |b| && b[k] == a[0] && multiset(a[1..]) == multiset(b[..k] + b[k + 1..])
  {
    assert a[0] in multiset(b);
    k :| k < |b| && b[k] == a[0];
    var rest := b[..k] + b[k + 1..];
    FrontMoves(b, k);
    RestAgrees(a, [b[k]] + rest);
    assert ([b[k]] + rest)[1..] == rest;
  }

  /** The size does not depend on the order of the rows. */
  lemma {:induction false} RowsSizePermutation(a: seq<Row>, b: seq<Row>)
    requires multiset(a) == multiset(b)
    ensures RowsSize(a) == RowsSize(b)
  {
    hide RowSize;
    if a == [] {
      assert |multiset(b)| == 0;
    } else {
      var k := RestOf(a, b);
      RowsSizePermutation(a[1..], b[..k] + b[k + 1..]);
      RowsSizeRemove(b, k);
    }
  }

  /** Bytes of a row when only the cell in column `c` is told apart. */
  function OtherCellsSize(r: Row, c: Column): nat {
    Csv.FieldsSize(Cells(r)[..Position(c)]) + Csv.FieldsSize(Cells(r)[Position(c) + 1..])
  }

  lemma FieldsSizeSplit(fields: Csv.Record, i: nat)
    requires i < |fields|
    ensures Csv.FieldsSize(fields) ==
            Csv.FieldsSize(fields[..i]) + Utf8Size(Csv.WriteField(fields[i])) + 1 + Csv.FieldsSize(fields[i + 1..])
  {
    hide Csv.WriteField, Utf8Size;
    assert fields == fields[..i] + fields[i..];
    Csv.FieldsSizeConcat(fields[..i], fields[i..]);
  }

  lemma RowSizeSplit(r: Row, c: Column)
    ensures RowSize(r) == OtherCellsSize(r, c) + Utf8Size(Csv.WriteField(CellAt(r, c))) + 1
  {
    var fields, i := Cells(r), Position(c);
    assert fields[i] == CellAt(r, c) && fields != [""];
    hide Position, ColumnAt, CellAt, Cells, Csv.WriteField, Csv.WriteFields, Csv.FieldsSize, Utf8Size;
    FieldsSizeSplit(fields, i);
    Csv.WriteFieldsSize(fields);
  }

  lemma OtherCell(r: Row, s: Row, c: Column, j: nat)
    requires j < WIDTH && j != Position(c) && forall d: Column :: d != c ==> CellAt(r, d) == CellAt(s, d)
    ensures Cells(r)[j] == Cells(s)[j]
  {
    ColumnsInOrder(j);
    hide CellAt, ColumnAt, Position;
  }

  lemma OtherCellsAgree(r: Row, s: Row, c: Column)
    requires forall d: Column :: d != c ==> CellAt(r, d) == CellAt(s, d)
    ensures OtherCellsSize(r, c) == OtherCellsSize(s, c)
  {
    var a, b, i := Cells(r), Cells(s), Position(c);
    hide CellAt, Cells, Position;
    forall j: nat | j < WIDTH && j != i ensures a[j] == b[j] {
      OtherCell(r, s, c, j);
    }
    assert a[..i] == b[..i];
    assert a[i + 1..] == b[i + 1..];
  }

  // ---------- stripping configs ----------

  function Stripped(r: Row): Row {
    r.(config := "")
  }

  function StripConfigs(rows: seq<Row>): (out: seq<Row>)
    ensures |out| == |rows| && forall k :: 0 <= k < |rows| ==> out[k] == Stripped(rows[k])
  {
    seq(|rows|, k requires 0 <= k < |rows| => Stripped(rows[k]))
  }

  lemma Base64Char(c: char)
    requires IsBase64Char(c) || c == '='
    ensures c < '\U{0080}' && c != ',' && c != '"' && c != '\n'
  {
  }

  lemma Base64Cell(config: string)
    requires config == "" || ValidBase64(config)
    ensures Csv.WriteField(config) == config && Utf8Size(config) == |config|
  {
    hide IsBase64Char;
    forall i | 0 <= i < |config| ensures config[i] < '\U{0080}' && config[i] != ',' && config[i] != '"' && config[i] != '\n' {
      Base64Char(config[i]);
    }
    Utf8SizeAscii(config);
  }

  lemma EmptyCell()
    ensures Csv.WriteField("") == "" && Utf8Size("") == 0
  {
    Base64Cell("");
  }

  /** An embedded config costs exactly its length: its alphabet is ASCII and needs no quoting. */
  lemma ConfigCost(r: Row)
    requires r.config == "" || ValidBase64(r.config)
    ensures RowSize(r) == RowSize(Stripped(r)) + |r.config|
  {
    hide Csv.WriteField, Utf8Size, RowSize, OtherCellsSize, ValidBase64, ColumnAt, Cells;
    var s := Stripped(r);
    Base64Cell(r.config);
    EmptyCell();
    OtherCellsAgree(r, s, Config);
    RowSizeSplit(r, Config);
    RowSizeSplit(s, Config);
  }

  // ---------- the largest prefix that fits ----------

  /** What the binary search looks for: the longest stripped prefix within the budget, or none. */
  predicate IsLargestFit(stripped: seq<Row>, maxBytes: int, n: nat) {
    && n <= |stripped|
    && (n > 0 ==> FeedSize(stripped[..n]) <= maxBytes)
    && (forall m :: n < m <= |stripped| ==> FeedSize(stripped[..m]) > maxBytes)
  }

  function LargestFit(stripped: seq<Row>, maxBytes: int): (n: nat)
    ensures n <= |stripped|
  {
    if stripped == [] || FeedSize(stripped) <= maxBytes then |stripped|
    else LargestFit(stripped[..|stripped| - 1], maxBytes)
  }

  lemma {:induction false} LargestFitIsLargest(stripped: seq<Row>, maxBytes: int)
    ensures IsLargestFit(stripped, maxBytes, LargestFit(stripped, maxBytes))
  {
    hide FeedSize;
    assert stripped[..|stripped|] == stripped;
    if stripped != [] && FeedSize(stripped) > maxBytes {
      var init := stripped[..|stripped| - 1];
      LargestFitIsLargest(init, maxBytes);
      assert forall m :: 0 <= m <= |init| ==> init[..m] == stripped[..m];
    }
  }

  lemma PrefixSize(rows: seq<Row>, m: nat, n: nat)
    requires m <= n <= |rows|
    ensures FeedSize(rows[..m]) <= FeedSize(rows[..n])
  {
    hide FeedSize, RowSize, HeaderSize;
    FeedSizeSum(rows[..m]);
    FeedSizeSum(rows[..n]);
    RowsSizeConcat(rows[..m], rows[m..n]);
    assert rows[..n] == rows[..m] + rows[m..n];
  }

  // ---------- greedy restore ----------

  /** Which configs a best-first pass restores: each that still fits. */
  function Picks(configs: seq<string>, slack: int): (picks: seq<bool>)
    ensures |picks| == |configs|
  {
    if configs == [] then []
    else
      var fits := configs[0] != "" && |configs[0]| <= slack;
      [fits] + Picks(configs[1..], if fits then slack - |configs[0]| else slack)
  }

  /** Bytes of the chosen configs. */
  function Weight(configs: seq<string>, picks: seq<bool>): nat
    requires |picks| == |configs|
  {
    if configs == [] then 0 else (if picks[0] then |configs[0]| else 0) + Weight(configs[1..], picks[1..])
  }

  /** A choice of configs, present ones only, that fits the slack. */
  predicate Feasible(configs: seq<string>, picks: seq<bool>, slack: int) {
    && |picks| == |configs|
    && (forall i :: 0 <= i < |configs| && picks[i] ==> configs[i] != "")
    && Weight(configs, picks) <= slack
  }

  /** Where the choices first differ, `a` keeps the config. */
  predicate Prefers(a: seq<bool>, b: seq<bool>) {
    |a| == |b| && exists i :: 0 <= i < |a| && a[..i] == b[..i] && a[i] && !b[i]
  }

  lemma {:induction false} PicksFeasible(configs: seq<string>, slack: int)
    requires slack >= 0
    ensures Feasible(configs, Picks(configs, slack), slack)
  {
    if configs != [] {
      var fits := configs[0] != "" && |configs[0]| <= slack;
      var rest := if fits then slack - |configs[0]| else slack;
      PicksFeasible(configs[1..], rest);
      assert Picks(configs, slack)[1..] == Picks(configs[1..], rest);
      assert forall i :: 0 < i < |configs| ==> configs[i] == configs[1..][i - 1];
    }
  }

  lemma HeadAndTail(a: seq<bool>, i: nat)
    requires i < |a|
    ensures a[..i + 1] == [a[0]] + a[1..][..i]
  {
  }

  lemma PrefersTail(a: seq<bool>, b: seq<bool>)
    requires |a| == |b| > 0 && a[0] == b[0] && Prefers(a[1..], b[1..])
    ensures Prefers(a, b)
  {
    var i :| 0 <= i < |a[1..]| && a[1..][..i] == b[1..][..i] && a[1..][i] && !b[1..][i];
    HeadAndTail(a, i);
    HeadAndTail(b, i);
    assert a[..i + 1] == b[..i + 1];
    assert a[i + 1] && !b[i + 1];
  }

  /** Greedy is lexicographically greatest in rank order among all choices that fit. */
  lemma {:induction false} GreedyIsLexicographicallyGreatest(configs: seq<string>, slack: int, other: seq<bool>)
    requires Feasible(configs, other, slack)
    ensures other == Picks(configs, slack) || Prefers(Picks(configs, slack), other)
  {
    if configs == [] {
      assert other == Picks(configs, slack);
    } else {
      var g := Picks(configs, slack);
      var fits := configs[0] != "" && |configs[0]| <= slack;
      var rest := if fits then slack - |configs[0]| else slack;
      assert g == [fits] + Picks(configs[1..], rest) && g[1..] == Picks(configs[1..], rest);
      assert other == [other[0]] + other[1..];
      assert Weight(configs, other) == (if other[0] then |configs[0]| else 0) + Weight(configs[1..], other[1..]);
      if fits == other[0] {
        assert forall i :: 0 <= i < |configs[1..]| ==> configs[1..][i] == configs[i + 1] && other[1..][i] == other[i + 1];
        GreedyIsLexicographicallyGreatest(configs[1..], rest, other[1..]);
        if other[1..] != g[1..] {
          PrefersTail(g, other);
        }
      } else {
        assert g[..0] == other[..0] && g[0];
      }
    }
  }

  /** Every config left out is longer than the bytes left over at the end. */
  lemma {:induction false} GreedyIsMaximal(configs: seq<string>, slack: int, i: nat)
    requires i < |configs| && configs[i] != "" && !Picks(configs, slack)[i]
    ensures |configs[i]| > slack - Weight(configs, Picks(configs, slack))
  {
    var g := Picks(configs, slack);
    var rest := if g[0] then slack - |configs[0]| else slack;
    assert g[1..] == Picks(configs[1..], rest);
    if i > 0 {
      GreedyIsMaximal(configs[1..], rest, i - 1);
    }
  }

  // ---------- fit_budget as a function ----------

  function ConfigsOf(rows: seq<Row>): (configs: seq<string>)
    ensures |configs| == |rows| && forall k :: 0 <= k < |rows| ==> configs[k] == rows[k].config
  {
    seq(|rows|, k requires 0 <= k < |rows| => rows[k].config)
  }

  function Restore(rows: seq<Row>, picks: seq<bool>): (out: seq<Row>)
    requires |picks| == |rows|
    ensures |out| == |rows|
    ensures forall k :: 0 <= k < |rows| ==> out[k] == if picks[k] then rows[k] else Stripped(rows[k])
  {
    seq(|rows|, k requires 0 <= k < |rows| => if picks[k] then rows[k] else Stripped(rows[k]))
  }

  /** The top segment of the ranking that the budget keeps. */
  function Top(rows: seq<Row>, maxBytes: int): seq<Row> {
    var ranked := Sort(rows, Better);
    ranked[..LargestFit(StripConfigs(ranked), maxBytes)]
  }

  /** Bytes left for configs. */
  function Slack(rows: seq<Row>, maxBytes: int): int {
    maxBytes - FeedSize(StripConfigs(Top(rows, maxBytes)))
  }

  /** The configs restored on the top segment. */
  function Chosen(rows: seq<Row>, maxBytes: int): (picks: seq<bool>)
    ensures |picks| == |Top(rows, maxBytes)|
  {
    Picks(ConfigsOf(Top(rows, maxBytes)), Slack(rows, maxBytes))
  }

  function FitRows(rows: seq<Row>, maxBytes: int): (kept: seq<Row>) {
    Restore(Top(rows, maxBytes), Chosen(rows, maxBytes))
  }

  lemma SameTopSameFit(rows: seq<Row>, other: seq<Row>, maxBytes: int)
    requires Top(rows, maxBytes) == Top(other, maxBytes)
    ensures FitRows(rows, maxBytes) == FitRows(other, maxBytes)
  {
    hide Top, Picks, FeedSize, StripConfigs, Restore, ConfigsOf;
  }

  function Present(configs: seq<string>): nat {
    if configs == [] then 0 else Present(configs[..|configs| - 1]) + Bit(configs[|configs| - 1] != "")
  }

  predicate ConfigsValid(rows: seq<Row>) {
    forall k :: 0 <= k < |rows| ==> rows[k].config == "" || ValidBase64(rows[k].config)
  }

  lemma TailsOf(rows: seq<Row>, picks: seq<bool>)
    requires |picks| == |rows| > 0
    ensures ConfigsOf(rows)[1..] == ConfigsOf(rows[1..])
    ensures Restore(rows, picks)[1..] == Restore(rows[1..], picks[1..])
    ensures StripConfigs(rows)[1..] == StripConfigs(rows[1..])
  {
  }

  lemma {:induction false} RestoreSize(rows: seq<Row>, picks: seq<bool>)
    requires |picks| == |rows| && ConfigsValid(rows)
    ensures RowsSize(Restore(rows, picks)) == RowsSize(StripConfigs(rows)) + Weight(ConfigsOf(rows), picks)
  {
    hide RowSize, ValidBase64, StripConfigs, ConfigsOf, Restore;
    if rows == [] {
      assert Restore(rows, picks) == [] && StripConfigs(rows) == [];
    } else {
      ConfigCost(rows[0]);
      TailsOf(rows, picks);
      RestoreSize(rows[1..], picks[1..]);
    }
  }

  // ---------- what fit_budget promises ----------

  lemma ConfigsValidSorted(rows: seq<Row>)
    requires ConfigsValid(rows)
    ensures ConfigsValid(Sort(rows, Better))
  {
    hide ValidBase64;
    RankOrder();
    SortSorts(rows, Better);
    PermutationMembers(rows, Sort(rows, Better));
    forall k | 0 <= k < |Sort(rows, Better)|
      ensures Sort(rows, Better)[k].config == "" || ValidBase64(Sort(rows, Better)[k].config)
    {
      assert Sort(rows, Better)[k] in rows;
    }
  }

  /** The fitted file is exactly the stripped size of the kept rows plus the restored configs,
      in whatever order the rows are then written. */
  lemma FittedSize(rows: seq<Row>, maxBytes: int, written: seq<Row>)
    requires ConfigsValid(rows) && multiset(written) == multiset(FitRows(rows, maxBytes))
    ensures var top := Top(rows, maxBytes);
            FeedSize(written) == FeedSize(StripConfigs(top)) + Weight(ConfigsOf(top), Chosen(rows, maxBytes))
  {
    var top := Top(rows, maxBytes);
    ConfigsValidSorted(rows);
    hide FeedSize, HeaderSize, RowsSize, Better, Sort, LargestFit, Chosen, Weight, ValidBase64;
    RestoreSize(top, Chosen(rows, maxBytes));
    RowsSizePermutation(written, FitRows(rows, maxBytes));
    FeedSizeSum(written);
    FeedSizeSum(StripConfigs(top));
  }

  lemma FittedCount(rows: seq<Row>, maxBytes: int)
    ensures |FitRows(rows, maxBytes)| == |Top(rows, maxBytes)|
  {
    hide Top, Chosen;
  }

  lemma NoWeight(picks: seq<bool>)
    requires picks == []
    ensures Weight(ConfigsOf([]), picks) == 0
  {
  }

  lemma TopFits(rows: seq<Row>, maxBytes: int)
    requires Top(rows, maxBytes) != []
    ensures var top := Top(rows, maxBytes);
            FeedSize(StripConfigs(top)) + Weight(ConfigsOf(top), Chosen(rows, maxBytes)) <= maxBytes
  {
    hide FeedSize, Better, Sort, Weight, Picks, LargestFit;
    var top := Top(rows, maxBytes);
    var stripped := StripConfigs(Sort(rows, Better));
    LargestFitIsLargest(stripped, maxBytes);
    assert StripConfigs(top) == stripped[..|top|];
    PicksFeasible(ConfigsOf(top), Slack(rows, maxBytes));
  }

  /** The later size guard can fire only when nothing is kept and the header alone is too long. */
  lemma SizeGuard(rows: seq<Row>, maxBytes: int, written: seq<Row>)
    requires ConfigsValid(rows) && multiset(written) == multiset(FitRows(rows, maxBytes))
    ensures FeedSize(written) > maxBytes <==> written == [] && HeaderSize() > maxBytes
  {
    hide FeedSize, HeaderSize, Better, Sort, FitRows, Weight, Chosen, Top, ConfigsValid;
    var top := Top(rows, maxBytes);
    FittedSize(rows, maxBytes, written);
    assert |multiset(written)| == |written| == |FitRows(rows, maxBytes)|;
    FittedCount(rows, maxBytes);
    if top == [] {
      FeedSizeSum([]);
      NoWeight(Chosen(rows, maxBytes));
      assert StripConfigs(top) == [];
    } else {
      TopFits(rows, maxBytes);
    }
  }

  // ---------- the program ----------

  /** The binary search for the longest prefix that fits. */
  method SearchPrefix(ranked: seq<Row>, maxBytes: int) returns (lo: nat)
    ensures IsLargestFit(ranked, maxBytes, lo)
  {
    hide FeedSize;
    var hi := |ranked|;
    lo := 0;
    while lo < hi
      invariant 0 <= lo <= hi <= |ranked|
      invariant lo > 0 ==> FeedSize(ranked[..lo]) <= maxBytes
      invariant forall m :: hi < m <= |ranked| ==> FeedSize(ranked[..m]) > maxBytes
    {
      var mid := (lo + hi + 1) / 2;
      if FeedSize(ranked[..mid]) <= maxBytes {
        lo := mid;
      } else {
        forall m | mid <= m <= |ranked| ensures FeedSize(ranked[..m]) > maxBytes {
          PrefixSize(ranked, mid, m);
        }
        hi := mid - 1;
      }
    }
  }

  lemma PicksStep(configs: seq<string>, picks: seq<bool>, k: nat, remaining: int)
    requires |picks| == |configs| && k < |configs| && picks[k..] == Picks(configs[k..], remaining)
    ensures picks[k] == (configs[k] != "" && |configs[k]| <= remaining)
    ensures picks[k + 1..] == Picks(configs[k + 1..], if picks[k] then remaining - |configs[k]| else remaining)
  {
    assert configs[k..][0] == configs[k] && configs[k..][1..] == configs[k + 1..];
    assert picks[k..][0] == picks[k] && picks[k..][1..] == picks[k + 1..];
  }

  function Picked(picks: seq<bool>): nat {
    if picks == [] then 0 else Picked(picks[..|picks| - 1]) + Bit(picks[|picks| - 1])
  }

  lemma {:induction false} PresentRestored(top: seq<Row>, picks: seq<bool>)
    requires |picks| == |top| && forall k :: 0 <= k < |top| && picks[k] ==> top[k].config != ""
    ensures Present(ConfigsOf(Restore(top, picks))) == Picked(picks)
  {
    if top != [] {
      var n := |top| - 1;
      PresentRestored(top[..n], picks[..n]);
      var all := ConfigsOf(Restore(top, picks));
      assert all[n] == if picks[n] then top[n].config else "";
      hide Restore, Stripped;
      assert all[..n] == ConfigsOf(Restore(top[..n], picks[..n]));
    }
  }

  lemma NonePicked()
    ensures Picked([]) == 0
  {
  }

  lemma PickedStep(picks: seq<bool>, k: nat)
    requires k < |picks|
    ensures Picked(picks[..k + 1]) == Picked(picks[..k]) + Bit(picks[k])
  {
    assert picks[..k + 1][..k] == picks[..k];
  }

  lemma RestoredRow(r: Row, config: string)
    requires config == r.config
    ensures Stripped(r).(config := config) == r && Stripped(r).config == ""
  {
  }

  /** The greedy pass over the kept rows; `top` is the same rows before they were stripped. */
  method RestoreConfigs(stripped: seq<Row>, configs: seq<string>, slack: int, ghost top: seq<Row>)
    returns (kept: seq<Row>, restored: nat)
    requires stripped == StripConfigs(top) && configs == ConfigsOf(top)
    ensures kept == Restore(top, Picks(configs, slack))
    ensures restored == Present(ConfigsOf(kept))
  {
    hide Picks, Present, Picked, Stripped;
    ghost var picks := Picks(configs, slack);
    NonePicked();
    var remaining := slack;
    kept, restored := stripped, 0;
    for k := 0 to |stripped|
      invariant |kept| == |top|
      invariant forall j :: 0 <= j < |top| ==> kept[j] == if j < k && picks[j] then top[j] else Stripped(top[j])
      invariant picks[k..] == Picks(configs[k..], remaining)
      invariant restored == Picked(picks[..k])
      invariant forall j :: 0 <= j < k && picks[j] ==> top[j].config != ""
    {
      PicksStep(configs, picks, k, remaining);
      PickedStep(picks, k);
      RestoredRow(top[k], configs[k]);
      if configs[k] != "" && |configs[k]| <= remaining {
        kept := kept[k := kept[k].(config := configs[k])];
        remaining := remaining - |configs[k]|;
        restored := restored + 1;
      }
    }
    assert picks[..|top|] == picks;
    PresentRestored(top, picks);
    assert kept == Restore(top, picks);
  }

  method CountConfigs(configs: seq<string>) returns (present: nat)
    ensures present == Present(configs)
  {
    present := 0;
    for k := 0 to |configs|
      invariant present == Present(configs[..k])
    {
      assert configs[..k + 1][..k] == configs[..k];
      if configs[k] != "" {
        present := present + 1;
      }
    }
    assert configs[..|configs|] == configs;
  }

  method StripRanked(original: seq<Row>) returns (ranked: seq<Row>, configs: seq<string>)
    ensures ranked == StripConfigs(original) && configs == ConfigsOf(original)
  {
    configs := [];
    for k := 0 to |original|
      invariant |configs| == k && forall j :: 0 <= j < k ==> configs[j] == original[j].config
    {
      configs := configs + [original[k].config];
    }
    ranked := original;
    for k := 0 to |ranked|
      invariant |ranked| == |original|
      invariant forall j :: 0 <= j < |ranked| ==> ranked[j] == if j < k then Stripped(original[j]) else original[j]
    {
      ranked := ranked[k := ranked[k].(config := "")];
    }
  }

  /** The search's result fixes the top segment and what is left for configs. */
  lemma TopIs(rows: seq<Row>, maxBytes: int, lo: nat)
    requires IsLargestFit(StripConfigs(Sort(rows, Better)), maxBytes, lo)
    ensures var original, top := Sort(rows, Better), Top(rows, maxBytes);
            && lo <= |StripConfigs(original)| && lo <= |ConfigsOf(original)|
            && StripConfigs(original)[..lo] == StripConfigs(top) && ConfigsOf(original)[..lo] == ConfigsOf(top)
            && FitRows(rows, maxBytes) == Restore(top, Picks(ConfigsOf(top), maxBytes - FeedSize(StripConfigs(top))))
  {
    hide FeedSize, Better, Sort, LargestFit, Picks;
    var original := Sort(rows, Better);
    LargestFitIsLargest(StripConfigs(original), maxBytes);
    assert lo == LargestFit(StripConfigs(original), maxBytes);
  }

  /** `fit_budget`: copies the ranked rows without configs, searches, then writes configs back. */
  method FitBudget(rows: seq<Row>, maxBytes: int) returns (kept: seq<Row>, restored: nat, stripped: nat)
    ensures kept == FitRows(rows, maxBytes)
    ensures restored == Present(ConfigsOf(kept))
    ensures restored + stripped == Present(ConfigsOf(Top(rows, maxBytes)))
  {
    hide FeedSize, Better, Sort, LargestFit, Picks, FitRows, Top, StripConfigs, ConfigsOf, Restore, Present, Chosen;
    var original := Sort(rows, Better);
    var ranked, configs := StripRanked(original);
    var lo := SearchPrefix(ranked, maxBytes);
    ghost var top := Top(rows, maxBytes);
    TopIs(rows, maxBytes, lo);
    var best, slack := ranked[..lo], maxBytes - FeedSize(ranked[..lo]);
    kept, restored := RestoreConfigs(best, configs[..lo], slack, top);
    var present := CountConfigs(configs[..lo]);
    RestoredCount(top, Picks(ConfigsOf(top), slack));
    stripped := present - restored;
  }

  lemma {:induction false} RestoredCount(rows: seq<Row>, picks: seq<bool>)
    requires |picks| == |rows|
    ensures Present(ConfigsOf(Restore(rows, picks))) <= Present(ConfigsOf(rows))
  {
    if rows != [] {
      var n := |rows| - 1;
      assert ConfigsOf(Restore(rows, picks))[..n] == ConfigsOf(Restore(rows[..n], picks[..n]));
      assert ConfigsOf(rows)[..n] == ConfigsOf(rows[..n]);
      RestoredCount(rows[..n], picks[..n]);
    }
  }
}
