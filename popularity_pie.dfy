/**
 * The genre-popularity pie (KPI 4): order the per-genre totals from the most
 * to the least popular, keep the first six as slices of their own and lump
 * every remaining genre into one final "Otros" slice.
 *
 * Popularity values are exact `real`s here; the order of genres whose totals
 * tie is left open, so the lemmas speak about every admissible order.
 */
module PopularityPie {

  /** One row of the per-genre view: a genre name and its summed popularity. */
  datatype Slice = Slice(genreName: string, totalPopularity: real)

  /** How many genres keep a slice of their own. */
  const TopN: nat := 6

  /** The label of the slice that gathers the rest. */
  const OthersLabel: string := "Otros"

  /** The sum of the popularity column. */
  function Sum(s: seq<Slice>): real
    decreases |s|
  {
    if s == [] then 0.0 else s[0].totalPopularity + Sum(s[1..])
  }

  /** The popularity column, in row order. */
  function Pops(s: seq<Slice>): (r: seq<real>)
    decreases |s|
  {
    if s == [] then [] else [s[0].totalPopularity] + Pops(s[1..])
  }

  /** Each row is at least as popular as the row after it. */
  predicate Descending(s: seq<Slice>) {
    forall i :: 0 < i < |s| ==> s[i - 1].totalPopularity >= s[i].totalPopularity
  }

  /** `sorted` is the input rearranged in descending order of popularity (ties in any order). */
  predicate SortedByPopularity(input: seq<Slice>, sorted: seq<Slice>) {
    multiset(sorted) == multiset(input) && Descending(sorted)
  }

  /** The number of slices kept on their own: the head of at most `TopN` rows. */
  function Kept(n: nat): (k: nat)
    ensures k <= n && k <= TopN && (k == n || k == TopN)
  {
    if n < TopN then n else TopN
  }

  /** The pie's data for an already ordered table: its head, then the "Otros" row holding the tail's sum. */
  function PieData(sorted: seq<Slice>): seq<Slice> {
    var k := Kept(|sorted|);
    sorted[..k] + [Slice(OthersLabel, Sum(sorted[k..]))]
  }

  /** Places `x` before the first row it is at least as popular as. */
  function Insert(x: Slice, s: seq<Slice>): (r: seq<Slice>)
    ensures multiset(r) == multiset(s) + multiset{x}
    ensures |r| == |s| + 1 && (r[0] == x || (s != [] && r[0] == s[0]))
    ensures Descending(s) ==> Descending(r)
    decreases |s|
  {
    if s == [] || x.totalPopularity >= s[0].totalPopularity then [x] + s
    else
      assert s == [s[0]] + s[1..];
      [s[0]] + Insert(x, s[1..])
  }

  /** One admissible descending order of the table (the one the model fixes for `Kpi4Pie`). */
  function SortByPopularity(s: seq<Slice>): (r: seq<Slice>)
    ensures SortedByPopularity(s, r)
    decreases |s|
  {
    if s == [] then []
    else
      assert s == [s[0]] + s[1..];
      Insert(s[0], SortByPopularity(s[1..]))
  }

  /** The whole pipeline: order, keep the top six, lump the rest. */
  function Kpi4Pie(input: seq<Slice>): seq<Slice> {
    PieData(SortByPopularity(input))
  }

  // ---------------------------------------------------------------- sums

  lemma {:induction false} SumAppend(a: seq<Slice>, b: seq<Slice>)
    ensures Sum(a + b) == Sum(a) + Sum(b)
    decreases |a|
  {
    if a == [] {
      assert a + b == b;
    } else {
      assert (a + b)[1..] == a[1..] + b;
      SumAppend(a[1..], b);
    }
  }

  /** Taking row `j` out of a table takes its value out of the sum. */
  lemma SumRemove(b: seq<Slice>, j: nat)
    requires j < |b|
    ensures Sum(b) == Sum(b[..j] + b[j + 1..]) + b[j].totalPopularity
  {
    assert b == b[..j] + ([b[j]] + b[j + 1..]);
    SumAppend(b[..j], [b[j]] + b[j + 1..]);
    assert ([b[j]] + b[j + 1..])[1..] == b[j + 1..];
    SumAppend(b[..j], b[j + 1..]);
  }

  /** Taking row `j` out of a table takes it out of the table's multiset. */
  lemma RowRemove(b: seq<Slice>, j: nat)
    requires j < |b|
    ensures multiset(b[..j] + b[j + 1..]) == multiset(b) - multiset{b[j]}
  {
    assert b == b[..j] + [b[j]] + b[j + 1..];
  }

  /** The first row of `a` sits at some position `j` of its rearrangement `b`; the rest match. */
  lemma MatchFirst(a: seq<Slice>, b: seq<Slice>) returns (j: nat)
    requires multiset(a) == multiset(b) && a != []
    ensures j < |b| && b[j] == a[0]
    ensures multiset(a[1..]) == multiset(b[..j] + b[j + 1..])
  {
    assert a[0] in multiset(b);
    j :| 0 <= j < |b| && b[j] == a[0];
    RowRemove(b, j);
    assert a == [a[0]] + a[1..];
    assert multiset(a[1..]) == multiset(a) - multiset{a[0]};
  }

  /** Rearranging the rows does not change the column's sum. */
  lemma {:induction false} SumPermutation(a: seq<Slice>, b: seq<Slice>)
    requires multiset(a) == multiset(b)
    ensures Sum(a) == Sum(b)
    decreases |a|
  {
    if a == [] {
      assert |b| == |multiset(b)| == 0;
    } else {
      var j := MatchFirst(a, b);
      SumPermutation(a[1..], b[..j] + b[j + 1..]);
      SumRemove(b, j);
    }
  }

  /** The sum depends on the popularity column alone. */
  lemma {:induction false} SumByPops(a: seq<Slice>, b: seq<Slice>)
    requires Pops(a) == Pops(b)
    ensures Sum(a) == Sum(b)
    decreases |a|
  {
    if a != [] {
      assert Pops(a)[0] == Pops(b)[0] && Pops(a)[1..] == Pops(b)[1..];
      SumByPops(a[1..], b[1..]);
    }
  }

  // ---------------------------------------------------------------- order

  /** The adjacent order extends to every pair of positions. */
  lemma {:induction false} DescendingPairwise(s: seq<Slice>, i: nat, j: nat)
    requires Descending(s) && i <= j < |s|
    ensures s[i].totalPopularity >= s[j].totalPopularity
    decreases j - i
  {
    if i < j {
      DescendingPairwise(s, i, j - 1);
    }
  }

  lemma {:induction false} PopsAppend(a: seq<Slice>, b: seq<Slice>)
    ensures Pops(a + b) == Pops(a) + Pops(b)
    decreases |a|
  {
    if a == [] {
      assert a + b == b;
    } else {
      assert (a + b)[1..] == a[1..] + b;
      PopsAppend(a[1..], b);
    }
  }

  lemma {:induction false} PopsAt(s: seq<Slice>, i: nat)
    requires i < |s|
    ensures |Pops(s)| == |s| && Pops(s)[i] == s[i].totalPopularity
    decreases i
  {
    PopsLength(s);
    if i > 0 {
      PopsAt(s[1..], i - 1);
    }
  }

  /** The popularity column of a table with one row `x` between two runs. */
  lemma PopsAround(p: seq<Slice>, x: Slice, q: seq<Slice>)
    ensures Pops(p + ([x] + q)) == Pops(p) + ([x.totalPopularity] + Pops(q))
  {
    PopsAppend(p, [x] + q);
    PopsCons(x, q);
  }

  lemma PopsCons(x: Slice, q: seq<Slice>)
    ensures Pops([x] + q) == [x.totalPopularity] + Pops(q)
  {
    assert ([x] + q)[1..] == q;
  }

  /** A value placed between two runs adds exactly one occurrence of it. */
  lemma MultisetAround(p: seq<real>, v: real, q: seq<real>)
    ensures multiset(p + ([v] + q)) == multiset(p + q) + multiset{v}
  {
  }

  /** Taking row `j` out of a table takes its value out of the popularity column. */
  lemma PopsRemove(b: seq<Slice>, j: nat)
    requires j < |b|
    ensures multiset(Pops(b)) == multiset(Pops(b[..j] + b[j + 1..])) + multiset{b[j].totalPopularity}
  {
    var p, x, q := b[..j], b[j], b[j + 1..];
    assert b == p + ([x] + q);
    PopsAround(p, x, q);
    PopsAppend(p, q);
    MultisetAround(Pops(p), x.totalPopularity, Pops(q));
  }

  /** Rearranging the rows rearranges the popularity column the same way. */
  lemma {:induction false} PopsPermutation(a: seq<Slice>, b: seq<Slice>)
    requires multiset(a) == multiset(b)
    ensures multiset(Pops(a)) == multiset(Pops(b))
    decreases |a|
  {
    if a == [] {
      assert |b| == |multiset(b)| == 0;
    } else {
      var j := MatchFirst(a, b);
      PopsPermutation(a[1..], b[..j] + b[j + 1..]);
      PopsRemove(b, j);
      PopsRemove(a, 0);
      assert a[..0] + a[1..] == a[1..];
    }
  }

  /** In a descending table no popularity value exceeds the first row's. */
  lemma HeadIsLargest(s: seq<Slice>, v: real)
    requires Descending(s) && v in multiset(Pops(s))
    ensures s != [] && v <= s[0].totalPopularity
  {
    PopsLength(s);
    var j :| 0 <= j < |Pops(s)| && Pops(s)[j] == v;
    PopsAt(s, j);
    DescendingPairwise(s, 0, j);
  }

  lemma {:induction false} PopsLength(s: seq<Slice>)
    ensures |Pops(s)| == |s|
    decreases |s|
  {
    if s != [] {
      PopsLength(s[1..]);
    }
  }

  /** Two descending tables with the same popularity values start with the same value. */
  lemma SameHead(x: seq<Slice>, y: seq<Slice>)
    requires Descending(x) && Descending(y) && x != [] && y != []
    requires multiset(Pops(x)) == multiset(Pops(y))
    ensures x[0].totalPopularity == y[0].totalPopularity
  {
    assert Pops(x)[0] == x[0].totalPopularity && Pops(y)[0] == y[0].totalPopularity;
    assert Pops(x)[0] in multiset(Pops(y));
    HeadIsLargest(y, x[0].totalPopularity);
    assert Pops(y)[0] in multiset(Pops(x));
    HeadIsLargest(x, y[0].totalPopularity);
  }

  /** Once equal first values are set aside, the remaining values agree too. */
  lemma SameTail(x: seq<Slice>, y: seq<Slice>)
    requires x != [] && y != [] && x[0].totalPopularity == y[0].totalPopularity
    requires multiset(Pops(x)) == multiset(Pops(y))
    ensures multiset(Pops(x[1..])) == multiset(Pops(y[1..]))
  {
    var h := x[0].totalPopularity;
    assert Pops(x) == [h] + Pops(x[1..]);
    assert multiset(Pops(x[1..])) == multiset(Pops(x)) - multiset{h};
    assert Pops(y) == [h] + Pops(y[1..]);
    assert multiset(Pops(y[1..])) == multiset(Pops(y)) - multiset{h};
  }

  lemma DescendingTail(s: seq<Slice>)
    requires Descending(s) && s != []
    ensures Descending(s[1..])
  {
    forall i | 0 < i < |s[1..]|
      ensures s[1..][i - 1].totalPopularity >= s[1..][i].totalPopularity
    {
      assert s[1..][i - 1] == s[i] && s[1..][i] == s[i + 1];
    }
  }

  /** Two descending tables with the same popularity values have the same popularity column. */
  lemma {:induction false} DescendingPopsUnique(x: seq<Slice>, y: seq<Slice>)
    requires Descending(x) && Descending(y)
    requires multiset(Pops(x)) == multiset(Pops(y))
    ensures Pops(x) == Pops(y)
    decreases |x|
  {
    PopsLength(x);
    PopsLength(y);
    assert |y| == |multiset(Pops(y))| == |multiset(Pops(x))| == |x|;
    if x != [] {
      SameHead(x, y);
      SameTail(x, y);
      DescendingTail(x);
      DescendingTail(y);
      DescendingPopsUnique(x[1..], y[1..]);
    }
  }

  // ---------------------------------------------------------------- the pie

  /**
   * The pie has `min(n, 6) + 1` slices: the first `min(n, 6)` rows of the
   * order, then "Otros" holding the sum of the rest, which is 0 when every
   * row was kept.
   */
  lemma PieShape(sorted: seq<Slice>)
    ensures var r, k := PieData(sorted), Kept(|sorted|);
            |r| == k + 1 && r[..k] == sorted[..k] &&
            r[k].genreName == OthersLabel && r[k].totalPopularity == Sum(sorted[k..])
    ensures |sorted| <= TopN ==> PieData(sorted) == sorted + [Slice(OthersLabel, 0.0)]
  {
    var k := Kept(|sorted|);
    assert (sorted[..k] + [Slice(OthersLabel, Sum(sorted[k..]))])[..k] == sorted[..k];
    if |sorted| <= TopN {
      assert sorted[..k] == sorted && sorted[k..] == [];
    }
  }

  /** The slices add up to the table's total: lumping loses and invents nothing. */
  lemma PieConservesTotal(input: seq<Slice>, sorted: seq<Slice>)
    requires SortedByPopularity(input, sorted)
    ensures Sum(PieData(sorted)) == Sum(input)
  {
    var k := Kept(|sorted|);
    var others := Slice(OthersLabel, Sum(sorted[k..]));
    SumAppend(sorted[..k], [others]);
    assert [others][1..] == [];
    assert sorted == sorted[..k] + sorted[k..];
    SumAppend(sorted[..k], sorted[k..]);
    SumPermutation(sorted, input);
  }

  /** Every kept slice is at least as popular as every row lumped into "Otros". */
  lemma PieKeptDominateLumped(sorted: seq<Slice>)
    requires Descending(sorted)
    ensures forall i, j :: 0 <= i < Kept(|sorted|) <= j < |sorted| ==>
              PieData(sorted)[i].totalPopularity >= sorted[j].totalPopularity
  {
    forall i, j | 0 <= i < Kept(|sorted|) <= j < |sorted|
      ensures PieData(sorted)[i].totalPopularity >= sorted[j].totalPopularity
    {
      DescendingPairwise(sorted, i, j);
    }
  }

  /** The kept slices are rows of the input, none repeated beyond its multiplicity. */
  lemma PieKeptFromInput(input: seq<Slice>, sorted: seq<Slice>)
    requires SortedByPopularity(input, sorted)
    ensures multiset(PieData(sorted)[..Kept(|sorted|)]) <= multiset(input)
  {
    var k := Kept(|sorted|);
    PieShape(sorted);
    assert sorted == sorted[..k] + sorted[k..];
  }

  /**
   * However ties are broken, the pie's values come out the same: same number
   * of slices, same popularity per position, same "Otros" total.  (Which of
   * two tied genres gets the sixth slice is what the order decides.)
   */
  lemma PieValuesIndependentOfTies(input: seq<Slice>, a: seq<Slice>, b: seq<Slice>)
    requires SortedByPopularity(input, a) && SortedByPopularity(input, b)
    ensures Pops(PieData(a)) == Pops(PieData(b))
  {
    PopsPermutation(a, b);
    DescendingPopsUnique(a, b);
    assert |a| == |multiset(a)| == |multiset(b)| == |b|;
    var k := Kept(|a|);
    PopsSplit(a, k);
    PopsSplit(b, k);
    SumByPops(a[k..], b[k..]);
    PieDataPops(a);
    PieDataPops(b);
  }

  /** The popularity column of a head and of a tail of the table. */
  lemma PopsSplit(s: seq<Slice>, k: nat)
    requires k <= |s|
    ensures |Pops(s)| == |s|
    ensures Pops(s[..k]) == Pops(s)[..k] && Pops(s[k..]) == Pops(s)[k..]
  {
    assert s == s[..k] + s[k..];
    PopsAppend(s[..k], s[k..]);
    PopsLength(s[..k]);
    PopsLength(s);
  }

  /** The pie's values: the kept rows' values, then the tail's sum. */
  lemma PieDataPops(s: seq<Slice>)
    ensures Pops(PieData(s)) == Pops(s[..Kept(|s|)]) + [Sum(s[Kept(|s|)..])]
  {
    var k := Kept(|s|);
    var o := Slice(OthersLabel, Sum(s[k..]));
    PopsAppend(s[..k], [o]);
    assert Pops([o]) == [o.totalPopularity];
  }

  /** The pipeline on any table: its shape, its total, and agreement with every admissible order. */
  lemma Kpi4PieFacts(input: seq<Slice>, sorted: seq<Slice>)
    requires SortedByPopularity(input, sorted)
    ensures |Kpi4Pie(input)| == Kept(|input|) + 1
    ensures Kpi4Pie(input)[Kept(|input|)].genreName == OthersLabel
    ensures Sum(Kpi4Pie(input)) == Sum(input)
    ensures Pops(Kpi4Pie(input)) == Pops(PieData(sorted))
  {
    var s := SortByPopularity(input);
    assert |s| == |multiset(s)| == |multiset(input)| == |input|;
    PieShape(s);
    PieConservesTotal(input, s);
    PieValuesIndependentOfTies(input, s, sorted);
  }
}
