/**
 * The normalised Mann-Whitney statistic: computed from a rank sum with averaged tie ranks, defined
 * as the share of pairs in which the first sample wins, ties counting one half.
 */
module MannWhitney {
  import opened StableSort

  type Sample = seq<nat>

  // ---------------------------------------------------------------------------------------------
  // The reference: comparing every pair.
  // ---------------------------------------------------------------------------------------------

  /** What `x` scores against `y`. */
  function Win(x: nat, y: nat): real { if x > y then 1.0 else if x == y then 0.5 else 0.0 }

  /** What `x` scores against a sample. */
  function Score(x: nat, s: Sample): real { if s == [] then 0.0 else Score(x, s[..|s| - 1]) + Win(x, s[|s| - 1]) }

  /** What a sample scores against another: pairs won plus half the pairs tied. */
  function Total(a: Sample, b: Sample): real { if a == [] then 0.0 else Total(a[..|a| - 1], b) + Score(a[|a| - 1], b) }

  function Reference(a: Sample, b: Sample): real {
    if a == [] || b == [] then 0.5 else Total(a, b) / (|a| as real * |b| as real)
  }

  lemma {:induction false} ScoreConcat(x: nat, a: Sample, b: Sample)
    ensures Score(x, a + b) == Score(x, a) + Score(x, b)
  {
    if b == [] {
      assert a + b == a;
    } else {
      assert (a + b)[..|a + b| - 1] == a + b[..|b| - 1];
      ScoreConcat(x, a, b[..|b| - 1]);
    }
  }

  lemma {:induction false} TotalSplits(a: Sample, b: Sample, c: Sample)
    ensures Total(a, b + c) == Total(a, b) + Total(a, c)
  {
    if a != [] {
      TotalSplits(a[..|a| - 1], b, c);
      ScoreConcat(a[|a| - 1], b, c);
    }
  }

  /** Every pair is won, lost or halved: the two scores of `x` against `s` add up to its size. */
  lemma {:induction false} PairsShared(s: Sample, x: nat)
    ensures Total(s, [x]) + Score(x, s) == |s| as real
  {
    if s != [] {
      var n := |s| - 1;
      PairsShared(s[..n], x);
      assert [x][..0] == [];
      assert Score(s[n], [x]) == Win(s[n], x);
    }
  }

  /** A sample against itself wins half of all pairs. */
  lemma {:induction false} SelfTotal(a: Sample)
    ensures Total(a, a) == (|a| as real) * (|a| as real) / 2.0
  {
    if a != [] {
      var n := |a| - 1;
      var rest, x := a[..n], a[n];
      assert a == rest + [x];
      SelfTotal(rest);
      TotalSplits(rest, rest, [x]);
      ScoreConcat(x, rest, [x]);
      PairsShared(rest, x);
      assert [x][..0] == [];
      assert Score(x, [x]) == 0.5;
      Square(n);
    }
  }

  lemma Square(n: nat)
    ensures (n + 1) as real * (n + 1) as real / 2.0 == n as real * n as real / 2.0 + n as real + 0.5
  {
    var r := n as real;
    assert (n + 1) as real == r + 1.0;
    assert (r + 1.0) * (r + 1.0) == r * r + 2.0 * r + 1.0;
  }

  lemma {:induction false} TotalsAddUp(a: Sample, b: Sample)
    ensures Total(a, b) + Total(b, a) == |a| as real * |b| as real
  {
    if a == [] {
      EmptyOpponent(b);
    } else {
      var n := |a| - 1;
      assert a == a[..n] + [a[n]];
      TotalsAddUp(a[..n], b);
      TotalSplits(b, a[..n], [a[n]]);
      PairsShared(b, a[n]);
    }
  }

  lemma {:induction false} EmptyOpponent(b: Sample)
    ensures Total(b, []) == 0.0
  {
    if b != [] { EmptyOpponent(b[..|b| - 1]); }
  }

  lemma {:induction false} TotalNotNegative(a: Sample, b: Sample)
    ensures Total(a, b) >= 0.0
  {
    if a != [] {
      TotalNotNegative(a[..|a| - 1], b);
      ScoreNotNegative(a[|a| - 1], b);
    }
  }

  lemma {:induction false} ScoreNotNegative(x: nat, s: Sample)
    ensures Score(x, s) >= 0.0
  {
    if s != [] { ScoreNotNegative(x, s[..|s| - 1]); }
  }

  /** The statistic lies between 0 and 1 and the two directions add up to 1. */
  lemma Range(a: Sample, b: Sample)
    ensures 0.0 <= Reference(a, b) <= 1.0
    ensures Reference(a, b) + Reference(b, a) == 1.0
  {
    TotalsAddUp(a, b);
    TotalNotNegative(a, b);
    TotalNotNegative(b, a);
    if a != [] && b != [] { Shares(Total(a, b), Total(b, a), |a| as real * |b| as real); Positive(|a|, |b|); }
  }

  lemma Positive(n: nat, m: nat)
    requires n > 0 && m > 0
    ensures n as real * m as real > 0.0 && m as real * n as real == n as real * m as real
  {
  }

  lemma Shares(p: real, q: real, all: real)
    requires p >= 0.0 && q >= 0.0 && p + q == all && all > 0.0
    ensures 0.0 <= p / all <= 1.0 && p / all + q / all == 1.0
  {
    assert p / all + q / all == (p + q) / all;
  }

  // ---------------------------------------------------------------------------------------------
  // Ranks.
  // ---------------------------------------------------------------------------------------------

  /** A value, and which sample it comes from: 0 is the first. */
  type Tagged = Keyed<nat>

  function Values(c: seq<Tagged>): (r: Sample)
    ensures |r| == |c|
  {
    seq(|c|, i requires 0 <= i < |c| => c[i].key)
  }

  /** Sum over the first sample's elements of their averaged ranks among `all`. */
  function RankSum(c: seq<Tagged>, all: Sample): real {
    if c == [] then 0.0
    else
      var last := c[|c| - 1];
      RankSum(c[..|c| - 1], all) + RankOf(last, all)
  }

  /** What one element adds to the rank sum of the first sample. */
  function RankOf(t: Tagged, all: Sample): real { if t.item == 0 then Score(t.key, all) + 0.5 else 0.0 }

  /** Inserting changes no score and no rank sum beyond the new element's own. */
  lemma {:induction false} InsertSums(c: seq<Tagged>, t: Tagged, x: nat, all: Sample)
    ensures Score(x, Values(Insert(c, t))) == Score(x, Values(c + [t]))
    ensures RankSum(Insert(c, t), all) == RankSum(c + [t], all)
  {
    assert (c + [t])[..|c|] == c;
    assert Values(c + [t]) == Values(c) + [t.key];
    ScoreConcat(x, Values(c), [t.key]);
    if c != [] && c[|c| - 1].key > t.key {
      var n := |c| - 1;
      var rest, last := c[..n], c[n];
      InsertSums(rest, t, x, all);
      assert (rest + [t])[..n] == rest && c == rest + [last];
      assert Insert(c, t)[..|c|] == Insert(rest, t);
      assert Values(Insert(c, t)) == Values(Insert(rest, t)) + [last.key];
      assert Values(rest + [t]) == Values(rest) + [t.key] && Values(c) == Values(rest) + [last.key];
      ScoreConcat(x, Values(Insert(rest, t)), [last.key]);
      ScoreConcat(x, Values(rest), [t.key]);
      ScoreConcat(x, Values(rest), [last.key]);
    }
  }

  lemma InsertMore(c: seq<Tagged>, t: Tagged, x: nat, all: Sample)
    ensures Score(x, Values(Insert(c, t))) == Score(x, Values(c)) + Score(x, [t.key])
    ensures RankSum(Insert(c, t), all) == RankSum(c, all) + RankOf(t, all)
  {
    InsertSums(c, t, x, all);
    OneMore(c, t, x, all);
  }

  /** Sorting changes no score and no rank sum. */
  lemma {:induction false} SortSums(c: seq<Tagged>, x: nat, all: Sample)
    ensures Score(x, Values(Sort(c))) == Score(x, Values(c))
    ensures RankSum(Sort(c), all) == RankSum(c, all)
  {
    if c != [] {
      var rest, t := c[..|c| - 1], c[|c| - 1];
      SortSums(rest, x, all);
      InsertMore(Sort(rest), t, x, all);
      OneMore(rest, t, x, all);
      assert c == rest + [t] && Sort(c) == Insert(Sort(rest), t);
    } else {
      assert Sort(c) == c;
    }
  }

  lemma OneMore(c: seq<Tagged>, t: Tagged, x: nat, all: Sample)
    ensures Score(x, Values(c + [t])) == Score(x, Values(c)) + Score(x, [t.key])
    ensures RankSum(c + [t], all) == RankSum(c, all) + RankOf(t, all)
  {
    assert (c + [t])[..|c|] == c;
    assert Values(c + [t]) == Values(c) + [t.key];
    ScoreConcat(x, Values(c), [t.key]);
  }

  /** A rank sum depends on the whole sample only through the scores against it. */
  lemma {:induction false} RankSumDepends(c: seq<Tagged>, all: Sample, other: Sample)
    requires forall x: nat :: Score(x, all) == Score(x, other)
    ensures RankSum(c, all) == RankSum(c, other)
  {
    if c != [] { RankSumDepends(c[..|c| - 1], all, other); }
  }

  /** Positions `i` to `j` hold exactly the elements equal to the one at `i`. */
  ghost predicate TieRun(c: seq<Tagged>, i: nat, j: nat) {
    && i <= j < |c|
    && (forall k :: 0 <= k < i ==> c[k].key < c[i].key)
    && (forall k :: i <= k <= j ==> c[k].key == c[i].key)
    && (forall k :: j < k < |c| ==> c[i].key < c[k].key)
  }

  lemma {:induction false} RunPrefix(c: seq<Tagged>, i: nat, j: nat, m: nat)
    requires TieRun(c, i, j) && m <= |c|
    ensures Score(c[i].key, Values(c)[..m]) ==
            if m <= i then m as real else if m <= j + 1 then (i + m) as real / 2.0 else (i + j + 1) as real / 2.0
  {
    if m > 0 {
      RunPrefix(c, i, j, m - 1);
      assert Values(c)[..m][..m - 1] == Values(c)[..m - 1];
    }
  }

  /** The averaged rank given to a run of ties is what the tied value scores against everyone, plus a half. */
  lemma RunRank(c: seq<Tagged>, i: nat, j: nat)
    requires TieRun(c, i, j)
    ensures (i + j) as real / 2.0 + 1.0 == Score(c[i].key, Values(c)) + 0.5
  {
    RunPrefix(c, i, j, |c|);
    assert Values(c)[..|c|] == Values(c);
  }

  function Tag(s: Sample, side: nat): (r: seq<Tagged>)
    ensures |r| == |s|
  {
    seq(|s|, i requires 0 <= i < |s| => Keyed(s[i], side))
  }

  lemma {:induction false} TaggedSum(a: Sample, b: Sample, all: Sample)
    ensures RankSum(Tag(a, 0) + Tag(b, 1), all) == Total(a, all) + |a| as real / 2.0
  {
    var c := Tag(a, 0) + Tag(b, 1);
    if b != [] {
      assert c[..|c| - 1] == Tag(a, 0) + Tag(b[..|b| - 1], 1);
      TaggedSum(a, b[..|b| - 1], all);
    } else if a != [] {
      assert c[..|c| - 1] == Tag(a[..|a| - 1], 0) + Tag(b, 1);
      TaggedSum(a[..|a| - 1], b, all);
    }
  }

  /** The rank sum of the sorted pool: all pairs within `a`, all pairs against `b`, and a half per element. */
  lemma PooledSum(a: Sample, b: Sample)
    ensures var sorted := Sort(Tag(a, 0) + Tag(b, 1));
            RankSum(sorted, Values(sorted)) == Total(a, b) + |a| as real * (|a| as real + 1.0) / 2.0
  {
    var c := Tag(a, 0) + Tag(b, 1);
    assert Values(c) == a + b;
    forall x: nat ensures Score(x, Values(Sort(c))) == Score(x, a + b) { SortSums(c, x, a + b); }
    SortSums(c, 0, a + b);
    RankSumDepends(Sort(c), Values(Sort(c)), a + b);
    TaggedSum(a, b, a + b);
    TotalSplits(a, a, b);
    SelfTotal(a);
    var n := |a| as real;
    assert n * (n + 1.0) == n * n + n;
  }

  /** Give every element of the sorted pool its rank, tied elements the average of their positions. */
  method AverageRanks(c: seq<Tagged>) returns (ranks: array<real>)
    requires Ascending(c)
    ensures fresh(ranks) && ranks.Length == |c|
    ensures forall k :: 0 <= k < |c| ==> ranks[k] == Score(c[k].key, Values(c)) + 0.5
  {
    ranks := new real[|c|](_ => 0.0);
    var i := 0;
    while i < |c|
      invariant 0 <= i <= |c|
      invariant 0 < i < |c| ==> c[i - 1].key < c[i].key
      invariant forall k :: 0 <= k < i ==> ranks[k] == Score(c[k].key, Values(c)) + 0.5
    {
      var j := i;
      while j + 1 < |c| && c[j + 1].key == c[i].key
        invariant i <= j < |c|
        invariant forall k :: i <= k <= j ==> c[k].key == c[i].key
        decreases |c| - j
      {
        j := j + 1;
      }
      RunRank(c, i, j);
      var average := (i + j) as real / 2.0 + 1.0;
      forall k | i <= k <= j { ranks[k] := average; }
      i := j + 1;
    }
  }

  /** Add up the ranks held by the first sample. */
  method FirstSampleSum(c: seq<Tagged>, ranks: array<real>) returns (sum: real)
    requires ranks.Length == |c|
    requires forall k :: 0 <= k < |c| ==> ranks[k] == Score(c[k].key, Values(c)) + 0.5
    ensures sum == RankSum(c, Values(c))
  {
    ghost var all := Values(c);
    sum := 0.0;
    for k := 0 to |c|
      invariant sum == RankSum(c[..k], all)
    {
      assert c[..k + 1][..k] == c[..k];
      if c[k].item == 0 { sum := sum + ranks[k]; }
    }
    assert c[..|c|] == c;
  }

  /** Take the share of the rank sum that pairs within the sample account for, and scale to all pairs. */
  function Normalised(rankSum: real, n: nat, m: nat): real
    requires n > 0 && m > 0
  {
    Positive(n, m);
    (rankSum - n as real * (n as real + 1.0) / 2.0) / (n as real * m as real)
  }

  lemma NormalisedShare(a: Sample, b: Sample)
    requires a != [] && b != []
    ensures var sorted := Sort(Tag(a, 0) + Tag(b, 1));
            Normalised(RankSum(sorted, Values(sorted)), |a|, |b|) == Reference(a, b)
  {
    PooledSum(a, b);
    var sorted := Sort(Tag(a, 0) + Tag(b, 1));
    Cancels(RankSum(sorted, Values(sorted)), Total(a, b), |a|, |b|);
  }

  lemma Cancels(sum: real, won: real, n: nat, m: nat)
    requires n > 0 && m > 0 && sum == won + n as real * (n as real + 1.0) / 2.0
    ensures n as real * m as real > 0.0
    ensures Normalised(sum, n, m) == won / (n as real * m as real)
  {
    Positive(n, m);
  }

  /** The rank-sum computation returns the share of pairs won, for every pair of samples. */
  method MannWhitneyU(a: Sample, b: Sample) returns (u: real)
    ensures u == Reference(a, b)
  {
    if |a| == 0 || |b| == 0 { return 0.5; }
    var combined := Sort(Tag(a, 0) + Tag(b, 1));
    SortAscends(Tag(a, 0) + Tag(b, 1));
    var ranks := AverageRanks(combined);
    var rankSum := FirstSampleSum(combined, ranks);
    NormalisedShare(a, b);
    u := Normalised(rankSum, |a|, |b|);
  }
}
