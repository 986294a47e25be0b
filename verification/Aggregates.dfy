/** Summaries of a list of readings, and why the order of the readings does not matter. */
module Aggregates {
  import opened Common
  import opened Readings

  /** Averages are over `real`; floating-point rounding is not modelled. */
  datatype Aggregate = Aggregate(avg: real, min: real, max: real, count: nat, timestamp: int)

  function Sum(s: seq<real>): real {
    if s == [] then 0.0 else Sum(s[..|s| - 1]) + s[|s| - 1]
  }

  function Least(s: seq<real>): real
    requires s != []
  {
    if |s| == 1 then s[0]
    else
      var m := Least(s[..|s| - 1]);
      if s[|s| - 1] < m then s[|s| - 1] else m
  }

  function Greatest(s: seq<real>): real
    requires s != []
  {
    if |s| == 1 then s[0]
    else
      var m := Greatest(s[..|s| - 1]);
      if s[|s| - 1] > m then s[|s| - 1] else m
  }

  /** No aggregate for an empty list. */
  function AggregateOf(s: seq<real>, now: int): Option<Aggregate> {
    if s == [] then None
    else Some(Aggregate(Sum(s) / |s| as real, Least(s), Greatest(s), |s|, now))
  }

  /** The fold of the aggregate handler. */
  method Fold(readings: seq<real>, now: int) returns (agg: Aggregate)
    requires readings != []
    ensures AggregateOf(readings, now) == Some(agg)
  {
    var sum, min, max := 0.0, readings[0], readings[0];
    for i := 0 to |readings|
      invariant sum == Sum(readings[..i])
      invariant i == 0 ==> min == max == readings[0]
      invariant i > 0 ==> min == Least(readings[..i]) && max == Greatest(readings[..i])
    {
      var v := readings[i];
      assert readings[..i + 1][..i] == readings[..i];
      sum := sum + v;
      if v < min {
        min := v;
      }
      if v > max {
        max := v;
      }
    }
    assert readings[..|readings|] == readings;
    agg := Aggregate(sum / |readings| as real, min, max, |readings|, now);
  }

  // ---- the summary is a function of the multiset ----

  lemma {:induction false} SumConcat(a: seq<real>, b: seq<real>)
    ensures Sum(a + b) == Sum(a) + Sum(b)
  {
    if b == [] {
      assert a + b == a;
    } else {
      assert (a + b)[..|a + b| - 1] == a + b[..|b| - 1];
      SumConcat(a, b[..|b| - 1]);
    }
  }

  lemma {:induction false} SumPermutation(a: seq<real>, b: seq<real>)
    requires multiset(a) == multiset(b)
    ensures Sum(a) == Sum(b)
  {
    if a == [] {
      assert |multiset(b)| == 0;
    } else {
      var i := DropLast(a, b);
      SumPermutation(a[..|a| - 1], Without(b, i));
      assert b == b[..i] + ([b[i]] + b[i + 1..]);
      SumConcat(b[..i], [b[i]] + b[i + 1..]);
      SumConcat([b[i]], b[i + 1..]);
      SumConcat(b[..i], b[i + 1..]);
      assert [b[i]][..0] == [];
    }
  }

  lemma {:induction false} Extremes(s: seq<real>)
    requires s != []
    ensures Least(s) in s && Greatest(s) in s
    ensures forall v :: v in s ==> Least(s) <= v <= Greatest(s)
  {
    if |s| > 1 {
      var most := s[..|s| - 1];
      Extremes(most);
      assert forall v :: v in s ==> v in most || v == s[|s| - 1];
    }
  }

  lemma AggregatePermutation(a: seq<real>, b: seq<real>, now: int)
    requires multiset(a) == multiset(b)
    ensures AggregateOf(a, now) == AggregateOf(b, now)
  {
    assert |a| == |multiset(a)| == |multiset(b)| == |b|;
    if a != [] {
      SumPermutation(a, b);
      Extremes(a);
      Extremes(b);
      assert forall v :: v in a <==> v in multiset(a);
      assert forall v :: v in b <==> v in multiset(b);
    }
  }

  /** x + x + ... + x, n times. */
  function Times(n: nat, x: real): real {
    if n == 0 then 0.0 else Times(n - 1, x) + x
  }

  lemma {:induction false} TimesIsProduct(n: nat, x: real)
    ensures Times(n, x) == n as real * x
  {
    if n > 0 {
      TimesIsProduct(n - 1, x);
      assert n as real * x == (n - 1) as real * x + x;
    }
  }

  lemma {:induction false} TimesGrows(n: nat, x: real, y: real)
    requires n > 0 && x < y
    ensures Times(n, x) < Times(n, y)
  {
    if n > 1 {
      TimesGrows(n - 1, x, y);
    } else {
      assert Times(0, x) == 0.0 == Times(0, y);
    }
  }

  lemma Quotient(n: nat, sum: real)
    requires n > 0
    ensures n as real * (sum / n as real) == sum
  {
  }

  /** The mean, n times over, is the sum; and it lies between any bounds on the elements. */
  lemma Mean(n: nat, sum: real, lo: real, hi: real)
    requires n > 0 && Times(n, lo) <= sum <= Times(n, hi)
    ensures lo <= sum / n as real <= hi
    ensures Times(n, sum / n as real) == sum
  {
    var mean := sum / n as real;
    TimesIsProduct(n, mean);
    Quotient(n, sum);
    if mean < lo {
      TimesGrows(n, mean, lo);
    }
    if hi < mean {
      TimesGrows(n, hi, mean);
    }
  }

  lemma TimesCancels(n: nat, x: real, y: real)
    requires n > 0 && Times(n, x) == Times(n, y)
    ensures x == y
  {
    if x < y {
      TimesGrows(n, x, y);
    } else if y < x {
      TimesGrows(n, y, x);
    }
  }

  lemma {:induction false} SumBounds(s: seq<real>, lo: real, hi: real)
    requires forall v :: v in s ==> lo <= v <= hi
    ensures Times(|s|, lo) <= Sum(s) <= Times(|s|, hi)
  {
    if s != [] {
      var most := s[..|s| - 1];
      assert forall v :: v in most ==> v in s;
      SumBounds(most, lo, hi);
      assert s[|s| - 1] in s;
    }
  }

  /** However the values are listed, they add up to `total`. */
  ghost predicate AddsUpTo(values: multiset<real>, total: real) {
    forall s: seq<real> :: multiset(s) == values ==> Sum(s) == total
  }

  /** An aggregate, without reference to any order: a count, a mean, and the extreme elements. */
  ghost predicate Summarises(a: Aggregate, values: multiset<real>) {
    && a.count == |values|
    && a.min in values && a.max in values
    && (forall v :: v in values ==> a.min <= v <= a.max)
    && AddsUpTo(values, Times(a.count, a.avg))
  }

  lemma SummaryIsUnique(a: Aggregate, b: Aggregate, s: seq<real>)
    requires Summarises(a, multiset(s)) && Summarises(b, multiset(s))
    requires a.timestamp == b.timestamp
    ensures a == b
  {
    assert a.count == b.count > 0;
    assert Sum(s) == Times(a.count, a.avg) == Times(b.count, b.avg);
    TimesCancels(a.count, a.avg, b.avg);
  }

  lemma MeanOf(s: seq<real>, now: int)
    requires s != []
    ensures var a := AggregateOf(s, now).value;
            Times(a.count, a.avg) == Sum(s) && a.min <= a.avg <= a.max
  {
    Extremes(s);
    SumBounds(s, Least(s), Greatest(s));
    Mean(|s|, Sum(s), Least(s), Greatest(s));
  }

  lemma AddsUp(s: seq<real>)
    ensures AddsUpTo(multiset(s), Sum(s))
  {
    forall r: seq<real> | multiset(r) == multiset(s)
      ensures Sum(r) == Sum(s)
    {
      SumPermutation(r, s);
    }
  }

  lemma AggregateSummarises(s: seq<real>, now: int)
    requires s != []
    ensures var a := AggregateOf(s, now).value;
            Summarises(a, multiset(s)) && a.timestamp == now && a.min <= a.avg <= a.max
  {
    Extremes(s);
    MeanOf(s, now);
    AddsUp(s);
    assert forall v :: v in s <==> v in multiset(s);
  }

  /** End to end: over a well-bucketed table, reading day by day and folding gives the summary of the
      rows in the window, and there is none exactly when the window is empty. */
  lemma MissReplyMeetsSpec(t: Table, sensor: nat, from: int, to: int, now: int)
    requires WellBucketed(t)
    ensures AggregateOf(Read(t, sensor, from, to), now) == AggregateOf(Flat(t, sensor, from, to), now)
    ensures AggregateOf(Read(t, sensor, from, to), now) == None <==>
              forall i :: 0 <= i < |t| ==> !InWindow(t[i], sensor, from, to)
    ensures var a := AggregateOf(Read(t, sensor, from, to), now);
            a.Some? ==> Summarises(a.value, multiset(Flat(t, sensor, from, to)))
                        && a.value.min <= a.value.avg <= a.value.max
  {
    ReadIsFlat(t, sensor, from, to);
    AggregatePermutation(Read(t, sensor, from, to), Flat(t, sensor, from, to), now);
    FlatEmpty(t, sensor, from, to);
    if Flat(t, sensor, from, to) != [] {
      AggregateSummarises(Flat(t, sensor, from, to), now);
    }
  }

  lemma {:induction false} FlatEmpty(t: Table, sensor: nat, from: int, to: int)
    ensures Flat(t, sensor, from, to) == [] <==> forall i :: 0 <= i < |t| ==> !InWindow(t[i], sensor, from, to)
  {
    if t != [] {
      var n := |t| - 1;
      FlatEmpty(t[..n], sensor, from, to);
      assert forall i :: 0 <= i < n ==> t[..n][i] == t[i];
    }
  }

  lemma ExtremesOfBoth(a: seq<real>, b: seq<real>)
    requires a != [] && b != []
    ensures Least(a + b) == if Least(a) < Least(b) then Least(a) else Least(b)
    ensures Greatest(a + b) == if Greatest(a) > Greatest(b) then Greatest(a) else Greatest(b)
  {
    Extremes(a);
    Extremes(b);
    Extremes(a + b);
    assert forall v :: v in a + b <==> v in a || v in b;
  }

  /** The aggregate of two parts taken together, either of which may be empty. */
  function Merge(a: Option<Aggregate>, b: Option<Aggregate>): Option<Aggregate>
    requires a.Some? ==> a.value.count > 0
  {
    if a == None then b
    else if b == None then a
    else
      var x, y := a.value, b.value;
      Some(Aggregate((Times(x.count, x.avg) + Times(y.count, y.avg)) / (x.count + y.count) as real,
                     if x.min < y.min then x.min else y.min,
                     if x.max > y.max then x.max else y.max,
                     x.count + y.count, x.timestamp))
  }

  /** Aggregates of adjacent windows combine into the aggregate of their union. */
  lemma WindowsMerge(t: Table, sensor: nat, from: int, mid: int, to: int, now: int)
    requires WellBucketed(t) && from <= mid + 1 && mid <= to
    ensures AggregateOf(Read(t, sensor, from, to), now)
         == Merge(AggregateOf(Read(t, sensor, from, mid), now), AggregateOf(Read(t, sensor, mid + 1, to), now))
  {
    WindowsAdd(t, sensor, from, mid, to);
    var left, right := Read(t, sensor, from, mid), Read(t, sensor, mid + 1, to);
    AggregatePermutation(Read(t, sensor, from, to), left + right, now);
    MergeJoins(left, right, now);
  }

  lemma MergeJoins(left: seq<real>, right: seq<real>, now: int)
    ensures AggregateOf(left + right, now) == Merge(AggregateOf(left, now), AggregateOf(right, now))
  {
    if left == [] {
      assert left + right == right;
    } else if right == [] {
      assert left + right == left;
    } else {
      MeanOf(left, now);
      MeanOf(right, now);
      SumConcat(left, right);
      ExtremesOfBoth(left, right);
    }
  }

  /** Widening the window never lowers the count, raises the minimum or lowers the maximum. */
  lemma WiderWindowAggregates(t: Table, sensor: nat, from: int, to: int, from': int, to': int, now: int)
    requires WellBucketed(t) && from' <= from && to <= to'
    requires Read(t, sensor, from, to) != []
    ensures var a := AggregateOf(Read(t, sensor, from, to), now).value;
            var w := AggregateOf(Read(t, sensor, from', to'), now);
            && w.Some?
            && a.count <= w.value.count
            && w.value.min <= a.min && a.max <= w.value.max
  {
    WiderWindowReadsMore(t, sensor, from, to, from', to');
    MoreIsWider(Read(t, sensor, from, to), Read(t, sensor, from', to'));
  }

  lemma MoreIsWider(small: seq<real>, big: seq<real>)
    requires small != [] && multiset(small) <= multiset(big)
    ensures big != [] && |small| <= |big|
    ensures Least(big) <= Least(small) && Greatest(small) <= Greatest(big)
  {
    Extremes(small);
    var extra := multiset(big) - multiset(small);
    assert multiset(big) == multiset(small) + extra;
    assert |multiset(big)| == |small| + |extra|;
    assert Least(small) in multiset(small) && Greatest(small) in multiset(small);
    assert Least(small) in multiset(big) && Greatest(small) in multiset(big);
    Extremes(big);
    assert Least(small) in big && Greatest(small) in big;
  }
}
