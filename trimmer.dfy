/**
 * Outlier trimming of one column (Trimmer.java).
 *
 * dataTrimmer picks an outlier finder by an integer selector, then
 * removeOutliers deletes every occurrence of every outlier value from the
 * caller's list in place and returns that same list. Selector 1 (the IQR
 * finder) is a stub that finds nothing; selector 2 finds the values
 * strictly more than two population standard deviations from the mean.
 */
module Trimmer {
  import opened Statistics
  import opened JavaList
  import opened Results

  /** The message of the fatal error raised for a selector other than 1 or 2. */
  const SelectorMessage := "second parameter is not 1 or 2!!!!!!!!!!!!"

  // ---------------------------------------------------------------------
  // Specification

  /** The values of s that are outliers for avg and variance, in column order. */
  function OutliersBy(s: seq<real>, avg: real, variance: real): seq<real>
  {
    if s == [] then []
    else
      OutliersBy(s[..|s| - 1], avg, variance)
      + (if IsOutlier(s[|s| - 1], avg, variance) then [s[|s| - 1]] else [])
  }

  /** The values of s that are not outliers for avg and variance, in column order. */
  function KeptBy(s: seq<real>, avg: real, variance: real): seq<real>
  {
    if s == [] then []
    else
      KeptBy(s[..|s| - 1], avg, variance)
      + (if IsOutlier(s[|s| - 1], avg, variance) then [] else [s[|s| - 1]])
  }

  /** The outliers of a column, judged by the column's own mean and variance. */
  function Outliers(s: seq<real>): seq<real>
  {
    if s == [] then [] else OutliersBy(s, Mean(s), Variance(s))
  }

  /** The values of a column within two standard deviations of its mean. */
  function Kept(s: seq<real>): seq<real>
  {
    if s == [] then [] else KeptBy(s, Mean(s), Variance(s))
  }

  /** The IQR finder of the source is a stub: it reports no outliers. */
  function FindOutliersOne(data: seq<real>): (r: seq<real>)
    ensures r == []
    ensures Without(data, r) == data
  {
    WithoutAbsent(data, []);
    []
  }

  /** s without the elements that equal some value of outliers. */
  function Without(s: seq<real>, outliers: seq<real>): seq<real>
  {
    if s == [] then []
    else (if s[0] in outliers then [] else [s[0]]) + Without(s[1..], outliers)
  }

  /** What dataTrimmer leaves in the column for selector n, or its error. */
  function Trimmed(s: seq<real>, n: int): Result<seq<real>>
  {
    if n == 1 then Ok(Without(s, FindOutliersOne(s)))
    else if n == 2 then Ok(Without(s, Outliers(s)))
    else Err(SelectorMessage)
  }

  // ---------------------------------------------------------------------
  // Properties of the outlier filter

  /** An element is reported as an outlier exactly when it is in s and fails the test. */
  lemma {:induction false} OutliersByMembers(s: seq<real>, avg: real, variance: real)
    ensures forall y :: y in OutliersBy(s, avg, variance) <==> y in s && IsOutlier(y, avg, variance)
  {
    if s != [] {
      var init := s[..|s| - 1];
      assert s == init + [s[|s| - 1]];
      OutliersByMembers(init, avg, variance);
    }
  }

  /** An element is kept exactly when it is in s and passes the test. */
  lemma {:induction false} KeptByMembers(s: seq<real>, avg: real, variance: real)
    ensures forall y :: y in KeptBy(s, avg, variance) <==> y in s && !IsOutlier(y, avg, variance)
  {
    if s != [] {
      var init := s[..|s| - 1];
      assert s == init + [s[|s| - 1]];
      KeptByMembers(init, avg, variance);
    }
  }

  /** Outliers and kept values split the column: together they are a permutation of it. */
  lemma {:induction false} OutliersPartition(s: seq<real>, avg: real, variance: real)
    ensures multiset(OutliersBy(s, avg, variance)) + multiset(KeptBy(s, avg, variance)) == multiset(s)
  {
    if s != [] {
      var init := s[..|s| - 1];
      assert s == init + [s[|s| - 1]];
      OutliersPartition(init, avg, variance);
    }
  }

  lemma CenterNotOutlier(avg: real, variance: real)
    requires variance >= 0.0
    ensures !IsOutlier(avg, avg, variance)
  {
    assert avg - avg == 0.0;
  }

  lemma {:induction false} NoOutliersInConstant(s: seq<real>, c: real, avg: real, variance: real)
    requires AllEqual(s, c) && !IsOutlier(c, avg, variance)
    ensures OutliersBy(s, avg, variance) == []
  {
    if s != [] {
      NoOutliersInConstant(s[..|s| - 1], c, avg, variance);
    }
  }

  // ---------------------------------------------------------------------
  // Properties of removal

  /** Nothing that equals an outlier survives, and everything else does. */
  lemma {:induction false} WithoutMembers(s: seq<real>, outliers: seq<real>)
    ensures forall y :: y in Without(s, outliers) <==> y in s && y !in outliers
  {
    if s != [] {
      assert s == [s[0]] + s[1..];
      WithoutMembers(s[1..], outliers);
    }
  }

  /** A value that is not an outlier keeps its multiplicity; an outlier value is gone. */
  lemma {:induction false} WithoutMultiplicity(s: seq<real>, outliers: seq<real>, y: real)
    ensures multiset(Without(s, outliers))[y] == if y in outliers then 0 else multiset(s)[y]
  {
    if s != [] {
      assert s == [s[0]] + s[1..];
      WithoutMultiplicity(s[1..], outliers, y);
    }
  }

  /** Removal works element by element, so the survivors keep their relative order. */
  lemma {:induction false} WithoutAppend(a: seq<real>, b: seq<real>, outliers: seq<real>)
    ensures Without(a + b, outliers) == Without(a, outliers) + Without(b, outliers)
  {
    if a == [] {
      assert a + b == b;
    } else {
      assert (a + b)[0] == a[0];
      assert (a + b)[1..] == a[1..] + b;
      WithoutAppend(a[1..], b, outliers);
    }
  }

  /** Removing values that do not occur changes nothing. */
  lemma {:induction false} WithoutAbsent(s: seq<real>, outliers: seq<real>)
    requires forall i :: 0 <= i < |s| ==> s[i] !in outliers
    ensures Without(s, outliers) == s
  {
    if s != [] {
      WithoutAbsent(s[1..], outliers);
      assert s == [s[0]] + s[1..];
    }
  }

  /** Removing the values of o and then those equal to x is removing the values of o + [x]. */
  lemma {:induction false} WithoutOneMore(s: seq<real>, outliers: seq<real>, x: real)
    ensures Without(s, outliers + [x]) == Without(Without(s, outliers), [x])
  {
    if s != [] {
      var head, tail := s[0], s[1..];
      WithoutOneMore(tail, outliers, x);
      assert head in outliers + [x] <==> head in outliers || head == x;
      assert Without(s, outliers + [x])
          == (if head in outliers + [x] then [] else [head]) + Without(tail, outliers + [x]);
      if head in outliers {
        assert Without(s, outliers) == Without(tail, outliers);
      } else {
        assert Without(s, outliers) == [head] + Without(tail, outliers);
        WithoutAppend([head], Without(tail, outliers), [x]);
        assert [head][1..] == [];
        assert Without([head], [x]) == (if head == x then [] else [head]) + Without([], [x]);
      }
    }
  }

  /** One remove(x) does not change what is left once every x is gone. */
  lemma {:induction false} WithoutRemoveFirst(t: seq<real>, x: real)
    ensures Without(RemoveFirst(t, x), [x]) == Without(t, [x])
  {
    if t != [] && t[0] != x {
      WithoutRemoveFirst(t[1..], x);
      WithoutAppend([t[0]], RemoveFirst(t[1..], x), [x]);
    }
  }

  /** Removing the outliers of s from a part t of s leaves t's kept values. */
  lemma {:induction false} WithoutOutliersBy(t: seq<real>, s: seq<real>, avg: real, variance: real)
    requires forall y :: y in t ==> y in s
    ensures Without(t, OutliersBy(s, avg, variance)) == KeptBy(t, avg, variance)
  {
    if t != [] {
      var init, last := t[..|t| - 1], t[|t| - 1];
      assert t == init + [last];
      WithoutOutliersBy(init, s, avg, variance);
      WithoutAppend(init, [last], OutliersBy(s, avg, variance));
      OutliersByMembers(s, avg, variance);
    }
  }

  // ---------------------------------------------------------------------
  // Properties of dataTrimmer

  /** Selector 1 leaves every column as it was. */
  lemma SelectorOneKeepsData(s: seq<real>)
    ensures Trimmed(s, 1) == Ok(s)
  {
    WithoutAbsent(s, []);
  }

  /**
   * Selector 2 keeps, in their original order, exactly the values within two
   * standard deviations of the mean, and a value exactly on that boundary is kept.
   */
  lemma SelectorTwoKeepsInliers(s: seq<real>)
    ensures Trimmed(s, 2) == Ok(Kept(s))
    ensures |s| > 0 ==> forall y :: y in Kept(s) <==> y in s && !IsOutlier(y, Mean(s), Variance(s))
    ensures |s| > 0 ==> forall y :: y in s && (y - Mean(s)) * (y - Mean(s)) == 4.0 * Variance(s) ==> y in Kept(s)
  {
    if s != [] {
      WithoutOutliersBy(s, s, Mean(s), Variance(s));
      KeptByMembers(s, Mean(s), Variance(s));
    }
  }

  /** A column of equal values has no outliers and comes back whole from selector 2. */
  lemma EqualValuesNotTrimmed(s: seq<real>)
    requires |s| > 0 && AllEqual(s, s[0])
    ensures Variance(s) == 0.0
    ensures Outliers(s) == []
    ensures Trimmed(s, 2) == Ok(s)
  {
    VarianceZeroIffAllEqual(s);
    MeanOfConstant(s, s[0]);
    CenterNotOutlier(s[0], 0.0);
    NoOutliersInConstant(s, s[0], s[0], 0.0);
    WithoutAbsent(s, []);
  }

  // ---------------------------------------------------------------------
  // The operations

  /** findAverage: the running sum divided by the count. */
  method FindAverage(data: seq<real>) returns (average: real)
    requires |data| > 0
    ensures average == Mean(data)
  {
    var sum := 0.0;
    for i := 0 to |data|
      invariant sum == Sum(data[..i])
    {
      assert data[..i + 1][..i] == data[..i];
      sum := sum + data[i];
    }
    assert data[..|data|] == data;
    average := sum / (|data| as real);
  }

  /**
   * findStandardDeviation, up to its final square root: the running sum of
   * squared deviations from the average, divided by the count, made
   * non-negative by Abs as the source does.
   */
  method FindVariance(data: seq<real>) returns (variance: real)
    requires |data| > 0
    ensures variance == Variance(data)
  {
    var average := FindAverage(data);
    var squares := 0.0;
    for i := 0 to |data|
      invariant squares == SquaredDeviations(data[..i], average)
    {
      assert data[..i + 1][..i] == data[..i];
      squares := squares + (data[i] - average) * (data[i] - average);
    }
    assert data[..|data|] == data;
    variance := Abs(squares / (|data| as real));
  }

  /**
   * findOutliersTwo: every value whose squared distance from the average
   * exceeds four times the variance, in column order. On an empty column the
   * source's average is NaN, but its loop visits nothing and finds no
   * outliers, which is what the early return gives.
   */
  method FindOutliersTwo(data: seq<real>) returns (outliers: seq<real>)
    ensures outliers == Outliers(data)
  {
    outliers := [];
    if |data| == 0 {
      return;
    }
    var average := FindAverage(data);
    var variance := FindVariance(data);
    for i := 0 to |data|
      invariant outliers == OutliersBy(data[..i], average, variance)
    {
      assert data[..i + 1][..i] == data[..i];
      if IsOutlier(data[i], average, variance) {
        outliers := outliers + [data[i]];
      }
    }
    assert data[..|data|] == data;
  }

  /**
   * removeOutliers: for each outlier value, remove(x) while contains(x).
   * The caller's list is changed in place and returned.
   */
  method RemoveOutliers(data: ArrayList<real>, outliers: seq<real>) returns (r: ArrayList<real>)
    modifies data
    ensures r == data
    ensures data.items == Without(old(data.items), outliers)
  {
    ghost var original := data.items;
    WithoutAbsent(original, []);
    for k := 0 to |outliers|
      invariant data.items == Without(original, outliers[..k])
    {
      var x := outliers[k];
      ghost var before := data.items;
      var present := data.Contains(x);
      while present
        invariant present <==> x in data.items
        invariant Without(data.items, [x]) == Without(before, [x])
        decreases |data.items|
      {
        WithoutRemoveFirst(data.items, x);
        var removed := data.Remove(x);
        present := data.Contains(x);
      }
      WithoutAbsent(data.items, [x]);
      assert outliers[..k + 1] == outliers[..k] + [x];
      WithoutOneMore(original, outliers[..k], x);
    }
    assert outliers[..|outliers|] == outliers;
    r := data;
  }

  /**
   * dataTrimmer: selector 1 or 2 picks the outlier finder, anything else is
   * a fatal error raised before the list is touched. On success the result
   * is the caller's own list, trimmed in place.
   */
  method DataTrimmer(data: ArrayList<real>, n: int) returns (r: Result<ArrayList<real>>)
    modifies data
    ensures n != 1 && n != 2 ==> r == Err(SelectorMessage) && data.items == old(data.items)
    ensures n == 1 || n == 2 ==> r == Ok(data)
    ensures r.Ok? ==> Trimmed(old(data.items), n) == Ok(data.items)
  {
    var outliers: seq<real>;
    if n == 1 {
      outliers := FindOutliersOne(data.items);
    } else if n == 2 {
      outliers := FindOutliersTwo(data.items);
    } else {
      return Err(SelectorMessage);
    }
    var newData := RemoveOutliers(data, outliers);
    r := Ok(newData);
  }
}
