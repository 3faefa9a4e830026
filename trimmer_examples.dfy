/**
 * Worked columns for dataTrimmer with selector 2, computed exactly.
 */
module TrimmerExamples {
  import opened Statistics
  import opened Results
  import opened Trimmer

  /**
   * Four 10s and a 1000: the mean is 208 and the standard deviation 396, so
   * 1000 lies exactly two standard deviations away and the strict
   * comparison keeps it; nothing is removed.
   */
  lemma BoundaryValueKept()
    ensures IsRoot(396.0, Variance([10.0, 10.0, 10.0, 10.0, 1000.0]))
    ensures Abs(1000.0 - Mean([10.0, 10.0, 10.0, 10.0, 1000.0])) == 2.0 * 396.0
    ensures Trimmed([10.0, 10.0, 10.0, 10.0, 1000.0], 2) == Ok([10.0, 10.0, 10.0, 10.0, 1000.0])
  {
    var s := [10.0, 10.0, 10.0, 10.0, 1000.0];
    var p1, p2, p3, p4 := [10.0], [10.0, 10.0], [10.0, 10.0, 10.0], [10.0, 10.0, 10.0, 10.0];
    assert p1[..0] == [] && p2[..1] == p1 && p3[..2] == p2 && p4[..3] == p3 && s[..4] == p4;
    assert Sum(p4) == 40.0;
    assert Sum(s) == 1040.0;
    assert Mean(s) == 208.0;
    assert SquaredDeviations(p4, 208.0) == 156816.0;
    assert SquaredDeviations(s, 208.0) == 784080.0;
    assert Variance(s) == 156816.0;
    assert !IsOutlier(1000.0, 208.0, 156816.0);
    assert !IsOutlier(10.0, 208.0, 156816.0);
    assert OutliersBy(p4, 208.0, 156816.0) == [];
    assert Outliers(s) == [];
    WithoutAbsent(s, []);
  }

  /** Five 10s and a 70: the mean is 20 and the variance 500. */
  lemma SpikeStatistics()
    ensures Mean([10.0, 10.0, 10.0, 10.0, 10.0, 70.0]) == 20.0
    ensures Variance([10.0, 10.0, 10.0, 10.0, 10.0, 70.0]) == 500.0
  {
    var s := [10.0, 10.0, 10.0, 10.0, 10.0, 70.0];
    var p1, p2, p3, p4, p5 := [10.0], [10.0, 10.0], [10.0, 10.0, 10.0], [10.0, 10.0, 10.0, 10.0], [10.0, 10.0, 10.0, 10.0, 10.0];
    assert p1[..0] == [] && p2[..1] == p1 && p3[..2] == p2 && p4[..3] == p3 && p5[..4] == p4 && s[..5] == p5;
    assert Sum(p5) == 50.0;
    assert Sum(s) == 120.0;
    assert SquaredDeviations(p5, 20.0) == 500.0;
    assert SquaredDeviations(s, 20.0) == 3000.0;
  }

  /**
   * 70 lies 50 from the mean, beyond two standard deviations (about 44.7),
   * and is removed; trimming the five 10s that remain removes nothing more.
   */
  lemma SpikeRemoved()
    ensures Trimmed([10.0, 10.0, 10.0, 10.0, 10.0, 70.0], 2) == Ok([10.0, 10.0, 10.0, 10.0, 10.0])
    ensures Trimmed([10.0, 10.0, 10.0, 10.0, 10.0], 2) == Ok([10.0, 10.0, 10.0, 10.0, 10.0])
  {
    var s := [10.0, 10.0, 10.0, 10.0, 10.0, 70.0];
    var p5 := [10.0, 10.0, 10.0, 10.0, 10.0];
    assert s[..5] == p5;
    SpikeStatistics();
    assert IsOutlier(70.0, 20.0, 500.0);
    assert !IsOutlier(10.0, 20.0, 500.0);
    NoOutliersInConstant(p5, 10.0, 20.0, 500.0);
    assert Outliers(s) == [70.0];
    assert Without(s, [70.0]) == p5;
    EqualValuesNotTrimmed(p5);
  }
}
