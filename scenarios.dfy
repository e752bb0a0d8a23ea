/** Small concrete tables run through the model of both callbacks. */
module Scenarios {
  import opened Dataset
  import opened Selection
  import opened Grouping
  import opened Charts

  /** Two sites, four rows, two of them on the slider's outer marks. */
  const TwoSites: Table := [
    LaunchRecord("CCAFS", 0.0, 0, "v1.0"),
    LaunchRecord("KSC", 3000.0, 1, "FT"),
    LaunchRecord("CCAFS", 5000.0, 1, "B4"),
    LaunchRecord("KSC", 10000.0, 1, "B5")
  ]

  /** The `ALL` pie sums `class` per site over the whole table, in order of
      each site's first row. */
  lemma AllSitesPieScenario()
    ensures PieChart(TwoSites, [1, 1, 1, 1], All).slices ==
              [Slice(SiteLabel("CCAFS"), 1), Slice(SiteLabel("KSC"), 2)]
  {
    var c, k := SiteLabel("CCAFS"), SiteLabel("KSC");
    var rows := SiteClassRows(TwoSites);
    assert rows == [Slice(c, 0), Slice(k, 1), Slice(c, 1), Slice(k, 1)];
    assert rows[..1] == [Slice(c, 0)] && rows[..1][..0] == [];
    assert GroupSum(rows[..1]) == [Slice(c, 0)];
    assert c != k;
    assert rows[..2][..1] == rows[..1];
    assert [Slice(c, 0)][1..] == [];
    assert Merge([Slice(c, 0)], Slice(k, 1)) == [Slice(c, 0)] + Merge([], Slice(k, 1));
    assert GroupSum(rows[..2]) == [Slice(c, 0), Slice(k, 1)];
    assert rows[..3][..2] == rows[..2];
    assert [Slice(c, 0), Slice(k, 1)][1..] == [Slice(k, 1)];
    assert GroupSum(rows[..3]) == [Slice(c, 1), Slice(k, 1)];
    assert rows[..3] == rows[..|rows| - 1];
    assert [Slice(c, 1), Slice(k, 1)][1..] == [Slice(k, 1)];
    assert [Slice(k, 1)][1..] == [];
    assert Merge([Slice(k, 1)], Slice(k, 1)) == [Slice(k, 2)];
    assert Merge([Slice(c, 1), Slice(k, 1)], Slice(k, 1)) == [Slice(c, 1)] + Merge([Slice(k, 1)], Slice(k, 1));
    assert GroupSum(rows) == [Slice(c, 1), Slice(k, 2)];
  }

  /** `ALL` with the range [0, 10000]: the rows at 0 kg and 10000 kg are not plotted. */
  lemma AllSitesScatterScenario()
    ensures ScatterChart(TwoSites, All, 0.0, 10000.0).points ==
              [Point(3000.0, 1, "FT"), Point(5000.0, 1, "B4")]
  {
    assert Select(TwoSites, All, 0.0, 10000.0) == [TwoSites[1], TwoSites[2]];
  }

  /** KSC's row comes first. */
  const KscFirst: Table := [
    LaunchRecord("KSC", 1000.0, 1, "FT"),
    LaunchRecord("CCAFS", 2000.0, 0, "v1.1")
  ]

  /** The site list is in string order, not in order of first appearance. */
  lemma SitesScenario()
    ensures Sites(KscFirst) == ["CCAFS", "KSC"]
  {
    assert Insert(["CCAFS"], "KSC") == ["CCAFS", "KSC"];
  }

  /** One site's rows at 3000 kg (landed) and 7000 kg (not landed). */
  const KscOnly: Table := [
    LaunchRecord("KSC", 3000.0, 1, "FT"),
    LaunchRecord("KSC", 7000.0, 0, "B4")
  ]

  /** Site KSC with the range [2000, 6000]: the scatter shows the 3000 kg row
      only, but the pie, which ignores the range, has a slice for each class. */
  lemma SiteScenario()
    ensures Select(KscOnly, "KSC", 2000.0, 6000.0) == [KscOnly[0]]
    ensures ScatterChart(KscOnly, "KSC", 2000.0, 6000.0).points == [Point(3000.0, 1, "FT")]
    ensures PieChart(KscOnly, [1, 1], "KSC").slices ==
              [Slice(ClassLabel(1), 1), Slice(ClassLabel(0), 1)]
  {
    var rows := ClassLabelRows(KscOnly, [1, 1], "KSC");
    assert rows == [Slice(ClassLabel(1), 1), Slice(ClassLabel(0), 1)];
    assert rows[..1] == [Slice(ClassLabel(1), 1)] && rows[..1][..0] == [];
    assert GroupSum(rows[..1]) == [Slice(ClassLabel(1), 1)];
    assert rows[..1] == rows[..|rows| - 1];
    assert ClassLabel(1) != ClassLabel(0);
    assert [Slice(ClassLabel(1), 1)][1..] == [];
    assert Merge([Slice(ClassLabel(1), 1)], Slice(ClassLabel(0), 1)) ==
             [Slice(ClassLabel(1), 1)] + Merge([], Slice(ClassLabel(0), 1));
  }

  /** Site CCAFS with a range no row falls in: the scatter is empty, but the
      pie, which ignores the range, still has slices; no error arises. */
  lemma EmptyRangeScenario()
    ensures ScatterChart(TwoSites, "CCAFS", 9000.0, 9500.0).points == []
    ensures PieChart(TwoSites, [1, 1, 1, 1], "CCAFS").slices != []
  {
    var slices := PieChart(TwoSites, [1, 1, 1, 1], "CCAFS").slices;
    SitePie(TwoSites, [1, 1, 1, 1], "CCAFS");
    var sr := SiteRecords(TwoSites, "CCAFS");
    assert sr[0] == TwoSites[0];
    assert HasClass(sr, 0);
    assert ClassLabel(0) in NamesOf(slices);
    NamesOfIndex(slices);
  }

  /** A site that is not in the table gives an empty scatter and an empty pie, and no error. */
  lemma UnknownSiteScenario()
    ensures ScatterChart(TwoSites, "XYZ", 0.0, 10000.0).points == []
    ensures PieChart(TwoSites, [1, 1, 1, 1], "XYZ").slices == []
  {
    assert Where(TwoSites, SiteIs("XYZ")) == [];
  }
}
