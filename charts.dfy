/** The figures the two callbacks hand to plotly: the pie of `get_pie_chart`
    (spacex_dash_app.py, lines 75-86) and the scatter of `get_scatter_chart`
    (lines 93-107), as the data the figures are built from. */
module Charts {
  import opened Seqs
  import opened Dataset
  import opened Selection
  import opened Grouping

  datatype PieFigure = PieFigure(title: string, slices: seq<Slice>)

  /** A scatter point: x is the payload, y the class, and the colour is the booster category. */
  datatype Point = Point(payload: real, cls: int, booster: string)

  datatype ScatterFigure = ScatterFigure(title: string, points: seq<Point>)

  // ---------------------------------------------------------------------
  // Aggregates of the table that the figures are compared with

  /** The sum of the `class` column. */
  function ClassSum(rs: Table): int
  {
    if rs == [] then 0 else rs[0].cls + ClassSum(rs[1..])
  }

  /** The number of rows whose `class` is `c`. */
  function CountClass(rs: Table, c: int): nat
  {
    if rs == [] then 0 else (if rs[0].cls == c then 1 else 0) + CountClass(rs[1..], c)
  }

  /** Some row has `class` equal to `c`. */
  ghost predicate HasClass(rs: Table, c: int)
  {
    exists i :: 0 <= i < |rs| && rs[i].cls == c
  }

  /** The rows of one site, in table order. */
  function SiteRecords(ds: Table, site: string): Table
  {
    Where(ds, SiteIs(site))
  }

  // ---------------------------------------------------------------------
  // The pie

  /** `names='Launch Site', values='class'` over the whole frame. */
  function SiteClassRows(ds: Table): seq<Slice>
  {
    if ds == [] then [] else [Slice(SiteLabel(ds[0].site), ds[0].cls)] + SiteClassRows(ds[1..])
  }

  /** `names='class', values='label'` over `spacex_df.where(spacex_df['Launch Site'] == site)`:
      the rows of other sites are NaN and take no part. */
  function ClassLabelRows(ds: Table, labels: seq<int>, site: string): seq<Slice>
    requires |labels| == |ds|
  {
    if ds == [] then []
    else if ds[0].site == site then [Slice(ClassLabel(ds[0].cls), labels[0])] + ClassLabelRows(ds[1..], labels[1..], site)
    else ClassLabelRows(ds[1..], labels[1..], site)
  }

  /** `get_pie_chart(entered_site)`, given the frame with its `label` column.
      Its only input is the dropdown: the payload range plays no part. */
  function PieChart(ds: Table, labels: seq<int>, entered: string): (r: PieFigure)
    requires |labels| == |ds|
    ensures r.title == if entered == All then "Total Success Launches By Site"
                       else "Total Success Launches for site " + entered
    ensures Distinct(NamesOf(r.slices))
    ensures entered == All ==> Total(r.slices) == ClassSum(ds)
  {
    if entered == All then
      SiteClassRowsFacts(ds);
      PieFigure("Total Success Launches By Site", GroupSum(SiteClassRows(ds)))
    else
      PieFigure("Total Success Launches for site " + entered, GroupSum(ClassLabelRows(ds, labels, entered)))
  }

  lemma {:induction false} SiteClassRowsFacts(ds: Table)
    ensures forall s :: SumFor(SiteClassRows(ds), SiteLabel(s)) == ClassSum(SiteRecords(ds, s))
    ensures forall l :: l in NamesOf(SiteClassRows(ds)) <==> l.SiteLabel? && Occurs(ds, l.site)
    ensures Total(SiteClassRows(ds)) == ClassSum(ds)
  {
    if ds != [] {
      SiteClassRowsFacts(ds[1..]);
      var rows := SiteClassRows(ds);
      assert rows[1..] == SiteClassRows(ds[1..]);
      forall l ensures l in NamesOf(rows) <==> l.SiteLabel? && Occurs(ds, l.site) {
        if l.SiteLabel? {
          OccursCons(ds, l.site);
        }
      }
    }
  }

  lemma {:induction false} ClassLabelRowsFacts(ds: Table, labels: seq<int>, site: string)
    requires LabelColumn(ds, labels)
    ensures forall c :: SumFor(ClassLabelRows(ds, labels, site), ClassLabel(c)) == CountClass(SiteRecords(ds, site), c)
    ensures forall l :: l in NamesOf(ClassLabelRows(ds, labels, site)) <==> l.ClassLabel? && HasClass(SiteRecords(ds, site), l.cls)
    ensures Total(ClassLabelRows(ds, labels, site)) == |SiteRecords(ds, site)|
  {
    if ds != [] {
      ClassLabelRowsFacts(ds[1..], labels[1..], site);
      var rest := SiteRecords(ds[1..], site);
      if ds[0].site == site {
        var sr := SiteRecords(ds, site);
        assert sr == [ds[0]] + rest;
        assert sr[1..] == rest;
        var rows := ClassLabelRows(ds, labels, site);
        assert rows[1..] == ClassLabelRows(ds[1..], labels[1..], site);
        forall c ensures HasClass(sr, c) <==> ds[0].cls == c || HasClass(rest, c) {
          if HasClass(sr, c) && ds[0].cls != c {
            var i :| 0 <= i < |sr| && sr[i].cls == c;
            assert rest[i - 1].cls == c;
          }
          if HasClass(rest, c) {
            var i :| 0 <= i < |rest| && rest[i].cls == c;
            assert sr[i + 1].cls == c;
          }
        }
      }
    }
  }

  /** A site no row has contributes no pie rows. */
  lemma {:induction false} ClassLabelRowsAbsent(ds: Table, labels: seq<int>, site: string)
    requires |labels| == |ds|
    requires forall i :: 0 <= i < |ds| ==> ds[i].site != site
    ensures ClassLabelRows(ds, labels, site) == []
  {
    if ds != [] {
      ClassLabelRowsAbsent(ds[1..], labels[1..], site);
    }
  }

  /** With `ALL`, one slice per site that occurs, no site twice, whose
      value is the sum of `class` over every row of that site, whatever the
      payload range; the values add up to the sum of `class` over the table. */
  lemma AllSitesPie(ds: Table, labels: seq<int>)
    requires |labels| == |ds|
    ensures PieChart(ds, labels, All).title == "Total Success Launches By Site"
    ensures Distinct(NamesOf(PieChart(ds, labels, All).slices))
    ensures forall s :: SiteLabel(s) in NamesOf(PieChart(ds, labels, All).slices) <==> Occurs(ds, s)
    ensures forall i :: 0 <= i < |PieChart(ds, labels, All).slices| ==>
              var sl := PieChart(ds, labels, All).slices[i];
              sl.name.SiteLabel? && sl.value == ClassSum(SiteRecords(ds, sl.name.site))
    ensures Total(PieChart(ds, labels, All).slices) == ClassSum(ds)
  {
    var rows := SiteClassRows(ds);
    var slices := GroupSum(rows);
    SiteClassRowsFacts(ds);
    NamesOfIndex(slices);
    forall i | 0 <= i < |slices|
      ensures slices[i].name.SiteLabel? && slices[i].value == ClassSum(SiteRecords(ds, slices[i].name.site))
    {
      assert NamesOf(slices)[i] == slices[i].name;
      GroupSumSlice(rows, i);
    }
  }

  /** The `ALL` pie has exactly as many slices as the site list has entries. */
  lemma AllSitesPieOneSlicePerSite(ds: Table, labels: seq<int>)
    requires |labels| == |ds|
    ensures |PieChart(ds, labels, All).slices| == |Sites(ds)|
  {
    var slices := PieChart(ds, labels, All).slices;
    AllSitesPie(ds, labels);
    NamesOfIndex(slices);
    var names := seq(|slices|, i requires 0 <= i < |slices| => slices[i].name.site);
    assert Distinct(names) by {
      forall i, j | 0 <= i < j < |names| ensures names[i] != names[j] {
        assert NamesOf(slices)[i] == slices[i].name && NamesOf(slices)[j] == slices[j].name;
      }
    }
    forall s ensures s in names <==> s in Sites(ds) {
      if s in names {
        var i :| 0 <= i < |names| && names[i] == s;
        assert NamesOf(slices)[i] == SiteLabel(s);
      }
      if s in Sites(ds) {
        assert SiteLabel(s) in NamesOf(slices);
        var i :| 0 <= i < |NamesOf(slices)| && NamesOf(slices)[i] == SiteLabel(s);
        assert names[i] == s;
      }
    }
    SameElementsSameLength(names, Sites(ds));
  }

  /** When every `class` is 0 or 1, summing `class` counts the successes. */
  lemma {:induction false} ClassSumCountsSuccesses(rs: Table)
    requires forall i :: 0 <= i < |rs| ==> rs[i].cls == 0 || rs[i].cls == 1
    ensures ClassSum(rs) == CountClass(rs, 1)
  {
    if rs != [] {
      ClassSumCountsSuccesses(rs[1..]);
    }
  }

  /** With a site, one slice per `class` value that occurs among the site's
      rows, whose value is the number of the site's rows with that class
      (every `label` is 1); the values add up to the site's row count. */
  lemma SitePie(ds: Table, labels: seq<int>, site: string)
    requires LabelColumn(ds, labels) && site != All
    ensures PieChart(ds, labels, site).title == "Total Success Launches for site " + site
    ensures Distinct(NamesOf(PieChart(ds, labels, site).slices))
    ensures forall c :: ClassLabel(c) in NamesOf(PieChart(ds, labels, site).slices) <==> HasClass(SiteRecords(ds, site), c)
    ensures forall i :: 0 <= i < |PieChart(ds, labels, site).slices| ==>
              var sl := PieChart(ds, labels, site).slices[i];
              sl.name.ClassLabel? && sl.value == CountClass(SiteRecords(ds, site), sl.name.cls)
    ensures Total(PieChart(ds, labels, site).slices) == |SiteRecords(ds, site)|
  {
    var rows := ClassLabelRows(ds, labels, site);
    var slices := GroupSum(rows);
    ClassLabelRowsFacts(ds, labels, site);
    NamesOfIndex(slices);
    forall i | 0 <= i < |slices|
      ensures slices[i].name.ClassLabel? && slices[i].value == CountClass(SiteRecords(ds, site), slices[i].name.cls)
    {
      assert NamesOf(slices)[i] == slices[i].name;
      GroupSumSlice(rows, i);
    }
  }

  lemma {:induction false} CountClassPositive(rs: Table, i: int)
    requires 0 <= i < |rs|
    ensures CountClass(rs, rs[i].cls) >= 1
  {
    if i > 0 {
      CountClassPositive(rs[1..], i - 1);
    }
  }

  /** The site pie counts every row of the site, also one that the payload
      range keeps out of the scatter: the two charts can disagree. */
  lemma SitePieCountsRowsOutsideRange(ds: Table, labels: seq<int>, site: string, low: real, high: real, i: int)
    requires LabelColumn(ds, labels) && site != All
    requires 0 <= i < |ds| && ds[i].site == site
    requires !(low < ds[i].payload < high)
    ensures ds[i] !in Select(ds, site, low, high)
    ensures exists j :: 0 <= j < |PieChart(ds, labels, site).slices| &&
              PieChart(ds, labels, site).slices[j].name == ClassLabel(ds[i].cls) &&
              PieChart(ds, labels, site).slices[j].value >= 1
  {
    var slices := PieChart(ds, labels, site).slices;
    var sr := SiteRecords(ds, site);
    SitePie(ds, labels, site);
    assert ds[i] in sr;
    var k :| 0 <= k < |sr| && sr[k] == ds[i];
    CountClassPositive(sr, k);
    assert HasClass(sr, ds[i].cls);
    NamesOfIndex(slices);
    var j :| 0 <= j < |NamesOf(slices)| && NamesOf(slices)[j] == ClassLabel(ds[i].cls);
    assert slices[j].name == ClassLabel(ds[i].cls);
  }

  // ---------------------------------------------------------------------
  // The scatter

  function PointOf(x: LaunchRecord): Point
  {
    Point(x.payload, x.cls, x.booster)
  }

  function Points(rs: Table): seq<Point>
  {
    if rs == [] then [] else [PointOf(rs[0])] + Points(rs[1..])
  }

  function ScatterTitle(entered: string): string
  {
    "Correlation between Payload (kg) and Launch Success for " + if entered == All then "all sites" else entered
  }

  /** `get_scatter_chart(entered_site, [low, high])`. */
  function ScatterChart(ds: Table, entered: string, low: real, high: real): (r: ScatterFigure)
    ensures |r.points| == |Select(ds, entered, low, high)|
    ensures forall i :: 0 <= i < |r.points| ==> low < r.points[i].payload < high
  {
    var sel := Select(ds, entered, low, high);
    PointsIndex(sel);
    assert forall i :: 0 <= i < |sel| ==> sel[i] in sel;
    ScatterFigure(ScatterTitle(entered), Points(sel))
  }

  lemma {:induction false} PointsAppend(a: Table, b: Table)
    ensures Points(a + b) == Points(a) + Points(b)
  {
    if a == [] {
      assert a + b == b;
    } else {
      assert (a + b)[1..] == a[1..] + b;
      PointsAppend(a[1..], b);
    }
  }

  lemma {:induction false} PointsIndex(rs: Table)
    ensures |Points(rs)| == |rs|
    ensures forall i :: 0 <= i < |rs| ==> Points(rs)[i] == PointOf(rs[i])
  {
    if rs != [] {
      PointsIndex(rs[1..]);
    }
  }

  /** A one-row table gives one point exactly when the row matches the selection. */
  lemma ScatterSingleton(x: LaunchRecord, entered: string, low: real, high: real)
    ensures ScatterChart([x], entered, low, high).points ==
              if Matches(x, entered, low, high) then [Point(x.payload, x.cls, x.booster)] else []
  {
    SelectSingleton(x, entered, low, high);
    assert [x][1..] == [];
    assert Points([x]) == [PointOf(x)] + Points([]);
  }

  /** The points of a concatenation are the points of its parts, in order:
      with ScatterSingleton, one point per matching row, in table order. */
  lemma ScatterAppend(a: Table, b: Table, entered: string, low: real, high: real)
    ensures ScatterChart(a + b, entered, low, high).points ==
              ScatterChart(a, entered, low, high).points + ScatterChart(b, entered, low, high).points
  {
    SelectAppend(a, b, entered, low, high);
    PointsAppend(Select(a, entered, low, high), Select(b, entered, low, high));
  }

  /** A point is plotted exactly when some row matching the selection carries
      its payload, class and booster category. */
  lemma ScatterPointsMatch(ds: Table, entered: string, low: real, high: real, p: Point)
    ensures p in ScatterChart(ds, entered, low, high).points <==>
              exists i :: 0 <= i < |ds| && Matches(ds[i], entered, low, high) && PointOf(ds[i]) == p
  {
    var sel := Select(ds, entered, low, high);
    PointsIndex(sel);
    SelectMembers(ds, entered, low, high);
    if p in Points(sel) {
      var k :| 0 <= k < |Points(sel)| && Points(sel)[k] == p;
      assert sel[k] in sel;
      var i :| 0 <= i < |ds| && ds[i] == sel[k];
      assert Matches(ds[i], entered, low, high) && PointOf(ds[i]) == p;
    }
    if exists i :: 0 <= i < |ds| && Matches(ds[i], entered, low, high) && PointOf(ds[i]) == p {
      var i :| 0 <= i < |ds| && Matches(ds[i], entered, low, high) && PointOf(ds[i]) == p;
      assert ds[i] in ds;
      var k :| 0 <= k < |sel| && sel[k] == ds[i];
      assert Points(sel)[k] == p;
    }
  }

  /** The scatter's title names all sites for `ALL` and the chosen site otherwise. */
  lemma ScatterTitles(ds: Table, entered: string, low: real, high: real)
    ensures entered == All ==>
              ScatterChart(ds, entered, low, high).title == "Correlation between Payload (kg) and Launch Success for all sites"
    ensures entered != All ==>
              ScatterChart(ds, entered, low, high).title == "Correlation between Payload (kg) and Launch Success for " + entered
  {
  }

  /** A site that does not occur gives an empty scatter and an empty pie, and no error. */
  lemma UnknownSiteEmptyCharts(ds: Table, labels: seq<int>, entered: string, low: real, high: real)
    requires LabelColumn(ds, labels)
    requires entered != All && !Occurs(ds, entered)
    ensures ScatterChart(ds, entered, low, high).points == []
    ensures PieChart(ds, labels, entered).slices == []
  {
    UnknownSiteSelectsNothing(ds, entered, low, high);
    ClassLabelRowsAbsent(ds, labels, entered);
  }
}
