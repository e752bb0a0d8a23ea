/** The launch table and the constants derived from it once, when the
    dashboard starts (spacex_dash_app.py, lines 11-22). */
module Dataset {
  import opened Seqs
  import opened Strings

  datatype Option<T> = None | Some(value: T)

  /** One row of the table: `Launch Site`, `Payload Mass (kg)`, `class`
      (1 for a successful landing, 0 otherwise) and `Booster Version Category`. */
  datatype LaunchRecord = LaunchRecord(site: string, payload: real, cls: int, booster: string)

  /** The table, in file order; it is never changed after loading. */
  type Table = seq<LaunchRecord>

  /** Some record of the table was launched from `site`. */
  ghost predicate Occurs(ds: Table, site: string)
  {
    exists i :: 0 <= i < |ds| && ds[i].site == site
  }

  /** A site occurs in a non-empty table when it is the first row's or occurs in the rest. */
  lemma OccursCons(ds: Table, site: string)
    requires ds != []
    ensures Occurs(ds, site) <==> ds[0].site == site || Occurs(ds[1..], site)
  {
    if Occurs(ds, site) && ds[0].site != site {
      var i :| 0 <= i < |ds| && ds[i].site == site;
      assert ds[1..][i - 1].site == site;
    }
    if Occurs(ds[1..], site) {
      var i :| 0 <= i < |ds[1..]| && ds[1..][i].site == site;
      assert ds[i + 1].site == site;
    }
  }

  /** `spacex_df['Payload Mass (kg)'].max()`; pandas gives NaN for an empty
      column, modelled as `None`. */
  function MaxPayload(ds: Table): (r: Option<real>)
    ensures r.None? <==> ds == []
    ensures r.Some? ==> forall i :: 0 <= i < |ds| ==> ds[i].payload <= r.value
    ensures r.Some? ==> exists i :: 0 <= i < |ds| && ds[i].payload == r.value
  {
    if ds == [] then None
    else
      match MaxPayload(ds[1..])
      case None => Some(ds[0].payload)
      case Some(m) =>
        var k :| 0 <= k < |ds[1..]| && ds[1..][k].payload == m;
        assert ds[k + 1].payload == m;
        Some(if ds[0].payload >= m then ds[0].payload else m)
  }

  /** `spacex_df['Payload Mass (kg)'].min()`. */
  function MinPayload(ds: Table): (r: Option<real>)
    ensures r.None? <==> ds == []
    ensures r.Some? ==> forall i :: 0 <= i < |ds| ==> r.value <= ds[i].payload
    ensures r.Some? ==> exists i :: 0 <= i < |ds| && ds[i].payload == r.value
  {
    if ds == [] then None
    else
      match MinPayload(ds[1..])
      case None => Some(ds[0].payload)
      case Some(m) =>
        var k :| 0 <= k < |ds[1..]| && ds[1..][k].payload == m;
        assert ds[k + 1].payload == m;
        Some(if ds[0].payload <= m then ds[0].payload else m)
  }

  /** Every payload lies between the two bounds the slider starts at. */
  lemma PayloadWithinBounds(ds: Table, i: int)
    requires 0 <= i < |ds|
    ensures MinPayload(ds).Some? && MaxPayload(ds).Some?
    ensures MinPayload(ds).value <= ds[i].payload <= MaxPayload(ds).value
  {
  }

  /** Adds `x` to a sorted key list, unless it is already there. */
  function Insert(s: seq<string>, x: string): (r: seq<string>)
    requires StrictlySorted(s)
    ensures StrictlySorted(r)
    ensures forall y :: y in r <==> y in s || y == x
  {
    if s == [] then [x]
    else if x == s[0] then s
    else if Less(x, s[0]) then
      ConsSorted(x, s);
      [x] + s
    else
      LessTotal(x, s[0]);
      var t := Insert(s[1..], x);
      assert forall y :: y in t ==> Less(s[0], y);
      [s[0]] + t
  }

  /** The `Launch Site` column of
      `spacex_df.groupby(['Launch Site'], as_index=False).first()`:
      group keys are sorted, so each site appears once, in string order. */
  function Sites(ds: Table): (r: seq<string>)
    ensures StrictlySorted(r)
    ensures Distinct(r)
    ensures forall s :: s in r <==> Occurs(ds, s)
  {
    if ds == [] then []
    else
      var r := Insert(Sites(ds[1..]), ds[0].site);
      SortedDistinct(r);
      forall s ensures Occurs(ds, s) <==> s == ds[0].site || Occurs(ds[1..], s) {
        OccursCons(ds, s);
      }
      r
  }

  /** The `label` column holds one entry per row, and every entry is 1. */
  predicate LabelColumn(ds: Table, labels: seq<int>)
  {
    |labels| == |ds| && forall i :: 0 <= i < |labels| ==> labels[i] == 1
  }

  /** The loop of lines 16-22 that builds `landing_label`: it appends 1 for
      every row, whichever branch the row's `class` selects. */
  method LandingLabels(ds: Table) returns (labels: seq<int>)
    ensures LabelColumn(ds, labels)
  {
    labels := [];
    for i := 0 to |ds|
      invariant |labels| == i
      invariant forall k :: 0 <= k < i ==> labels[k] == 1
    {
      if ds[i].cls == 0 {
        labels := labels + [1];
      } else {
        labels := labels + [1];
      }
    }
  }
}
