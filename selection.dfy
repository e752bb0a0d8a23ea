/** The selection filter behind the scatter callback `get_scatter_chart`
    (spacex_dash_app.py, lines 93-107) and the site mask of `get_pie_chart`
    (line 76). */
module Selection {
  import opened Seqs
  import opened Dataset

  /** The dropdown value that stands for every site. */
  const All := "ALL"

  /** A boolean row mask: `spacex_df['Launch Site'] == site`, or
      `(payload > low) & (payload < high)`. */
  datatype Mask = SiteIs(site: string) | PayloadBetween(low: real, high: real)

  predicate Holds(m: Mask, x: LaunchRecord)
  {
    match m
    case SiteIs(site) => x.site == site
    case PayloadBetween(low, high) => low < x.payload && x.payload < high
  }

  /** The rows a mask keeps, in table order. `df.where(mask)` keeps the shape
      of the frame and turns the other rows into NaN rows, which fail every
      later comparison and which the charts drop; `df[mask]` drops them at
      once. Both are this compact subsequence. */
  function Where(ds: Table, m: Mask): (r: Table)
    ensures forall x :: x in r <==> x in ds && Holds(m, x)
    ensures |r| <= |ds|
  {
    if ds == [] then []
    else if Holds(m, ds[0]) then [ds[0]] + Where(ds[1..], m)
    else Where(ds[1..], m)
  }

  /** A row the selection shows: from the chosen site (any site for `ALL`),
      with a payload strictly inside the slider range. */
  predicate Matches(x: LaunchRecord, entered: string, low: real, high: real)
  {
    (entered == All || x.site == entered) && low < x.payload && x.payload < high
  }

  /** The rows `get_scatter_chart` plots: `spacex_df[mask1]` for `ALL`,
      otherwise `filtered2_df[mask2]` with `filtered2_df` the site mask. */
  function Select(ds: Table, entered: string, low: real, high: real): (r: Table)
    ensures forall x :: x in r <==> x in ds && Matches(x, entered, low, high)
    ensures |r| <= |ds|
  {
    if entered == All then Where(ds, PayloadBetween(low, high))
    else Where(Where(ds, SiteIs(entered)), PayloadBetween(low, high))
  }

  // ---------------------------------------------------------------------
  // Properties of Where

  /** Masking a concatenation masks each part: the kept rows stay in table order. */
  lemma {:induction false} WhereAppend(a: Table, b: Table, m: Mask)
    ensures Where(a + b, m) == Where(a, m) + Where(b, m)
  {
    if a == [] {
      assert a + b == b;
    } else {
      assert (a + b)[0] == a[0];
      assert (a + b)[1..] == a[1..] + b;
      WhereAppend(a[1..], b, m);
    }
  }

  /** Each row is kept as often as it occurs, when the mask holds of it, and never otherwise. */
  lemma {:induction false} WhereMultiplicity(ds: Table, m: Mask, x: LaunchRecord)
    ensures multiset(Where(ds, m))[x] == if Holds(m, x) then multiset(ds)[x] else 0
  {
    if ds != [] {
      WhereMultiplicity(ds[1..], m, x);
      assert ds == [ds[0]] + ds[1..];
    }
  }

  /** The kept rows keep their relative order. */
  lemma {:induction false} WhereSubsequence(ds: Table, m: Mask)
    ensures IsSubsequence(Where(ds, m), ds)
  {
    if ds != [] {
      WhereSubsequence(ds[1..], m);
      var r := Where(ds[1..], m);
      if Holds(m, ds[0]) {
        assert ([ds[0]] + r)[1..] == r;
      } else if r != [] {
        assert r[0] in r;
      }
    }
  }

  /** Applying a mask to its own output changes nothing. */
  lemma {:induction false} WhereIdempotent(ds: Table, m: Mask)
    ensures Where(Where(ds, m), m) == Where(ds, m)
  {
    if ds != [] {
      WhereIdempotent(ds[1..], m);
      if Holds(m, ds[0]) {
        assert ([ds[0]] + Where(ds[1..], m))[1..] == Where(ds[1..], m);
      }
    }
  }

  /** When a mask holds of every row, it keeps the table as it is. */
  lemma {:induction false} WhereAllHold(ds: Table, m: Mask)
    requires forall i :: 0 <= i < |ds| ==> Holds(m, ds[i])
    ensures Where(ds, m) == ds
  {
    if ds != [] {
      WhereAllHold(ds[1..], m);
    }
  }

  /** When a mask holds of no row, it keeps nothing. */
  lemma {:induction false} WhereNoneHold(ds: Table, m: Mask)
    requires forall i :: 0 <= i < |ds| ==> !Holds(m, ds[i])
    ensures Where(ds, m) == []
  {
    if ds != [] {
      WhereNoneHold(ds[1..], m);
    }
  }

  // ---------------------------------------------------------------------
  // Properties of Select

  /** A one-row table shows its row exactly when the row matches. */
  lemma SelectSingleton(x: LaunchRecord, entered: string, low: real, high: real)
    ensures Select([x], entered, low, high) == if Matches(x, entered, low, high) then [x] else []
  {
    assert [x][1..] == [];
  }

  /** The selection of a concatenation is the concatenation of the selections:
      together with SelectSingleton, every matching row is shown once, in table order. */
  lemma SelectAppend(a: Table, b: Table, entered: string, low: real, high: real)
    ensures Select(a + b, entered, low, high) == Select(a, entered, low, high) + Select(b, entered, low, high)
  {
    var range := PayloadBetween(low, high);
    if entered == All {
      WhereAppend(a, b, range);
    } else {
      var site := SiteIs(entered);
      WhereAppend(a, b, site);
      WhereAppend(Where(a, site), Where(b, site), range);
    }
  }

  /** The rows shown are exactly the matching rows of the table. */
  lemma SelectMembers(ds: Table, entered: string, low: real, high: real)
    ensures forall x :: x in Select(ds, entered, low, high) <==> x in ds && Matches(x, entered, low, high)
  {
  }

  /** The selection is a subsequence of the table that holds every matching
      row as often as the table does and nothing else; this determines it. */
  lemma SelectExactly(ds: Table, entered: string, low: real, high: real)
    ensures IsSubsequence(Select(ds, entered, low, high), ds)
    ensures forall x :: multiset(Select(ds, entered, low, high))[x] ==
                        if Matches(x, entered, low, high) then multiset(ds)[x] else 0
  {
    var range := PayloadBetween(low, high);
    if entered == All {
      WhereSubsequence(ds, range);
      forall x ensures multiset(Where(ds, range))[x] == if Matches(x, entered, low, high) then multiset(ds)[x] else 0 {
        WhereMultiplicity(ds, range, x);
      }
    } else {
      var site := SiteIs(entered);
      var sited := Where(ds, site);
      WhereSubsequence(ds, site);
      WhereSubsequence(sited, range);
      SubsequenceTransitive(Where(sited, range), sited, ds);
      forall x ensures multiset(Where(sited, range))[x] == if Matches(x, entered, low, high) then multiset(ds)[x] else 0 {
        WhereMultiplicity(ds, site, x);
        WhereMultiplicity(sited, range, x);
      }
    }
  }

  lemma {:induction false} SubsequenceTransitive(s: Table, t: Table, u: Table)
    requires IsSubsequence(s, t) && IsSubsequence(t, u)
    ensures IsSubsequence(s, u)
    decreases |u|
  {
    if s != [] {
      if IsSubsequence(t, u[1..]) {
        SubsequenceTransitive(s, t, u[1..]);
      } else if s[0] == t[0] && IsSubsequence(s[1..], t[1..]) {
        SubsequenceTransitive(s[1..], t[1..], u[1..]);
      } else {
        SubsequenceTransitive(s, t[1..], u[1..]);
      }
    }
  }

  /** Filtering the shown rows again with the same selection gives them back unchanged. */
  lemma SelectIdempotent(ds: Table, entered: string, low: real, high: real)
    ensures Select(Select(ds, entered, low, high), entered, low, high) == Select(ds, entered, low, high)
  {
    var range := PayloadBetween(low, high);
    if entered == All {
      WhereIdempotent(ds, range);
    } else {
      var site := SiteIs(entered);
      var r := Where(Where(ds, site), range);
      WhereAllHold(r, site);
      WhereIdempotent(Where(ds, site), range);
    }
  }

  /** The payload bounds are strict: a row at either bound is never shown. */
  lemma SelectExcludesBounds(ds: Table, entered: string, low: real, high: real, x: LaunchRecord)
    requires x.payload == low || x.payload == high
    ensures x !in Select(ds, entered, low, high)
  {
  }

  /** With the slider at its initial value `[min_payload, max_payload]`, the
      lightest and the heaviest rows are not shown, and every row strictly
      between them from the chosen site is. */
  lemma InitialRangeExcludesExtremes(ds: Table, entered: string, lo: real, hi: real, i: int)
    requires MinPayload(ds) == Some(lo) && MaxPayload(ds) == Some(hi)
    requires 0 <= i < |ds|
    ensures ds[i] in Select(ds, entered, lo, hi) <==>
              (entered == All || ds[i].site == entered) && ds[i].payload != lo && ds[i].payload != hi
  {
    PayloadWithinBounds(ds, i);
    SelectMembers(ds, entered, lo, hi);
    assert ds[i] in ds;
  }

  /** A site that does not occur in the table selects nothing, and no error arises. */
  lemma UnknownSiteSelectsNothing(ds: Table, entered: string, low: real, high: real)
    requires entered != All && !Occurs(ds, entered)
    ensures Where(ds, SiteIs(entered)) == []
    ensures Select(ds, entered, low, high) == []
  {
    assert Where(ds, SiteIs(entered)) == [];
  }

  /** An empty or inverted payload range selects nothing. */
  lemma EmptyRangeSelectsNothing(ds: Table, entered: string, low: real, high: real)
    requires high <= low
    ensures Select(ds, entered, low, high) == []
  {
    var range := PayloadBetween(low, high);
    if entered == All {
      WhereNoneHold(ds, range);
    } else {
      WhereNoneHold(Where(ds, SiteIs(entered)), range);
    }
  }
}
