/** How a pie figure turns its `names` and `values` columns into slices:
    rows with equal names are merged, their values added, and each name
    keeps the place of its first row. */
module Grouping {
  import opened Seqs

  /** A pie name: a launch site, or a value of the `class` column. */
  datatype Label = SiteLabel(site: string) | ClassLabel(cls: int)

  /** One input row of a pie (its name and value), or one slice of it. */
  datatype Slice = Slice(name: Label, value: int)

  function NamesOf(s: seq<Slice>): seq<Label>
  {
    if s == [] then [] else [s[0].name] + NamesOf(s[1..])
  }

  /** The sum of all values. */
  function Total(s: seq<Slice>): int
  {
    if s == [] then 0 else s[0].value + Total(s[1..])
  }

  /** The sum of the values of the rows named `l`. */
  function SumFor(s: seq<Slice>, l: Label): int
  {
    if s == [] then 0 else (if s[0].name == l then s[0].value else 0) + SumFor(s[1..], l)
  }

  lemma {:induction false} NamesOfAppend(a: seq<Slice>, b: seq<Slice>)
    ensures NamesOf(a + b) == NamesOf(a) + NamesOf(b)
  {
    if a == [] {
      assert a + b == b;
    } else {
      assert (a + b)[1..] == a[1..] + b;
      NamesOfAppend(a[1..], b);
    }
  }

  lemma {:induction false} TotalAppend(a: seq<Slice>, b: seq<Slice>)
    ensures Total(a + b) == Total(a) + Total(b)
  {
    if a == [] {
      assert a + b == b;
    } else {
      assert (a + b)[1..] == a[1..] + b;
      TotalAppend(a[1..], b);
    }
  }

  lemma {:induction false} SumForAppend(a: seq<Slice>, b: seq<Slice>, l: Label)
    ensures SumFor(a + b, l) == SumFor(a, l) + SumFor(b, l)
  {
    if a == [] {
      assert a + b == b;
    } else {
      assert (a + b)[1..] == a[1..] + b;
      SumForAppend(a[1..], b, l);
    }
  }

  lemma {:induction false} NamesOfIndex(s: seq<Slice>)
    ensures |NamesOf(s)| == |s|
    ensures forall i :: 0 <= i < |s| ==> NamesOf(s)[i] == s[i].name
  {
    if s != [] {
      NamesOfIndex(s[1..]);
    }
  }

  /** A name that no row carries sums to nothing. */
  lemma {:induction false} SumForAbsent(s: seq<Slice>, l: Label)
    requires l !in NamesOf(s)
    ensures SumFor(s, l) == 0
  {
    if s != [] {
      SumForAbsent(s[1..], l);
    }
  }

  /** Once names are merged, each slice's value is the sum for its name. */
  lemma {:induction false} SliceIsSum(s: seq<Slice>, i: int)
    requires Distinct(NamesOf(s))
    requires 0 <= i < |s|
    ensures s[i].value == SumFor(s, s[i].name)
  {
    NamesOfIndex(s);
    assert NamesOf(s) == [s[0].name] + NamesOf(s[1..]);
    assert Distinct(NamesOf(s[1..])) by {
      forall j, k | 0 <= j < k < |NamesOf(s[1..])|
        ensures NamesOf(s[1..])[j] != NamesOf(s[1..])[k]
      {
        assert NamesOf(s[1..])[j] == NamesOf(s)[j + 1];
        assert NamesOf(s[1..])[k] == NamesOf(s)[k + 1];
      }
    }
    if i == 0 {
      assert s[0].name !in NamesOf(s[1..]) by {
        forall j | 0 <= j < |NamesOf(s[1..])| ensures NamesOf(s[1..])[j] != s[0].name {
          assert NamesOf(s[1..])[j] == NamesOf(s)[j + 1];
        }
      }
      SumForAbsent(s[1..], s[0].name);
    } else {
      assert s[i].name != s[0].name by {
        assert NamesOf(s)[i] == s[i].name && NamesOf(s)[0] == s[0].name;
      }
      SliceIsSum(s[1..], i - 1);
    }
  }

  /** Merges one row into the slices built so far: adds its value to the
      slice of the same name, or appends a new slice. */
  function Merge(acc: seq<Slice>, e: Slice): (r: seq<Slice>)
    requires Distinct(NamesOf(acc))
    ensures Distinct(NamesOf(r))
    ensures forall l :: l in NamesOf(r) <==> l in NamesOf(acc) || l == e.name
    ensures forall l :: SumFor(r, l) == SumFor(acc, l) + (if l == e.name then e.value else 0)
    ensures Total(r) == Total(acc) + e.value
  {
    if acc == [] then [e]
    else
      NamesOfIndex(acc);
      assert NamesOf(acc) == [acc[0].name] + NamesOf(acc[1..]);
      assert Distinct(NamesOf(acc[1..])) by {
        forall j, k | 0 <= j < k < |NamesOf(acc[1..])|
          ensures NamesOf(acc[1..])[j] != NamesOf(acc[1..])[k]
        {
          assert NamesOf(acc[1..])[j] == NamesOf(acc)[j + 1];
          assert NamesOf(acc[1..])[k] == NamesOf(acc)[k + 1];
        }
      }
      assert acc[0].name !in NamesOf(acc[1..]) by {
        forall j | 0 <= j < |NamesOf(acc[1..])| ensures NamesOf(acc[1..])[j] != acc[0].name {
          assert NamesOf(acc[1..])[j] == NamesOf(acc)[j + 1];
        }
      }
      if acc[0].name == e.name then
        var r := [Slice(e.name, acc[0].value + e.value)] + acc[1..];
        assert r[1..] == acc[1..];
        assert NamesOf(r) == [e.name] + NamesOf(acc[1..]);
        r
      else
        var t := Merge(acc[1..], e);
        var r := [acc[0]] + t;
        assert r[1..] == t;
        assert NamesOf(r) == [acc[0].name] + NamesOf(t);
        r
  }

  /** The slices of a pie: one per name, in order of first appearance, each
      carrying the sum of the values of the rows with that name. */
  function GroupSum(rows: seq<Slice>): (r: seq<Slice>)
    ensures Distinct(NamesOf(r))
    ensures forall l :: l in NamesOf(r) <==> l in NamesOf(rows)
    ensures forall l :: SumFor(r, l) == SumFor(rows, l)
    ensures Total(r) == Total(rows)
    decreases |rows|
  {
    if rows == [] then []
    else
      var n := |rows| - 1;
      assert rows == rows[..n] + [rows[n]];
      NamesOfAppend(rows[..n], [rows[n]]);
      TotalAppend(rows[..n], [rows[n]]);
      assert [rows[n]][1..] == [];
      forall l ensures SumFor(rows, l) == SumFor(rows[..n], l) + (if l == rows[n].name then rows[n].value else 0) {
        SumForAppend(rows[..n], [rows[n]], l);
      }
      Merge(GroupSum(rows[..n]), rows[n])
  }

  /** Each slice of a pie holds the sum of the values of the rows with its name. */
  lemma GroupSumSlice(rows: seq<Slice>, i: int)
    requires 0 <= i < |GroupSum(rows)|
    ensures GroupSum(rows)[i].value == SumFor(rows, GroupSum(rows)[i].name)
  {
    SliceIsSum(GroupSum(rows), i);
  }
}
