/** The part of the data-frame semantics that the dashboard's callbacks rely on:
    a loaded table with its default integer index, boolean Series built by
    comparing a column, and boolean indexing `frame[mask]`, which aligns the
    mask to the frame by index label. */
module Frames {

  /** One row of the launch table: the columns 'Launch Site',
      'Payload Mass (kg)', 'Booster Version Category' and 'class'. */
  datatype LaunchRecord = LaunchRecord(site: string, payload: real, booster: string, cls: int)

  /** A row of a frame: its index label and its record. */
  datatype Row = Row(index: nat, rec: LaunchRecord)

  type Frame = seq<Row>

  /** A boolean Series over the loaded table; entry i belongs to index i. */
  type Mask = seq<bool>

  /** Index labels strictly increase along the frame: rows are in table order. */
  ghost predicate Ascending(f: Frame) {
    forall i, j :: 0 <= i < j < |f| ==> f[i].index < f[j].index
  }

  /** Every index label of f has an entry in a mask of length n. */
  predicate LabelsWithin(f: Frame, n: nat) {
    forall x :: x in f ==> x.index < n
  }

  /** The table as read from the file: the default index 0, 1, ..., n-1. */
  function Load(d: seq<LaunchRecord>): (f: Frame)
    ensures |f| == |d| && Ascending(f)
    ensures forall x :: x in f <==> x.index < |d| && x.rec == d[x.index]
  {
    var f := seq(|d|, i requires 0 <= i < |d| => Row(i, d[i]));
    assert forall x: Row :: x.index < |d| && x.rec == d[x.index] ==> f[x.index] == x;
    f
  }

  /** The boolean Series `column == value` (or any other comparison of a
      column) over the loaded table: entry i says whether record i qualifies. */
  function MaskOf(d: seq<LaunchRecord>, keep: LaunchRecord -> bool): (m: Mask)
    ensures |m| == |d|
    ensures forall i :: 0 <= i < |d| ==> (m[i] <==> keep(d[i]))
  {
    seq(|d|, i requires 0 <= i < |d| => keep(d[i]))
  }

  /** The element-wise `a & b` of two Series over the same index. */
  function And(a: Mask, b: Mask): (m: Mask)
    requires |a| == |b|
    ensures |m| == |a|
    ensures forall i :: 0 <= i < |m| ==> (m[i] <==> a[i] && b[i])
  {
    seq(|a|, i requires 0 <= i < |a| => a[i] && b[i])
  }

  /** Boolean indexing `f[m]`: keeps the rows whose index the mask marks
      true, without reordering them. The mask is looked up by index, so a
      mask built over the whole table also applies to a frame already cut
      down from it. */
  function Select(f: Frame, m: Mask): (r: Frame)
    requires LabelsWithin(f, |m|)
    ensures |r| <= |f|
    ensures forall x :: x in r <==> x in f && m[x.index]
    ensures Ascending(f) ==> Ascending(r)
    decreases |f|
  {
    if f == [] then []
    else
      var rest := Select(f[1..], m);
      SplitHead(f);
      if m[f[0].index] then [f[0]] + rest else rest
  }

  /** A non-empty frame is its first row followed by the rest, and in table
      order the rest carries larger labels. */
  lemma SplitHead(f: Frame)
    requires f != []
    ensures forall x :: x in f <==> x == f[0] || x in f[1..]
    ensures Ascending(f) ==> Ascending(f[1..]) && forall x :: x in f[1..] ==> f[0].index < x.index
  {
    assert f == [f[0]] + f[1..];
    if Ascending(f) {
      AscendingHead(f);
    }
  }

  /** In a frame in table order, the rows after the first carry larger labels. */
  lemma AscendingHead(f: Frame)
    requires Ascending(f) && f != []
    ensures Ascending(f[1..])
    ensures forall x :: x in f[1..] ==> f[0].index < x.index
  {
    forall x | x in f[1..] ensures f[0].index < x.index {
      var k :| 0 <= k < |f| - 1 && f[1..][k] == x;
      assert f[k + 1] == x;
    }
  }

  /** The predicate a row satisfies when it passes two filters. */
  function Both(keep: LaunchRecord -> bool, also: LaunchRecord -> bool): LaunchRecord -> bool {
    (x: LaunchRecord) => keep(x) && also(x)
  }

  /** r holds, in table order, exactly those rows of the loaded table whose
      record satisfies keep. */
  ghost predicate Exactly(r: Frame, d: seq<LaunchRecord>, keep: LaunchRecord -> bool) {
    && Ascending(r)
    && forall x :: x in r <==> x in Load(d) && keep(x.rec)
  }

  /** Reference definition of a filtered table: walk the table and keep the
      qualifying rows with their labels. */
  function FilterRows(d: seq<LaunchRecord>, keep: LaunchRecord -> bool): Frame
    decreases |d|
  {
    if d == [] then []
    else
      var n := |d| - 1;
      FilterRows(d[..n], keep) + (if keep(d[n]) then [Row(n, d[n])] else [])
  }

  lemma {:induction false} FilterRowsExactly(d: seq<LaunchRecord>, keep: LaunchRecord -> bool)
    ensures Exactly(FilterRows(d, keep), d, keep)
    decreases |d|
  {
    if d != [] {
      var n := |d| - 1;
      var p := d[..n];
      var f := FilterRows(p, keep);
      FilterRowsExactly(p, keep);
      assert forall x :: x in f ==> x.index < n && x.rec == d[x.index] by {
        forall x | x in f ensures x.index < n && x.rec == d[x.index] {
          assert x in Load(p);
        }
      }
      var tail := if keep(d[n]) then [Row(n, d[n])] else [];
      var r := f + tail;
      assert r == FilterRows(d, keep);
      forall i, j | 0 <= i < j < |r| ensures r[i].index < r[j].index {
        if j >= |f| {
          assert r[i] == f[i] && f[i] in f;
        }
      }
      forall x ensures x in r <==> x in Load(d) && keep(x.rec) {
        if x.index < n {
          assert x in Load(d) <==> x in Load(p);
        }
      }
    }
  }

  lemma HeadIn(f: Frame)
    ensures f != [] ==> f[0] in f
  {
  }

  /** Two frames in table order with the same rows are the same frame. */
  lemma {:induction false} AscendingUnique(a: Frame, b: Frame)
    requires Ascending(a) && Ascending(b)
    requires forall x :: x in a <==> x in b
    ensures a == b
    decreases |a|
  {
    if a == [] || b == [] {
      HeadIn(a);
      HeadIn(b);
    } else {
      assert a[0] in b && b[0] in a;
      assert a[0] == b[0] by {
        AscendingHead(a);
        AscendingHead(b);
      }
      AscendingHead(a);
      AscendingHead(b);
      assert a == [a[0]] + a[1..] && b == [b[0]] + b[1..];
      forall x ensures x in a[1..] <==> x in b[1..] {
        if x in a[1..] {
          assert x != a[0] && x in b;
        }
        if x in b[1..] {
          assert x != b[0] && x in a;
        }
      }
      AscendingUnique(a[1..], b[1..]);
    }
  }

  /** Exactly pins the frame down: it is the reference filter of the table. */
  lemma ExactlyIsFilterRows(r: Frame, d: seq<LaunchRecord>, keep: LaunchRecord -> bool)
    requires Exactly(r, d, keep)
    ensures r == FilterRows(d, keep)
  {
    FilterRowsExactly(d, keep);
    AscendingUnique(r, FilterRows(d, keep));
  }

  /** `table[table[col] <op> value]`: indexing the loaded table by the Series
      of a predicate gives exactly the qualifying rows, in order. */
  lemma SelectLoaded(d: seq<LaunchRecord>, keep: LaunchRecord -> bool)
    ensures LabelsWithin(Load(d), |MaskOf(d, keep)|)
    ensures Exactly(Select(Load(d), MaskOf(d, keep)), d, keep)
  {
  }

  /** Indexing an already filtered frame by a Series built over the whole
      table keeps the rows that pass both filters, in order. */
  lemma SelectFiltered(r: Frame, d: seq<LaunchRecord>, keep: LaunchRecord -> bool, also: LaunchRecord -> bool)
    requires Exactly(r, d, keep)
    ensures LabelsWithin(r, |MaskOf(d, also)|)
    ensures Exactly(Select(r, MaskOf(d, also)), d, Both(keep, also))
  {
  }

  /** Indexing twice equals indexing once by the conjunction of the masks. */
  lemma {:induction false} SelectTwice(f: Frame, a: Mask, b: Mask)
    requires |a| == |b| && LabelsWithin(f, |a|)
    ensures LabelsWithin(Select(f, a), |b|)
    ensures Select(Select(f, a), b) == Select(f, And(a, b))
    decreases |f|
  {
    if f != [] {
      SelectTwice(f[1..], a, b);
    }
  }
}
