/**
 * Row-major flat indexing, as used by every blob of the layers: element `j`
 * of row `i` of a buffer with rows of length `len` sits at `i * len + j`.
 * The lemmas here are the non-linear arithmetic facts that the layers need.
 */
module Flat {

  lemma MulLe(a: nat, b: nat, c: nat)
    requires a <= b
    ensures a * c <= b * c
  {
    var d: nat := b - a;
    assert b * c == a * c + d * c;
  }

  lemma LtFromMul(a: nat, b: nat, c: nat)
    ensures a * c < b * c ==> a < b
  {
    if b <= a {
      MulLe(b, a, c);
    }
  }

  /** Row `i` of a buffer of `rows` rows ends inside it, where row `i + 1` starts. */
  lemma RowEnd(i: nat, rows: nat, len: nat)
    requires i < rows
    ensures (i + 1) * len == i * len + len
    ensures i * len + len <= rows * len
  {
    MulLe(i + 1, rows, len);
  }

  /** Element `j` of row `i` lies inside a buffer of `rows` rows. */
  lemma RowBound(i: nat, j: nat, rows: nat, len: nat)
    requires i < rows && j < len
    ensures i * len + j < rows * len
    ensures i * len + len <= rows * len
  {
    MulLe(i + 1, rows, len);
    assert (i + 1) * len == i * len + len;
  }

  /** The row and the column of a flat position are recovered by `/` and `%`. */
  lemma DivMod(i: nat, j: nat, len: nat)
    requires j < len
    ensures (i * len + j) / len == i
    ensures (i * len + j) % len == j
  {
    var q := i * len + j;
    var d, m := q / len, q % len;
    assert q == d * len + m;
    assert (i + 1) * len == i * len + len;
    assert (d + 1) * len == d * len + len;
    LtFromMul(d, i + 1, len);
    LtFromMul(i, d + 1, len);
  }

  /** A flat position inside the buffer has its row inside the buffer. */
  lemma DivBound(q: nat, rows: nat, len: nat)
    requires q < rows * len
    ensures len > 0 && q / len < rows
  {
    if len == 0 {
      assert false;
    } else {
      assert (q / len) * len <= q;
      LtFromMul(q / len, rows, len);
    }
  }

  /** Two different rows occupy disjoint ranges. */
  lemma RowsDisjoint(i: nat, k: nat, len: nat)
    requires k < i
    ensures k * len + len <= i * len
  {
    MulLe(k + 1, i, len);
    assert (k + 1) * len == k * len + len;
  }

  /** Different (row, column) pairs occupy different flat positions. */
  lemma IndexInjective(i: nat, j: nat, i2: nat, j2: nat, len: nat)
    requires j < len && j2 < len && i * len + j == i2 * len + j2
    ensures i == i2 && j == j2
  {
    DivMod(i, j, len);
    DivMod(i2, j2, len);
  }

  /** Row `i` of a row-major buffer. */
  function Row<T>(a: seq<T>, rows: nat, len: nat, i: nat): (r: seq<T>)
    requires |a| == rows * len && i < rows
    ensures |r| == len
    ensures i * len + len <= |a|
    ensures forall j :: 0 <= j < len ==> r[j] == a[i * len + j]
    ensures r == a[i * len .. i * len + len]
  {
    RowBound(i, 0, rows, len + 1);
    MulLe(i + 1, rows, len);
    assert (i + 1) * len == i * len + len;
    a[i * len .. i * len + len]
  }

  /**
   * Two buffers that agree outside the range of row `i0` have the same rows
   * everywhere else.
   */
  lemma RowFrame<T>(a: seq<T>, b: seq<T>, rows: nat, len: nat, i0: nat)
    requires |a| == |b| == rows * len && i0 < rows
    requires forall q :: 0 <= q < |a| && !(i0 * len <= q < i0 * len + len) ==> a[q] == b[q]
    ensures forall i :: 0 <= i < rows && i != i0 ==> Row(a, rows, len, i) == Row(b, rows, len, i)
  {
    forall i | 0 <= i < rows && i != i0
      ensures Row(a, rows, len, i) == Row(b, rows, len, i)
    {
      if i < i0 {
        RowsDisjoint(i0, i, len);
      } else {
        RowsDisjoint(i, i0, len);
      }
      var ra, rb := Row(a, rows, len, i), Row(b, rows, len, i);
      assert forall j :: 0 <= j < len ==> ra[j] == rb[j];
    }
  }

  /** A row that lies outside the only range where two buffers differ is the same in both. */
  lemma RowOutside<T>(a: seq<T>, b: seq<T>, rows: nat, len: nat, i: nat, lo: int, hi: int)
    requires |a| == |b| == rows * len && i < rows
    requires forall q :: 0 <= q < |a| && !(lo <= q < hi) ==> a[q] == b[q]
    requires i * len + len <= lo || hi <= i * len
    ensures Row(a, rows, len, i) == Row(b, rows, len, i)
  {
    var ra, rb := Row(a, rows, len, i), Row(b, rows, len, i);
    assert forall j :: 0 <= j < len ==> ra[j] == rb[j];
  }

  /** Writing element `j` of row `i` changes that element of that row and no other row. */
  lemma RowUpdate<T>(a: seq<T>, rows: nat, len: nat, i: nat, j: nat, v: T)
    requires |a| == rows * len && i < rows && j < len
    ensures i * len + j < |a|
    ensures Row(a[i * len + j := v], rows, len, i) == Row(a, rows, len, i)[j := v]
    ensures forall k :: 0 <= k < rows && k != i ==> Row(a[i * len + j := v], rows, len, k) == Row(a, rows, len, k)
  {
    RowBound(i, j, rows, len);
    var b := a[i * len + j := v];
    var l, r := Row(b, rows, len, i), Row(a, rows, len, i)[j := v];
    assert forall m :: 0 <= m < len ==> l[m] == r[m];
    RowFrame(a, b, rows, len, i);
  }

  /**
   * In a buffer of `groups` groups of `n` rows of length `len`, the row of
   * member `j` of group `i`.
   */
  function Cell<T>(a: seq<T>, groups: nat, n: nat, len: nat, i: nat, j: nat): (r: seq<T>)
    requires |a| == (groups * n) * len && i < groups && j < n
    ensures |r| == len
    ensures (i * n + j) * len + len <= |a|
    ensures r == a[(i * n + j) * len .. (i * n + j) * len + len]
  {
    RowBound(i, j, groups, n);
    Row(a, groups * n, len, i * n + j)
  }

  /** Two buffers that agree outside the row of member `j` of group `i` agree on every other member's row. */
  lemma CellFrame<T>(a: seq<T>, b: seq<T>, groups: nat, n: nat, len: nat, i: nat, j: nat)
    requires |a| == |b| == (groups * n) * len && i < groups && j < n
    requires forall q :: 0 <= q < |a| && !((i * n + j) * len <= q < (i * n + j) * len + len) ==> a[q] == b[q]
    ensures forall k, l :: 0 <= k < groups && 0 <= l < n && (k != i || l != j) ==>
      Cell(a, groups, n, len, k, l) == Cell(b, groups, n, len, k, l)
  {
    RowBound(i, j, groups, n);
    RowFrame(a, b, groups * n, len, i * n + j);
    forall k, l | 0 <= k < groups && 0 <= l < n && (k != i || l != j)
      ensures Cell(a, groups, n, len, k, l) == Cell(b, groups, n, len, k, l)
    {
      RowBound(k, l, groups, n);
      if k * n + l == i * n + j {
        IndexInjective(k, l, i, j, n);
      }
    }
  }

  /** The flat position of element `q` of the row of member `j` of group `i`. */
  function Slot(groups: nat, n: nat, len: nat, i: nat, j: nat, q: nat): (p: nat)
    requires i < groups && j < n && q < len
    ensures p == (i * n + j) * len + q && p < (groups * n) * len
  {
    RowBound(i, j, groups, n);
    RowBound(i * n + j, q, groups * n, len);
    (i * n + j) * len + q
  }

  /** Element `q` of the row of member `j` of group `i` sits at its flat position. */
  lemma CellAt<T>(a: seq<T>, groups: nat, n: nat, len: nat, i: nat, j: nat, q: nat)
    requires |a| == (groups * n) * len && i < groups && j < n && q < len
    ensures Cell(a, groups, n, len, i, j)[q] == a[Slot(groups, n, len, i, j, q)]
  {
  }

  /** Different elements of different rows have different flat positions. */
  lemma SlotInjective(groups: nat, n: nat, len: nat, i: nat, j: nat, q: nat, k: nat, l: nat, r: nat)
    requires i < groups && j < n && q < len && k < groups && l < n && r < len
    ensures Slot(groups, n, len, i, j, q) == Slot(groups, n, len, k, l, r) ==> i == k && j == l && q == r
  {
    if Slot(groups, n, len, i, j, q) == Slot(groups, n, len, k, l, r) {
      DivMod(i * n + j, q, len);
      DivMod(k * n + l, r, len);
      IndexInjective(i, j, k, l, n);
    }
  }

  /** Where the row of member `j` of group `i` starts. */
  function CellStart(groups: nat, n: nat, len: nat, i: nat, j: nat): (p: nat)
    requires i < groups && j < n
    ensures p == (i * n + j) * len && p + len <= (groups * n) * len
  {
    RowBound(i, j, groups, n);
    RowEnd(i * n + j, groups * n, len);
    (i * n + j) * len
  }

  /** The row of member `j` of group `i` lies inside the rows of group `i`. */
  lemma CellInGroup(groups: nat, n: nat, len: nat, i: nat, j: nat)
    requires i < groups && j < n
    ensures (i * n) * len <= CellStart(groups, n, len, i, j)
    ensures CellStart(groups, n, len, i, j) + len <= (i * n + n) * len
  {
    MulLe(i * n, i * n + j, len);
    MulLe(i * n + j + 1, i * n + n, len);
    assert (i * n + j + 1) * len == (i * n + j) * len + len;
  }

  /**
   * When `b` differs from `a` only on the row of member `j` of group `i`,
   * the other members' rows are unchanged and `b` differs from `a` only on
   * the rows of group `i`, which span `lo` to `hi`.
   */
  lemma KeepOthers<T>(a: seq<T>, b: seq<T>, groups: nat, n: nat, len: nat, i: nat, j: nat, lo: nat, hi: nat)
    requires |a| == |b| == (groups * n) * len && i < groups && j < n
    requires lo == (i * n) * len && hi == (i * n + n) * len
    requires forall q :: 0 <= q < |a| && !(CellStart(groups, n, len, i, j) <= q < CellStart(groups, n, len, i, j) + len) ==> a[q] == b[q]
    ensures forall l :: 0 <= l < n && l != j ==> Cell(b, groups, n, len, i, l) == Cell(a, groups, n, len, i, l)
    ensures forall q :: 0 <= q < |a| && !(lo <= q < hi) ==> a[q] == b[q]
  {
    CellInGroup(groups, n, len, i, j);
    CellFrame(a, b, groups, n, len, i, j);
  }

  /** Two buffers that agree outside the rows of group `i` agree on the rows of every other group. */
  lemma GroupFrame<T>(a: seq<T>, b: seq<T>, groups: nat, n: nat, len: nat, i: nat, lo: nat, hi: nat)
    requires |a| == |b| == (groups * n) * len && i < groups && lo == (i * n) * len && hi == (i * n + n) * len
    requires forall q :: 0 <= q < |a| && !(lo <= q < hi) ==> a[q] == b[q]
    ensures forall k, l :: 0 <= k < groups && 0 <= l < n && k != i ==>
      Cell(a, groups, n, len, k, l) == Cell(b, groups, n, len, k, l)
  {
    forall k, l | 0 <= k < groups && 0 <= l < n && k != i
      ensures Cell(a, groups, n, len, k, l) == Cell(b, groups, n, len, k, l)
    {
      RowBound(k, l, groups, n);
      if k < i {
        RowsDisjoint(i, k, n);
        MulLe(k * n + l + 1, i * n, len);
      } else {
        RowsDisjoint(k, i, n);
        MulLe(i * n + n, k * n + l, len);
      }
      assert (k * n + l + 1) * len == (k * n + l) * len + len;
      RowOutside(a, b, groups * n, len, k * n + l, lo, hi);
    }
  }

  /**
   * `a` after storing `vals[j]` at element `q` of the row of member `j` of
   * group `i`, for each `j < m` in turn.
   */
  function Scatter<T>(a: seq<T>, groups: nat, n: nat, len: nat, i: nat, q: nat, vals: seq<T>, m: nat): (r: seq<T>)
    requires |a| == (groups * n) * len && i < groups && q < len && m <= n && |vals| == n
    ensures |r| == |a|
  {
    if m == 0 then a
    else Scatter(a, groups, n, len, i, q, vals, m - 1)[Slot(groups, n, len, i, m - 1, q) := vals[m - 1]]
  }

  /** Two more stores, spelt out: the scatter up to `m + 2` is the one up to `m` and then the stores of `m` and `m + 1`. */
  lemma ScatterTwo<T>(a: seq<T>, groups: nat, n: nat, len: nat, i: nat, q: nat, vals: seq<T>, m: nat)
    requires |a| == (groups * n) * len && i < groups && q < len && m + 2 <= n && |vals| == n
    ensures Scatter(a, groups, n, len, i, q, vals, m + 2) ==
      Scatter(a, groups, n, len, i, q, vals, m)[Slot(groups, n, len, i, m, q) := vals[m]][Slot(groups, n, len, i, m + 1, q) := vals[m + 1]]
  {
    assert Scatter(a, groups, n, len, i, q, vals, m + 1) ==
      Scatter(a, groups, n, len, i, q, vals, m)[Slot(groups, n, len, i, m, q) := vals[m]];
  }

  /** Each of the first `m` stores leaves its value. */
  lemma {:induction false} ScatterHit<T>(a: seq<T>, groups: nat, n: nat, len: nat, i: nat, q: nat, vals: seq<T>, m: nat, j: nat)
    requires |a| == (groups * n) * len && i < groups && q < len && m <= n && |vals| == n && j < m
    ensures Scatter(a, groups, n, len, i, q, vals, m)[Slot(groups, n, len, i, j, q)] == vals[j]
  {
    if j < m - 1 {
      ScatterHit(a, groups, n, len, i, q, vals, m - 1, j);
      SlotInjective(groups, n, len, i, j, q, i, m - 1, q);
    }
  }

  /** An element none of the first `m` stores reaches keeps its value. */
  lemma {:induction false} ScatterMiss<T>(a: seq<T>, groups: nat, n: nat, len: nat, i: nat, q: nat, vals: seq<T>, m: nat,
                                          k: nat, l: nat, r: nat)
    requires |a| == (groups * n) * len && i < groups && q < len && m <= n && |vals| == n
    requires k < groups && l < n && r < len && !(k == i && r == q && l < m)
    ensures Scatter(a, groups, n, len, i, q, vals, m)[Slot(groups, n, len, k, l, r)] == a[Slot(groups, n, len, k, l, r)]
  {
    if m > 0 {
      ScatterMiss(a, groups, n, len, i, q, vals, m - 1, k, l, r);
      SlotInjective(groups, n, len, k, l, r, i, m - 1, q);
    }
  }

  /** `a` after storing `vals[q]` at element `q` of the row of member `j` of group `i`, for each `q < m` in turn. */
  function Overwrite<T>(a: seq<T>, groups: nat, n: nat, len: nat, i: nat, j: nat, vals: seq<T>, m: nat): (r: seq<T>)
    requires |a| == (groups * n) * len && i < groups && j < n && |vals| == len && m <= len
    ensures |r| == |a|
  {
    if m == 0 then a
    else Overwrite(a, groups, n, len, i, j, vals, m - 1)[Slot(groups, n, len, i, j, m - 1) := vals[m - 1]]
  }

  /** The `m + 1`-th store. */
  lemma OverwriteNext<T>(a: seq<T>, groups: nat, n: nat, len: nat, i: nat, j: nat, vals: seq<T>, m: nat)
    requires |a| == (groups * n) * len && i < groups && j < n && |vals| == len && m < len
    ensures Overwrite(a, groups, n, len, i, j, vals, m + 1)
      == Overwrite(a, groups, n, len, i, j, vals, m)[Slot(groups, n, len, i, j, m) := vals[m]]
  {
  }

  /** Each of the first `m` stores leaves its value. */
  lemma {:induction false} OverwriteHit<T>(a: seq<T>, groups: nat, n: nat, len: nat, i: nat, j: nat, vals: seq<T>, m: nat, q: nat)
    requires |a| == (groups * n) * len && i < groups && j < n && |vals| == len && m <= len && q < m
    ensures Overwrite(a, groups, n, len, i, j, vals, m)[Slot(groups, n, len, i, j, q)] == vals[q]
  {
    if q < m - 1 {
      OverwriteHit(a, groups, n, len, i, j, vals, m - 1, q);
    }
  }

  /** An element none of the first `m` stores reaches keeps its value. */
  lemma {:induction false} OverwriteMiss<T>(a: seq<T>, groups: nat, n: nat, len: nat, i: nat, j: nat, vals: seq<T>, m: nat,
                                            k: nat, l: nat, r: nat)
    requires |a| == (groups * n) * len && i < groups && j < n && |vals| == len && m <= len
    requires k < groups && l < n && r < len && !(k == i && l == j && r < m)
    ensures Overwrite(a, groups, n, len, i, j, vals, m)[Slot(groups, n, len, k, l, r)] == a[Slot(groups, n, len, k, l, r)]
  {
    if m > 0 {
      OverwriteMiss(a, groups, n, len, i, j, vals, m - 1, k, l, r);
      SlotInjective(groups, n, len, k, l, r, i, j, m - 1);
    }
  }

  /** Once every element is stored, the written row is `vals` and every other row is as before. */
  lemma OverwriteCells<T>(a: seq<T>, groups: nat, n: nat, len: nat, i: nat, j: nat, vals: seq<T>)
    requires |a| == (groups * n) * len && i < groups && j < n && |vals| == len
    ensures Cell(Overwrite(a, groups, n, len, i, j, vals, len), groups, n, len, i, j) == vals
    ensures forall k, l :: 0 <= k < groups && 0 <= l < n && (k != i || l != j) ==>
      Cell(Overwrite(a, groups, n, len, i, j, vals, len), groups, n, len, k, l) == Cell(a, groups, n, len, k, l)
  {
    var x := Overwrite(a, groups, n, len, i, j, vals, len);
    forall q | 0 <= q < len
      ensures Cell(x, groups, n, len, i, j)[q] == vals[q]
    {
      CellAt(x, groups, n, len, i, j, q);
      OverwriteHit(a, groups, n, len, i, j, vals, len, q);
    }
    forall k, l | 0 <= k < groups && 0 <= l < n && (k != i || l != j)
      ensures Cell(x, groups, n, len, k, l) == Cell(a, groups, n, len, k, l)
    {
      forall r | 0 <= r < len
        ensures Cell(x, groups, n, len, k, l)[r] == Cell(a, groups, n, len, k, l)[r]
      {
        CellAt(x, groups, n, len, k, l, r);
        CellAt(a, groups, n, len, k, l, r);
        OverwriteMiss(a, groups, n, len, i, j, vals, len, k, l, r);
      }
    }
  }

  /** Element `q` of each of the rows `planes`. */
  function Across<T>(planes: seq<seq<T>>, q: nat): (r: seq<T>)
    requires forall j :: 0 <= j < |planes| ==> q < |planes[j]|
    ensures |r| == |planes|
    ensures forall j :: 0 <= j < |planes| ==> r[j] == planes[j][q]
  {
    seq(|planes|, j requires 0 <= j < |planes| => planes[j][q])
  }

  /**
   * `a` after storing, for each `q < m` in turn, element `q` of every row of
   * `planes` (in row order) at element `q` of the rows of group `i`.
   */
  function Sweep<T>(a: seq<T>, groups: nat, n: nat, len: nat, i: nat, planes: seq<seq<T>>, m: nat): (r: seq<T>)
    requires |a| == (groups * n) * len && i < groups && |planes| == n && m <= len
    requires forall j :: 0 <= j < n ==> |planes[j]| == len
    ensures |r| == |a|
  {
    if m == 0 then a
    else Scatter(Sweep(a, groups, n, len, i, planes, m - 1), groups, n, len, i, m - 1, Across(planes, m - 1), n)
  }

  /** The `m + 1`-th step. */
  lemma SweepNext<T>(a: seq<T>, groups: nat, n: nat, len: nat, i: nat, planes: seq<seq<T>>, m: nat)
    requires |a| == (groups * n) * len && i < groups && |planes| == n && m < len
    requires forall j :: 0 <= j < n ==> |planes[j]| == len
    ensures Sweep(a, groups, n, len, i, planes, m + 1)
      == Scatter(Sweep(a, groups, n, len, i, planes, m), groups, n, len, i, m, Across(planes, m), n)
  {
  }

  /** After the first `m` steps, element `q < m` of row `l` of group `i` is element `q` of `planes[l]`. */
  lemma {:induction false} SweepHit<T>(a: seq<T>, groups: nat, n: nat, len: nat, i: nat, planes: seq<seq<T>>, m: nat,
                                       l: nat, q: nat)
    requires |a| == (groups * n) * len && i < groups && |planes| == n && m <= len
    requires forall j :: 0 <= j < n ==> |planes[j]| == len
    requires l < n && q < m
    ensures Sweep(a, groups, n, len, i, planes, m)[Slot(groups, n, len, i, l, q)] == planes[l][q]
  {
    var s := Sweep(a, groups, n, len, i, planes, m - 1);
    var across := Across(planes, m - 1);
    if q == m - 1 {
      ScatterHit(s, groups, n, len, i, m - 1, across, n, l);
    } else {
      ScatterMiss(s, groups, n, len, i, m - 1, across, n, i, l, q);
      SweepHit(a, groups, n, len, i, planes, m - 1, l, q);
    }
  }

  /** An element none of the first `m` steps reaches keeps its value. */
  lemma {:induction false} SweepMiss<T>(a: seq<T>, groups: nat, n: nat, len: nat, i: nat, planes: seq<seq<T>>, m: nat,
                                        k: nat, l: nat, r: nat)
    requires |a| == (groups * n) * len && i < groups && |planes| == n && m <= len
    requires forall j :: 0 <= j < n ==> |planes[j]| == len
    requires k < groups && l < n && r < len && !(k == i && r < m)
    ensures Sweep(a, groups, n, len, i, planes, m)[Slot(groups, n, len, k, l, r)] == a[Slot(groups, n, len, k, l, r)]
  {
    if m > 0 {
      var s := Sweep(a, groups, n, len, i, planes, m - 1);
      ScatterMiss(s, groups, n, len, i, m - 1, Across(planes, m - 1), n, k, l, r);
      SweepMiss(a, groups, n, len, i, planes, m - 1, k, l, r);
    }
  }

  /** Once every step is done, the rows of group `i` are `planes` and every other group is as before. */
  lemma SweepCells<T>(a: seq<T>, groups: nat, n: nat, len: nat, i: nat, planes: seq<seq<T>>)
    requires |a| == (groups * n) * len && i < groups && |planes| == n
    requires forall j :: 0 <= j < n ==> |planes[j]| == len
    ensures forall l :: 0 <= l < n ==> Cell(Sweep(a, groups, n, len, i, planes, len), groups, n, len, i, l) == planes[l]
    ensures forall k, l :: 0 <= k < groups && 0 <= l < n && k != i ==>
      Cell(Sweep(a, groups, n, len, i, planes, len), groups, n, len, k, l) == Cell(a, groups, n, len, k, l)
  {
    var x := Sweep(a, groups, n, len, i, planes, len);
    forall l | 0 <= l < n
      ensures Cell(x, groups, n, len, i, l) == planes[l]
    {
      forall q | 0 <= q < len
        ensures Cell(x, groups, n, len, i, l)[q] == planes[l][q]
      {
        CellAt(x, groups, n, len, i, l, q);
        SweepHit(a, groups, n, len, i, planes, len, l, q);
      }
    }
    forall k, l | 0 <= k < groups && 0 <= l < n && k != i
      ensures Cell(x, groups, n, len, k, l) == Cell(a, groups, n, len, k, l)
    {
      forall r | 0 <= r < len
        ensures Cell(x, groups, n, len, k, l)[r] == Cell(a, groups, n, len, k, l)[r]
      {
        CellAt(x, groups, n, len, k, l, r);
        CellAt(a, groups, n, len, k, l, r);
        SweepMiss(a, groups, n, len, i, planes, len, k, l, r);
      }
    }
  }
}
