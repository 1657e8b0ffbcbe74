/** A small model of the pandas DataFrame the scripts manipulate: named
    columns in order, and rows of cells. A missing cell (NaN) is `NA`. */
module Frames {
  import opened Wrappers
  import opened Bins
  import opened Stats
  import opened Sorting
  import opened Columns

  datatype Cell = NA | Num(x: real) | Str(s: string) | Cat(category: Label)

  /** A cell of a numeric column: a number or missing. */
  predicate IsNumeric(c: Cell) {
    c.NA? || c.Num?
  }

  function NumCell(v: Option<real>): Cell {
    match v
    case None => NA
    case Some(x) => Num(x)
  }

  function StrCell(v: Option<string>): Cell {
    match v
    case None => NA
    case Some(s) => Str(s)
  }

  function CatCell(v: Option<Label>): Cell {
    match v
    case None => NA
    case Some(l) => Cat(l)
  }

  datatype Frame = Frame(columns: seq<Col>, rows: seq<seq<Cell>>)

  /** Every row has one cell per column. */
  predicate Rectangular(f: Frame) {
    forall i :: 0 <= i < |f.rows| ==> |f.rows[i]| == |f.columns|
  }

  /** Column names are unique (pandas `read_csv` renames repeated headers). */
  predicate Distinct(names: seq<Col>) {
    forall i, j :: 0 <= i < j < |names| ==> names[i] != names[j]
  }

  predicate WellFormed(f: Frame) {
    Rectangular(f) && Distinct(f.columns)
  }

  /** The cells of the k-th column, top to bottom. */
  function ColumnAt(f: Frame, k: nat): (col: seq<Cell>)
    requires Rectangular(f) && k < |f.columns|
    ensures |col| == |f.rows|
    ensures forall i :: 0 <= i < |col| ==> col[i] == f.rows[i][k]
  {
    seq(|f.rows|, i requires 0 <= i < |f.rows| => f.rows[i][k])
  }

  /** Position of the first column called `name`. */
  function IndexOf(names: seq<Col>, name: Col): (k: nat)
    requires name in names
    ensures k < |names| && names[k] == name
    ensures forall j :: 0 <= j < k ==> names[j] != name
  {
    if names[0] == name then 0 else 1 + IndexOf(names[1..], name)
  }

  /** `df[name]`: the cells of the column called `name`. */
  function Column(f: Frame, name: Col): (col: seq<Cell>)
    requires Rectangular(f) && name in f.columns
    ensures |col| == |f.rows|
    ensures forall i :: 0 <= i < |col| ==> col[i] == f.rows[i][IndexOf(f.columns, name)]
  {
    ColumnAt(f, IndexOf(f.columns, name))
  }

  /** `df[name] = values`: overwrites the column called `name` in place, or
      appends it as the last column when there is none yet. */
  function SetColumn(f: Frame, name: Col, values: seq<Cell>): (g: Frame)
    requires Rectangular(f) && |values| == |f.rows|
    ensures Rectangular(g) && |g.rows| == |f.rows|
    ensures g.columns == if name in f.columns then f.columns else f.columns + [name]
    ensures forall i, k :: 0 <= i < |g.rows| && 0 <= k < |g.columns| ==>
      g.rows[i][k] == if g.columns[k] == name then values[i] else f.rows[i][k]
  {
    var cols := if name in f.columns then f.columns else f.columns + [name];
    Frame(cols, seq(|f.rows|, i requires 0 <= i < |f.rows| =>
      seq(|cols|, k requires 0 <= k < |cols| => if cols[k] == name then values[i] else f.rows[i][k])))
  }

  /** Reading back a column just assigned gives the assigned values, every
      other column keeps its cells, and the column names stay unique. */
  lemma SetColumnThenColumn(f: Frame, name: Col, values: seq<Cell>, other: Col)
    requires WellFormed(f) && |values| == |f.rows|
    requires other in f.columns && other != name
    ensures WellFormed(SetColumn(f, name, values))
    ensures Column(SetColumn(f, name, values), name) == values
    ensures Column(SetColumn(f, name, values), other) == Column(f, other)
  {
    var g := SetColumn(f, name, values);
    var k, o := IndexOf(g.columns, name), IndexOf(g.columns, other);
    assert o == IndexOf(f.columns, other) by {
      if name in f.columns {
        assert g.columns == f.columns;
      } else {
        assert g.columns[..|f.columns|] == f.columns;
        IndexOfPrefix(f.columns, [name], other);
      }
    }
  }

  lemma {:induction false} IndexOfPrefix(names: seq<Col>, more: seq<Col>, name: Col)
    requires name in names
    ensures IndexOf(names + more, name) == IndexOf(names, name)
  {
    if names[0] != name {
      assert (names + more)[1..] == names[1..] + more;
      IndexOfPrefix(names[1..], more, name);
    }
  }

  /** `name` is the k-th column and no other column has that name. */
  predicate OnlyAt(names: seq<Col>, name: Col, k: nat) {
    k < |names| && names[k] == name && forall j :: 0 <= j < |names| && names[j] == name ==> j == k
  }

  /** Assigning an existing column (the k-th) changes that cell of every row
      and nothing else. */
  lemma SetColumnAt(f: Frame, name: Col, values: seq<Cell>, k: nat)
    requires Rectangular(f) && |values| == |f.rows| && OnlyAt(f.columns, name, k)
    ensures SetColumn(f, name, values).columns == f.columns
    ensures forall i :: 0 <= i < |f.rows| ==> SetColumn(f, name, values).rows[i] == f.rows[i][k := values[i]]
  {
    var g := SetColumn(f, name, values);
    forall i | 0 <= i < |f.rows| ensures g.rows[i] == f.rows[i][k := values[i]] {
      forall j | 0 <= j < |f.columns| ensures g.rows[i][j] == f.rows[i][k := values[i]][j] {
        if j != k {
          assert f.columns[j] != name;
        }
      }
    }
  }

  /** Assigning a new column appends one cell to every row. */
  lemma AppendColumn(f: Frame, name: Col, values: seq<Cell>)
    requires Rectangular(f) && |values| == |f.rows| && name !in f.columns
    ensures SetColumn(f, name, values).columns == f.columns + [name]
    ensures forall i :: 0 <= i < |f.rows| ==> SetColumn(f, name, values).rows[i] == f.rows[i] + [values[i]]
  {
    var g := SetColumn(f, name, values);
    forall i | 0 <= i < |f.rows| ensures g.rows[i] == f.rows[i] + [values[i]] {
      forall j | 0 <= j < |f.columns| ensures g.rows[i][j] == f.rows[i][j] {
        assert g.columns[j] == f.columns[j] != name;
      }
    }
  }

  /** Reading the column called `name` where it is known to be the k-th. */
  lemma ColumnIsAt(f: Frame, name: Col, k: nat)
    requires Rectangular(f) && OnlyAt(f.columns, name, k)
    ensures Column(f, name) == ColumnAt(f, k)
  {
    assert IndexOf(f.columns, name) == k;
  }

  /** The numbers of a column, skipping missing cells, in row order. */
  function Present(col: seq<Cell>): (xs: seq<real>)
    ensures |xs| <= |col|
    ensures forall k :: 0 <= k < |xs| ==> exists i :: 0 <= i < |col| && col[i] == Num(xs[k])
  {
    if col == [] then []
    else
      var rest := Present(col[1..]);
      assert forall i :: 1 <= i < |col| ==> col[i] == col[1..][i - 1];
      match col[0]
      case Num(x) => [x] + rest
      case _ => rest
  }

  /** `Present` keeps every number as often as the column holds it, and nothing else. */
  lemma {:induction false} PresentMultiplicity(col: seq<Cell>)
    ensures forall x :: multiset(Present(col))[x] == multiset(col)[Num(x)]
  {
    if col != [] {
      PresentMultiplicity(col[1..]);
      assert col == [col[0]] + col[1..];
    }
  }

  /** Every number of the column is listed by `Present`. */
  lemma {:induction false} PresentContains(col: seq<Cell>, j: nat)
    requires j < |col| && col[j].Num?
    ensures col[j].x in Present(col)
  {
    if j > 0 {
      PresentContains(col[1..], j - 1);
    }
  }

  /** `col.fillna(v)`: missing cells become `v`, the others are kept. */
  function FillNa(col: seq<Cell>, v: Cell): (r: seq<Cell>)
    ensures |r| == |col|
    ensures forall i :: 0 <= i < |col| ==> r[i] == (if col[i].NA? then v else col[i])
  {
    seq(|col|, i requires 0 <= i < |col| => if col[i].NA? then v else col[i])
  }

  /** `col.median()`: missing when the column has no number. */
  function MedianCell(col: seq<Cell>): (c: Cell)
    ensures IsNumeric(c)
  {
    NumCell(Median(Present(col)))
  }

  /** The median of a column is the middle of its numbers, repeats included,
      once they are put in ascending order. */
  lemma MedianCellIsMiddle(col: seq<Cell>, s: seq<real>)
    requires s != [] && SortedBy(s, Identity)
    requires forall x :: multiset(s)[x] == multiset(col)[Num(x)]
    ensures MedianCell(col) == Num(if |s| % 2 == 1 then s[|s| / 2] else (s[|s| / 2 - 1] + s[|s| / 2]) / 2.0)
  {
    PresentMultiplicity(col);
    assert multiset(s) == multiset(Present(col));
    MedianIsMiddle(Present(col), s);
  }

  /** `col.fillna(col.median())`. */
  function FillMedian(col: seq<Cell>): seq<Cell> {
    FillNa(col, MedianCell(col))
  }

  /** Some cell of the column holds a number. */
  predicate HasValue(col: seq<Cell>) {
    exists j :: 0 <= j < |col| && col[j].Num?
  }

  /** `v` lies between two numbers of the column, hence between its minimum and maximum. */
  predicate WithinRange(col: seq<Cell>, v: real) {
    exists a, b :: 0 <= a < |col| && 0 <= b < |col| && col[a].Num? && col[b].Num? &&
      col[a].x <= v <= col[b].x
  }

  /** The median of a column is missing exactly when the column holds no
      number, and otherwise lies within the range of its numbers. */
  lemma MedianCellSpec(col: seq<Cell>)
    ensures MedianCell(col).NA? <==> !HasValue(col)
    ensures MedianCell(col).Num? ==> WithinRange(col, MedianCell(col).x)
  {
    if HasValue(col) {
      MedianOfValues(col);
    } else {
      MedianOfNoValues(col);
    }
  }

  lemma MedianOfValues(col: seq<Cell>)
    requires HasValue(col)
    ensures MedianCell(col).Num? && WithinRange(col, MedianCell(col).x)
  {
    var j :| 0 <= j < |col| && col[j].Num?;
    PresentContains(col, j);
    MedianWithin(col, Median(Present(col)).value);
  }

  lemma MedianWithin(col: seq<Cell>, m: real)
    requires Median(Present(col)) == Some(m)
    ensures WithinRange(col, m)
  {
    var xs := Present(col);
    var p :| 0 <= p < |xs| && xs[p] <= m;
    var q :| 0 <= q < |xs| && m <= xs[q];
    var a :| 0 <= a < |col| && col[a] == Num(xs[p]);
    var b :| 0 <= b < |col| && col[b] == Num(xs[q]);
    assert col[a].x <= m <= col[b].x;
  }

  lemma MedianOfNoValues(col: seq<Cell>)
    requires !HasValue(col)
    ensures MedianCell(col).NA?
  {
    var xs := Present(col);
    if xs != [] {
      var a :| 0 <= a < |col| && col[a] == Num(xs[0]);
    }
  }

  /** Median imputation keeps every present cell and replaces every missing
      cell by the column median, which lies within the range of the present
      values. */
  lemma FillMedianSpec(col: seq<Cell>)
    ensures |FillMedian(col)| == |col|
    ensures forall i :: 0 <= i < |col| && !col[i].NA? ==> FillMedian(col)[i] == col[i]
    ensures forall i :: 0 <= i < |col| && col[i].NA? ==> FillMedian(col)[i] == MedianCell(col)
    ensures forall i :: 0 <= i < |col| && col[i].NA? && FillMedian(col)[i].Num? ==>
      WithinRange(col, FillMedian(col)[i].x)
  {
    MedianCellSpec(col);
  }

  /** After median imputation of a numeric column no cell is missing when the
      column holds one number; a column with no number is left as it was. */
  lemma FillMedianComplete(col: seq<Cell>)
    requires forall i :: 0 <= i < |col| ==> IsNumeric(col[i])
    ensures HasValue(col) ==> forall i :: 0 <= i < |col| ==> FillMedian(col)[i].Num?
    ensures !HasValue(col) ==> FillMedian(col) == col
  {
    MedianCellSpec(col);
    var v, r := MedianCell(col), FillMedian(col);
    assert r == FillNa(col, v);
    if !HasValue(col) {
      assert forall i :: 0 <= i < |col| ==> col[i].NA?;
    }
  }
}
