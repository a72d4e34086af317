/** The shapes the `paths` buffer takes: the 1-D seed array built from `y0`,
    or a 2-D array whose rows all have the same width. */
module Arrays {
  import opened Vectors
  import opened Errors

  datatype Array = Flat(v: Vector) | Grid(width: nat, rows: seq<Vector>) {

    /** Every row of a 2-D array has `width` entries. */
    predicate WellFormed() {
      Grid? ==> forall i :: 0 <= i < |rows| ==> |rows[i]| == width
    }
  }

  /** The array `np.vstack([a, y])`: a 1-D array becomes the first row of a two-row array;
      a 2-D array gets `y` as a new last row. */
  function VStack(a: Array, y: Vector): (r: Array)
    requires a.WellFormed()
    requires a.Flat? ==> |a.v| == |y|
    requires a.Grid? ==> a.width == |y|
    ensures r.Grid? && r.WellFormed() && r.width == |y|
    ensures |r.rows| == (if a.Flat? then 2 else |a.rows| + 1)
    ensures r.rows[|r.rows| - 1] == y
  {
    match a
    case Flat(v) => Grid(|v|, [v, y])
    case Grid(w, rows) => Grid(w, rows + [y])
  }

  /** The rows `states`, seen as one array: the seed alone stays 1-D, two or more rows
      of width `k` form a 2-D array. */
  function Stack(k: nat, states: seq<Vector>): (r: Array)
    requires 1 <= |states|
    ensures (forall i :: 0 <= i < |states| ==> |states[i]| == k) ==> r.WellFormed()
    ensures r.Flat? <==> |states| == 1
  {
    if |states| == 1 then Flat(states[0]) else Grid(k, states)
  }

  /** Stacking one more row onto the stacked states is stacking the longer sequence. */
  lemma VStackExtendsStack(k: nat, states: seq<Vector>, y: Vector)
    requires 1 <= |states|
    requires forall i :: 0 <= i < |states| ==> |states[i]| == k
    requires |y| == k
    ensures VStack(Stack(k, states), y) == Stack(k, states + [y])
  {
  }

  /** The array `a.T`: the identity on a 1-D array, rows and columns swapped on a 2-D one. */
  function Transpose(a: Array): (r: Array)
    requires a.WellFormed()
    ensures r.WellFormed()
    ensures a.Flat? ==> r == a
    ensures a.Grid? ==> r.Grid? && |r.rows| == a.width && r.width == |a.rows|
    ensures a.Grid? ==>
      forall i, j :: 0 <= i < |a.rows| && 0 <= j < a.width ==> r.rows[j][i] == a.rows[i][j]
  {
    match a
    case Flat(_) => a
    case Grid(w, rows) =>
      Grid(|rows|, seq(w, j requires 0 <= j < w =>
                         seq(|rows|, i requires 0 <= i < |rows| => rows[i][j])))
  }

  /** Transposing twice gives back the array. */
  lemma TransposeTwice(a: Array)
    requires a.WellFormed()
    ensures Transpose(Transpose(a)) == a
  {
    if a.Grid? {
      var t := Transpose(Transpose(a));
      assert |t.rows| == |a.rows|;
      forall i | 0 <= i < |a.rows|
        ensures t.rows[i] == a.rows[i]
      {
        assert |t.rows[i]| == a.width;
      }
    }
  }

  /** Column `i` of a 2-D array: entry `i` of every row. */
  function Column(a: Array, i: nat): (c: Vector)
    requires a.Grid? && a.WellFormed() && i < a.width
    ensures |c| == |a.rows|
    ensures forall j :: 0 <= j < |c| ==> c[j] == a.rows[j][i]
  {
    seq(|a.rows|, j requires 0 <= j < |a.rows| => a.rows[j][i])
  }

  /** After the transpose, column `i` holds what row `i` held before it. */
  lemma ColumnOfTranspose(k: nat, states: seq<Vector>, i: nat)
    requires forall r :: 0 <= r < |states| ==> |states[r]| == k
    requires i < |states|
    ensures Column(Transpose(Grid(k, states)), i) == states[i]
  {
    var c := Column(Transpose(Grid(k, states)), i);
    assert |c| == |states[i]|;
    forall j | 0 <= j < k
      ensures c[j] == states[i][j]
    {
    }
  }

  /** The array read as 2-D: a 1-D array becomes a single column, a 2-D array stays as
      it is. */
  function AsColumn(a: Array): (r: Array)
    requires a.WellFormed()
    ensures r.Grid? && r.WellFormed()
    ensures a.Grid? ==> r == a
    ensures a.Flat? ==> r.width == 1 && |r.rows| == |a.v| && Column(r, 0) == a.v
  {
    match a
    case Flat(v) => Grid(1, seq(|v|, j requires 0 <= j < |v| => [v[j]]))
    case Grid(_, _) => a
  }

  /** Consecutive differences of one row: the row form of `np.diff`. */
  function Differences(v: Vector): (r: Vector)
    ensures |r| == (if |v| == 0 then 0 else |v| - 1)
    ensures forall i :: 0 <= i < |r| ==> r[i] == v[i + 1] - v[i]
  {
    if |v| == 0 then [] else seq(|v| - 1, i requires 0 <= i < |v| - 1 => v[i + 1] - v[i])
  }

  /** Running sums starting at `c`: `[c, c + ds[0], c + ds[0] + ds[1], ...]`. */
  function Accumulate(c: real, ds: Vector): (r: Vector)
    ensures |r| == |ds| + 1 && r[0] == c
    decreases |ds|
  {
    if |ds| == 0 then [c] else [c] + Accumulate(c + ds[0], ds[1..])
  }

  /** Summing the differences of a non-empty row from its first entry rebuilds the row. */
  lemma {:induction false} AccumulateDifferences(v: Vector)
    requires 1 <= |v|
    ensures Accumulate(v[0], Differences(v)) == v
  {
    if |v| > 1 {
      var ds := Differences(v);
      AccumulateDifferences(v[1..]);
      assert ds[1..] == Differences(v[1..]);
      assert v[0] + ds[0] == v[1];
      assert v == [v[0]] + v[1..];
    }
  }

  /** Differencing the running sums gives back the increments. */
  lemma {:induction false} DifferencesAccumulate(c: real, ds: Vector)
    ensures Differences(Accumulate(c, ds)) == ds
    decreases |ds|
  {
    if |ds| > 0 {
      var acc := Accumulate(c, ds);
      var tail := Accumulate(c + ds[0], ds[1..]);
      DifferencesAccumulate(c + ds[0], ds[1..]);
      assert acc == [c] + tail;
      var d := Differences(acc);
      assert |d| == |ds|;
      forall i | 0 <= i < |ds|
        ensures d[i] == ds[i]
      {
        if i > 0 {
          assert d[i] == tail[i] - tail[i - 1];
          assert Differences(tail)[i - 1] == ds[1..][i - 1];
        } else {
          assert tail[0] == c + ds[0];
        }
      }
    }
  }

  /** `np.diff(a, axis=1)`: the consecutive differences along each row. A 1-D array has no
      axis 1, and the call fails. */
  function Diff(a: Array): (r: Result<Array>)
    requires a.WellFormed()
    ensures r.Ok? <==> a.Grid?
    ensures r.Err? ==> r.error == NoTimeAxis
    ensures r.Ok? ==> r.value.Grid? && r.value.WellFormed() && |r.value.rows| == |a.rows|
    ensures r.Ok? ==> r.value.width == (if a.width == 0 then 0 else a.width - 1)
    ensures r.Ok? ==> forall j, i :: 0 <= j < |a.rows| && 0 <= i < r.value.width ==>
                        r.value.rows[j][i] == a.rows[j][i + 1] - a.rows[j][i]
  {
    match a
    case Flat(_) => Err(NoTimeAxis)
    case Grid(w, rows) =>
      Ok(Grid(if w == 0 then 0 else w - 1,
              seq(|rows|, j requires 0 <= j < |rows| => Differences(rows[j]))))
  }

  /** Column `i` of the differenced array is column `i + 1` minus column `i`. */
  lemma DiffColumns(a: Array)
    requires a.Grid? && a.WellFormed()
    ensures forall i :: 0 <= i < a.width - 1 ==>
              Column(Diff(a).value, i) == Sub(Column(a, i + 1), Column(a, i))
  {
    var r := Diff(a).value;
    forall i | 0 <= i < a.width - 1
      ensures Column(r, i) == Sub(Column(a, i + 1), Column(a, i))
    {
      var c := Column(r, i);
      var e := Sub(Column(a, i + 1), Column(a, i));
      assert |c| == |e|;
      forall j | 0 <= j < |c|
        ensures c[j] == e[j]
      {
      }
    }
  }
}
