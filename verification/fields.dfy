/** Three-dimensional numpy arrays of floats, indexed `[x][y][z]`. */
module Fields {

  type Field = seq<seq<seq<real>>>

  /** `f.shape == (nx, ny, nz)` */
  predicate HasShape(f: Field, nx: nat, ny: nat, nz: nat) {
    && |f| == nx
    && (forall i :: 0 <= i < nx ==> |f[i]| == ny)
    && (forall i, j :: 0 <= i < nx && 0 <= j < ny ==> |f[i][j]| == nz)
  }

  /** The cells of a plane, row after row. */
  function PlaneCells(p: seq<seq<real>>): seq<real> {
    if |p| == 0 then [] else p[0] + PlaneCells(p[1..])
  }

  /** Every cell of the field (numpy's flat view, in C order). */
  function Cells(f: Field): seq<real> {
    if |f| == 0 then [] else PlaneCells(f[0]) + Cells(f[1..])
  }

  lemma {:induction false} PlaneCellsMembers(p: seq<seq<real>>, x: real)
    ensures x in PlaneCells(p) <==> exists j, k :: 0 <= j < |p| && 0 <= k < |p[j]| && p[j][k] == x
  {
    if |p| != 0 {
      PlaneCellsMembers(p[1..], x);
      if x in PlaneCells(p[1..]) {
        var j, k :| 0 <= j < |p[1..]| && 0 <= k < |p[1..][j]| && p[1..][j][k] == x;
        assert p[j + 1][k] == x;
      }
      if exists j, k :: 0 <= j < |p| && 0 <= k < |p[j]| && p[j][k] == x {
        var j, k :| 0 <= j < |p| && 0 <= k < |p[j]| && p[j][k] == x;
        if j > 0 {
          assert p[1..][j - 1][k] == x;
        }
      }
    }
  }

  /** `x` is a cell value of `f` exactly when some index holds it. */
  lemma {:induction false} CellsMembers(f: Field, x: real)
    ensures x in Cells(f) <==>
            exists i, j, k :: 0 <= i < |f| && 0 <= j < |f[i]| && 0 <= k < |f[i][j]| && f[i][j][k] == x
  {
    if |f| != 0 {
      CellsMembers(f[1..], x);
      PlaneCellsMembers(f[0], x);
      if x in Cells(f[1..]) {
        var i, j, k :| 0 <= i < |f[1..]| && 0 <= j < |f[1..][i]| && 0 <= k < |f[1..][i][j]| && f[1..][i][j][k] == x;
        assert f[i + 1][j][k] == x;
      }
      if exists i, j, k :: 0 <= i < |f| && 0 <= j < |f[i]| && 0 <= k < |f[i][j]| && f[i][j][k] == x {
        var i, j, k :| 0 <= i < |f| && 0 <= j < |f[i]| && 0 <= k < |f[i][j]| && f[i][j][k] == x;
        if i > 0 {
          assert f[1..][i - 1][j][k] == x;
        }
      }
    }
  }

  lemma CellInCells(f: Field, i: nat, j: nat, k: nat)
    requires i < |f| && j < |f[i]| && k < |f[i][j]|
    ensures f[i][j][k] in Cells(f)
  {
    CellsMembers(f, f[i][j][k]);
  }

  /** `np.min` of a non-empty sequence. */
  function SeqMin(s: seq<real>): (m: real)
    requires |s| > 0
    ensures m in s && forall x :: x in s ==> m <= x
  {
    if |s| == 1 then s[0]
    else
      var rest := SeqMin(s[1..]);
      assert forall x :: x in s ==> x == s[0] || x in s[1..];
      if s[0] <= rest then s[0] else rest
  }

  /** `np.max` of a non-empty sequence. */
  function SeqMax(s: seq<real>): (m: real)
    requires |s| > 0
    ensures m in s && forall x :: x in s ==> x <= m
  {
    if |s| == 1 then s[0]
    else
      var rest := SeqMax(s[1..]);
      assert forall x :: x in s ==> x == s[0] || x in s[1..];
      if s[0] >= rest then s[0] else rest
  }

  /** A field of the given shape whose cell (i, j, k) is `g(i, j, k)`. */
  function Build(nx: nat, ny: nat, nz: nat, g: (nat, nat, nat) -> real): (f: Field)
    ensures HasShape(f, nx, ny, nz)
    ensures forall i, j, k :: 0 <= i < nx && 0 <= j < ny && 0 <= k < nz ==> f[i][j][k] == g(i, j, k)
  {
    seq(nx, i requires 0 <= i < nx =>
      seq(ny, j requires 0 <= j < ny =>
        seq(nz, k requires 0 <= k < nz => g(i, j, k))))
  }

  /** Apply `g` to every cell, keeping the shape. */
  function MapCells(f: Field, g: real -> real): (r: Field)
    ensures |r| == |f|
    ensures forall i :: 0 <= i < |f| ==> |r[i]| == |f[i]|
    ensures forall i, j :: 0 <= i < |f| && 0 <= j < |f[i]| ==> |r[i][j]| == |f[i][j]|
    ensures forall i, j, k :: 0 <= i < |f| && 0 <= j < |f[i]| && 0 <= k < |f[i][j]| ==> r[i][j][k] == g(f[i][j][k])
  {
    seq(|f|, i requires 0 <= i < |f| =>
      seq(|f[i]|, j requires 0 <= j < |f[i]| =>
        seq(|f[i][j]|, k requires 0 <= k < |f[i][j]| => g(f[i][j][k]))))
  }

  /** Applying a function to every cell keeps the shape. */
  lemma MapCellsShape(f: Field, g: real -> real, nx: nat, ny: nat, nz: nat)
    requires HasShape(f, nx, ny, nz)
    ensures HasShape(MapCells(f, g), nx, ny, nz)
  {
  }
}
