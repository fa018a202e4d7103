/** The unstructured-grid description PFLOTRAN reads: `mesh.uge` lists every cell
    and every face shared by two neighbouring cells, and `north.ex`, `east.ex`,
    `south.ex` and `west.ex` list the outer faces of the four lateral borders.

    The files are modelled as their header counts and their records; the text
    formatting of the numbers is not. Cell ids are 1-based and run with `x`
    fastest and `z` slowest, so the cell at the 0-based index triple `(i, j, k)`
    has id `i + 1 + j * nx + k * nx * ny`.
 */
module Mesh {
  import opened DataStructures

  /** The number of passes of `range(n)`: none for `n <= 0`. */
  function Dim(n: int): (r: nat)
    ensures n <= 0 ==> r == 0
    ensures n >= 0 ==> r == n
  {
    if n < 0 then 0 else n
  }

  /** `number_cells` unpacked as `xGrid, yGrid, zGrid`, and `cell_resolution`. */
  datatype Grid = Grid(nx: int, ny: int, nz: int, res: real)

  function GridOf(general: General): Grid
    requires |general.numberCells| == 3
  {
    Grid(general.numberCells[0], general.numberCells[1], general.numberCells[2], general.cellResolution)
  }

  predicate Positive(g: Grid) {
    g.nx >= 1 && g.ny >= 1 && g.nz >= 1
  }

  predicate InBox(g: Grid, i: int, j: int, k: int) {
    0 <= i < g.nx && 0 <= j < g.ny && 0 <= k < g.nz
  }

  function LayerSize(g: Grid): int {
    g.nx * g.ny
  }

  function CellCount(g: Grid): int {
    g.nx * g.ny * g.nz
  }

  function Id(g: Grid, i: int, j: int, k: int): int {
    i + 1 + j * g.nx + k * LayerSize(g)
  }

  /** The coordinate of the centre of the `i`-th (0-based) cell along an axis. */
  function Centre(i: int, res: real): real {
    (i as real + 0.5) * res
  }

  /** `a <= b` scales to `a * c <= b * c` for `c >= 0`. */
  lemma MulMono(a: int, b: int, c: int)
    requires a <= b && 0 <= c
    ensures a * c <= b * c
  {
    assert b * c - a * c == (b - a) * c;
  }

  lemma MulSucc(a: int, c: int)
    ensures (a + 1) * c == a * c + c
  {
  }

  lemma MulStrict(a: int, b: int, c: int)
    requires a < b && 0 < c
    ensures a * c + c <= b * c
  {
    MulMono(a + 1, b, c);
    MulSucc(a, c);
  }

  /** A number lies in one block `[a c, a c + c)` only. */
  lemma SameBlock(x: int, a: int, b: int, c: int)
    requires 0 < c && a * c <= x < a * c + c && b * c <= x < b * c + c
    ensures a == b
  {
    if a < b {
      MulStrict(a, b, c);
    } else if b < a {
      MulStrict(b, a, c);
    }
  }

  /** The 0-based position of `(i, j)` within its layer. */
  lemma InLayer(g: Grid, i: int, j: int)
    requires 0 <= i < g.nx && 0 <= j < g.ny
    ensures 0 <= i + j * g.nx < LayerSize(g)
  {
    MulMono(j, g.ny - 1, g.nx);
    MulSucc(g.ny - 1, g.nx);
  }

  /** Every cell of the box has an id between 1 and the number of cells. */
  lemma IdInRange(g: Grid, i: int, j: int, k: int)
    requires InBox(g, i, j, k)
    ensures 1 <= Id(g, i, j, k) <= CellCount(g)
  {
    InLayer(g, i, j);
    MulMono(k, g.nz - 1, LayerSize(g));
    MulSucc(g.nz - 1, LayerSize(g));
  }

  /** Different cells of the box have different ids. */
  lemma IdInjective(g: Grid, i: int, j: int, k: int, i': int, j': int, k': int)
    requires InBox(g, i, j, k) && InBox(g, i', j', k')
    requires Id(g, i, j, k) == Id(g, i', j', k')
    ensures i == i' && j == j' && k == k'
  {
    InLayer(g, i, j);
    InLayer(g, i', j');
    SameBlock(Id(g, i, j, k) - 1, k, k', LayerSize(g));
    SameBlock(i + j * g.nx, j, j', g.nx);
  }

  /* ----- render_mesh ----- */

  /** A `<cell id> <x> <y> <z> <volume>` line of `mesh.uge`. */
  datatype Cell = Cell(id: int, x: real, y: real, z: real, volume: real)

  /** A `<cell id a> <cell id b> <x> <y> <z> <area>` line: the face shared by two cells. */
  datatype Connection = Connection(a: int, b: int, x: real, y: real, z: real, area: real)

  datatype MeshRecords = MeshRecords(cellCount: int, cells: seq<Cell>, connectionCount: int, connections: seq<Connection>)

  /** The cubic cell at `(i, j, k)`: its centre and its volume `res^3`. */
  function CellAt(g: Grid, i: int, j: int, k: int): (c: Cell)
    ensures c.id == Id(g, i, j, k)
    ensures c.x == Centre(i, g.res) && c.y == Centre(j, g.res) && c.z == Centre(k, g.res)
    ensures 0.0 < g.res ==> (i as real) * g.res < c.x < (i + 1) as real * g.res
    ensures 0.0 < g.res ==> (j as real) * g.res < c.y < (j + 1) as real * g.res
    ensures 0.0 < g.res ==> (k as real) * g.res < c.z < (k + 1) as real * g.res
    ensures c.volume == g.res * g.res * g.res
  {
    Cell(Id(g, i, j, k), Centre(i, g.res), Centre(j, g.res), Centre(k, g.res), g.res * g.res * g.res)
  }

  /** The face between `(i, j, k)` and its neighbour along `x`: it joins the two ids
      and lies half-way between their centres. */
  function XFace(g: Grid, i: int, j: int, k: int): (c: Connection)
    ensures c.a == Id(g, i, j, k) && c.b == Id(g, i + 1, j, k)
    ensures c.x == (Centre(i, g.res) + Centre(i + 1, g.res)) / 2.0
    ensures c.y == Centre(j, g.res) && c.z == Centre(k, g.res) && c.area == g.res * g.res
  {
    var a := Id(g, i, j, k);
    Connection(a, a + 1, (i + 1) as real * g.res, Centre(j, g.res), Centre(k, g.res), g.res * g.res)
  }

  /** The face between `(i, j, k)` and its neighbour along `y`. */
  function YFace(g: Grid, i: int, j: int, k: int): (c: Connection)
    ensures c.a == Id(g, i, j, k) && c.b == Id(g, i, j + 1, k)
    ensures c.y == (Centre(j, g.res) + Centre(j + 1, g.res)) / 2.0
    ensures c.x == Centre(i, g.res) && c.z == Centre(k, g.res) && c.area == g.res * g.res
  {
    var a := Id(g, i, j, k);
    Connection(a, a + g.nx, Centre(i, g.res), (j + 1) as real * g.res, Centre(k, g.res), g.res * g.res)
  }

  /** The face between `(i, j, k)` and its neighbour along `z`. */
  function ZFace(g: Grid, i: int, j: int, k: int): (c: Connection)
    ensures c.a == Id(g, i, j, k) && c.b == Id(g, i, j, k + 1)
    ensures c.z == (Centre(k, g.res) + Centre(k + 1, g.res)) / 2.0
    ensures c.x == Centre(i, g.res) && c.y == Centre(j, g.res) && c.area == g.res * g.res
  {
    var a := Id(g, i, j, k);
    Connection(a, a + LayerSize(g), Centre(i, g.res), Centre(j, g.res), (k + 1) as real * g.res, g.res * g.res)
  }

  /** The faces written while visiting cell `(i, j, k)`: one per axis that has a next cell. */
  function CellFaces(g: Grid, i: int, j: int, k: int): seq<Connection> {
    (if i < g.nx - 1 then [XFace(g, i, j, k)] else [])
    + (if j < g.ny - 1 then [YFace(g, i, j, k)] else [])
    + (if k < g.nz - 1 then [ZFace(g, i, j, k)] else [])
  }

  /** The first `n` cells of row `j` of layer `k`. */
  function RowCells(g: Grid, j: int, k: int, n: nat): seq<Cell> {
    seq(n, i requires 0 <= i < n => CellAt(g, i, j, k))
  }

  /** The first `m` rows of layer `k`. */
  function LayerCells(g: Grid, k: int, m: nat): seq<Cell> {
    if m == 0 then [] else LayerCells(g, k, m - 1) + RowCells(g, m - 1, k, Dim(g.nx))
  }

  /** The first `l` layers. */
  function BlockCells(g: Grid, l: nat): seq<Cell> {
    if l == 0 then [] else BlockCells(g, l - 1) + LayerCells(g, l - 1, Dim(g.ny))
  }

  function RowFaces(g: Grid, j: int, k: int, n: nat): seq<Connection> {
    if n == 0 then [] else RowFaces(g, j, k, n - 1) + CellFaces(g, n - 1, j, k)
  }

  function LayerFaces(g: Grid, k: int, m: nat): seq<Connection> {
    if m == 0 then [] else LayerFaces(g, k, m - 1) + RowFaces(g, m - 1, k, Dim(g.nx))
  }

  function BlockFaces(g: Grid, l: nat): seq<Connection> {
    if l == 0 then [] else BlockFaces(g, l - 1) + LayerFaces(g, l - 1, Dim(g.ny))
  }

  /** The declared number of faces: `(nx-1) ny nz + nx (ny-1) nz + nx ny (nz-1)`. */
  function FaceCount(g: Grid): int {
    (g.nx - 1) * g.ny * g.nz + g.nx * (g.ny - 1) * g.nz + g.nx * g.ny * (g.nz - 1)
  }

  /** `render_mesh`: the headers, then the cells and faces in the order of the loops
      over `z`, `y` and `x`. */
  function RenderMesh(g: Grid): (r: MeshRecords)
    ensures r.cellCount == CellCount(g) && r.connectionCount == FaceCount(g)
  {
    MeshRecords(CellCount(g), BlockCells(g, Dim(g.nz)), FaceCount(g), BlockFaces(g, Dim(g.nz)))
  }

  function CellIdAt(cells: seq<Cell>, p: int): int
    requires 0 <= p < |cells|
  {
    cells[p].id
  }

  lemma {:induction false} LayerCellsLength(g: Grid, k: int, m: nat)
    requires Positive(g)
    ensures |LayerCells(g, k, m)| == m * g.nx
  {
    if m > 0 {
      LayerCellsLength(g, k, m - 1);
      MulSucc(m - 1, g.nx);
    }
  }

  lemma {:induction false} BlockCellsLength(g: Grid, l: nat)
    requires Positive(g)
    ensures |BlockCells(g, l)| == l * LayerSize(g)
  {
    if l > 0 {
      BlockCellsLength(g, l - 1);
      LayerCellsLength(g, l - 1, g.ny);
      MulSucc(l - 1, LayerSize(g));
    }
  }

  lemma {:induction false} LayerCellIds(g: Grid, k: int, m: nat)
    requires Positive(g)
    ensures forall q :: 0 <= q < |LayerCells(g, k, m)| ==> LayerCells(g, k, m)[q].id == k * LayerSize(g) + q + 1
  {
    if m > 0 {
      LayerCellIds(g, k, m - 1);
      LayerCellsLength(g, k, m - 1);
      var prev := LayerCells(g, k, m - 1);
      var row := RowCells(g, m - 1, k, g.nx);
      assert LayerCells(g, k, m) == prev + row;
      forall q: int | |prev| <= q < |prev| + |row| ensures CellIdAt(prev + row, q) == k * LayerSize(g) + q + 1 {
        assert (prev + row)[q] == row[q - |prev|] == CellAt(g, q - |prev|, m - 1, k);
      }
    }
  }

  lemma {:induction false} BlockCellIds(g: Grid, l: nat)
    requires Positive(g)
    ensures forall p :: 0 <= p < |BlockCells(g, l)| ==> BlockCells(g, l)[p].id == p + 1
  {
    if l > 0 {
      BlockCellIds(g, l - 1);
      BlockCellsLength(g, l - 1);
      LayerCellIds(g, l - 1, g.ny);
      var prev := BlockCells(g, l - 1);
      var layer := LayerCells(g, l - 1, g.ny);
      assert BlockCells(g, l) == prev + layer;
      forall p: int | |prev| <= p < |prev| + |layer| ensures CellIdAt(prev + layer, p) == p + 1 {
        assert (prev + layer)[p] == layer[p - |prev|];
      }
    }
  }

  /** The cell header counts the cell records, and the records are numbered 1, 2, 3, ...
      in the order they are written: the id computed from the indices always equals
      the running counter. */
  lemma MeshCellsNumbered(g: Grid)
    requires Positive(g)
    ensures |RenderMesh(g).cells| == RenderMesh(g).cellCount
    ensures forall p :: 0 <= p < |RenderMesh(g).cells| ==> RenderMesh(g).cells[p].id == p + 1
  {
    BlockCellsLength(g, g.nz);
    BlockCellIds(g, g.nz);
  }

  lemma {:induction false} LayerCellAt(g: Grid, k: int, m: nat, i: int, j: int)
    requires Positive(g) && 0 <= i < g.nx && 0 <= j < m
    ensures j * g.nx + i < |LayerCells(g, k, m)| && LayerCells(g, k, m)[j * g.nx + i] == CellAt(g, i, j, k)
  {
    LayerCellsLength(g, k, m - 1);
    var prev := LayerCells(g, k, m - 1);
    assert LayerCells(g, k, m) == prev + RowCells(g, m - 1, k, g.nx);
    if j < m - 1 {
      LayerCellAt(g, k, m - 1, i, j);
    }
  }

  lemma {:induction false} BlockCellAt(g: Grid, l: nat, i: int, j: int, k: int)
    requires Positive(g) && 0 <= i < g.nx && 0 <= j < g.ny && 0 <= k < l
    ensures k * LayerSize(g) + j * g.nx + i < |BlockCells(g, l)|
    ensures BlockCells(g, l)[k * LayerSize(g) + j * g.nx + i] == CellAt(g, i, j, k)
  {
    BlockCellsLength(g, l - 1);
    LayerCellsLength(g, l - 1, g.ny);
    var prev := BlockCells(g, l - 1);
    assert BlockCells(g, l) == prev + LayerCells(g, l - 1, g.ny);
    InLayer(g, i, j);
    if k < l - 1 {
      BlockCellAt(g, l - 1, i, j, k);
      MulStrict(k, l - 1, LayerSize(g));
    } else {
      LayerCellAt(g, k, g.ny, i, j);
    }
  }

  /** The record with id `Id(i, j, k)` describes the cell at `(i, j, k)`: z is the
      outermost loop, then y, then x. */
  lemma MeshCellAt(g: Grid, i: int, j: int, k: int)
    requires Positive(g) && InBox(g, i, j, k)
    ensures 0 < Id(g, i, j, k) <= |RenderMesh(g).cells|
    ensures RenderMesh(g).cells[Id(g, i, j, k) - 1] == CellAt(g, i, j, k)
  {
    var cells := BlockCells(g, g.nz);
    assert RenderMesh(g).cells == cells;
    IdInRange(g, i, j, k);
    BlockCellAt(g, g.nz, i, j, k);
    var p := k * LayerSize(g) + j * g.nx + i;
    assert Id(g, i, j, k) == p + 1;
    assert cells[p] == CellAt(g, i, j, k);
  }

  lemma {:induction false} RowFaceCount(g: Grid, j: int, k: int, n: nat)
    requires Positive(g) && n <= g.nx
    ensures |RowFaces(g, j, k, n)| ==
              (if n < g.nx then n else g.nx - 1) + (if j < g.ny - 1 then n else 0) + (if k < g.nz - 1 then n else 0)
  {
    if n > 0 {
      RowFaceCount(g, j, k, n - 1);
      assert |CellFaces(g, n - 1, j, k)| ==
        (if n - 1 < g.nx - 1 then 1 else 0) + (if j < g.ny - 1 then 1 else 0) + (if k < g.nz - 1 then 1 else 0);
    }
  }

  /** One more step of a count that adds `side` every step and `across` on every
      step but the last of `total`. */
  lemma CountStep(l: int, total: int, side: int, across: int, before: int, step: int)
    requires 0 < l <= total
    requires before == (l - 1) * side + (if l - 1 < total then l - 1 else total - 1) * across
    requires step == side + (if l - 1 < total - 1 then across else 0)
    ensures before + step == l * side + (if l < total then l else total - 1) * across
  {
    MulSucc(l - 1, side);
    MulSucc(l - 1, across);
  }

  lemma {:induction false} LayerFaceCount(g: Grid, k: int, m: nat)
    requires Positive(g) && m <= g.ny
    ensures |LayerFaces(g, k, m)| ==
              m * ((g.nx - 1) + (if k < g.nz - 1 then g.nx else 0)) + (if m < g.ny then m else g.ny - 1) * g.nx
  {
    if m > 0 {
      LayerFaceCount(g, k, m - 1);
      RowFaceCount(g, m - 1, k, g.nx);
      var before, step := |LayerFaces(g, k, m - 1)|, |RowFaces(g, m - 1, k, g.nx)|;
      assert |LayerFaces(g, k, m)| == before + step;
      CountStep(m, g.ny, (g.nx - 1) + (if k < g.nz - 1 then g.nx else 0), g.nx, before, step);
    }
  }

  /** The faces of one whole layer, apart from those towards the next layer. */
  function SideFaces(g: Grid): int {
    g.ny * (g.nx - 1) + (g.ny - 1) * g.nx
  }

  lemma {:induction false} BlockFaceCount(g: Grid, l: nat)
    requires Positive(g) && l <= g.nz
    ensures |BlockFaces(g, l)| == l * SideFaces(g) + (if l < g.nz then l else g.nz - 1) * LayerSize(g)
  {
    if l > 0 {
      BlockFaceCount(g, l - 1);
      LayerFaceTotal(g, l - 1);
      var before, step := |BlockFaces(g, l - 1)|, |LayerFaces(g, l - 1, g.ny)|;
      assert |BlockFaces(g, l)| == before + step;
      CountStep(l, g.nz, SideFaces(g), LayerSize(g), before, step);
    }
  }

  /** A whole layer: its side faces, and its faces towards the next layer unless it is the last. */
  lemma LayerFaceTotal(g: Grid, k: int)
    requires Positive(g)
    ensures |LayerFaces(g, k, g.ny)| == SideFaces(g) + (if k < g.nz - 1 then LayerSize(g) else 0)
  {
    LayerFaceCount(g, k, g.ny);
  }

  /** `nz` layers of side faces and `nz - 1` layers of faces between layers make
      up the declared number of faces. */
  lemma FaceCountIdentity(nx: int, ny: int, nz: int)
    ensures nz * (ny * (nx - 1) + (ny - 1) * nx) + (nz - 1) * (nx * ny)
         == (nx - 1) * ny * nz + nx * (ny - 1) * nz + nx * ny * (nz - 1)
  {
    assert nz * (ny * (nx - 1) + (ny - 1) * nx) == (nx - 1) * ny * nz + nx * (ny - 1) * nz;
    assert (nz - 1) * (nx * ny) == nx * ny * (nz - 1);
  }

  /** The connection header counts the connection records. */
  lemma MeshFacesCounted(g: Grid)
    requires Positive(g)
    ensures |RenderMesh(g).connections| == RenderMesh(g).connectionCount
  {
    BlockFaceCount(g, g.nz);
    FaceCountIdentity(g.nx, g.ny, g.nz);
  }

  /** A grid with no layers has no cells and no faces, whatever its headers declare:
      for `[0, 1, 1]` the connection header is -1. */
  lemma MeshOfEmptyGrid(res: real)
    ensures var m := RenderMesh(Grid(0, 1, 1, res));
            m.cellCount == 0 && m.cells == [] && m.connectionCount == -1 && m.connections == []
  {
    var g := Grid(0, 1, 1, res);
    assert RowCells(g, 0, 0, 0) == [];
    assert LayerCells(g, 0, 1) == [];
    assert BlockCells(g, 1) == [];
    assert LayerFaces(g, 0, 1) == [];
    assert BlockFaces(g, 1) == [];
  }

  /** A face between two neighbouring cells of the box. */
  predicate FaceOf(g: Grid, c: Connection, i: int, j: int, k: int) {
    || (i < g.nx - 1 && c == XFace(g, i, j, k))
    || (j < g.ny - 1 && c == YFace(g, i, j, k))
    || (k < g.nz - 1 && c == ZFace(g, i, j, k))
  }

  ghost predicate JoinsNeighbours(g: Grid, c: Connection) {
    exists i, j, k :: InBox(g, i, j, k) && FaceOf(g, c, i, j, k)
  }

  lemma {:induction false} RowFacesJoin(g: Grid, j: int, k: int, n: nat)
    requires 0 <= j < g.ny && 0 <= k < g.nz && n <= Dim(g.nx)
    ensures forall c :: c in RowFaces(g, j, k, n) ==> JoinsNeighbours(g, c)
  {
    if n > 0 {
      RowFacesJoin(g, j, k, n - 1);
      forall c | c in CellFaces(g, n - 1, j, k) ensures JoinsNeighbours(g, c) {
        assert InBox(g, n - 1, j, k) && FaceOf(g, c, n - 1, j, k);
      }
    }
  }

  lemma {:induction false} LayerFacesJoin(g: Grid, k: int, m: nat)
    requires 0 <= k < g.nz && m <= Dim(g.ny)
    ensures forall c :: c in LayerFaces(g, k, m) ==> JoinsNeighbours(g, c)
  {
    if m > 0 {
      LayerFacesJoin(g, k, m - 1);
      RowFacesJoin(g, m - 1, k, Dim(g.nx));
    }
  }

  lemma {:induction false} BlockFacesJoin(g: Grid, l: nat)
    requires l <= Dim(g.nz)
    ensures forall c :: c in BlockFaces(g, l) ==> JoinsNeighbours(g, c)
  {
    if l > 0 {
      BlockFacesJoin(g, l - 1);
      LayerFacesJoin(g, l - 1, Dim(g.ny));
    }
  }

  /** Every connection joins a cell of the box to its next neighbour along one axis. */
  lemma MeshFacesJoinNeighbours(g: Grid)
    ensures forall c :: c in RenderMesh(g).connections ==> JoinsNeighbours(g, c)
  {
    BlockFacesJoin(g, Dim(g.nz));
  }

  /** So the second id is the first plus 1, `nx` or `nx * ny`, and both lie in `1..N`. */
  lemma NeighbourIds(g: Grid, c: Connection)
    requires JoinsNeighbours(g, c)
    ensures 1 <= c.a < c.b <= CellCount(g)
    ensures c.b == c.a + 1 || c.b == c.a + g.nx || c.b == c.a + LayerSize(g)
  {
    var i, j, k :| InBox(g, i, j, k) && FaceOf(g, c, i, j, k);
    IdInRange(g, i, j, k);
    if i < g.nx - 1 && c == XFace(g, i, j, k) {
      IdInRange(g, i + 1, j, k);
    } else if j < g.ny - 1 && c == YFace(g, i, j, k) {
      NextRow(g, i, j, k);
    } else {
      NextLayer(g, i, j, k);
    }
  }

  /** The cell in the next row has an id `nx` higher, still within `1..N`. */
  lemma NextRow(g: Grid, i: int, j: int, k: int)
    requires InBox(g, i, j, k) && j < g.ny - 1
    ensures Id(g, i, j + 1, k) == Id(g, i, j, k) + g.nx <= CellCount(g)
  {
    IdInRange(g, i, j + 1, k);
    MulSucc(j, g.nx);
  }

  /** The cell in the next layer has an id `nx * ny` higher, still within `1..N`. */
  lemma NextLayer(g: Grid, i: int, j: int, k: int)
    requires InBox(g, i, j, k) && k < g.nz - 1
    ensures Id(g, i, j, k + 1) == Id(g, i, j, k) + LayerSize(g) <= CellCount(g)
  {
    IdInRange(g, i, j, k + 1);
    MulSucc(k, LayerSize(g));
  }

  /** What `a` or `b` holds, `a + b` holds. */
  lemma InAppend(a: seq<Connection>, b: seq<Connection>, c: Connection)
    ensures c in a || c in b ==> c in a + b
  {
    if c in b {
      var x :| 0 <= x < |b| && b[x] == c;
      assert (a + b)[|a| + x] == c;
    }
  }

  lemma {:induction false} RowFacesHave(g: Grid, j: int, k: int, n: nat, i: nat, c: Connection)
    requires i < n && c in CellFaces(g, i, j, k)
    ensures c in RowFaces(g, j, k, n)
  {
    if i < n - 1 {
      RowFacesHave(g, j, k, n - 1, i, c);
      InAppend(RowFaces(g, j, k, n - 1), CellFaces(g, n - 1, j, k), c);
    } else {
      assert i == n - 1;
      InAppend(RowFaces(g, j, k, n - 1), CellFaces(g, n - 1, j, k), c);
    }
  }

  lemma {:induction false} LayerFacesHave(g: Grid, k: int, m: nat, i: nat, j: nat, c: Connection)
    requires i < Dim(g.nx) && j < m && c in CellFaces(g, i, j, k)
    ensures c in LayerFaces(g, k, m)
  {
    if j < m - 1 {
      LayerFacesHave(g, k, m - 1, i, j, c);
      InAppend(LayerFaces(g, k, m - 1), RowFaces(g, m - 1, k, Dim(g.nx)), c);
    } else {
      assert j == m - 1;
      RowFacesHave(g, j, k, Dim(g.nx), i, c);
      InAppend(LayerFaces(g, k, m - 1), RowFaces(g, m - 1, k, Dim(g.nx)), c);
    }
  }

  lemma {:induction false} BlockFacesHave(g: Grid, l: nat, i: nat, j: nat, k: nat, c: Connection)
    requires i < Dim(g.nx) && j < Dim(g.ny) && k < l && c in CellFaces(g, i, j, k)
    ensures c in BlockFaces(g, l)
  {
    if k < l - 1 {
      BlockFacesHave(g, l - 1, i, j, k, c);
      InAppend(BlockFaces(g, l - 1), LayerFaces(g, l - 1, Dim(g.ny)), c);
    } else {
      assert k == l - 1;
      LayerFacesHave(g, k, Dim(g.ny), i, j, c);
      InAppend(BlockFaces(g, l - 1), LayerFaces(g, l - 1, Dim(g.ny)), c);
    }
  }

  /** Conversely every face between two neighbouring cells is written. */
  lemma MeshHasEveryFace(g: Grid, c: Connection)
    requires JoinsNeighbours(g, c)
    ensures c in RenderMesh(g).connections
  {
    var i, j, k :| InBox(g, i, j, k) && FaceOf(g, c, i, j, k);
    BlockFacesHave(g, Dim(g.nz), i, j, k, c);
  }

  /** The 32 x 64 x 2 grid: 4096 cells and 10048 faces. */
  lemma MeshExample(res: real)
    ensures var m := RenderMesh(Grid(32, 64, 2, res));
            m.cellCount == 4096 && |m.cells| == 4096 && m.connectionCount == 10048 && |m.connections| == 10048
  {
    MeshCellsNumbered(Grid(32, 64, 2, res));
    MeshFacesCounted(Grid(32, 64, 2, res));
  }

  /* ----- render_borders ----- */

  /** A `<cell id> <x> <y> <z> <area>` line of a border file. */
  datatype BorderRecord = BorderRecord(id: int, x: real, y: real, z: real, area: real)

  datatype BorderFile = BorderFile(count: int, records: seq<BorderRecord>)

  datatype Borders = Borders(north: BorderFile, east: BorderFile, south: BorderFile, west: BorderFile)

  /** The outer face of the cell `(i, ny - 1, k)`, half a cell beyond its centre in `y`. */
  function NorthAt(g: Grid, i: int, k: int): (r: BorderRecord)
    ensures r.id == Id(g, i, g.ny - 1, k)
    ensures r.x == CellAt(g, i, g.ny - 1, k).x && r.z == CellAt(g, i, g.ny - 1, k).z
    ensures r.y == CellAt(g, i, g.ny - 1, k).y + g.res / 2.0
    ensures r.area == g.res * g.res
  {
    BorderRecord(g.nx * (g.ny - 1) + i + 1 + k * LayerSize(g), Centre(i, g.res), g.ny as real * g.res, Centre(k, g.res), g.res * g.res)
  }

  /** The outer face of the cell `(i, 0, k)`, on the plane `y = 0`. */
  function SouthAt(g: Grid, i: int, k: int): (r: BorderRecord)
    ensures r.id == Id(g, i, 0, k)
    ensures r.x == CellAt(g, i, 0, k).x && r.z == CellAt(g, i, 0, k).z
    ensures r.y == CellAt(g, i, 0, k).y - g.res / 2.0
    ensures r.area == g.res * g.res
  {
    BorderRecord(i + 1 + k * LayerSize(g), Centre(i, g.res), 0.0, Centre(k, g.res), g.res * g.res)
  }

  /** The outer face of the cell `(nx - 1, j, k)`, half a cell beyond its centre in `x`. */
  function EastAt(g: Grid, j: int, k: int): (r: BorderRecord)
    ensures r.id == Id(g, g.nx - 1, j, k)
    ensures r.y == CellAt(g, g.nx - 1, j, k).y && r.z == CellAt(g, g.nx - 1, j, k).z
    ensures r.x == CellAt(g, g.nx - 1, j, k).x + g.res / 2.0
    ensures r.area == g.res * g.res
  {
    BorderRecord((j + 1) * g.nx + k * LayerSize(g), g.nx as real * g.res, Centre(j, g.res), Centre(k, g.res), g.res * g.res)
  }

  /** The outer face of the cell `(0, j, k)`, on the plane `x = 0`. */
  function WestAt(g: Grid, j: int, k: int): (r: BorderRecord)
    ensures r.id == Id(g, 0, j, k)
    ensures r.y == CellAt(g, 0, j, k).y && r.z == CellAt(g, 0, j, k).z
    ensures r.x == CellAt(g, 0, j, k).x - g.res / 2.0
    ensures r.area == g.res * g.res
  {
    BorderRecord(j * g.nx + 1 + k * LayerSize(g), 0.0, Centre(j, g.res), Centre(k, g.res), g.res * g.res)
  }

  /** The records of a border, layer by layer: `layers` layers of `width` records,
      the `i`-th of layer `k` being `at(i, k)`. */
  function BorderLayers(layers: nat, width: nat, at: (int, int) -> BorderRecord): (r: seq<BorderRecord>)
    ensures |r| == layers * width
  {
    if layers == 0 then []
    else
      MulSucc(layers - 1, width);
      BorderLayers(layers - 1, width, at) + seq(width, i requires 0 <= i < width => at(i, layers - 1))
  }

  lemma {:induction false} BorderAt(layers: nat, width: nat, at: (int, int) -> BorderRecord, k: int, i: int)
    requires 0 <= k < layers && 0 <= i < width
    ensures k * width + i < |BorderLayers(layers, width, at)|
    ensures BorderLayers(layers, width, at)[k * width + i] == at(i, k)
  {
    var prev := BorderLayers(layers - 1, width, at);
    assert BorderLayers(layers, width, at) == prev + seq(width, i requires 0 <= i < width => at(i, layers - 1));
    if k < layers - 1 {
      BorderAt(layers - 1, width, at, k, i);
    }
  }

  lemma {:induction false} BorderLayersAll(layers: nat, width: nat, at: (int, int) -> BorderRecord, prop: BorderRecord -> bool)
    requires forall i, k :: 0 <= i < width && 0 <= k < layers ==> prop(at(i, k))
    ensures forall r :: r in BorderLayers(layers, width, at) ==> prop(r)
  {
    if layers > 0 {
      BorderLayersAll(layers - 1, width, at, prop);
      var layer := seq(width, i requires 0 <= i < width => at(i, layers - 1));
      assert BorderLayers(layers, width, at) == BorderLayers(layers - 1, width, at) + layer;
      forall r | r in layer ensures prop(r) {
        var i :| 0 <= i < width && layer[i] == r;
      }
    }
  }

  /** `render_borders`: each file declares `ny nz` (east, west) or `nx nz` (north,
      south) records and lists the outer faces of its border, `z` outermost. */
  function RenderBorders(g: Grid): (b: Borders)
    ensures b.north.count == g.nx * g.nz && b.south.count == g.nx * g.nz
    ensures b.east.count == g.ny * g.nz && b.west.count == g.ny * g.nz
  {
    var north := BorderLayers(Dim(g.nz), Dim(g.nx), (i, k) => NorthAt(g, i, k));
    var south := BorderLayers(Dim(g.nz), Dim(g.nx), (i, k) => SouthAt(g, i, k));
    var east := BorderLayers(Dim(g.nz), Dim(g.ny), (j, k) => EastAt(g, j, k));
    var west := BorderLayers(Dim(g.nz), Dim(g.ny), (j, k) => WestAt(g, j, k));
    Borders(BorderFile(g.nx * g.nz, north), BorderFile(g.ny * g.nz, east),
            BorderFile(g.nx * g.nz, south), BorderFile(g.ny * g.nz, west))
  }

  /** Each header counts its records. */
  lemma BordersCounted(g: Grid)
    requires Positive(g)
    ensures var b := RenderBorders(g);
            && |b.north.records| == b.north.count && |b.south.records| == b.south.count
            && |b.east.records| == b.east.count && |b.west.records| == b.west.count
  {
  }

  /** The north and south records of layer `k` list the outer faces of the cells
      `(i, ny - 1, k)` and `(i, 0, k)` in order of `i`. */
  lemma NorthSouthAt(g: Grid, i: int, k: int)
    requires Positive(g) && 0 <= i < g.nx && 0 <= k < g.nz
    ensures var b := RenderBorders(g);
            && k * g.nx + i < |b.north.records| && b.north.records[k * g.nx + i] == NorthAt(g, i, k)
            && k * g.nx + i < |b.south.records| && b.south.records[k * g.nx + i] == SouthAt(g, i, k)
    ensures InBox(g, i, g.ny - 1, k) && InBox(g, i, 0, k)
  {
    BorderAt(g.nz, g.nx, (i, k) => NorthAt(g, i, k), k, i);
    BorderAt(g.nz, g.nx, (i, k) => SouthAt(g, i, k), k, i);
  }

  /** The east and west records of layer `k` list the outer faces of the cells
      `(nx - 1, j, k)` and `(0, j, k)` in order of `j`. */
  lemma EastWestAt(g: Grid, j: int, k: int)
    requires Positive(g) && 0 <= j < g.ny && 0 <= k < g.nz
    ensures var b := RenderBorders(g);
            && k * g.ny + j < |b.east.records| && b.east.records[k * g.ny + j] == EastAt(g, j, k)
            && k * g.ny + j < |b.west.records| && b.west.records[k * g.ny + j] == WestAt(g, j, k)
    ensures InBox(g, g.nx - 1, j, k) && InBox(g, 0, j, k)
  {
    BorderAt(g.nz, g.ny, (j, k) => EastAt(g, j, k), k, j);
    BorderAt(g.nz, g.ny, (j, k) => WestAt(g, j, k), k, j);
  }

  /** The border planes: south at `y = 0`, north at `y = ny res`, west at `x = 0`,
      east at `x = nx res`. */
  lemma BorderPlanes(g: Grid)
    ensures var b := RenderBorders(g);
            && (forall r :: r in b.south.records ==> r.y == 0.0)
            && (forall r :: r in b.north.records ==> r.y == g.ny as real * g.res)
            && (forall r :: r in b.west.records ==> r.x == 0.0)
            && (forall r :: r in b.east.records ==> r.x == g.nx as real * g.res)
  {
    SouthPlane(g);
    NorthPlane(g);
    WestPlane(g);
    EastPlane(g);
  }

  lemma SouthPlane(g: Grid)
    ensures forall r :: r in RenderBorders(g).south.records ==> r.y == 0.0
  {
    var onSouth := (r: BorderRecord) => r.y == 0.0;
    BorderLayersAll(Dim(g.nz), Dim(g.nx), (i, k) => SouthAt(g, i, k), onSouth);
  }

  lemma NorthPlane(g: Grid)
    ensures forall r :: r in RenderBorders(g).north.records ==> r.y == g.ny as real * g.res
  {
    var onNorth := (r: BorderRecord) => r.y == g.ny as real * g.res;
    var at := (i, k) => NorthAt(g, i, k);
    forall a, k | 0 <= a < Dim(g.nx) && 0 <= k < Dim(g.nz) ensures onNorth(at(a, k)) {
      assert at(a, k) == NorthAt(g, a, k);
    }
    BorderLayersAll(Dim(g.nz), Dim(g.nx), at, onNorth);
  }

  lemma WestPlane(g: Grid)
    ensures forall r :: r in RenderBorders(g).west.records ==> r.x == 0.0
  {
    var onWest := (r: BorderRecord) => r.x == 0.0;
    BorderLayersAll(Dim(g.nz), Dim(g.ny), (j, k) => WestAt(g, j, k), onWest);
  }

  lemma EastPlane(g: Grid)
    ensures forall r :: r in RenderBorders(g).east.records ==> r.x == g.nx as real * g.res
  {
    var onEast := (r: BorderRecord) => r.x == g.nx as real * g.res;
    var at := (j, k) => EastAt(g, j, k);
    forall a, k | 0 <= a < Dim(g.ny) && 0 <= k < Dim(g.nz) ensures onEast(at(a, k)) {
      assert at(a, k) == EastAt(g, a, k);
    }
    BorderLayersAll(Dim(g.nz), Dim(g.ny), at, onEast);
  }

  /** The 32 x 64 x 2 grid: 64 records north and south, 128 east and west. */
  lemma BordersExample(res: real)
    ensures var b := RenderBorders(Grid(32, 64, 2, res));
            && b.north.count == 64 && |b.north.records| == 64 && b.south.count == 64 && |b.south.records| == 64
            && b.east.count == 128 && |b.east.records| == 128 && b.west.count == 128 && |b.west.records| == 128
  {
  }
}
