/** The terrain's vertex grid and its triangulation, as specifications.

    A terrain of `xSize` by `zSize` quads has `(xSize + 1) * (zSize + 1)`
    grid points, stored row by row: point `(x, z)` lives at index
    `z * (xSize + 1) + x`. Every quad is split into two triangles along the
    same diagonal, and the index buffer lists the quads in the same row-major
    order, six indices per quad. */
module Grid {
  import opened Geometry

  // ---------------------------------------------------------------------------
  // Arithmetic helpers for the row-major layout
  // ---------------------------------------------------------------------------

  /** Multiplying by a natural number preserves order. */
  lemma MulMono(a: int, b: int, n: nat)
    ensures a <= b ==> a * n <= b * n
  {
    if a <= b {
      assert b * n == a * n + (b - a) * n;
    }
  }

  /** A nonzero multiple of `n` is at least `n` away from zero. */
  lemma MulSign(e: int, n: nat)
    ensures e >= 1 ==> e * n >= n
    ensures e <= -1 ==> e * n <= -(n as int)
  {
    MulMono(1, e, n);
    MulMono(e, -1, n);
  }

  /** Euclidean division is determined by quotient and remainder. */
  lemma DivModUnique(a: int, n: int, q: int, r: int)
    requires 0 < n && 0 <= r < n && a == q * n + r
    ensures a / n == q && a % n == r
  {
    var d, m := a / n, a % n;
    assert a == d * n + m;
    assert (q - d) * n == m - r;
    MulSign(q - d, n);
  }

  // ---------------------------------------------------------------------------
  // Vertex layout
  // ---------------------------------------------------------------------------


  /** `z` rows of `width` slots each, counted row by row: the position a
      cursor reaches after `z` full rows. */
  function RowStart(width: nat, z: nat): nat
  {
    if z == 0 then 0 else RowStart(width, z - 1) + width
  }

  /** Counting `z` rows of `width` slots gives `z * width`. */
  lemma {:induction false} RowStartIsProduct(width: nat, z: nat)
    ensures RowStart(width, z) == z * width
  {
    if z != 0 {
      RowStartIsProduct(width, z - 1);
      assert z * width == (z - 1) * width + width;
    }
  }

  /** Number of grid points of a terrain of `xSize` by `zSize` quads:
      `zSize + 1` rows of `xSize + 1` points. */
  function VertexCount(xSize: nat, zSize: nat): nat
  {
    RowStart(xSize + 1, zSize + 1)
  }

  /** The vertex array has `(xSize + 1) * (zSize + 1)` slots. */
  lemma VertexCountIsProduct(xSize: nat, zSize: nat)
    ensures VertexCount(xSize, zSize) == (xSize + 1) * (zSize + 1)
  {
    RowStartIsProduct(xSize + 1, zSize + 1);
  }

  /** Index of grid point `(x, z)` in the row-major vertex array: `z * (xSize + 1) + x`. */
  function VertexIndex(xSize: nat, x: nat, z: nat): nat
  {
    RowStart(xSize + 1, z) + x
  }

  /** The row-counted offsets in closed form: grid point `(x, z)` sits at
      `z * (xSize + 1) + x`, and quad `(x, z)`'s indices start at
      `6 * (z * xSize + x)`. */
  lemma GridOffsetsClosedForm(xSize: nat, x: nat, z: nat)
    ensures VertexIndex(xSize, x, z) == z * (xSize + 1) + x
    ensures QuadStart(xSize, x, z) == 6 * (z * xSize + x)
  {
    RowStartIsProduct(xSize + 1, z);
    RowStartIsProduct(xSize, z);
  }

  /** Grid column of vertex slot `i`. */
  function Column(xSize: nat, i: nat): nat
  {
    i % (xSize + 1)
  }

  /** Grid row of vertex slot `i`. */
  function Row(xSize: nat, i: nat): nat
  {
    i / (xSize + 1)
  }

  /** Row `next = z + 1` starts right after the last point of row `z`. */
  lemma NextRowStart(xSize: nat, z: nat, next: nat)
    requires next == z + 1
    ensures VertexIndex(xSize, 0, next) == VertexIndex(xSize, xSize, z) + 1
  {
  }

  /** Every grid point has a slot inside the vertex array, and that slot
      decodes back to the same point: distinct points never share a slot. */
  lemma VertexIndexDecodes(xSize: nat, zSize: nat, x: nat, z: nat)
    requires x <= xSize && z <= zSize
    ensures VertexIndex(xSize, x, z) < VertexCount(xSize, zSize)
    ensures Column(xSize, VertexIndex(xSize, x, z)) == x
    ensures Row(xSize, VertexIndex(xSize, x, z)) == z
  {
    RowStartIsProduct(xSize + 1, z);
    DivModUnique(VertexIndex(xSize, x, z), xSize + 1, z, x);
    MulMono(z, zSize, xSize + 1);
    RowStartIsProduct(xSize + 1, zSize);
  }

  /** Each row start of the vertex cursor lies inside the vertex array, and
      the start of the row after the last one is its length. */
  lemma VertexRowFits(xSize: nat, zSize: nat, z: nat)
    requires z <= zSize + 1
    ensures VertexIndex(xSize, 0, z) <= VertexCount(xSize, zSize)
    ensures z == zSize + 1 ==> VertexIndex(xSize, 0, z) == VertexCount(xSize, zSize)
  {
    RowStartIsProduct(xSize + 1, z);
    VertexCountIsProduct(xSize, zSize);
    MulMono(z, zSize + 1, xSize + 1);
  }

  /** Every slot of the vertex array belongs to a grid point. */
  lemma VertexSlotDecodes(xSize: nat, zSize: nat, i: nat)
    requires i < VertexCount(xSize, zSize)
    ensures Column(xSize, i) <= xSize && Row(xSize, i) <= zSize
    ensures VertexIndex(xSize, Column(xSize, i), Row(xSize, i)) == i
  {
    var r, c := Row(xSize, i), Column(xSize, i);
    VertexCountIsProduct(xSize, zSize);
    assert i == r * (xSize + 1) + c;
    MulMono(zSize + 1, r, xSize + 1);
    assert r <= zSize;
    RowStartIsProduct(xSize + 1, r);
  }

  /** A grid of values in row-major order: `rows` rows of `xSize + 1`
      points each, point `(x, z)` carrying `point(x, z)`. Built row by row,
      as the mesh builder's loops visit the grid. */
  function GridOf<T>(xSize: nat, rows: nat, point: (nat, nat) -> T): (g: seq<T>)
    ensures |g| == RowStart(xSize + 1, rows)
  {
    if rows == 0 then []
    else GridOf(xSize, rows - 1, point) + seq(xSize + 1, x requires 0 <= x <= xSize => point(x, rows - 1))
  }

  /** Slot `z * (xSize + 1) + x` of a row-major grid holds point `(x, z)`. */
  lemma {:induction false} GridOfAt<T>(xSize: nat, rows: nat, point: (nat, nat) -> T, x: nat, z: nat)
    requires x <= xSize && z < rows
    ensures VertexIndex(xSize, x, z) < |GridOf(xSize, rows, point)|
    ensures GridOf(xSize, rows, point)[VertexIndex(xSize, x, z)] == point(x, z)
  {
    var prev := GridOf(xSize, rows - 1, point);
    RowStartIsProduct(xSize + 1, z);
    if z < rows - 1 {
      GridOfAt(xSize, rows - 1, point, x, z);
    } else {
      assert VertexIndex(xSize, x, z) == |prev| + x;
    }
  }

  /** The vertex the height loop places at grid point `(x, z)`. */
  function GridVertex(heightAt: (int, int) -> real, x: nat, z: nat): Vector3
  {
    Vector3(x as real, heightAt(x, z), z as real)
  }

  /** The whole vertex array. */
  function VertexGrid(xSize: nat, zSize: nat, heightAt: (int, int) -> real): (vs: seq<Vector3>)
    ensures |vs| == VertexCount(xSize, zSize)
  {
    GridOf(xSize, zSize + 1, (x, z) => GridVertex(heightAt, x, z))
  }

  /** Slot `z * (xSize + 1) + x` of the vertex array holds `(x, heightAt(x, z), z)`. */
  lemma VertexGridAt(xSize: nat, zSize: nat, heightAt: (int, int) -> real, x: nat, z: nat)
    requires x <= xSize && z <= zSize
    ensures VertexIndex(xSize, x, z) < |VertexGrid(xSize, zSize, heightAt)|
    ensures VertexGrid(xSize, zSize, heightAt)[VertexIndex(xSize, x, z)]
            == Vector3(x as real, heightAt(x, z), z as real)
  {
    GridOfAt(xSize, zSize + 1, (x, z) => GridVertex(heightAt, x, z), x, z);
  }

  /** Row `z` of `grid` is laid out as the height loop walks it: the
      `xSize + 1` slots from the row's start hold `(x, heightAt(x, z), z)`. */
  predicate RowLaidOut(grid: seq<Vector3>, xSize: nat, heightAt: (int, int) -> real, z: nat)
  {
    VertexIndex(xSize, 0, z) + xSize + 1 <= |grid| &&
    forall j :: VertexIndex(xSize, 0, z) <= j <= VertexIndex(xSize, 0, z) + xSize ==>
      grid[j] == GridVertex(heightAt, j - VertexIndex(xSize, 0, z), z)
  }

  /** Every row of the vertex grid is laid out in visiting order. */
  lemma VertexRowAt(xSize: nat, zSize: nat, heightAt: (int, int) -> real, z: nat)
    requires z <= zSize
    ensures RowLaidOut(VertexGrid(xSize, zSize, heightAt), xSize, heightAt, z)
  {
    VertexRowFits(xSize, zSize, z + 1);
    forall j | VertexIndex(xSize, 0, z) <= j <= VertexIndex(xSize, 0, z) + xSize
      ensures VertexGrid(xSize, zSize, heightAt)[j] == GridVertex(heightAt, j - VertexIndex(xSize, 0, z), z)
    {
      VertexGridAt(xSize, zSize, heightAt, j - VertexIndex(xSize, 0, z), z);
    }
  }

  // ---------------------------------------------------------------------------
  // Texture coordinates
  // ---------------------------------------------------------------------------

  /** The texture coordinate of grid point `(x, z)`: `(x / xSize, z / zSize)`. */
  function UvOf(xSize: nat, zSize: nat, x: nat, z: nat): Vector2
    requires 1 <= xSize && 1 <= zSize
  {
    Vector2(x as real / xSize as real, z as real / zSize as real)
  }

  /** The texture coordinate array: grid point `(x, z)` maps to `UvOf(xSize, zSize, x, z)`. */
  function UvGrid(xSize: nat, zSize: nat): (uvs: seq<Vector2>)
    requires 1 <= xSize && 1 <= zSize
    ensures |uvs| == VertexCount(xSize, zSize)
  {
    GridOf(xSize, zSize + 1, (x: nat, z: nat) => UvOf(xSize, zSize, x, z))
  }

  /** Slot `z * (xSize + 1) + x` of the texture coordinates holds `(x / xSize, z / zSize)`. */
  lemma UvGridAt(xSize: nat, zSize: nat, x: nat, z: nat)
    requires 1 <= xSize && 1 <= zSize
    requires x <= xSize && z <= zSize
    ensures VertexIndex(xSize, x, z) < |UvGrid(xSize, zSize)|
    ensures UvGrid(xSize, zSize)[VertexIndex(xSize, x, z)]
            == Vector2(x as real / xSize as real, z as real / zSize as real)
  {
    GridOfAt(xSize, zSize + 1, (x: nat, z: nat) => UvOf(xSize, zSize, x, z), x, z);
  }

  lemma FractionInUnit(a: nat, b: nat)
    requires 1 <= b && a <= b
    ensures 0.0 <= a as real / b as real <= 1.0
  {
  }

  lemma DivSelf(a: real)
    requires a != 0.0
    ensures a / a == 1.0
  {
  }

  /** Row `z` of `uvGrid` is laid out as the texture loop walks it: the
      `xSize + 1` slots from the row's start hold `UvOf` of that row's points. */
  predicate UvRowLaidOut(uvGrid: seq<Vector2>, xSize: nat, zSize: nat, z: nat)
    requires 1 <= xSize && 1 <= zSize
  {
    VertexIndex(xSize, 0, z) + xSize + 1 <= |uvGrid| &&
    forall j :: VertexIndex(xSize, 0, z) <= j <= VertexIndex(xSize, 0, z) + xSize ==>
      uvGrid[j] == UvOf(xSize, zSize, j - VertexIndex(xSize, 0, z), z)
  }

  /** Every row of the texture coordinate grid is laid out in visiting order. */
  lemma UvRowAt(xSize: nat, zSize: nat, z: nat)
    requires 1 <= xSize && 1 <= zSize && z <= zSize
    ensures UvRowLaidOut(UvGrid(xSize, zSize), xSize, zSize, z)
  {
    VertexRowFits(xSize, zSize, z + 1);
    forall j | VertexIndex(xSize, 0, z) <= j <= VertexIndex(xSize, 0, z) + xSize
      ensures UvGrid(xSize, zSize)[j] == UvOf(xSize, zSize, j - VertexIndex(xSize, 0, z), z)
    {
      UvGridAt(xSize, zSize, j - VertexIndex(xSize, 0, z), z);
    }
  }

  /** Every texture coordinate lies in the unit square. */
  lemma UvGridInUnitSquare(xSize: nat, zSize: nat)
    requires 1 <= xSize && 1 <= zSize
    ensures forall i :: 0 <= i < |UvGrid(xSize, zSize)| ==>
              0.0 <= UvGrid(xSize, zSize)[i].x <= 1.0 && 0.0 <= UvGrid(xSize, zSize)[i].y <= 1.0
  {
    forall i | 0 <= i < |UvGrid(xSize, zSize)|
      ensures 0.0 <= UvGrid(xSize, zSize)[i].x <= 1.0 && 0.0 <= UvGrid(xSize, zSize)[i].y <= 1.0
    {
      VertexSlotDecodes(xSize, zSize, i);
      UvGridAt(xSize, zSize, Column(xSize, i), Row(xSize, i));
      FractionInUnit(Column(xSize, i), xSize);
      FractionInUnit(Row(xSize, i), zSize);
    }
  }

  /** The first vertex maps to `(0, 0)` and the last one to `(1, 1)`. */
  lemma UvGridCorners(xSize: nat, zSize: nat)
    requires 1 <= xSize && 1 <= zSize
    ensures UvGrid(xSize, zSize)[0] == Vector2(0.0, 0.0)
    ensures UvGrid(xSize, zSize)[VertexCount(xSize, zSize) - 1] == Vector2(1.0, 1.0)
  {
    UvGridAt(xSize, zSize, 0, 0);
    UvGridAt(xSize, zSize, xSize, zSize);
    assert VertexIndex(xSize, 0, 0) == 0;
    assert VertexIndex(xSize, xSize, zSize) == VertexCount(xSize, zSize) - 1;
    DivSelf(xSize as real);
    DivSelf(zSize as real);
  }

  // ---------------------------------------------------------------------------
  // Triangulation
  // ---------------------------------------------------------------------------

  /** Length of the index buffer: six indices for each of the `zSize` rows of `xSize` quads. */
  function IndexCount(xSize: nat, zSize: nat): nat
  {
    6 * RowStart(xSize, zSize)
  }

  /** The index buffer has `xSize * zSize * 6` slots. */
  lemma IndexCountIsProduct(xSize: nat, zSize: nat)
    ensures IndexCount(xSize, zSize) == xSize * zSize * 6
  {
    RowStartIsProduct(xSize, zSize);
  }

  /** The index buffer holds whole triangles. */
  lemma IndexCountWholeTriangles(xSize: nat, zSize: nat)
    ensures IndexCount(xSize, zSize) % 3 == 0
  {
    DivModUnique(IndexCount(xSize, zSize), 3, 2 * RowStart(xSize, zSize), 0);
  }

  /** Position of the first of quad `(x, z)`'s six indices: `6 * (z * xSize + x)`. */
  function QuadStart(xSize: nat, x: nat, z: nat): nat
  {
    6 * (RowStart(xSize, z) + x)
  }

  /** The quads of row `z + 1` start right after the six indices of the last quad of row `z`. */
  lemma NextQuadRow(xSize: nat, z: nat)
    ensures QuadStart(xSize, 0, z + 1) == QuadStart(xSize, 0, z) + 6 * xSize
  {
  }

  /** After the last row the index buffer is full. */
  lemma LastQuadRow(xSize: nat, zSize: nat)
    ensures QuadStart(xSize, 0, zSize) == IndexCount(xSize, zSize)
  {
  }

  /** Each row start of the index cursor lies inside the index buffer. */
  lemma QuadRowFits(xSize: nat, zSize: nat, z: nat)
    requires z <= zSize
    ensures QuadStart(xSize, 0, z) <= IndexCount(xSize, zSize)
  {
    RowStartIsProduct(xSize, z);
    RowStartIsProduct(xSize, zSize);
    MulMono(z, zSize, xSize);
  }

  /** The two triangles of quad `(x, z)`, by corner: triangle A is
      `(x, z), (x, z + 1), (x + 1, z)` and triangle B is
      `(x + 1, z), (x, z + 1), (x + 1, z + 1)`. */
  function QuadIndices(xSize: nat, x: nat, z: nat): (t: seq<int>)
    ensures |t| == 6
  {
    [VertexIndex(xSize, x, z), VertexIndex(xSize, x, z + 1), VertexIndex(xSize, x + 1, z),
     VertexIndex(xSize, x + 1, z), VertexIndex(xSize, x, z + 1), VertexIndex(xSize, x + 1, z + 1)]
  }

  /** Column of the quad that owns index slot `k`. */
  function QuadX(xSize: nat, k: nat): nat
    requires 1 <= xSize
  {
    (k / 6) % xSize
  }

  /** Row of the quad that owns index slot `k`. */
  function QuadZ(xSize: nat, k: nat): nat
    requires 1 <= xSize
  {
    (k / 6) / xSize
  }

  /** The indices of the first `cols` quads of row `z`, quad after quad. */
  function QuadRow(xSize: nat, z: nat, cols: nat): (t: seq<int>)
    ensures |t| == 6 * cols
  {
    if cols == 0 then [] else QuadRow(xSize, z, cols - 1) + QuadIndices(xSize, cols - 1, z)
  }

  /** The indices of the first `rows` rows of quads, row after row. */
  function QuadRows(xSize: nat, rows: nat): (t: seq<int>)
    ensures |t| == QuadStart(xSize, 0, rows)
  {
    if rows == 0 then [] else QuadRows(xSize, rows - 1) + QuadRow(xSize, rows - 1, xSize)
  }

  /** The whole index buffer. */
  function Triangulation(xSize: nat, zSize: nat): (t: seq<int>)
    ensures |t| == IndexCount(xSize, zSize)
  {
    LastQuadRow(xSize, zSize);
    QuadRows(xSize, zSize)
  }

  /** Quad `x` of a row occupies slots `6 * x .. 6 * x + 5` of that row's indices. */
  lemma {:induction false} QuadRowAt(xSize: nat, z: nat, cols: nat, x: nat, j: nat)
    requires x < cols && j < 6
    ensures 6 * x + j < |QuadRow(xSize, z, cols)|
    ensures QuadRow(xSize, z, cols)[6 * x + j] == QuadIndices(xSize, x, z)[j]
  {
    if x < cols - 1 {
      QuadRowAt(xSize, z, cols - 1, x, j);
    }
  }

  /** Quad `(x, z)` occupies slots `QuadStart(xSize, x, z) ..` of the first `rows` rows. */
  lemma {:induction false} QuadRowsAt(xSize: nat, rows: nat, x: nat, z: nat, j: nat)
    requires x < xSize && z < rows && j < 6
    ensures QuadStart(xSize, x, z) + j < |QuadRows(xSize, rows)|
    ensures QuadRows(xSize, rows)[QuadStart(xSize, x, z) + j] == QuadIndices(xSize, x, z)[j]
  {
    NextQuadRow(xSize, z);
    RowStartIsProduct(xSize, z + 1);
    RowStartIsProduct(xSize, rows - 1);
    if z < rows - 1 {
      QuadRowsAt(xSize, rows - 1, x, z, j);
      MulMono(z + 1, rows - 1, xSize);
    } else {
      QuadRowAt(xSize, z, xSize, x, j);
    }
  }

  /** Each index slot is owned by exactly one quad of the grid: slot `k` lies
      in the six-slot range of quad `(x, z)` if and only if `(x, z)` is the
      quad that `k` decodes to. So the quads' ranges tile the buffer and
      every slot is written once. */
  lemma SlotOwner(xSize: nat, zSize: nat, k: nat)
    requires k < IndexCount(xSize, zSize)
    ensures 1 <= xSize && QuadX(xSize, k) < xSize && QuadZ(xSize, k) < zSize
    ensures forall x: nat, z: nat :: x < xSize && z < zSize ==>
              (QuadStart(xSize, x, z) <= k < QuadStart(xSize, x, z) + 6 <==>
               x == QuadX(xSize, k) && z == QuadZ(xSize, k))
  {
    IndexCountIsProduct(xSize, zSize);
    var c := k / 6;
    RowStartIsProduct(xSize, QuadZ(xSize, k));
    assert xSize != 0 && c < zSize * xSize;
    assert c == QuadZ(xSize, k) * xSize + QuadX(xSize, k);
    MulMono(zSize, QuadZ(xSize, k), xSize);
    forall x: nat, z: nat | x < xSize && z < zSize
      ensures QuadStart(xSize, x, z) <= k < QuadStart(xSize, x, z) + 6 <==>
              x == QuadX(xSize, k) && z == QuadZ(xSize, k)
    {
      RowStartIsProduct(xSize, z);
      assert QuadStart(xSize, x, z) == 6 * (z * xSize + x);
      if QuadStart(xSize, x, z) <= k < QuadStart(xSize, x, z) + 6 {
        DivModUnique(k, 6, z * xSize + x, k - QuadStart(xSize, x, z));
        DivModUnique(c, xSize, z, x);
      }
      if x == QuadX(xSize, k) && z == QuadZ(xSize, k) {
        assert QuadStart(xSize, x, z) == 6 * c;
      }
    }
  }

  /** Slot `QuadStart(xSize, x, z) + j` of the index buffer holds the quad's `j`-th index. */
  lemma TriangulationSlot(xSize: nat, zSize: nat, x: nat, z: nat, j: nat)
    requires x < xSize && z < zSize && j < 6
    ensures QuadStart(xSize, x, z) + j < IndexCount(xSize, zSize)
    ensures Triangulation(xSize, zSize)[QuadStart(xSize, x, z) + j] == QuadIndices(xSize, x, z)[j]
  {
    QuadRowsAt(xSize, zSize, x, z, j);
    LastQuadRow(xSize, zSize);
  }

  /** The six slots of quad `(x, z)` hold exactly `QuadIndices(xSize, x, z)`. */
  lemma TriangulationAt(xSize: nat, zSize: nat, x: nat, z: nat)
    requires x < xSize && z < zSize
    ensures QuadStart(xSize, x, z) + 6 <= IndexCount(xSize, zSize)
    ensures Triangulation(xSize, zSize)[QuadStart(xSize, x, z)..QuadStart(xSize, x, z) + 6]
            == QuadIndices(xSize, x, z)
  {
    forall j | 0 <= j < 6
      ensures QuadStart(xSize, x, z) + j < IndexCount(xSize, zSize)
      ensures Triangulation(xSize, zSize)[QuadStart(xSize, x, z) + j] == QuadIndices(xSize, x, z)[j]
    {
      TriangulationSlot(xSize, zSize, x, z, j);
    }
    TriangulationSlot(xSize, zSize, x, z, 5);
  }

  /** Quad `(x, z)`'s indices in the counter form the mesh builder writes:
      `v, v + xSize + 1, v + 1, v + 1, v + xSize + 1, v + xSize + 2`
      with `v = z * (xSize + 1) + x`. */
  lemma QuadIndicesOffsets(xSize: nat, x: nat, z: nat)
    ensures var v := VertexIndex(xSize, x, z);
            QuadIndices(xSize, x, z) == [v, v + xSize + 1, v + 1, v + 1, v + xSize + 1, v + xSize + 2]
  {
    assert (z + 1) * (xSize + 1) == z * (xSize + 1) + xSize + 1;
  }

  /** The six slots of cell `(x, z)` in the index buffer hold
      `v, v + xSize + 1, v + 1, v + 1, v + xSize + 1, v + xSize + 2`
      with `v = z * (xSize + 1) + x`. */
  lemma TriangulationCell(xSize: nat, zSize: nat, x: nat, z: nat)
    requires x < xSize && z < zSize
    ensures var t, s, v := Triangulation(xSize, zSize), QuadStart(xSize, x, z), VertexIndex(xSize, x, z);
            s + 6 <= |t| &&
            t[s] == v && t[s + 1] == v + xSize + 1 && t[s + 2] == v + 1 &&
            t[s + 3] == v + 1 && t[s + 4] == v + xSize + 1 && t[s + 5] == v + xSize + 2
  {
    QuadIndicesOffsets(xSize, x, z);
    TriangulationSlot(xSize, zSize, x, z, 0);
    TriangulationSlot(xSize, zSize, x, z, 1);
    TriangulationSlot(xSize, zSize, x, z, 2);
    TriangulationSlot(xSize, zSize, x, z, 3);
    TriangulationSlot(xSize, zSize, x, z, 4);
    TriangulationSlot(xSize, zSize, x, z, 5);
  }

  /** `TriangulationCell` in terms of the index builder's cursors: at column
      `x` of row `z`, `vert` is `x` past the row's first vertex and `tris` is
      six slots per quad past the row's first index slot. */
  lemma TriangulationCursor(xSize: nat, zSize: nat, x: nat, z: nat, vert: int, tris: int)
    requires x < xSize && z < zSize
    requires vert == VertexIndex(xSize, 0, z) + x && tris == QuadStart(xSize, 0, z) + 6 * x
    ensures var t := Triangulation(xSize, zSize);
            0 <= tris && tris + 6 <= |t| &&
            t[tris] == vert && t[tris + 1] == vert + xSize + 1 && t[tris + 2] == vert + 1 &&
            t[tris + 3] == vert + 1 && t[tris + 4] == vert + xSize + 1 && t[tris + 5] == vert + xSize + 2
  {
    TriangulationCell(xSize, zSize, x, z);
  }

  /** Every index of an interior quad names a vertex of the grid. */
  lemma QuadIndicesInBounds(xSize: nat, zSize: nat, x: nat, z: nat)
    requires x < xSize && z < zSize
    ensures forall j :: 0 <= j < 6 ==> 0 <= QuadIndices(xSize, x, z)[j] < VertexCount(xSize, zSize)
  {
    VertexIndexDecodes(xSize, zSize, x + 1, z + 1);
    QuadIndicesOffsets(xSize, x, z);
  }

  /** Every index of the buffer names a vertex of the grid. */
  lemma TriangulationInBounds(xSize: nat, zSize: nat)
    ensures forall k :: 0 <= k < |Triangulation(xSize, zSize)| ==>
              0 <= Triangulation(xSize, zSize)[k] < VertexCount(xSize, zSize)
  {
    forall k | 0 <= k < |Triangulation(xSize, zSize)|
      ensures 0 <= Triangulation(xSize, zSize)[k] < VertexCount(xSize, zSize)
    {
      SlotOwner(xSize, zSize, k);
      var x, z := QuadX(xSize, k), QuadZ(xSize, k);
      TriangulationAt(xSize, zSize, x, z);
      QuadIndicesInBounds(xSize, zSize, x, z);
      assert Triangulation(xSize, zSize)[k]
             == QuadIndices(xSize, x, z)[k - QuadStart(xSize, x, z)];
    }
  }

  /** Neither triangle of a quad is degenerate: its three indices are
      pairwise distinct. */
  lemma QuadNotDegenerate(xSize: nat, zSize: nat, x: nat, z: nat)
    requires x < xSize && z < zSize
    ensures var t := QuadIndices(xSize, x, z);
            t[0] != t[1] && t[1] != t[2] && t[0] != t[2] &&
            t[3] != t[4] && t[4] != t[5] && t[3] != t[5]
  {
    QuadIndicesOffsets(xSize, x, z);
  }

  /** The two triangles of a quad share exactly one edge, the diagonal from
      `(x + 1, z)` to `(x, z + 1)`. */
  lemma QuadSharedDiagonal(xSize: nat, zSize: nat, x: nat, z: nat)
    requires x < xSize && z < zSize
    ensures var t := QuadIndices(xSize, x, z);
            {t[0], t[1], t[2]} * {t[3], t[4], t[5]}
            == {VertexIndex(xSize, x + 1, z), VertexIndex(xSize, x, z + 1)}
  {
    QuadIndicesOffsets(xSize, x, z);
    var t := QuadIndices(xSize, x, z);
    var v := VertexIndex(xSize, x, z);
    assert t[0] == v && t[5] == v + xSize + 2;
    assert v !in {t[3], t[4], t[5]};
    assert t[5] !in {t[0], t[1], t[2]};
  }

  /** A quad's triangles never wrap across a row: every index they use is a
      grid point in columns `x .. x + 1` and rows `z .. z + 1`. */
  lemma QuadWithinCell(xSize: nat, zSize: nat, x: nat, z: nat)
    requires x < xSize && z < zSize
    ensures forall j :: 0 <= j < 6 ==>
              x <= Column(xSize, QuadIndices(xSize, x, z)[j]) <= x + 1 &&
              z <= Row(xSize, QuadIndices(xSize, x, z)[j]) <= z + 1
  {
    VertexIndexDecodes(xSize, zSize, x, z);
    VertexIndexDecodes(xSize, zSize, x + 1, z);
    VertexIndexDecodes(xSize, zSize, x, z + 1);
    VertexIndexDecodes(xSize, zSize, x + 1, z + 1);
  }

  /** Twice the signed area of triangle `(p, q, r)` projected on the horizontal `x`-`z` plane. */
  function PlanarCross(p: Vector3, q: Vector3, r: Vector3): real
  {
    (q.x - p.x) * (r.z - p.z) - (q.z - p.z) * (r.x - p.x)
  }

  /** Whatever the heights, both triangles of every quad have the same
      orientation in the `x`-`z` plane (twice their signed area is -1), so the
      winding order is consistent over the whole mesh. */
  lemma QuadWinding(xSize: nat, zSize: nat, heightAt: (int, int) -> real, x: nat, z: nat)
    requires x < xSize && z < zSize
    ensures var vs, t := VertexGrid(xSize, zSize, heightAt), QuadIndices(xSize, x, z);
            (forall j :: 0 <= j < 6 ==> 0 <= t[j] < |vs|) &&
            PlanarCross(vs[t[0]], vs[t[1]], vs[t[2]]) == -1.0 &&
            PlanarCross(vs[t[3]], vs[t[4]], vs[t[5]]) == -1.0
  {
    VertexGridAt(xSize, zSize, heightAt, x, z);
    VertexGridAt(xSize, zSize, heightAt, x + 1, z);
    VertexGridAt(xSize, zSize, heightAt, x, z + 1);
    VertexGridAt(xSize, zSize, heightAt, x + 1, z + 1);
  }
}
