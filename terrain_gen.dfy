/** The terrain component: it owns the mesh buffers and fills them in place.

    `CreateShape` runs four passes over the grid, in the same row-major order
    (`z` outer, `x` inner): vertex positions and height range, triangle
    indices, texture coordinates, and vertex colours. Each pass is proved
    against the specification functions of `Grid` and `Shading`. */
module Terrain {
  import opened Geometry
  import opened Grid
  import opened Shading

  class TerrainGen {
    /** Number of quads along `x` and along `z` (21 by default in the editor). */
    var xSize: int
    var zSize: int

    /** The editor's colour gradient, evaluated at a parameter in `[0, 1]`. */
    var gradient: real -> Color

    /** The height range seen by the height pass. Never reset: a build starts
        from whatever the previous build (or the zero default) left. */
    var minTerrainHeight: real
    var maxTerrainHeight: real

    /** The mesh buffers handed to the engine. */
    var vertices: array<Vector3>
    var triangles: array<int>
    var uvs: array<Vector2>
    var vertColours: array<Color>

    /** A fresh component: the height range starts at 0 and no mesh exists yet. */
    constructor (xSize: int, zSize: int, gradient: real -> Color)
      ensures this.xSize == xSize && this.zSize == zSize && this.gradient == gradient
      ensures minTerrainHeight == 0.0 && maxTerrainHeight == 0.0
      ensures vertices.Length == 0 && triangles.Length == 0
      ensures uvs.Length == 0 && vertColours.Length == 0
      ensures MeshValid()
    {
      this.xSize := xSize;
      this.zSize := zSize;
      this.gradient := gradient;
      minTerrainHeight := 0.0;
      maxTerrainHeight := 0.0;
      vertices := new Vector3[0];
      triangles := new int[0];
      uvs := new Vector2[0];
      vertColours := new Color[0];
    }

    /** What the engine requires of a mesh: one texture coordinate and one
        colour per vertex, whole triangles, and every index naming a vertex. */
    ghost predicate MeshValid()
      reads this, vertices, triangles, uvs, vertColours
    {
      && uvs.Length == vertices.Length
      && vertColours.Length == vertices.Length
      && triangles.Length % 3 == 0
      && forall k :: 0 <= k < triangles.Length ==> 0 <= triangles[k] < vertices.Length
    }

    /** Builds the mesh. `heightAt(x, z)` is the height sampled for grid point
        `(x, z)`: the scaled fractal noise at the component's position offset
        by `(x, z)`. */
    method CreateShape(heightAt: (int, int) -> real)
      requires 1 <= xSize && 1 <= zSize
      modifies this`vertices, this`triangles, this`uvs, this`vertColours
      modifies this`minTerrainHeight, this`maxTerrainHeight
      ensures fresh(vertices) && fresh(triangles) && fresh(uvs) && fresh(vertColours)
      ensures vertices[..] == VertexGrid(xSize, zSize, heightAt)
      ensures maxTerrainHeight == RunningMax(old(maxTerrainHeight), vertices[..], vertices.Length)
      ensures minTerrainHeight == RunningMin(old(minTerrainHeight), vertices[..], vertices.Length)
      ensures triangles[..] == Triangulation(xSize, zSize)
      ensures uvs[..] == UvGrid(xSize, zSize)
      ensures vertColours[..] == VertexColours(vertices[..], minTerrainHeight, maxTerrainHeight, gradient)
      ensures MeshValid()
    {
      PlaceVertices(heightAt);
      ConnectTriangles();
      MapUvs();
      PaintVertices();
      IndexCountWholeTriangles(xSize, zSize);
      TriangulationInBounds(xSize, zSize);
    }

    /** The height pass: one vertex per grid point, row by row, while the
        height range is widened to take in every sampled height. */
    method PlaceVertices(heightAt: (int, int) -> real)
      requires 0 <= xSize && 0 <= zSize
      modifies this`vertices, this`minTerrainHeight, this`maxTerrainHeight
      ensures fresh(vertices)
      ensures vertices[..] == VertexGrid(xSize, zSize, heightAt)
      ensures maxTerrainHeight == RunningMax(old(maxTerrainHeight), vertices[..], vertices.Length)
      ensures minTerrainHeight == RunningMin(old(minTerrainHeight), vertices[..], vertices.Length)
    {
      vertices := new Vector3[VertexCount(xSize, zSize)];
      forall z: nat | z <= zSize
        ensures RowLaidOut(VertexGrid(xSize, zSize, heightAt), xSize, heightAt, z)
      {
        VertexRowAt(xSize, zSize, heightAt, z);
      }
      PlaceRows(heightAt, VertexGrid(xSize, zSize, heightAt));
    }

    /** The loop nest of the height pass over a grid whose rows are laid
        out in visiting order. */
    method PlaceRows(heightAt: (int, int) -> real, ghost grid: seq<Vector3>)
      requires 0 <= xSize && 0 <= zSize
      requires vertices.Length == |grid| == VertexCount(xSize, zSize)
      requires forall z: nat :: z <= zSize ==> RowLaidOut(grid, xSize, heightAt, z)
      modifies vertices, this`minTerrainHeight, this`maxTerrainHeight
      ensures vertices[..] == grid
      ensures maxTerrainHeight == RunningMax(old(maxTerrainHeight), grid, |grid|)
      ensures minTerrainHeight == RunningMin(old(minTerrainHeight), grid, |grid|)
    {
      var i, z := 0, 0;
      while z <= zSize
        invariant 0 <= z <= zSize + 1
        invariant i == VertexIndex(xSize, 0, z) && i <= |grid|
        invariant forall j :: 0 <= j < i ==> vertices[j] == grid[j]
        invariant maxTerrainHeight == RunningMax(old(maxTerrainHeight), grid, i)
        invariant minTerrainHeight == RunningMin(old(minTerrainHeight), grid, i)
        modifies vertices, this`maxTerrainHeight, this`minTerrainHeight
      {
        i := PlaceRow(heightAt, z, i, grid, old(maxTerrainHeight), old(minTerrainHeight));
        ghost var row := z;
        z := z + 1;
        NextRowStart(xSize, row, z);
        VertexRowFits(xSize, zSize, z);
      }
      // the counter has visited every slot exactly once
      VertexRowFits(xSize, zSize, z);
      assert i == vertices.Length;
      assert vertices[..] == grid;
    }

    /** Row `z` of the height pass, starting at vertex slot `start`. */
    method PlaceRow(heightAt: (int, int) -> real, z: nat, start: int,
                    ghost grid: seq<Vector3>, ghost maxSeed: real, ghost minSeed: real)
      returns (i: int)
      requires 0 <= xSize
      requires vertices.Length == |grid|
      requires start == VertexIndex(xSize, 0, z) && RowLaidOut(grid, xSize, heightAt, z)
      requires forall j :: 0 <= j < start ==> vertices[j] == grid[j]
      requires maxTerrainHeight == RunningMax(maxSeed, grid, start)
      requires minTerrainHeight == RunningMin(minSeed, grid, start)
      modifies vertices, this`maxTerrainHeight, this`minTerrainHeight
      ensures i == start + xSize + 1
      ensures forall j :: 0 <= j < i ==> vertices[j] == grid[j]
      ensures forall j :: i <= j < vertices.Length ==> vertices[j] == old(vertices[j])
      ensures maxTerrainHeight == RunningMax(maxSeed, grid, i)
      ensures minTerrainHeight == RunningMin(minSeed, grid, i)
    {
      var x := 0;
      i := start;
      while x <= xSize
        invariant 0 <= x <= xSize + 1
        invariant i == start + x && i <= |grid|
        invariant forall j :: 0 <= j < i ==> vertices[j] == grid[j]
        invariant forall j :: i <= j < vertices.Length ==> vertices[j] == old(vertices[j])
        invariant maxTerrainHeight == RunningMax(maxSeed, grid, i)
        invariant minTerrainHeight == RunningMin(minSeed, grid, i)
      {
        var y := heightAt(x, z);
        assert grid[i] == GridVertex(heightAt, x, z);
        vertices[i] := Vector3(x as real, y, z as real);
        if y > maxTerrainHeight {
          maxTerrainHeight := y;
        }
        if y < minTerrainHeight {
          minTerrainHeight := y;
        }
        ghost var visited := i;
        i := i + 1;
        x := x + 1;
        RunningMaxNext(maxSeed, grid, visited, i);
        RunningMinNext(minSeed, grid, visited, i);
      }
    }

    /** The index pass: two triangles per quad, six indices per quad, with
        the vertex cursor stepping over the last vertex of each row. */
    method ConnectTriangles()
      requires 0 <= xSize && 0 <= zSize
      modifies this`triangles
      ensures fresh(triangles)
      ensures triangles[..] == Triangulation(xSize, zSize)
    {
      triangles := new int[IndexCount(xSize, zSize)];
      ghost var tri := Triangulation(xSize, zSize);
      var vert, tris := 0, 0;
      var z := 0;
      while z < zSize
        invariant 0 <= z <= zSize
        invariant vert == VertexIndex(xSize, 0, z) && tris == QuadStart(xSize, 0, z)
        invariant tris <= |tri|
        invariant forall k :: 0 <= k < tris ==> triangles[k] == tri[k]
        modifies triangles
      {
        QuadRowFits(xSize, zSize, z + 1);
        vert, tris := ConnectRow(z, vert, tris, tri);
        // the extra step skips the last vertex of the row
        vert := vert + 1;
        NextRowStart(xSize, z, z + 1);
        NextQuadRow(xSize, z);
        z := z + 1;
      }
      // every slot has been written once and the cursor stands on the last row
      LastQuadRow(xSize, zSize);
      assert tris == triangles.Length && vert == VertexIndex(xSize, 0, zSize);
      assert triangles[..] == tri;
    }

    /** Row `z` of the index pass: the quads of row `z`, the vertex cursor
        starting at `vert0` and the index cursor at `tris0`. */
    method ConnectRow(z: int, vert0: int, tris0: int, ghost tri: seq<int>) returns (vert: int, tris: int)
      requires 0 <= xSize && 0 <= z < zSize
      requires tri == Triangulation(xSize, zSize) && triangles.Length == |tri|
      requires vert0 == VertexIndex(xSize, 0, z) && tris0 == QuadStart(xSize, 0, z)
      requires tris0 + 6 * xSize <= |tri|
      requires forall k :: 0 <= k < tris0 ==> triangles[k] == tri[k]
      modifies triangles
      ensures vert == vert0 + xSize && tris == tris0 + 6 * xSize
      ensures forall k :: 0 <= k < tris ==> triangles[k] == tri[k]
      ensures forall k :: tris <= k < triangles.Length ==> triangles[k] == old(triangles[k])
    {
      vert, tris := vert0, tris0;
      var x := 0;
      while x < xSize
        invariant 0 <= x <= xSize
        invariant vert == vert0 + x && tris == tris0 + 6 * x
        invariant forall k :: 0 <= k < tris ==> triangles[k] == tri[k]
        invariant forall k :: tris <= k < triangles.Length ==> triangles[k] == old(triangles[k])
      {
        TriangulationCursor(xSize, zSize, x, z, vert, tris);
        triangles[tris + 0] := vert + 0;
        triangles[tris + 1] := vert + xSize + 1;
        triangles[tris + 2] := vert + 1;
        triangles[tris + 3] := vert + 1;
        triangles[tris + 4] := vert + xSize + 1;
        triangles[tris + 5] := vert + xSize + 2;
        vert := vert + 1;
        tris := tris + 6;
        x := x + 1;
      }
    }

    /** The texture pass: each grid point's position scaled into the unit square. */
    method MapUvs()
      requires 1 <= xSize && 1 <= zSize
      requires vertices.Length == VertexCount(xSize, zSize)
      modifies this`uvs
      ensures fresh(uvs)
      ensures uvs[..] == UvGrid(xSize, zSize)
    {
      uvs := new Vector2[vertices.Length];
      forall z: nat | z <= zSize
        ensures UvRowLaidOut(UvGrid(xSize, zSize), xSize, zSize, z)
      {
        UvRowAt(xSize, zSize, z);
      }
      MapUvRows(UvGrid(xSize, zSize));
    }

    /** The loop nest of the texture pass over a grid whose rows are laid
        out in visiting order. */
    method MapUvRows(ghost uvGrid: seq<Vector2>)
      requires 1 <= xSize && 1 <= zSize
      requires uvs.Length == |uvGrid| == VertexCount(xSize, zSize)
      requires forall z: nat :: z <= zSize ==> UvRowLaidOut(uvGrid, xSize, zSize, z)
      modifies uvs
      ensures uvs[..] == uvGrid
    {
      var i, z := 0, 0;
      while z <= zSize
        invariant 0 <= z <= zSize + 1
        invariant i == VertexIndex(xSize, 0, z) && i <= |uvGrid|
        invariant forall j :: 0 <= j < i ==> uvs[j] == uvGrid[j]
      {
        assert UvRowLaidOut(uvGrid, xSize, zSize, z);
        ghost var rowStart := i;
        var x := 0;
        while x <= xSize
          invariant 0 <= x <= xSize + 1
          invariant i == rowStart + x && i <= |uvGrid|
          invariant forall j :: 0 <= j < i ==> uvs[j] == uvGrid[j]
        {
          assert uvGrid[i] == UvOf(xSize, zSize, x, z);
          uvs[i] := Vector2(x as real / xSize as real, z as real / zSize as real);
          i := i + 1;
          x := x + 1;
        }
        ghost var row := z;
        z := z + 1;
        NextRowStart(xSize, row, z);
      }
      // the counter has visited every slot exactly once
      VertexRowFits(xSize, zSize, z);
      assert i == uvs.Length;
      assert uvs[..] == uvGrid;
    }

    /** The colour pass: each vertex's height normalised into the tracked
        range and looked up in the gradient. */
    method PaintVertices()
      requires 0 <= xSize && 0 <= zSize
      requires vertices.Length == VertexCount(xSize, zSize)
      modifies this`vertColours
      ensures fresh(vertColours)
      ensures vertColours[..] == VertexColours(vertices[..], minTerrainHeight, maxTerrainHeight, gradient)
    {
      vertColours := new Color[vertices.Length];
      ghost var colours := VertexColours(vertices[..], minTerrainHeight, maxTerrainHeight, gradient);
      var i, z := 0, 0;
      while z <= zSize
        invariant 0 <= z <= zSize + 1
        invariant i == VertexIndex(xSize, 0, z) && i <= |colours|
        invariant forall j :: 0 <= j < i ==> vertColours[j] == colours[j]
        modifies vertColours
      {
        ghost var rowStart := i;
        var x := 0;
        while x <= xSize
          invariant 0 <= x <= xSize + 1
          invariant i == rowStart + x && i <= |colours|
          invariant forall j :: 0 <= j < i ==> vertColours[j] == colours[j]
          modifies vertColours
        {
          VertexIndexDecodes(xSize, zSize, x, z);
          var terrainHeight := InverseLerp(minTerrainHeight, maxTerrainHeight, vertices[i].y);
          vertColours[i] := gradient(terrainHeight);
          i := i + 1;
          x := x + 1;
        }
        NextRowStart(xSize, z, z + 1);
        z := z + 1;
      }
      // the counter has visited every slot exactly once
      VertexRowFits(xSize, zSize, z);
      assert i == vertColours.Length;
      assert vertColours[..] == colours;
    }
  }
}
