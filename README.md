# Terrain mesh generation

This project models how the procedural terrain component builds its mesh
(`TerrainGen.CreateShape`). A terrain of `xSize` by `zSize` quads is a
row-major grid of `(xSize + 1) * (zSize + 1)` vertices. The component fills
four arrays in nested loops over that grid:

- **Vertex positions.** Vertex `z * (xSize + 1) + x` is `(x, h, z)`, with `h`
  the sampled height. This pass also widens the running minimum and maximum
  height.
- **Triangle indices.** There are six indices per quad. A vertex cursor `vert`
  skips the last vertex of every row.
- **Texture coordinates.** Each vertex gets `(x / xSize, z / zSize)`.
- **Vertex colours.** Each vertex gets the colour gradient evaluated at its
  height, normalised into the tracked range.

Files:

- `geometry.dfy`: the engine value types `Vector3`, `Vector2` and `Color`,
  with real components.
- `grid.dfy`: the specification of the grid. It defines the row-major
  layout, the vertex and texture-coordinate grids, and the triangulation,
  with lemmas about their layout, bounds and shape.
- `shading.dfy`: the running minimum and maximum, the clamped inverse
  interpolation, the vertex colours, and their lemmas.
- `terrain_gen.dfy`: the class `TerrainGen`. Its fields are the component's
  fields. `CreateShape` fills its arrays in place with `while` loops and is
  proved against the functions of `grid.dfy` and `shading.dfy`. The
  verifier needs smaller proofs, so each of the four passes is a method of
  its own. The height and texture passes hand their loop nest to a method
  (`PlaceRows`, `MapUvRows`) that sees the target grid only through the
  layout of its rows. The height and index passes move their inner row
  loop into a method (`PlaceRow`, `ConnectRow`). The loop nest, counters
  and writes are those of the source.

The sizes are counted row by row: `VertexCount` and `IndexCount` add up
rows, and `Grid.VertexCountIsProduct` and `Grid.IndexCountIsProduct` prove
them equal to the products the source allocates.

The height of grid point `(x, z)` is the parameter `heightAt(x, z)`. It
stands for `4.3 * GetFractalNoise(position.x + x, position.z + z)`. The
colour gradient is the field `gradient: real -> Color`.

**How the height range starts.** The range starts at the field default 0
(`Assets/TerrainGen.cs:17-18`), not at the first sample, and the build never
resets it (`Assets/TerrainGen.cs:80-83`). So the lowest vertex gets gradient
parameter 0 only when some height is at most 0. The model states this:

- `CreateShape` folds the range from the values the fields held before the
  call.
- `Shading.PositiveFieldKeepsZeroMin` shows that when every height is above
  0, the minimum stays 0 and no vertex gets parameter 0.

## Model

| member | source | states |
|---|---|---|
| Terrain.TerrainGen.constructor | Assets/TerrainGen.cs:17-31 | a fresh component has height range 0..0 (the float field defaults) and no mesh yet, which is a valid mesh |
| Terrain.TerrainGen.CreateShape | Assets/TerrainGen.cs:64-130 | the four arrays are new and equal the vertex grid, the triangulation, the texture coordinates and the gradient colours of the final range; the range is the running max/min from the previous values; the mesh is valid: uv and colour arrays as long as the vertex array, whole triangles, every index a vertex |
| Terrain.TerrainGen.PlaceVertices | Assets/TerrainGen.cs:68-86 | the vertex array is new and equals the vertex grid (slot `z*(xSize+1)+x` holds `(x, h(x,z), z)`), and the fields hold the running max/min of the heights in visiting order, starting from their previous values |
| Terrain.TerrainGen.PlaceRows | Assets/TerrainGen.cs:70-86 | visiting rows `0..zSize` with one shared counter makes the whole vertex array equal a grid laid out row by row, and leaves the running max/min of all its heights |
| Terrain.TerrainGen.PlaceRow | Assets/TerrainGen.cs:72-85 | one row advances the counter by `xSize+1`, writes those slots with that row's vertices, keeps the earlier slots, leaves every slot from the new counter on as it was, and extends the running max/min over the row |
| Terrain.TerrainGen.ConnectTriangles | Assets/TerrainGen.cs:88-108 | the index array is new, has `IndexCount` slots (`xSize*zSize*6` by `Grid.IndexCountIsProduct`) and equals the triangulation |
| Terrain.TerrainGen.ConnectRow | Assets/TerrainGen.cs:95-106 | one row of quads advances `tris` by `6*xSize` and `vert` by `xSize`, fills the slots below the new `tris` with the triangulation, and leaves every slot from the new `tris` on as it was |
| Terrain.TerrainGen.MapUvs | Assets/TerrainGen.cs:111-119 | the texture coordinate array is new, has one entry per vertex and equals the texture-coordinate grid |
| Terrain.TerrainGen.MapUvRows | Assets/TerrainGen.cs:112-119 | visiting rows `0..zSize` with one shared counter writes every slot of the texture-coordinate grid, row by row |
| Terrain.TerrainGen.PaintVertices | Assets/TerrainGen.cs:121-130 | colour `i` is the gradient at `InverseLerp(min, max, vertices[i].y)` for every vertex |
| Grid.VertexCountIsProduct | Assets/TerrainGen.cs:68 | `zSize+1` rows of `xSize+1` vertices make `(xSize+1)*(zSize+1)` slots, the size the source allocates |
| Grid.GridOffsetsClosedForm | Assets/TerrainGen.cs:70-105 | the slot of grid point `(x, z)` is `z*(xSize+1)+x` and the first index slot of quad `(x, z)` is `6*(z*xSize+x)` |
| Grid.RowStartIsProduct | Assets/TerrainGen.cs:70-86 | a counter that advances `width` per row stands at `z*width` after `z` rows |
| Grid.GridOfAt | Assets/TerrainGen.cs:70-86 | a row-major visit of `rows` rows puts point `(x, z)` at slot `z*(xSize+1)+x` |
| Grid.VertexGridAt | Assets/TerrainGen.cs:75-77 | vertex slot `z*(xSize+1)+x` holds `(x, heightAt(x,z), z)` |
| Grid.VertexRowAt | Assets/TerrainGen.cs:70-86 | row `z` of the vertex grid occupies the `xSize+1` slots from `z*(xSize+1)`, holding `(x, heightAt(x,z), z)` for `x = 0..xSize` in order |
| Grid.VertexIndexDecodes | Assets/TerrainGen.cs:68-86 | every grid point's slot is inside the array and decodes back to its column and row, so no two points share a slot |
| Grid.VertexSlotDecodes | Assets/TerrainGen.cs:68-86 | every slot of the vertex array is the slot of some grid point, so no slot is left unwritten |
| Grid.UvGridAt | Assets/TerrainGen.cs:116 | texture coordinate slot `z*(xSize+1)+x` is `(x/xSize, z/zSize)` |
| Grid.UvRowAt | Assets/TerrainGen.cs:112-119 | row `z` of the texture-coordinate grid occupies the `xSize+1` slots from `z*(xSize+1)`, holding `(x/xSize, z/zSize)` for `x = 0..xSize` in order |
| Grid.UvGridInUnitSquare | Assets/TerrainGen.cs:111-119 | every texture coordinate lies in `[0,1] x [0,1]` |
| Grid.UvGridCorners | Assets/TerrainGen.cs:111-119 | the first vertex maps to `(0,0)` and the last to `(1,1)` |
| Grid.IndexCountIsProduct | Assets/TerrainGen.cs:88 | `zSize` rows of `xSize` quads with six indices each make `xSize*zSize*6` slots, the size the source allocates |
| Grid.IndexCountWholeTriangles | Assets/TerrainGen.cs:88 | the index buffer length is a multiple of 3, so it holds whole triangles |
| Grid.LastQuadRow | Assets/TerrainGen.cs:93-108 | after `zSize` rows of `xSize` quads the index cursor equals the buffer length |
| Grid.QuadRowAt | Assets/TerrainGen.cs:95-106 | quad `x` of a row occupies the row's slots `6x .. 6x+5` |
| Grid.QuadRowsAt | Assets/TerrainGen.cs:93-108 | quad `(x, z)` occupies slots `6*(z*xSize+x) .. 6*(z*xSize+x)+5` of the buffer |
| Grid.TriangulationSlot | Assets/TerrainGen.cs:97-102 | slot `6*(z*xSize+x)+j` holds the quad's `j`-th index |
| Grid.TriangulationAt | Assets/TerrainGen.cs:93-108 | the six slots from `6*(z*xSize+x)` are in the buffer and hold exactly that quad's indices |
| Grid.QuadIndicesOffsets | Assets/TerrainGen.cs:97-102 | a quad's indices are `v, v+xSize+1, v+1, v+1, v+xSize+1, v+xSize+2` with `v = z*(xSize+1)+x` |
| Grid.TriangulationCell | Assets/TerrainGen.cs:93-108 | the six buffer slots from `6*(z*xSize+x)` hold `v, v+xSize+1, v+1, v+1, v+xSize+1, v+xSize+2` with `v = z*(xSize+1)+x` |
| Grid.TriangulationCursor | Assets/TerrainGen.cs:95-105 | given the cursors `vert = z*(xSize+1)+x` and `tris = 6*(z*xSize+x)` at quad `(x, z)` (which the loop invariants of `ConnectTriangles` and `ConnectRow` maintain), the six writes from `tris` put into the buffer exactly what it holds there |
| Grid.SlotOwner | Assets/TerrainGen.cs:93-108 | each index slot lies in the six-slot group of exactly one quad, so every slot is written once |
| Grid.QuadIndicesInBounds | Assets/TerrainGen.cs:97-102 | every index of a quad is a vertex: `0 <= i < (xSize+1)*(zSize+1)` |
| Grid.TriangulationInBounds | Assets/TerrainGen.cs:68-108 | every entry of the index buffer is a valid vertex index |
| Grid.QuadNotDegenerate | Assets/TerrainGen.cs:97-102 | the three indices of each triangle are pairwise distinct |
| Grid.QuadSharedDiagonal | Assets/TerrainGen.cs:97-102 | a quad's two triangles share exactly the diagonal `{v+1, v+xSize+1}` |
| Grid.QuadWithinCell | Assets/TerrainGen.cs:97-107 | every index of quad `(x, z)` lies in columns `x..x+1` and rows `z..z+1`: no triangle wraps across a row |
| Grid.QuadWinding | Assets/TerrainGen.cs:97-102 | whatever the heights, both triangles of every quad have the same orientation in the horizontal plane |
| Shading.RunningMaxBounds | Assets/TerrainGen.cs:80-81 | the running maximum is at least the seed and every height, and equals the seed or some height |
| Shading.RunningMinBounds | Assets/TerrainGen.cs:82-83 | the running minimum is at most the seed and every height, and equals the seed or some height |
| Shading.HeightInRange | Assets/TerrainGen.cs:80-83 | every visited height lies between the final running minimum and maximum |
| Shading.InverseLerp | Assets/TerrainGen.cs:126 | the result is in `[0,1]`; it is 0 for equal bounds; for `a < b` it is 0 exactly at or below `a`, 1 exactly at or above `b`, and the exact fraction in between |
| Shading.InverseLerpMonotone | Assets/TerrainGen.cs:126 | for `a < b` a higher height never gets a lower parameter |
| Shading.HeightRangeUnclamped | Assets/TerrainGen.cs:121-130 | with the range tracked over the same vertices, every vertex's parameter is its exact fraction of the range (clamping never bites) |
| Shading.ExtremeVertexColours | Assets/TerrainGen.cs:121-130 | when min < max, a vertex whose height equals the tracked maximum gets `gradient(1)` and one at the tracked minimum gets `gradient(0)`; from zero seeds the lowest vertex is at the tracked minimum only when some height is at most 0 |
| Shading.FlatFieldOneColour | Assets/TerrainGen.cs:121-130 | a flat field at height 0 from zero seeds has range 0..0 and every vertex gets `gradient(0)`, with no division by zero |
| Shading.PositiveFieldKeepsZeroMin | Assets/TerrainGen.cs:17-18 | from zero seeds, all-positive heights leave the minimum at 0 and give every vertex a parameter above 0 |

## Left out

- `Assets/NoiseGen.cs` (Perlin and fractal noise) is not part of this model. It is floating-point numerics over the engine's Perlin function, so heights enter as the parameter `heightAt`. This parameter also stands for the `4.3` scale and the `transform.position` offset.
- `SamplePerlin` is left out because it is a call into the engine's noise.
- The engine glue is left out: `Start`, `UpdateMesh`, `OnDrawGizmos` and `Update` (component creation, normals, material, collider, shadows, gizmos).
- `SetVertexColours` is left out because it is never called: its call is commented out, and it appends to a list that is never created.
- The commented-out test mesh is left out.
- The unused fields `quadsPerTile`, `mapChunkSize` and the noise settings are left out, because the model has no noise.
- The arrays hold exact reals, not single-precision floats. Height sampling, `x / xSize`, and the division inside the inverse interpolation have no rounding here.
- Terrain.TerrainGen.CreateShape: requires `xSize, zSize >= 1`. The source does not check its sizes. With a zero size and the other size at least 0, the texture pass computes `0f / 0`, which is NaN in single precision and has no counterpart among exact reals. With negative sizes no element is written and the arrays take the lengths of the products: `xSize = zSize = -1` gives empty vertex, texture and colour arrays and six zero indices. Only a negative product fails at allocation, after the loops before it have run.
- Sizes and cursors are 32-bit `int` in the source, and the model's integers are unbounded. The wrap-around of `xSize * zSize * 6` (from `xSize = zSize = 18919`) and of `(xSize + 1) * (zSize + 1)` is not modelled.
- Terrain.TerrainGen.constructor: the source's arrays are `null` until the first build. The model starts them as empty arrays.
- Shading.InverseLerp: the engine function is given its documented meaning: clamped to `[0,1]`, and 0 for equal bounds. The engine's own code is not part of this model.
- The colour gradient is an arbitrary function `real -> Color`. Its keys and its blending are not modelled.
- Grid.QuadWinding: orientation is stated in the horizontal plane only. Which side faces up depends on the engine's handedness and its normal computation, which are not modelled.
