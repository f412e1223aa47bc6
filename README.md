# NoiseMap heightmap generator and OBJ export, modelled in Dafny

NoiseMap is a C++ class that keeps a `width x height` elevation grid filled
from seeded simplex noise and writes the grid out as a Wavefront OBJ mesh.
This project models that class:

- its configuration (`width`, `height`, `seed`, `deepness`, `power`, `details`)
  and how the constructor and the setters clamp and store it;
- the decision of each setter to regenerate the grid or not;
- `gen()`, which rewrites every cell in place;
- the vertex and face loops of `toOBJ`, with their records given as sequences
  of `Vertex(x, elev, y)` and `Face(a, b, c, d)` values.

Files:

- `heightmap.dfy` (module `Heightmap`) holds the class `NoiseMap`. The grid is
  an `array2<real>` indexed `[x, y]`, like `objMatrix[x][y]`.
- `mesh.dfy` (module `Mesh`) holds the index logic of the export. `FaceList(w)`
  gives the face block in closed form: slot `j` holds the quad whose top-left
  index is `(j / (w-1)) * w + j % (w-1) + 1`. The method `EmitFaces` runs the
  source's loop, with its `continue` and `break`, and is proved to produce
  exactly that list.
- `arith.dfy` (module `Arith`) holds division and multiplication facts.

Foreign code is passed in as values. A `NoiseMap` is built with a `Sampler`
(FastNoise seeded with an int and sampled at a point) and a `Power` (math.h
`pow`). Every cell is then stated to hold
`pow((noise(seed, x / details, y / details) + 1) / 2, power) * deepness`.
Floats are modelled as reals.

Two behaviours of the source are kept as written:

- `setPower` and `setDetails` with a value `<= 0` store 0.0001 but do not
  regenerate. Afterwards the grid may not match the stored configuration, so
  "the grid matches the configuration" (`Generated`) is a separate predicate,
  not part of the class invariant `Valid`.
- The face loop runs up to `width * width`, whatever the height. On a square
  grid it writes the `(w-1)^2` quads, and every index names a vertex. On a grid
  wider than it is tall, the last face refers to vertex `w*w`, beyond the
  `w*h` vertices written (`WideGridOverflows`). On a taller grid, every face index is at most
  `w*w` (`FaceWithinRows`), so faces cover only the first `w` rows. For
  `w >= 2` the count is then less than `(w-1)*(h-1)` (`FaceCountVersusGrid`).

## Model

| member | source | states |
|---|---|---|
| Heightmap.ClampSize | NoiseMap.cpp:27-31 | a requested size <= 0 is stored as exactly 1, and any size of at least 1 is kept as given; so the stored size is always at least 1 |
| Heightmap.Normalise | NoiseMap.cpp:120 | (n + 1) / 2 maps a noise sample in [-1, 1] onto [0, 1], and the sample is recovered as 2u - 1 |
| Heightmap.Elev | NoiseMap.cpp:120 | when the sample at (x / details, y / details) lies in [-1, 1], a cell's elevation is deepness times pow of the normalised sample u, a value in [0, 1] with 2u - 1 equal to that sample; a deepness of 0 gives elevation 0 |
| Heightmap.NoiseMap.constructor | NoiseMap.cpp:25-36 | width and height are the clamped arguments; seed 0, deepness 100, power 1, details 1; a fresh width x height grid, fully generated |
| Heightmap.NoiseMap.Gen | NoiseMap.cpp:116-124 | afterwards every cell (x, y) in range holds the elevation of its own coordinates under the configuration; only grid cells are modified |
| Heightmap.NoiseMap.SetSeed | NoiseMap.cpp:38-41 | the seed becomes the argument, every other configuration field and the grid object stay, and the grid is regenerated |
| Heightmap.NoiseMap.SetDeepness | NoiseMap.cpp:47-50 | the deepness becomes the argument, every other configuration field stays, and the grid is regenerated |
| Heightmap.NoiseMap.SetPower | NoiseMap.cpp:52-58 | a power <= 0 stores exactly 0.0001 and leaves every cell unchanged; a positive power is stored as given and regenerates; nothing else changes |
| Heightmap.NoiseMap.SetDetails | NoiseMap.cpp:60-66 | same policy as SetPower, for details |
| Heightmap.NoiseMap.SetShape | NoiseMap.cpp:68-78 | width and height become the clamped arguments, the rest of the configuration stays, and a fresh grid of the new size is generated |
| Heightmap.NoiseMap.GetSeed | NoiseMap.cpp:80 | returns the stored seed |
| Heightmap.NoiseMap.GetDeepness | NoiseMap.cpp:81 | returns the deepness truncated toward zero: the integer within distance 1 of it, on the zero side |
| Heightmap.NoiseMap.GetPower | NoiseMap.cpp:82 | returns the stored power, which is always positive |
| Heightmap.NoiseMap.GetDetails | NoiseMap.cpp:83 | returns the stored details, which is always positive |
| Heightmap.NoiseMap.EmitVertices | NoiseMap.cpp:95-99 | exactly width*height records; record k is cell (k % width, k / width) with that cell's stored elevation |
| Heightmap.NoiseMap.VertexOfCell | NoiseMap.cpp:95-99 | in the vertex block, cell (x, y) is record y*width + x, so its 1-based OBJ index is y*width + x + 1 |
| Heightmap.NoiseMap.ToObj | NoiseMap.cpp:88-113 | the export is the row-major vertex block and the face block of the width alone |
| Heightmap.Deterministic | NoiseMap.cpp:116-124 | two generated maps with the same configuration, sampler and pow hold identical grids |
| Heightmap.SquareExample | NoiseMap.cpp:25-113 | a 2 x 2 map built by the constructor (:25-36) and configured with setSeed, setDeepness, setPower and setDetails (:38-66) exports through toOBJ (:95-113) 4 vertices and the single face 1 2 4 3, and after setPower(-5) the power reads back as 0.0001 |
| Mesh.QuadCorners | NoiseMap.cpp:107 | for top-left cell (x, y) with x not in the last column, the face's four indices are the cells (x, y), (x+1, y), (x+1, y+1) and (x, y+1), in that order |
| Mesh.Emits | NoiseMap.cpp:102-103 | an index that passes both tests starts at 1 and its quad's largest index stays within width^2; a multiple of width never passes |
| Mesh.FaceList | NoiseMap.cpp:101-113 | the face block of width w has (w-1)^2 records |
| Mesh.EmitFaces | NoiseMap.cpp:101-113 | the loop with its cut-off, its last-column skip and its break writes exactly FaceList(width) |
| Mesh.TopLeftEmits | NoiseMap.cpp:102-107 | every face in the block has a top-left index that passes the cut-off and is not a last-column vertex, and Slot maps that index back to the face's position |
| Mesh.SlotTopLeft | NoiseMap.cpp:102-107 | every index that passes both tests is the top-left index of the face at position Slot(i) of the block |
| Mesh.FaceListEmitsExactly | NoiseMap.cpp:101-113 | a face with top-left index i is written if and only if i >= 1, i + width < width^2 and i % width != 0 |
| Mesh.FaceListIncreasing | NoiseMap.cpp:101-113 | faces are written in strictly increasing order of top-left index |
| Mesh.FaceWithinRows | NoiseMap.cpp:101-113 | every face index lies in [1, width^2]; the top edge stays in one row, the bottom edge is the next row, and no face joins a last-column vertex to the next row's first vertex |
| Mesh.SquareFacesWithinVertices | NoiseMap.cpp:95-113 | when width == height every face index is at most the vertex count width*height |
| Mesh.WideGridOverflows | NoiseMap.cpp:95-113 | when height < width the last face refers to vertex width^2, past the width*height vertices written |
| Mesh.FaceCountVersusGrid | NoiseMap.cpp:101-113 | the (width-1)^2 faces equal the (width-1)*(height-1) quads of the grid exactly when width == height or width == 1; for 2 <= width < height there are fewer |
| Mesh.SmallWidths | NoiseMap.cpp:101-113 | width 1 writes no face; width 2 writes the one face 1 2 4 3 |
| Mesh.CellIndex | NoiseMap.cpp:95-99 | cell (x, y) of a width x height grid is record y*width + x, which lies below width*height and maps back to (x, y) |
| Mesh.IndexCell | NoiseMap.cpp:95-99 | every record index below width*height comes from a cell (k % width, k / width) inside the grid |

## Left out

- The FastNoise sampler (`SetSeed`, `GetNoise`) and math.h `pow` are foreign. They are the `noise` and `pow` function values of a `NoiseMap`, so nothing is proved about the range of an elevation.
- Floating-point rounding: `deepness`, `power` and `details` are reals, so 0.0001 is exact and NaN is not modelled (a NaN power or details would be stored and regenerate).
- Heightmap.NoiseMap.GetDeepness: does not model what happens when the value is outside the range of `int`, which is undefined in C++.
- `setSeed()` with no argument is not modelled. It draws `rand() * time(NULL)`, which is non-deterministic, and the `(int)` cast narrows the product to `int`.
- Mesh.EmitFaces: models `pow(width, 2)` as the exact integer `width * width` and uses unbounded integers. So it does not model the `int` overflow of `i + width` or of the loop counter for widths above 46340.
- The Boost.Python and NumPy layer is binding glue and is not modelled: the `shape` tuple, `getShape`, `getNumpyMap` and the module registration. The registration exposes neither `setSeed` overload, so from Python the seed stays 0.
- The constructor and `setShape` with a size `<= 0` throw in the source; the model drops that error path and gives the clamped map instead. The source builds `shape` and the `np::zeros` array from the raw arguments. A negative size makes `np::zeros` raise before `gen()` runs. A size of 0 gives an empty array, and `gen()` raises at its first cell write. In `setShape` the throw comes after `width` and `height` are already clamped, leaving `shape` raw and the array empty or the old one. The model's constructor and SetShape always succeed with a zero-filled grid of the clamped size, fully generated: the clamp is modelled as the source evidently intends it.
- The file and console output of `toOBJ` is not modelled: the file name, the header and `o name` lines, the section comments, `cout`, and the float-to-text conversion. The export is modelled as its record sequences.
- The OpenCV headers are included but never used.
