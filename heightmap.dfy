/**
 * The NoiseMap class of NoiseMap.cpp: its configuration, the clamping and
 * coercion done by the constructor and the setters, the regeneration of the
 * elevation grid, and the record sequences written by toOBJ.
 *
 * Floats are modelled as reals. The FastNoise sampler and math.h `pow` are
 * foreign code: a NoiseMap is given both as function values, and the model
 * states everything about the grid in terms of them.
 */
module Heightmap {
  import opened Mesh

  /** FastNoise seeded with the first argument and sampled at (x, y). */
  type Sampler = (int, real, real) -> real

  /** math.h `pow(base, exponent)`. */
  type Power = (real, real) -> real

  /** The value stored for a non-positive power or details. */
  const Epsilon: real := 0.0001

  /** The configuration fields of a NoiseMap. */
  datatype Config = Config(width: int, height: int, seed: int, deepness: real, power: real, details: real)

  /** Maps a noise sample in [-1, 1] onto [0, 1]; the sample is recovered as 2u - 1. */
  function Normalise(n: real): (u: real)
    ensures -1.0 <= n <= 1.0 ==> 0.0 <= u <= 1.0
    ensures 2.0 * u - 1.0 == n
  {
    (n + 1.0) / 2.0
  }

  /**
   * The elevation gen() stores at cell (x, y): the sample at (x / details, y / details),
   * normalised, raised to power, scaled by deepness.
   */
  function Elev(noise: Sampler, pow: Power, seed: int, details: real, power: real, deepness: real, x: int, y: int): (r: real)
    requires details != 0.0
    ensures -1.0 <= noise(seed, x as real / details, y as real / details) <= 1.0 ==>
      exists u :: 0.0 <= u <= 1.0 && 2.0 * u - 1.0 == noise(seed, x as real / details, y as real / details) &&
        r == pow(u, power) * deepness
    ensures deepness == 0.0 ==> r == 0.0
  {
    var u := Normalise(noise(seed, x as real / details, y as real / details));
    pow(u, power) * deepness
  }

  /** A requested width or height: values below one become one, others are kept. */
  function ClampSize(n: int): (r: int)
    ensures r >= 1
    ensures n >= 1 ==> r == n
    ensures n <= 0 ==> r == 1
  {
    if n <= 0 then 1 else n
  }

  class NoiseMap {
    const noise: Sampler
    const pow: Power
    var width: int
    var height: int
    var deepness: real
    var seed: int
    var power: real
    var details: real
    /** objMatrix: cell (x, y) is grid[x, y]. */
    var grid: array2<real>

    /** Sizes at least one, power and details positive, and a grid of exactly width x height cells. */
    ghost predicate Valid()
      reads this
    {
      width >= 1 && height >= 1 && power > 0.0 && details > 0.0 &&
      grid.Length0 == width && grid.Length1 == height
    }

    ghost function Configuration(): Config
      reads this
    {
      Config(width, height, seed, deepness, power, details)
    }

    /** The elevation of cell (x, y) under the current configuration. */
    ghost function Cell(x: int, y: int): real
      reads this
      requires details != 0.0
    {
      Elev(noise, pow, seed, details, power, deepness, x, y)
    }

    /** Every cell of the grid holds the elevation of its own coordinates under the current configuration. */
    ghost predicate Generated()
      reads this, grid
      requires Valid()
    {
      forall x, y :: 0 <= x < width && 0 <= y < height ==> grid[x, y] == Cell(x, y)
    }

    /** Vertex record k is cell (k % width, k / width) with that cell's elevation. */
    ghost predicate VertexOfRecord(v: Vertex, k: int)
      reads this, grid
      requires Valid() && k >= 0
    {
      v.x == k % width && v.y == k / width && v.y < height && v.elev == grid[v.x, v.y]
    }

    /** vs is the vertex block of toOBJ: one record per cell, row-major (y outer, x inner). */
    ghost predicate RowMajorVertices(vs: seq<Vertex>)
      reads this, grid
      requires Valid()
    {
      |vs| == width * height &&
      forall k :: 0 <= k < |vs| ==> VertexOfRecord(vs[k], k)
    }

    constructor (width: int, height: int, noise: Sampler, pow: Power)
      ensures Valid() && Generated() && fresh(grid)
      ensures Configuration() == Config(ClampSize(width), ClampSize(height), 0, 100.0, 1.0, 1.0)
      ensures this.noise == noise && this.pow == pow
    {
      this.noise := noise;
      this.pow := pow;
      this.width := ClampSize(width);
      this.height := ClampSize(height);
      deepness := 100.0;
      seed := 0;
      power := 1.0;
      details := 1.0;
      grid := new real[ClampSize(width), ClampSize(height)]((x, y) => 0.0);
      new;
      Gen();
    }

    /** Rewrites every cell in place from the current configuration; touches nothing but the cells. */
    method Gen()
      requires Valid()
      modifies grid
      ensures Generated()
    {
      var y := 0;
      while y < height
        invariant 0 <= y <= height
        invariant forall x', y' :: 0 <= x' < width && 0 <= y' < y ==> grid[x', y'] == Cell(x', y')
      {
        var x := 0;
        while x < width
          invariant 0 <= x <= width
          invariant forall x', y' :: 0 <= x' < width && 0 <= y' < y ==> grid[x', y'] == Cell(x', y')
          invariant forall x' :: 0 <= x' < x ==> grid[x', y] == Cell(x', y)
        {
          grid[x, y] := Elev(noise, pow, seed, details, power, deepness, x, y);
          x := x + 1;
        }
        y := y + 1;
      }
    }

    method SetSeed(seed: int)
      requires Valid()
      modifies this, grid
      ensures Valid() && Generated() && grid == old(grid)
      ensures Configuration() == old(Configuration()).(seed := seed)
    {
      this.seed := seed;
      Gen();
    }

    method SetDeepness(deepness: real)
      requires Valid()
      modifies this, grid
      ensures Valid() && Generated() && grid == old(grid)
      ensures Configuration() == old(Configuration()).(deepness := deepness)
    {
      this.deepness := deepness;
      Gen();
    }

    /** A non-positive power is replaced by Epsilon and, unlike a positive one, does not regenerate the grid. */
    method SetPower(power: real)
      requires Valid()
      modifies this, grid
      ensures Valid() && grid == old(grid)
      ensures Configuration() == old(Configuration()).(power := if power <= 0.0 then Epsilon else power)
      ensures power <= 0.0 ==> unchanged(grid)
      ensures power > 0.0 ==> Generated()
    {
      if power <= 0.0 {
        this.power := Epsilon;
      } else {
        this.power := power;
        Gen();
      }
    }

    /** A non-positive details is replaced by Epsilon and, unlike a positive one, does not regenerate the grid. */
    method SetDetails(details: real)
      requires Valid()
      modifies this, grid
      ensures Valid() && grid == old(grid)
      ensures Configuration() == old(Configuration()).(details := if details <= 0.0 then Epsilon else details)
      ensures details <= 0.0 ==> unchanged(grid)
      ensures details > 0.0 ==> Generated()
    {
      if details <= 0.0 {
        this.details := Epsilon;
      } else {
        this.details := details;
        Gen();
      }
    }

    /** Clamps the new sizes, replaces the grid by a fresh width x height one and regenerates it. */
    method SetShape(width: int, height: int)
      requires Valid()
      modifies this
      ensures Valid() && Generated() && fresh(grid)
      ensures Configuration() == old(Configuration()).(width := ClampSize(width), height := ClampSize(height))
    {
      this.width := ClampSize(width);
      this.height := ClampSize(height);
      grid := new real[this.width, this.height]((x, y) => 0.0);
      Gen();
    }

    function GetSeed(): (r: int)
      reads this
      ensures r == seed
    {
      seed
    }

    /** The stored deepness converted to int, truncated toward zero. */
    function GetDeepness(): (r: int)
      reads this
      ensures deepness >= 0.0 ==> r as real <= deepness < r as real + 1.0
      ensures deepness < 0.0 ==> r as real - 1.0 < deepness <= r as real
    {
      if deepness >= 0.0 then deepness.Floor else -((-deepness).Floor)
    }

    function GetPower(): (r: real)
      reads this
      requires Valid()
      ensures r > 0.0 && r == power
    {
      power
    }

    function GetDetails(): (r: real)
      reads this
      requires Valid()
      ensures r > 0.0 && r == details
    {
      details
    }

    /** The vertex loop of toOBJ. */
    method EmitVertices() returns (vs: seq<Vertex>)
      requires Valid()
      ensures RowMajorVertices(vs)
    {
      vs := [];
      var y := 0;
      while y < height
        invariant 0 <= y <= height
        invariant |vs| == y * width
        invariant forall k :: 0 <= k < |vs| ==> VertexOfRecord(vs[k], k)
      {
        var x := 0;
        while x < width
          invariant 0 <= x <= width
          invariant |vs| == y * width + x
          invariant forall k :: 0 <= k < |vs| ==> VertexOfRecord(vs[k], k)
        {
          CellIndex(width, height, x, y);
          vs := vs + [Vertex(x, grid[x, y], y)];
          x := x + 1;
        }
        y := y + 1;
      }
    }

    /** toOBJ as records: the vertex block, then the face block, which depends on the width alone. */
    method ToObj() returns (vertices: seq<Vertex>, faces: seq<Face>)
      requires Valid()
      ensures RowMajorVertices(vertices)
      ensures faces == FaceList(width)
    {
      vertices := EmitVertices();
      faces := EmitFaces(width);
    }

    /** In a row-major vertex block, cell (x, y) is record y*width + x, that is OBJ index y*width + x + 1. */
    lemma VertexOfCell(vs: seq<Vertex>, x: int, y: int)
      requires Valid() && RowMajorVertices(vs)
      requires 0 <= x < width && 0 <= y < height
      ensures 0 <= y * width + x < |vs|
      ensures vs[y * width + x] == Vertex(x, grid[x, y], y)
    {
      CellIndex(width, height, x, y);
      assert VertexOfRecord(vs[y * width + x], y * width + x);
    }
  }

  /** Two maps with the same configuration, sampler and pow hold the same grid once generated. */
  lemma Deterministic(a: NoiseMap, b: NoiseMap)
    requires a.Valid() && b.Valid() && a.Generated() && b.Generated()
    requires a.Configuration() == b.Configuration() && a.noise == b.noise && a.pow == b.pow
    ensures forall x, y :: 0 <= x < a.width && 0 <= y < a.height ==> a.grid[x, y] == b.grid[x, y]
  {
  }

  /** A 2 x 2 map configured with seed 42, deepness 10, power 1 and details 1 exports 4 vertices and the face `1 2 4 3`; a later power of -5 reads back as Epsilon. */
  method SquareExample(noise: Sampler, pow: Power) returns (power: real, vertices: seq<Vertex>, faces: seq<Face>)
    ensures |vertices| == 4 && faces == [Face(1, 2, 4, 3)]
    ensures power == Epsilon
  {
    var m := new NoiseMap(2, 2, noise, pow);
    m.SetSeed(42);
    m.SetDeepness(10.0);
    m.SetPower(1.0);
    m.SetDetails(1.0);
    vertices, faces := m.ToObj();
    SmallWidths();
    m.SetPower(-5.0);
    power := m.GetPower();
  }
}
