/** The renderer state that Visualizer/Renderer/renderer.cpp initialises and
    the grid vertex buffer it builds: three families of axis-parallel line
    segments over a (gridSize+1) x (gridSize+1) lattice. The OpenGL side
    (shaders, buffers, drawing) and the camera navigation are not part of
    this model. */
module Visualizer {
  import opened MathTypes
  import opened Raster

  /** The direction of a grid line. */
  datatype Axis = X | Y | Z {
    /** The coordinate that varies along the line; also the position of the
        line's group in the buffer (X lines first, then Y, then Z). */
    function Along(): nat {
      match this
      case X => 0
      case Y => 1
      case Z => 2
    }
    /** The lower-numbered of the two coordinates the line keeps fixed. */
    function FirstFixed(): nat {
      match this
      case X => 1
      case Y => 0
      case Z => 0
    }
    /** The higher-numbered of the two coordinates the line keeps fixed. */
    function SecondFixed(): nat {
      match this
      case X => 2
      case Y => 2
      case Z => 1
    }
  }

  /** One line segment as six floats, start point then end point: it runs
      from 0 to `len` along `axis`, and its two fixed coordinates are `a` and
      `b`, in increasing coordinate order. */
  function Segment(axis: Axis, a: real, b: real, len: real): (s: seq<real>)
    ensures |s| == 6
  {
    match axis
    case X => [0.0, a, b, len, a, b]
    case Y => [a, 0.0, b, a, len, b]
    case Z => [a, b, 0.0, a, b, len]
  }

  /** The segment is parallel to `axis`: its endpoints differ only in the
      `axis` coordinate, which runs from 0 to `len`. */
  lemma SegmentAlong(axis: Axis, a: real, b: real, len: real)
    ensures var s := Segment(axis, a, b, len);
            && s[axis.Along()] == 0.0 && s[3 + axis.Along()] == len
            && s[axis.FirstFixed()] == a && s[3 + axis.FirstFixed()] == a
            && s[axis.SecondFixed()] == b && s[3 + axis.SecondFixed()] == b
  {
  }

  /** The number of lines per direction and per fixed coordinate: gridSize+1,
      or none at all when that is not positive. */
  function LineCount(gridSize: int): (n: nat)
    ensures gridSize >= 0 ==> n == gridSize + 1
    ensures gridSize < 0 ==> n == 0
  {
    if gridSize + 1 <= 0 then 0 else gridSize + 1
  }

  /** The position of lattice line `i` for the given spacing. */
  function Coordinate(i: int, spacing: real): real {
    i as real * spacing
  }

  /** The segment along `axis` whose fixed coordinates are lattice indices
      (i, j), scaled by the spacing. */
  function GridCell(axis: Axis, gridSize: int, spacing: real): (nat, nat) -> seq<real> {
    (i: nat, j: nat) => Segment(axis, Coordinate(i, spacing), Coordinate(j, spacing), Coordinate(gridSize, spacing))
  }

  /** Reference definition of the grid buffer: the X-direction group, then the
      Y-direction group, then the Z-direction group, each listing its
      segments with the first fixed index outermost. */
  function GridVertices(gridSize: int, spacing: real): seq<real> {
    var n := LineCount(gridSize);
    Rows(GridCell(X, gridSize, spacing), n, n)
    + Rows(GridCell(Y, gridSize, spacing), n, n)
    + Rows(GridCell(Z, gridSize, spacing), n, n)
  }

  lemma GridCellSixes(axis: Axis, gridSize: int, spacing: real, n: nat)
    ensures Sixes(GridCell(axis, gridSize, spacing), n, n)
  {
    forall v: nat, u: nat | v < n && u < n
      ensures |GridCell(axis, gridSize, spacing)(v, u)| == 6
    {
      assert GridCell(axis, gridSize, spacing)(v, u)
             == Segment(axis, Coordinate(v, spacing), Coordinate(u, spacing), Coordinate(gridSize, spacing));
    }
  }

  /** The group of `axis` among the three groups. */
  function Group(axis: Axis, xs: seq<real>, ys: seq<real>, zs: seq<real>): seq<real> {
    match axis
    case X => xs
    case Y => ys
    case Z => zs
  }

  /** Block `p` of the group of `axis` is block axis*size + p of the three
      groups of `size` blocks laid end to end. */
  lemma GroupBlockAt(xs: seq<real>, ys: seq<real>, zs: seq<real>, size: nat, axis: Axis, p: nat)
    requires |xs| == 6 * size && |ys| == 6 * size && |zs| == 6 * size && p < size
    ensures 6 * Position(size, axis.Along(), p) + 6 <= |xs + ys + zs|
    ensures (xs + ys + zs)[6 * Position(size, axis.Along(), p) .. 6 * Position(size, axis.Along(), p) + 6]
            == Group(axis, xs, ys, zs)[6 * p .. 6 * p + 6]
  {
    var off := 6 * Position(size, axis.Along(), p);
    match axis
    case X =>
      assert off == 6 * p;
      SliceOfPrefixPart(xs + ys, zs, off, off + 6);
      SliceOfPrefixPart(xs, ys, off, off + 6);
    case Y =>
      assert off == |xs| + 6 * p;
      SliceOfPrefixPart(xs + ys, zs, off, off + 6);
      SliceOfSuffix(xs, ys, 6 * p, 6);
    case Z =>
      assert off == |xs + ys| + 6 * p;
      SliceOfSuffix(xs + ys, zs, 6 * p, 6);
  }

  /** The buffer holds 3 (gridSize+1)^2 segments, i.e. 18 (gridSize+1)^2
      floats, and is empty for a negative grid size. */
  lemma GridVerticesLength(gridSize: int, spacing: real)
    ensures var n := LineCount(gridSize);
            |GridVertices(gridSize, spacing)| == 18 * (n * n)
    ensures gridSize < 0 ==> GridVertices(gridSize, spacing) == []
  {
    GroupLength(X, gridSize, spacing);
    GroupLength(Y, gridSize, spacing);
    GroupLength(Z, gridSize, spacing);
  }

  /** Each group holds one six-float segment per pair of lattice indices. */
  lemma GroupLength(axis: Axis, gridSize: int, spacing: real)
    ensures var n := LineCount(gridSize);
            |Rows(GridCell(axis, gridSize, spacing), n, n)| == 6 * (n * n)
  {
    var n := LineCount(gridSize);
    GridCellSixes(axis, gridSize, spacing, n);
    RowsLength(GridCell(axis, gridSize, spacing), n, n);
  }

  /** Within its own group, the segment along `axis` with fixed lattice
      indices (i, j) is segment number i*n + j, where n is the line count. */
  lemma GroupAt(axis: Axis, gridSize: int, spacing: real, i: nat, j: nat)
    requires i < LineCount(gridSize) && j < LineCount(gridSize)
    ensures var n := LineCount(gridSize);
            var group := Rows(GridCell(axis, gridSize, spacing), n, n);
            && 6 * Position(n, i, j) + 6 <= |group|
            && group[6 * Position(n, i, j) .. 6 * Position(n, i, j) + 6]
               == Segment(axis, Coordinate(i, spacing), Coordinate(j, spacing), Coordinate(gridSize, spacing))
  {
    var n := LineCount(gridSize);
    var cell := GridCell(axis, gridSize, spacing);
    GridCellSixes(axis, gridSize, spacing, n);
    RowsAt(cell, n, n, i, j);
    assert cell(i, j) == Segment(axis, Coordinate(i, spacing), Coordinate(j, spacing), Coordinate(gridSize, spacing));
  }

  /** Block `p` of the group of `axis` is block axis*(n*n) + p of the
      buffer, where n is the line count. */
  lemma GroupInGrid(gridSize: int, spacing: real, axis: Axis, p: nat)
    requires p < LineCount(gridSize) * LineCount(gridSize)
    ensures var n := LineCount(gridSize);
            var off := 6 * Position(n * n, axis.Along(), p);
            && off + 6 <= |GridVertices(gridSize, spacing)|
            && 6 * p + 6 <= |Rows(GridCell(axis, gridSize, spacing), n, n)|
            && GridVertices(gridSize, spacing)[off .. off + 6]
               == Rows(GridCell(axis, gridSize, spacing), n, n)[6 * p .. 6 * p + 6]
  {
    var n := LineCount(gridSize);
    var xs := Rows(GridCell(X, gridSize, spacing), n, n);
    var ys := Rows(GridCell(Y, gridSize, spacing), n, n);
    var zs := Rows(GridCell(Z, gridSize, spacing), n, n);
    GroupLength(X, gridSize, spacing);
    GroupLength(Y, gridSize, spacing);
    GroupLength(Z, gridSize, spacing);
    GroupBlockAt(xs, ys, zs, n * n, axis, p);
    assert Group(axis, xs, ys, zs) == Rows(GridCell(axis, gridSize, spacing), n, n);
    assert GridVertices(gridSize, spacing) == xs + ys + zs;
  }

  /** Layout: the segment along `axis` with fixed lattice indices (i, j) is
      segment number axis*(n*n) + i*n + j of the buffer, where n is the line
      count; it starts at 0 and ends at gridSize*spacing along `axis`, and
      keeps the coordinates i*spacing and j*spacing fixed. */
  lemma GridSegmentAt(gridSize: int, spacing: real, axis: Axis, i: nat, j: nat)
    requires i < LineCount(gridSize) && j < LineCount(gridSize)
    ensures var n := LineCount(gridSize);
            var off := 6 * Position(n * n, axis.Along(), Position(n, i, j));
            && off + 6 <= |GridVertices(gridSize, spacing)|
            && GridVertices(gridSize, spacing)[off .. off + 6]
               == Segment(axis, Coordinate(i, spacing), Coordinate(j, spacing), Coordinate(gridSize, spacing))
  {
    var n := LineCount(gridSize);
    var p := Position(n, i, j);
    var group := Rows(GridCell(axis, gridSize, spacing), n, n);
    assert p < n * n && 6 * p + 6 <= |group|
           && group[6 * p .. 6 * p + 6]
              == Segment(axis, Coordinate(i, spacing), Coordinate(j, spacing), Coordinate(gridSize, spacing)) by {
      GroupAt(axis, gridSize, spacing, i, j);
      GroupLength(axis, gridSize, spacing);
    }
    GroupInGrid(gridSize, spacing, axis, p);
  }

  /** Multiplying a point by the identity matrix leaves it unchanged. */
  lemma IdentityFixesPoints(p: Vec4)
    ensures MulVec(Identity4, p) == p
  {
  }

  class Renderer {
    //// camera variables
    var lastMousePosition: (int, int)
    var position: Vec3
    var forward: Vec3
    var up: Vec3
    var right: Vec3
    var moveSpeed: real
    var rotationSpeed: real
    var zoomSpeed: real

    //// OpenGL variables
    var transformMatrix: Mat4

    //// grid
    var gridVertices: seq<real>

    /** Construction initialises the camera variables; the grid buffer starts
        empty. */
    constructor ()
      ensures lastMousePosition == (0, 0)
      ensures position == Zero3 && forward == Zero3 && up == Zero3 && right == Zero3
      ensures moveSpeed == 0.0 && rotationSpeed == 0.0 && zoomSpeed == 0.0
      ensures transformMatrix == Identity4
      ensures gridVertices == []
    {
      lastMousePosition := (0, 0);
      position, forward, up, right := Zero3, Zero3, Zero3, Zero3;
      moveSpeed, rotationSpeed, zoomSpeed := 0.0, 0.0, 0.0;
      transformMatrix := Identity4;
      gridVertices := [];
      new;
      InitVariables();
    }

    /** Puts the camera at the origin with zero direction vectors and speeds,
        and makes the transform the identity; nothing else changes. */
    method InitVariables()
      modifies this`lastMousePosition, this`position, this`forward, this`up, this`right,
               this`moveSpeed, this`rotationSpeed, this`zoomSpeed, this`transformMatrix
      ensures lastMousePosition == (0, 0)
      ensures position == Zero3 && forward == Zero3 && up == Zero3 && right == Zero3
      ensures moveSpeed == 0.0 && rotationSpeed == 0.0 && zoomSpeed == 0.0
      ensures transformMatrix == Identity4
      ensures forall p :: MulVec(transformMatrix, p) == p
    {
      lastMousePosition := (0, 0);
      position := Vec3(0.0, 0.0, 0.0);
      forward := Vec3(0.0, 0.0, 0.0);
      up := Vec3(0.0, 0.0, 0.0);
      right := Vec3(0.0, 0.0, 0.0);
      moveSpeed := 0.0;
      rotationSpeed := 0.0;
      zoomSpeed := 0.0;
      transformMatrix := Mat4(Vec4(1.0, 0.0, 0.0, 0.0),
                              Vec4(0.0, 1.0, 0.0, 0.0),
                              Vec4(0.0, 0.0, 1.0, 0.0),
                              Vec4(0.0, 0.0, 0.0, 1.0));
      forall p ensures MulVec(transformMatrix, p) == p {
        IdentityFixesPoints(p);
      }
    }

    /** Replaces the grid buffer by the segments of a gridSize x gridSize x
        gridSize lattice cube with the given spacing: the lines along X, then
        along Y, then along Z. The previous contents do not matter.
        `gridSize + 1` must not overflow. */
    method GenerateGridVertices(gridSize: int32, gridSpacing: real)
      requires gridSize < INT32_MAX
      modifies this`gridVertices
      ensures gridVertices == GridVertices(gridSize, gridSpacing)
    {
      gridVertices := [];
      var lineCount: int32 := gridSize + 1;
      ghost var n := LineCount(gridSize);
      AppendLines(X, gridSize, lineCount, gridSpacing);
      assert gridVertices == Rows(GridCell(X, gridSize, gridSpacing), n, n);
      AppendLines(Y, gridSize, lineCount, gridSpacing);
      AppendLines(Z, gridSize, lineCount, gridSpacing);
    }

    /** One of the three loop pairs of the generator: for each outer lattice
        index `a` in turn, the inner loop over `b`. */
    method AppendLines(axis: Axis, gridSize: int32, lineCount: int32, gridSpacing: real)
      requires lineCount as int == gridSize as int + 1
      modifies this`gridVertices
      ensures gridVertices == old(gridVertices) + Rows(GridCell(axis, gridSize, gridSpacing),
                                                       LineCount(gridSize), LineCount(gridSize))
    {
      ghost var cell := GridCell(axis, gridSize, gridSpacing);
      ghost var n := LineCount(gridSize);
      var a: int32 := 0;
      while a < lineCount
        invariant 0 <= a as int <= n
        invariant gridVertices == old(gridVertices) + Rows(cell, n, a as nat)
      {
        AppendLineRow(axis, gridSize, lineCount, gridSpacing, a);
        RowsStep(old(gridVertices), cell, n, a as nat);
        a := a + 1;
      }
      assert a as nat == n;
    }

    /** The inner loop of a loop pair: for each inner lattice index `b` in
        turn, append the segment along `axis` whose fixed coordinates are
        a*spacing and b*spacing, start point then end point. */
    method AppendLineRow(axis: Axis, gridSize: int32, lineCount: int32, gridSpacing: real, a: int32)
      requires lineCount as int == gridSize as int + 1
      requires 0 <= a as int
      modifies this`gridVertices
      ensures gridVertices == old(gridVertices) + Row(GridCell(axis, gridSize, gridSpacing), a as nat, LineCount(gridSize))
    {
      ghost var cell := GridCell(axis, gridSize, gridSpacing);
      var b: int32 := 0;
      while b < lineCount
        invariant 0 <= b as int <= LineCount(gridSize)
        invariant gridVertices == old(gridVertices) + Row(cell, a as nat, b as nat)
      {
        var aPos := Coordinate(a as int, gridSpacing);
        var bPos := Coordinate(b as int, gridSpacing);
        var len := Coordinate(gridSize as int, gridSpacing);
        gridVertices := gridVertices + Segment(axis, aPos, bPos, len);
        assert Segment(axis, aPos, bPos, len) == cell(a as nat, b as nat);
        RowStep(old(gridVertices), cell, a as nat, b as nat);
        b := b + 1;
      }
    }
  }
}
