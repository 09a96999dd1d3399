/** The reconstruction of PointCloud/pointcloud.cpp: the pose and association
    tables, the depth-image acceptance rule, the per-frame point emission in
    raster order, and the driver that clears the buffer and then processes
    the selected frames in order. The specification functions come first,
    then the `PointCloud` class whose methods are proved against them. */
module Reconstruction {
  import opened MathTypes
  import opened PointCloudData
  import opened Unprojection
  import opened Raster

  // ---------------------------------------------------------------------------
  // Association tables

  /** The (key, path) pair of an association line that goes to the colour
      table (`second == false`) or to the depth table (`second == true`). */
  function Pair(line: AssociationLine, second: bool): (int32, string) {
    if second then (line.depthKey, line.depthPath) else (line.rgbKey, line.rgbPath)
  }

  /** The table `m` after assigning, line by line and in file order, the
      selected pair of every line. */
  function Associate(m: map<int32, string>, lines: seq<AssociationLine>, second: bool): map<int32, string>
  {
    if lines == [] then m
    else
      var p := Pair(lines[|lines| - 1], second);
      Associate(m, lines[..|lines| - 1], second)[p.0 := p.1]
  }

  /** Every key already present or written by some line is in the table, and
      no other key is. */
  lemma {:induction false} AssociateKeys(m: map<int32, string>, lines: seq<AssociationLine>, second: bool, key: int32)
    ensures key in Associate(m, lines, second) <==>
              key in m || exists i :: 0 <= i < |lines| && Pair(lines[i], second).0 == key
  {
    if lines != [] {
      var init := lines[..|lines| - 1];
      AssociateKeys(m, init, second, key);
      if exists i :: 0 <= i < |init| && Pair(init[i], second).0 == key {
        var i :| 0 <= i < |init| && Pair(init[i], second).0 == key;
        assert Pair(lines[i], second).0 == key;
      }
      if exists i :: 0 <= i < |lines| && Pair(lines[i], second).0 == key {
        var i :| 0 <= i < |lines| && Pair(lines[i], second).0 == key;
        if i < |init| {
          assert Pair(init[i], second).0 == key;
        }
      }
    }
  }

  /** A repeated key is overwritten: the path stored for a key is the one on
      the LAST line that writes it. */
  lemma {:induction false} AssociateLastWriteWins(m: map<int32, string>, lines: seq<AssociationLine>, second: bool, i: nat)
    requires i < |lines|
    requires forall j :: i < j < |lines| ==> Pair(lines[j], second).0 != Pair(lines[i], second).0
    ensures Pair(lines[i], second).0 in Associate(m, lines, second)
    ensures Associate(m, lines, second)[Pair(lines[i], second).0] == Pair(lines[i], second).1
  {
    if i < |lines| - 1 {
      var init := lines[..|lines| - 1];
      assert forall j :: i < j < |init| ==> Pair(init[j], second).0 != Pair(init[i], second).0 by {
        forall j | i < j < |init| ensures Pair(init[j], second).0 != Pair(init[i], second).0 {
          assert init[j] == lines[j];
        }
      }
      AssociateLastWriteWins(m, init, second, i);
      assert init[i] == lines[i];
    }
  }

  /** A key that no line writes keeps the path it had before loading. */
  lemma {:induction false} AssociateUntouched(m: map<int32, string>, lines: seq<AssociationLine>, second: bool, key: int32)
    requires key in m
    requires forall j :: 0 <= j < |lines| ==> Pair(lines[j], second).0 != key
    ensures key in Associate(m, lines, second) && Associate(m, lines, second)[key] == m[key]
  {
    if lines != [] {
      var init := lines[..|lines| - 1];
      assert forall j :: 0 <= j < |init| ==> Pair(init[j], second).0 != key by {
        forall j | 0 <= j < |init| ensures Pair(init[j], second).0 != key {
          assert init[j] == lines[j];
        }
      }
      AssociateUntouched(m, init, second, key);
    }
  }

  /** `map[key]` on a std::map yields the stored path, or the empty string
      for a key that is not present. */
  function Lookup(m: map<int32, string>, key: int32): (path: string)
    ensures key !in m ==> path == ""
  {
    if key in m then m[key] else ""
  }

  /** `map[key]` also inserts the empty path for a key that is not present. */
  function Touch(m: map<int32, string>, key: int32): map<int32, string> {
    if key in m then m else m[key := ""]
  }

  /** The table after `map[key]` has been evaluated for each key in turn. */
  function TouchAll(m: map<int32, string>, keys: seq<int32>): map<int32, string> {
    if keys == [] then m else Touch(TouchAll(m, keys[..|keys| - 1]), keys[|keys| - 1])
  }

  /** Looking a key up after any sequence of lookups yields the same path as
      looking it up in the original table. */
  lemma {:induction false} TouchAllLookup(m: map<int32, string>, keys: seq<int32>, key: int32)
    ensures Lookup(TouchAll(m, keys), key) == Lookup(m, key)
  {
    if keys != [] {
      TouchAllLookup(m, keys[..|keys| - 1], key);
    }
  }

  /** Looking keys up adds exactly the keys looked up and changes no path that
      any later lookup would see. */
  lemma {:induction false} TouchAllKeepsLookups(m: map<int32, string>, keys: seq<int32>)
    ensures TouchAll(m, keys).Keys == m.Keys + set x | x in keys
    ensures forall key :: Lookup(TouchAll(m, keys), key) == Lookup(m, key)
  {
    if keys != [] {
      var init := keys[..|keys| - 1];
      TouchAllKeepsLookups(m, init);
      assert keys == init + [keys[|keys| - 1]];
    }
  }

  // ---------------------------------------------------------------------------
  // One frame

  /** Image dimensions as recorded by the point cloud: width, then height. */
  datatype Dims = Dims(width: nat, height: nat)

  /** A depth image is accepted, and its dimensions recorded, only when it is
      non-empty and its samples are 16-bit unsigned. */
  predicate Accepts(depth: DepthImage) {
    !depth.Empty() && depth.is16U
  }

  /** The dimensions in force after loading `depth` over `d`. */
  function DimsAfterLoad(d: Dims, depth: DepthImage): (r: Dims)
    ensures Accepts(depth) ==> r == Dims(depth.cols, depth.rows)
    ensures !Accepts(depth) ==> r == d
  {
    if depth.Empty() then d
    else if !depth.is16U then d
    else Dims(depth.cols, depth.rows)
  }

  /** Both images hold every pixel of a `w` x `h` raster. */
  predicate InBounds(depth: DepthImage, color: ColorImage, w: nat, h: nat) {
    w == 0 || h == 0 || (h <= depth.rows && h <= color.rows && w <= depth.cols && w <= color.cols)
  }

  /** The per-pixel loop over a `w` x `h` raster reads only samples that exist,
      from a 16-bit depth image. */
  predicate Readable(depth: DepthImage, color: ColorImage, d: Dims) {
    d.width == 0 || d.height == 0 || (depth.is16U && InBounds(depth, color, d.width, d.height))
  }

  /** The point of every pixel of the images, as a cell of a raster. */
  function PixelCell(k: Intrinsics, depth: DepthImage, color: ColorImage, pose: TrajectoryData): (nat, nat) --> seq<real> {
    (v: nat, u: nat) requires k.Invertible() && v < depth.rows && u < depth.cols && v < color.rows && u < color.cols
      => PixelPoint(k, depth, color, pose, v, u)
  }

  /** The floats emitted for a raster of `m` rows of `w` pixels, rows
      outermost and columns innermost. */
  function FramePoints(k: Intrinsics, depth: DepthImage, color: ColorImage, pose: TrajectoryData,
                       w: nat, m: nat): seq<real>
    requires k.Invertible()
    requires InBounds(depth, color, w, m)
  {
    Rows(PixelCell(k, depth, color, pose), w, m)
  }

  lemma PixelCellSixes(k: Intrinsics, depth: DepthImage, color: ColorImage, pose: TrajectoryData, w: nat, m: nat)
    requires k.Invertible()
    requires InBounds(depth, color, w, m)
    ensures Sixes(PixelCell(k, depth, color, pose), w, m)
  {
  }

  /** One frame of `w` x `m` pixels yields exactly 6*m*w floats: no pixel is
      skipped or filtered, whatever its depth. */
  lemma FramePointsLength(k: Intrinsics, depth: DepthImage, color: ColorImage,
                          pose: TrajectoryData, w: nat, m: nat)
    requires k.Invertible()
    requires InBounds(depth, color, w, m)
    ensures |FramePoints(k, depth, color, pose, w, m)| == 6 * (m * w)
  {
    PixelCellSixes(k, depth, color, pose, w, m);
    RowsLength(PixelCell(k, depth, color, pose), w, m);
  }

  /** Raster order: pixel (row v, column u) of a `w`-wide frame is point
      number v*w + u, occupying floats 6(v*w + u) .. 6(v*w + u)+5, which hold
      its world position and then its red, green and blue values; a zero depth
      sample puts it at the pose's translation. */
  lemma FramePointAt(k: Intrinsics, depth: DepthImage, color: ColorImage, pose: TrajectoryData,
                     w: nat, m: nat, v: nat, u: nat)
    requires k.Invertible()
    requires InBounds(depth, color, w, m)
    requires v < m && u < w
    ensures 6 * Position(w, v, u) + 6 <= |FramePoints(k, depth, color, pose, w, m)|
    ensures var p := FramePoints(k, depth, color, pose, w, m)[6 * Position(w, v, u) .. 6 * Position(w, v, u) + 6];
            && p == PixelPoint(k, depth, color, pose, v, u)
            && p[3..] == [color.at[v][u].red as real, color.at[v][u].green as real, color.at[v][u].blue as real]
            && (depth.at[v][u] == 0 ==> p[..3] == [pose.camX, pose.camY, pose.camZ])
  {
    PixelCellSixes(k, depth, color, pose, w, m);
    RowsAt(PixelCell(k, depth, color, pose), w, m, v, u);
  }

  /** The conversion of a selected frame index to `size_t`: a negative index
      wraps around to 2^64 + index. */
  function SizeT(i: int32): (n: uint64)
    ensures 0 <= i ==> n == i as int
    ensures i < 0 ==> n >= 0x8000_0000_0000_0000
  {
    if i < 0 then i as int + 0x1_0000_0000_0000_0000 else i as int
  }

  /** A stand-in pose for specifications of an empty raster, where the
      transformation never reads the trajectory. */
  ghost const AnyPose: TrajectoryData := TrajectoryData(0, 0.0, 0.0, 0.0, 0.0, 0.0, 0.0, 1.0)

  /** The pose of frame `index` can be read, or need not be because the
      raster in force is empty. */
  predicate PoseAvailable(trajectory: seq<TrajectoryData>, index: int32, d: Dims) {
    d.width > 0 && d.height > 0 ==> SizeT(index) < |trajectory|
  }

  /** The floats one transformation appends: none for an empty raster, and
      otherwise the frame's points under the pose at position `index`. */
  function FrameOf(k: Intrinsics, depth: DepthImage, color: ColorImage, trajectory: seq<TrajectoryData>,
                   index: nat, w: nat, h: nat): seq<real>
    requires k.Invertible()
    requires InBounds(depth, color, w, h)
    requires w > 0 && h > 0 ==> index < |trajectory|
  {
    if w == 0 || h == 0 then [] else FramePoints(k, depth, color, trajectory[index], w, h)
  }

  /** A transformation appends six floats per pixel; for an empty raster that
      is nothing at all, whatever the trajectory holds. */
  lemma FrameOfLength(k: Intrinsics, depth: DepthImage, color: ColorImage, trajectory: seq<TrajectoryData>,
                      index: nat, w: nat, h: nat)
    requires k.Invertible()
    requires InBounds(depth, color, w, h)
    requires w > 0 && h > 0 ==> index < |trajectory|
    ensures |FrameOf(k, depth, color, trajectory, index, w, h)| == 6 * (h * w)
  {
    if w > 0 && h > 0 {
      FramePointsLength(k, depth, color, trajectory[index], w, h);
    }
  }

  // ---------------------------------------------------------------------------
  // A run over selected frames

  /** Everything a reconstruction run reads besides the selected indices: the
      decoder's view of the images, the images directory, the two tables and
      the intrinsics. */
  datatype Context = Context(files: ImageFiles, dir: string, assoc: AssociationData,
                             trajectory: seq<TrajectoryData>, k: Intrinsics)

  /** The colour and depth images loaded for frame `index`: the directory
      concatenated with the table's path, decoded. */
  function ColorOf(ctx: Context, index: int32): ColorImage {
    ctx.files.ReadColor(ctx.dir + Lookup(ctx.assoc.rgbData, index))
  }

  function DepthOf(ctx: Context, index: int32): DepthImage {
    ctx.files.ReadDepth(ctx.dir + Lookup(ctx.assoc.depthData, index))
  }

  /** The dimensions in force after loading the frames of `sel` in order. */
  function RunDims(ctx: Context, d: Dims, sel: seq<int32>): Dims
    decreases |sel|
  {
    if sel == [] then d else RunDims(ctx, DimsAfterLoad(d, DepthOf(ctx, sel[0])), sel[1..])
  }

  /** Every selected frame whose raster is non-empty has a pose, and each
      frame's pixel loop reads only samples that exist under the dimensions in
      force after its depth load. */
  predicate RunReadable(ctx: Context, d: Dims, sel: seq<int32>)
    decreases |sel|
  {
    sel == [] ||
    (var d' := DimsAfterLoad(d, DepthOf(ctx, sel[0]));
     && PoseAvailable(ctx.trajectory, sel[0], d')
     && Readable(DepthOf(ctx, sel[0]), ColorOf(ctx, sel[0]), d')
     && RunReadable(ctx, d', sel[1..]))
  }

  /** The number of pixels of all the frames of `sel`, each counted under the
      dimensions in force after its own depth load. */
  function RunPixels(ctx: Context, d: Dims, sel: seq<int32>): nat
    decreases |sel|
  {
    if sel == [] then 0
    else
      var d' := DimsAfterLoad(d, DepthOf(ctx, sel[0]));
      d'.height * d'.width + RunPixels(ctx, d', sel[1..])
  }

  /** The floats emitted for the frames of `sel`: one contribution per
      selected index, in the order given. */
  function Run(ctx: Context, d: Dims, sel: seq<int32>): (r: seq<real>)
    requires ctx.k.Invertible()
    requires RunReadable(ctx, d, sel)
    decreases |sel|
  {
    if sel == [] then []
    else
      var d' := DimsAfterLoad(d, DepthOf(ctx, sel[0]));
      FrameOf(ctx.k, DepthOf(ctx, sel[0]), ColorOf(ctx, sel[0]), ctx.trajectory, SizeT(sel[0]), d'.width, d'.height)
      + Run(ctx, d', sel[1..])
  }

  /** Stride six: a run emits six floats for every pixel of every selected
      frame. */
  lemma {:induction false} RunLength(ctx: Context, d: Dims, sel: seq<int32>)
    requires ctx.k.Invertible()
    requires RunReadable(ctx, d, sel)
    ensures |Run(ctx, d, sel)| == 6 * RunPixels(ctx, d, sel)
    decreases |sel|
  {
    if sel != [] {
      var d' := DimsAfterLoad(d, DepthOf(ctx, sel[0]));
      FrameOfLength(ctx.k, DepthOf(ctx, sel[0]), ColorOf(ctx, sel[0]), ctx.trajectory, SizeT(sel[0]), d'.width, d'.height);
      RunLength(ctx, d', sel[1..]);
    }
  }

  /** One step of a run: the first selected frame is readable under the
      dimensions its own depth load leaves, and its points come first. */
  lemma RunStep(ctx: Context, d: Dims, sel: seq<int32>)
    requires ctx.k.Invertible()
    requires sel != [] && RunReadable(ctx, d, sel)
    ensures var d' := DimsAfterLoad(d, DepthOf(ctx, sel[0]));
            && PoseAvailable(ctx.trajectory, sel[0], d')
            && Readable(DepthOf(ctx, sel[0]), ColorOf(ctx, sel[0]), d')
            && RunReadable(ctx, d', sel[1..])
            && Run(ctx, d, sel)
               == FrameOf(ctx.k, DepthOf(ctx, sel[0]), ColorOf(ctx, sel[0]), ctx.trajectory, SizeT(sel[0]),
                          d'.width, d'.height)
                  + Run(ctx, d', sel[1..])
            && RunDims(ctx, d, sel) == RunDims(ctx, d', sel[1..])
  {
  }

  /** The step a frame loop takes at position `i` of `sel`: once `before`
      followed by the run over the rest is `whole`, `before` followed by frame
      sel[i] and then the run over what follows it is still `whole`. */
  lemma RunAdvance(ctx: Context, d: Dims, sel: seq<int32>, i: nat, before: seq<real>, whole: seq<real>)
    requires ctx.k.Invertible()
    requires i < |sel| && RunReadable(ctx, d, sel[i..])
    requires before + Run(ctx, d, sel[i..]) == whole
    ensures var d' := DimsAfterLoad(d, DepthOf(ctx, sel[i]));
            && PoseAvailable(ctx.trajectory, sel[i], d')
            && Readable(DepthOf(ctx, sel[i]), ColorOf(ctx, sel[i]), d')
            && RunReadable(ctx, d', sel[i + 1..])
            && before + FrameOf(ctx.k, DepthOf(ctx, sel[i]), ColorOf(ctx, sel[i]), ctx.trajectory, SizeT(sel[i]),
                                d'.width, d'.height)
                      + Run(ctx, d', sel[i + 1..]) == whole
            && RunDims(ctx, d, sel[i..]) == RunDims(ctx, d', sel[i + 1..])
  {
    var rest := sel[i..];
    var d' := DimsAfterLoad(d, DepthOf(ctx, sel[i]));
    assert rest[0] == sel[i] && rest[1..] == sel[i + 1..];
    RunStep(ctx, d, rest);
    ConcatAssoc(before, FrameOf(ctx.k, DepthOf(ctx, sel[i]), ColorOf(ctx, sel[i]), ctx.trajectory, SizeT(sel[i]),
                                d'.width, d'.height),
                Run(ctx, d', sel[i + 1..]));
  }

  /** Loading the frames of `a + b` leaves the dimensions that loading those
      of `b` leaves after loading those of `a`. */
  lemma {:induction false} RunDimsConcat(ctx: Context, d: Dims, a: seq<int32>, b: seq<int32>)
    ensures RunDims(ctx, d, a + b) == RunDims(ctx, RunDims(ctx, d, a), b)
    decreases |a|
  {
    if a != [] {
      assert (a + b)[0] == a[0];
      assert (a + b)[1..] == a[1..] + b;
      RunDimsConcat(ctx, DimsAfterLoad(d, DepthOf(ctx, a[0])), a[1..], b);
    } else {
      assert a + b == b;
    }
  }

  /** A selection readable as a whole is readable in its two parts, the
      second from the dimensions the first leaves. */
  lemma {:induction false} RunReadableConcat(ctx: Context, d: Dims, a: seq<int32>, b: seq<int32>)
    requires RunReadable(ctx, d, a + b)
    ensures RunReadable(ctx, d, a) && RunReadable(ctx, RunDims(ctx, d, a), b)
    decreases |a|
  {
    if a != [] {
      assert (a + b)[0] == a[0];
      assert (a + b)[1..] == a[1..] + b;
      RunReadableConcat(ctx, DimsAfterLoad(d, DepthOf(ctx, a[0])), a[1..], b);
    } else {
      assert a + b == b;
    }
  }

  /** Frames are processed in the order given: the run over `a + b` is the run
      over `a` followed by the run over `b` from the dimensions `a` leaves. */
  lemma {:induction false} RunConcat(ctx: Context, d: Dims, a: seq<int32>, b: seq<int32>)
    requires ctx.k.Invertible()
    requires RunReadable(ctx, d, a + b)
    ensures RunReadable(ctx, d, a) && RunReadable(ctx, RunDims(ctx, d, a), b)
    ensures Run(ctx, d, a + b) == Run(ctx, d, a) + Run(ctx, RunDims(ctx, d, a), b)
    decreases |a|
  {
    RunReadableConcat(ctx, d, a, b);
    if a != [] {
      var d' := DimsAfterLoad(d, DepthOf(ctx, a[0]));
      assert (a + b)[0] == a[0];
      assert (a + b)[1..] == a[1..] + b;
      RunStep(ctx, d, a);
      RunStep(ctx, d, a + b);
      RunConcat(ctx, d', a[1..], b);
      ConcatAssoc(FrameOf(ctx.k, DepthOf(ctx, a[0]), ColorOf(ctx, a[0]), ctx.trajectory, SizeT(a[0]), d'.width, d'.height),
                  Run(ctx, d', a[1..]), Run(ctx, RunDims(ctx, d', a[1..]), b));
    } else {
      assert a + b == b;
    }
  }

  /** Frames whose depth images are all rejected, starting from an empty
      raster, emit nothing and need no pose: such a run is readable whatever
      the trajectory holds, even when it is empty. */
  lemma {:induction false} RunOfRejectedFrames(ctx: Context, d: Dims, sel: seq<int32>)
    requires ctx.k.Invertible()
    requires d.width == 0 || d.height == 0
    requires forall i :: 0 <= i < |sel| ==> !Accepts(DepthOf(ctx, sel[i]))
    ensures RunReadable(ctx, d, sel)
    ensures Run(ctx, d, sel) == [] && RunDims(ctx, d, sel) == d
    decreases |sel|
  {
    if sel != [] {
      assert !Accepts(DepthOf(ctx, sel[0]));
      assert forall i :: 0 <= i < |sel[1..]| ==> !Accepts(DepthOf(ctx, sel[1..][i])) by {
        forall i | 0 <= i < |sel[1..]| ensures !Accepts(DepthOf(ctx, sel[1..][i])) {
          assert sel[1..][i] == sel[i + 1];
        }
      }
      RunOfRejectedFrames(ctx, d, sel[1..]);
    }
  }

  // ---------------------------------------------------------------------------
  // The stateful point cloud

  class PointCloud {
    // images data
    var rgbImage: ColorImage
    var depthImage: DepthImage
    var imageWidth: nat
    var imageHeight: nat

    // imported data
    var trajectoryData: seq<TrajectoryData>
    var associationData: AssociationData
    const inputData: InputData

    // exported data
    var pointsData: seq<real>

    // camera matrix K
    const cx: real := 319.5
    const cy: real := 239.5
    const focalX: real := 481.2
    const focalY: real := -480.0

    function Camera(): (k: Intrinsics)
      ensures k.Invertible()
    {
      Intrinsics(cx, cy, focalX, focalY)
    }

    /** The state one reconstruction run reads, given the decoder's view. */
    function Ctx(files: ImageFiles): Context
      reads this`associationData, this`trajectoryData
    {
      Context(files, inputData.pathToImagesDirectory, associationData, trajectoryData, Camera())
    }

    /** Construction: every table and the buffer start empty, the dimensions
        at zero, then the trajectory and association files are loaded (each
        file given as its lines, or None when it cannot be opened). */
    constructor (input: InputData,
                 trajectoryFile: Option<seq<TrajectoryData>>,
                 associationFile: Option<seq<AssociationLine>>)
      ensures inputData == input
      ensures pointsData == [] && imageWidth == 0 && imageHeight == 0
      ensures trajectoryData == if trajectoryFile.Some? then trajectoryFile.value else []
      ensures associationData ==
                if associationFile.Some?
                then AssociationData(Associate(map[], associationFile.value, false),
                                     Associate(map[], associationFile.value, true))
                else AssociationData(map[], map[])
    {
      trajectoryData := [];
      associationData := AssociationData(map[], map[]);
      inputData := input;
      pointsData := [];
      imageWidth := 0;
      imageHeight := 0;
      rgbImage := EmptyColor;
      depthImage := EmptyDepth;
      new;
      LoadTrajectoryData(trajectoryFile);
      LoadAssociationsFile(associationFile);
    }

    /** A snapshot of the point buffer (returned by value). */
    method GetPointsData() returns (points: seq<real>)
      ensures points == pointsData
    {
      points := pointsData;
    }

    /** Appends one pose per line, in file order; an unopenable file changes
        nothing. */
    method LoadTrajectoryData(file: Option<seq<TrajectoryData>>)
      modifies this`trajectoryData
      ensures trajectoryData == if file.Some? then old(trajectoryData) + file.value else old(trajectoryData)
    {
      if file.None? {
        return;
      }
      var lines := file.value;
      var i := 0;
      while i < |lines|
        invariant 0 <= i <= |lines|
        invariant trajectoryData == old(trajectoryData) + lines[..i]
      {
        trajectoryData := trajectoryData + [lines[i]];
        i := i + 1;
      }
      assert lines[..i] == lines;
    }

    /** Writes each line's first pair into the colour table and its second
        pair into the depth table, overwriting repeated keys; an unopenable
        file changes nothing. */
    method LoadAssociationsFile(file: Option<seq<AssociationLine>>)
      modifies this`associationData
      ensures file.None? ==> associationData == old(associationData)
      ensures file.Some? ==>
                && associationData.rgbData == Associate(old(associationData.rgbData), file.value, false)
                && associationData.depthData == Associate(old(associationData.depthData), file.value, true)
    {
      if file.None? {
        return;
      }
      var lines := file.value;
      var i := 0;
      while i < |lines|
        invariant 0 <= i <= |lines|
        invariant associationData.rgbData == Associate(old(associationData.rgbData), lines[..i], false)
        invariant associationData.depthData == Associate(old(associationData.depthData), lines[..i], true)
      {
        var line := lines[i];
        assert lines[..i + 1][..i] == lines[..i];
        associationData := associationData.(rgbData := associationData.rgbData[line.rgbKey := line.rgbPath]);
        associationData := associationData.(depthData := associationData.depthData[line.depthKey := line.depthPath]);
        i := i + 1;
      }
      assert lines[..i] == lines;
    }

    /** Keeps the decoded colour image, whatever it is. */
    method LoadRGBImage(img: ColorImage)
      modifies this`rgbImage
      ensures rgbImage == img
    {
      rgbImage := img;
    }

    /** Keeps the decoded depth image, and records its dimensions only when it
        is non-empty and 16-bit unsigned; otherwise the previous dimensions
        stay in force. */
    method LoadDepthImage(img: DepthImage)
      modifies this`depthImage, this`imageWidth, this`imageHeight
      ensures depthImage == img
      ensures Dims(imageWidth, imageHeight) == DimsAfterLoad(old(Dims(imageWidth, imageHeight)), img)
      ensures Accepts(img) ==> imageWidth == img.cols && imageHeight == img.rows
      ensures !Accepts(img) ==> imageWidth == old(imageWidth) && imageHeight == old(imageHeight)
    {
      depthImage := img;
      if img.Empty() {
        return;
      }
      if !img.is16U {
        return;
      }
      imageWidth := img.cols;
      imageHeight := img.rows;
    }

    /** Appends one six-float point per pixel of the recorded raster, rows
        outermost, using the pose at position `index` of the trajectory; the
        floats already in the buffer are kept. The pose is read only for a
        pixel, so an empty raster needs none. */
    method TransformToPointCloudData(index: uint64)
      requires imageWidth > 0 && imageHeight > 0 ==> index < |trajectoryData|
      requires Readable(depthImage, rgbImage, Dims(imageWidth, imageHeight))
      modifies this`pointsData
      ensures pointsData == old(pointsData) + FrameOf(Camera(), depthImage, rgbImage, trajectoryData, index,
                                                      imageWidth, imageHeight)
    {
      ghost var pose := if index < |trajectoryData| then trajectoryData[index] else AnyPose;
      ghost var cell := PixelCell(Camera(), depthImage, rgbImage, pose);
      var v := 0;
      while v < imageHeight
        invariant 0 <= v <= imageHeight
        invariant pointsData == old(pointsData) + Rows(cell, imageWidth, v)
      {
        TransformRow(index, v);
        if imageWidth == 0 {
          assert Row(cell, v, imageWidth) == [];
        }
        RowsStep(old(pointsData), cell, imageWidth, v);
        v := v + 1;
      }
      if imageWidth == 0 || imageHeight == 0 {
        PixelCellSixes(Camera(), depthImage, rgbImage, pose, imageWidth, imageHeight);
        RowsLength(cell, imageWidth, imageHeight);
      }
    }

    /** The inner (column) loop of the transformation for row `v`: for each
        column in turn, scale the depth sample, unproject, apply the pose
        matrix and append the world position followed by red, green, blue. */
    method TransformRow(index: uint64, v: nat)
      requires v < imageHeight
      requires imageWidth > 0 ==> index < |trajectoryData|
      requires Readable(depthImage, rgbImage, Dims(imageWidth, imageHeight))
      modifies this`pointsData
      ensures imageWidth == 0 ==> pointsData == old(pointsData)
      ensures imageWidth > 0 ==>
                pointsData == old(pointsData) + Row(PixelCell(Camera(), depthImage, rgbImage, trajectoryData[index]),
                                                    v, imageWidth)
    {
      var k := Camera();
      ghost var cell := PixelCell(k, depthImage, rgbImage, if index < |trajectoryData| then trajectoryData[index] else AnyPose);
      var u := 0;
      while u < imageWidth
        invariant 0 <= u <= imageWidth
        invariant pointsData == old(pointsData) + Row(cell, v, u)
      {
        var pose := trajectoryData[index];
        var z := ScaledDepth(depthImage.at[v][u]);
        var world := WorldPoint(pose, CameraPoint(k, v, u, z));
        var color := rgbImage.at[v][u];
        pointsData := pointsData + [world.x, world.y, world.z, color.red as real, color.green as real, color.blue as real];
        assert pointsData[|pointsData| - 6..] == cell(v, u);
        RowStep(old(pointsData), cell, v, u);
        u := u + 1;
      }
    }

    /** One pass of the frame loop: look up the colour path and then the
        depth path of `index` (each lookup inserting the empty path for a
        missing key), load both images, and append the frame's points under
        the dimensions now in force. */
    method ProcessFrame(files: ImageFiles, index: int32)
      requires PoseAvailable(trajectoryData, index,
                             DimsAfterLoad(Dims(imageWidth, imageHeight), DepthOf(Ctx(files), index)))
      requires Readable(DepthOf(Ctx(files), index), ColorOf(Ctx(files), index),
                        DimsAfterLoad(Dims(imageWidth, imageHeight), DepthOf(Ctx(files), index)))
      modifies this`pointsData, this`associationData, this`rgbImage, this`depthImage,
               this`imageWidth, this`imageHeight
      ensures associationData.rgbData == Touch(old(associationData.rgbData), index)
      ensures associationData.depthData == Touch(old(associationData.depthData), index)
      ensures rgbImage == ColorOf(old(Ctx(files)), index) && depthImage == DepthOf(old(Ctx(files)), index)
      ensures Dims(imageWidth, imageHeight) == DimsAfterLoad(old(Dims(imageWidth, imageHeight)), depthImage)
      ensures pointsData == old(pointsData) + FrameOf(Camera(), depthImage, rgbImage, trajectoryData, SizeT(index),
                                                      imageWidth, imageHeight)
    {
      var dirPath := inputData.pathToImagesDirectory;
      associationData := associationData.(rgbData := Touch(associationData.rgbData, index));
      var rgbImagePath := dirPath + associationData.rgbData[index];
      associationData := associationData.(depthData := Touch(associationData.depthData, index));
      var depthImagePath := dirPath + associationData.depthData[index];
      LoadRGBImage(files.ReadColor(rgbImagePath));
      LoadDepthImage(files.ReadDepth(depthImagePath));
      TransformToPointCloudData(SizeT(index));
    }

    /** Clears the point buffer once, then (unless all images are requested,
        a branch that does nothing) processes the selected frame indices in
        the order given. */
    method IterateThroughImages(files: ImageFiles, imagesAll: bool := true, selectedIndexes: seq<int32> := [])
      requires !imagesAll ==> RunReadable(Ctx(files), Dims(imageWidth, imageHeight), selectedIndexes)
      modifies this`pointsData, this`associationData, this`rgbImage, this`depthImage,
               this`imageWidth, this`imageHeight
      ensures trajectoryData == old(trajectoryData)
      ensures imagesAll ==>
                && pointsData == []
                && associationData == old(associationData)
                && rgbImage == old(rgbImage) && depthImage == old(depthImage)
                && imageWidth == old(imageWidth) && imageHeight == old(imageHeight)
      ensures !imagesAll ==>
                && pointsData == Run(old(Ctx(files)), old(Dims(imageWidth, imageHeight)), selectedIndexes)
                && Dims(imageWidth, imageHeight)
                   == RunDims(old(Ctx(files)), old(Dims(imageWidth, imageHeight)), selectedIndexes)
                && associationData.rgbData == TouchAll(old(associationData.rgbData), selectedIndexes)
                && associationData.depthData == TouchAll(old(associationData.depthData), selectedIndexes)
      ensures !imagesAll && selectedIndexes != [] ==>
                && rgbImage == ColorOf(old(Ctx(files)), selectedIndexes[|selectedIndexes| - 1])
                && depthImage == DepthOf(old(Ctx(files)), selectedIndexes[|selectedIndexes| - 1])
      ensures !imagesAll && selectedIndexes == [] ==> rgbImage == old(rgbImage) && depthImage == old(depthImage)
    {
      pointsData := [];
      if !imagesAll {
        ProcessFrames(files, selectedIndexes);
      }
    }

    /** The frame loop: for each selected index in turn, look up both paths,
        load both images and append the frame's points. */
    method ProcessFrames(files: ImageFiles, selectedIndexes: seq<int32>)
      requires RunReadable(Ctx(files), Dims(imageWidth, imageHeight), selectedIndexes)
      modifies this`pointsData, this`associationData, this`rgbImage, this`depthImage,
               this`imageWidth, this`imageHeight
      ensures trajectoryData == old(trajectoryData)
      ensures pointsData == old(pointsData) + Run(old(Ctx(files)), old(Dims(imageWidth, imageHeight)), selectedIndexes)
      ensures Dims(imageWidth, imageHeight) == RunDims(old(Ctx(files)), old(Dims(imageWidth, imageHeight)), selectedIndexes)
      ensures associationData.rgbData == TouchAll(old(associationData.rgbData), selectedIndexes)
      ensures associationData.depthData == TouchAll(old(associationData.depthData), selectedIndexes)
      ensures selectedIndexes != [] ==>
                && rgbImage == ColorOf(old(Ctx(files)), selectedIndexes[|selectedIndexes| - 1])
                && depthImage == DepthOf(old(Ctx(files)), selectedIndexes[|selectedIndexes| - 1])
      ensures selectedIndexes == [] ==> rgbImage == old(rgbImage) && depthImage == old(depthImage)
    {
      ghost var ctx := Ctx(files);
      ghost var d0 := Dims(imageWidth, imageHeight);
      ghost var whole := pointsData + Run(ctx, d0, selectedIndexes);
      var i := 0;
      while i < |selectedIndexes|
        invariant 0 <= i <= |selectedIndexes|
        invariant trajectoryData == ctx.trajectory
        invariant associationData.rgbData == TouchAll(ctx.assoc.rgbData, selectedIndexes[..i])
        invariant associationData.depthData == TouchAll(ctx.assoc.depthData, selectedIndexes[..i])
        invariant RunReadable(ctx, Dims(imageWidth, imageHeight), selectedIndexes[i..])
        invariant pointsData + Run(ctx, Dims(imageWidth, imageHeight), selectedIndexes[i..]) == whole
        invariant RunDims(ctx, Dims(imageWidth, imageHeight), selectedIndexes[i..]) == RunDims(ctx, d0, selectedIndexes)
        invariant i > 0 ==> && rgbImage == ColorOf(ctx, selectedIndexes[i - 1])
                            && depthImage == DepthOf(ctx, selectedIndexes[i - 1])
        invariant i == 0 ==> rgbImage == old(rgbImage) && depthImage == old(depthImage)
      {
        var index := selectedIndexes[i];
        RunAdvance(ctx, Dims(imageWidth, imageHeight), selectedIndexes, i, pointsData, whole);
        TouchAllLookup(ctx.assoc.rgbData, selectedIndexes[..i], index);
        TouchAllLookup(ctx.assoc.depthData, selectedIndexes[..i], index);
        assert selectedIndexes[..i + 1][..i] == selectedIndexes[..i];
        assert ColorOf(Ctx(files), index) == ColorOf(ctx, index);
        assert DepthOf(Ctx(files), index) == DepthOf(ctx, index);
        ProcessFrame(files, index);
        i := i + 1;
      }
      assert selectedIndexes[..i] == selectedIndexes;
    }
  }
}
