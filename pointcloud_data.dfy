/** The plain records of PointCloud/pointcloud.h, the decoded images the
    reconstruction reads, and the image store that stands in for the
    decoder (cv::imread). */
module PointCloudData {
  import opened MathTypes

  datatype Option<T> = None | Some(value: T)

  /** One line of the trajectory file: the frame id, then the camera position,
      then the orientation quaternion, in the order the fields are read. */
  datatype TrajectoryData = TrajectoryData(
    id: int32,
    camX: real, camY: real, camZ: real,
    qx: real, qy: real, qz: real, qw: real)

  /** Two independent tables from frame index to a path relative to the
      images directory: one for colour images, one for depth images. */
  datatype AssociationData = AssociationData(
    rgbData: map<int32, string>,
    depthData: map<int32, string>)

  /** The configuration handed to the point cloud. `maxIndex` is stored and
      never read by the reconstruction. */
  datatype InputData = InputData(
    pathToImagesDirectory: string,
    pathToTrajectoryFile: string,
    pathToAssociationFile: string,
    maxIndex: uint32)

  /** One line of the association file, already split into its four tokens:
      the colour (key, path) pair, then the depth (key, path) pair. */
  datatype AssociationLine = AssociationLine(
    rgbKey: int32, rgbPath: string,
    depthKey: int32, depthPath: string)

  /** A colour pixel as the decoder stores it: blue, green, red. */
  datatype Bgr = Bgr(blue: uint8, green: uint8, red: uint8)

  /** A decoded single-channel image: `rows` x `cols` samples read as 16-bit
      unsigned values, and whether the decoded sample type really is 16-bit
      unsigned. */
  datatype DepthMat = DepthMat(rows: nat, cols: nat, is16U: bool, at: seq<seq<uint16>>) {
    predicate Shaped() {
      |at| == rows && forall v :: 0 <= v < rows ==> |at[v]| == cols
    }
    /** A matrix with no samples, which is what the decoder returns on failure. */
    predicate Empty() {
      rows == 0 || cols == 0
    }
  }
  type DepthImage = m: DepthMat | m.Shaped() witness DepthMat(0, 0, false, [])

  /** A decoded three-channel 8-bit colour image. */
  datatype ColorMat = ColorMat(rows: nat, cols: nat, at: seq<seq<Bgr>>) {
    predicate Shaped() {
      |at| == rows && forall v :: 0 <= v < rows ==> |at[v]| == cols
    }
    predicate Empty() {
      rows == 0 || cols == 0
    }
  }
  type ColorImage = m: ColorMat | m.Shaped() witness ColorMat(0, 0, [])

  const EmptyDepth: DepthImage := DepthMat(0, 0, false, [])
  const EmptyColor: ColorImage := ColorMat(0, 0, [])

  /** What the image decoder yields for each path it can read; a path that is
      not listed decodes to an empty image. */
  datatype ImageFiles = ImageFiles(color: map<string, ColorImage>, depth: map<string, DepthImage>) {
    function ReadColor(path: string): (img: ColorImage)
      ensures path !in color ==> img.Empty()
    {
      if path in color then color[path] else EmptyColor
    }
    function ReadDepth(path: string): (img: DepthImage)
      ensures path !in depth ==> img.Empty()
    {
      if path in depth then depth[path] else EmptyDepth
    }
  }
}
