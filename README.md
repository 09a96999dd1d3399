# CudaMapRenderer core in Dafny

This project models two parts of CudaMapRenderer.

**Point-cloud reconstruction** (`PointCloud/pointcloud.cpp`, `PointCloud/pointcloud.h`). A `PointCloud` is built from an `InputData` record. It loads two files:

- a trajectory file: one camera pose per line, an id, a position and a quaternion;
- an association file: each line maps a frame index to a colour-image path and to a depth-image path.

`iterateThroughImages` clears the point buffer. It then walks the selected frame indices in order. For each index it:

1. looks up both image paths;
2. loads both images (a depth image sets the recorded width and height only when it is non-empty and 16-bit unsigned);
3. appends six floats per pixel, rows outermost: the world position of the unprojected pixel, then red, green and blue.

**Renderer** (`Visualizer/Renderer/renderer.cpp`):

- `initVariables` resets the camera variables and makes the transform the identity;
- `GenerateGridVertices` fills the grid buffer with the lattice's line segments, in three groups: along X, then Y, then Z.

Layout of the Dafny files:

- `mathtypes.dfy`: integer widths, vectors and matrices.
- `pointcloud_data.dfy`: the records of the header, decoded images, and the image decoder as a lookup table.
- `unprojection.dfy`: the per-pixel geometry.
- `raster.dfy`: the row-major order shared by both generators.
- `pointcloud.dfy`: the specification functions of a reconstruction run, and the `PointCloud` class whose methods are proved against them.
- `renderer.dfy`: the grid specification and the `Renderer` class.

Every loop of the source is a `while` loop in a method. Each method's postcondition ties the new state to a specification function. Lemmas about those functions state:

- lengths;
- where each pixel's or segment's floats sit in the buffer;
- the concatenation of frames;
- the key sets and last-write-wins behaviour of the association tables;
- the meaning of the quaternion formula.

## Model

| member | source | states |
|---|---|---|
| PointCloudData.ImageFiles.ReadColor | PointCloud/pointcloud.cpp:70 | a colour path the decoder cannot read yields an empty image |
| PointCloudData.ImageFiles.ReadDepth | PointCloud/pointcloud.cpp:80 | a depth path the decoder cannot read yields an empty image |
| Unprojection.ScaledDepth | PointCloud/pointcloud.cpp:192 | the scaled depth lies in [0, 1000), is zero exactly for a zero sample, and scales back to the raw sample |
| Unprojection.CameraPoint | PointCloud/pointcloud.cpp:193-197 | the camera point has the scaled depth as z and 1 as w; a zero depth gives x = y = 0 |
| Unprojection.CameraPointProjectsBack | PointCloud/pointcloud.cpp:193-197 | projecting the point back through the intrinsics gives the pixel row from the FIRST coordinate and the column from the second (the two are stored swapped) |
| Unprojection.Transformation | PointCloud/pointcloud.cpp:200-211 | the pose matrix has bottom row (0,0,0,1) and the camera position as its translation column |
| Unprojection.ScalarLastIdentityFlips | PointCloud/pointcloud.cpp:208-211 | the quaternion (qx,qy,qz,qw) = (0,0,0,1) gives rotation diag(-1,-1,1), not the identity |
| Unprojection.LiteralRotationIsScalarFirst | PointCloud/pointcloud.cpp:208-210 | for a unit quaternion, the nine literal entries equal the textbook rotation of the quaternion whose scalar part is qx |
| Unprojection.LiteralFormulaIsScalarFirstRotation | PointCloud/pointcloud.cpp:203-211 | the rotation block of the pose matrix of a unit-quaternion pose is the textbook rotation of (w,x,y,z) = (qx,qy,qz,qw) |
| Unprojection.WorldPoint | PointCloud/pointcloud.cpp:213-219 | the camera origin maps to the camera position |
| Unprojection.PixelPoint | PointCloud/pointcloud.cpp:177-222 | one pixel gives six floats: the world position, then red, green, blue taken from the blue-green-red pixel; a zero depth puts the point at the camera position |
| Raster.RowStep | PointCloud/pointcloud.cpp:174-223 | appending cell u after the first u cells of a row gives the first u+1 cells |
| Raster.RowsStep | PointCloud/pointcloud.cpp:172-224 | appending row v after the first v rows gives the first v+1 rows |
| Raster.RowLength | PointCloud/pointcloud.cpp:174-223 | a row of n cells holds 6n floats |
| Raster.RowsLength | PointCloud/pointcloud.cpp:172-224 | m rows of w cells hold 6mw floats |
| Raster.RowAt | PointCloud/pointcloud.cpp:174-223 | cell u of a row occupies floats 6u .. 6u+5 |
| Raster.RowsPrefix | PointCloud/pointcloud.cpp:172-224 | the first v rows are a prefix of the first m rows, for v <= m |
| Raster.RowsAt | PointCloud/pointcloud.cpp:172-224 | cell (v,u) of a w-column raster occupies floats 6(vw+u) .. 6(vw+u)+5 |
| Reconstruction.AssociateKeys | PointCloud/pointcloud.cpp:140-153 | after loading, a key is in a table iff it was there before or some line writes it (both directions) |
| Reconstruction.AssociateLastWriteWins | PointCloud/pointcloud.cpp:140-153 | a repeated key holds the path of the last line that writes it |
| Reconstruction.AssociateUntouched | PointCloud/pointcloud.cpp:140-153 | a key that no line writes keeps its previous path |
| Reconstruction.Lookup | PointCloud/pointcloud.cpp:39-40 | indexing a table at a missing key yields the empty path |
| Reconstruction.TouchAllLookup | PointCloud/pointcloud.cpp:34-46 | lookups made by earlier frames never change the path a later frame reads |
| Reconstruction.TouchAllKeepsLookups | PointCloud/pointcloud.cpp:34-46 | after the frame loop, each table's keys are the old keys plus exactly the selected indices, and every lookup yields what it did before |
| Reconstruction.DimsAfterLoad | PointCloud/pointcloud.cpp:78-95 | the dimensions become (cols, rows) exactly when the depth image is non-empty and 16-bit unsigned; otherwise the previous ones stay |
| Reconstruction.FramePointsLength | PointCloud/pointcloud.cpp:172-224 | a frame emits exactly 6 floats per pixel of the recorded raster; no pixel is skipped, whatever its depth |
| Reconstruction.FramePointAt | PointCloud/pointcloud.cpp:172-222 | pixel (v,u) is point number v*width+u, and its six floats are its world position then its red, green, blue |
| Reconstruction.SizeT | PointCloud/pointcloud.cpp:45 | a non-negative frame index passes to `size_t` unchanged; a negative one wraps to at least 2^63 |
| Reconstruction.FrameOfLength | PointCloud/pointcloud.cpp:172-224 | one transformation appends six floats per pixel of the raster in force; for an empty raster that is nothing, whatever the trajectory holds |
| Reconstruction.RunLength | PointCloud/pointcloud.cpp:28-48 | a run emits six floats per pixel of every selected frame, each frame counted under the dimensions its own load leaves |
| Reconstruction.RunStep | PointCloud/pointcloud.cpp:35-46 | a run is the first selected frame's points followed by the run over the rest from the dimensions that frame leaves; the first frame's pose is needed only when its raster is non-empty |
| Reconstruction.RunAdvance | PointCloud/pointcloud.cpp:35-46 | one pass of the frame loop keeps "buffer + run over the remaining frames" fixed |
| Reconstruction.RunDimsConcat | PointCloud/pointcloud.cpp:34-46 | the dimensions after loading the frames of a+b are those after loading b from the dimensions a leaves |
| Reconstruction.RunReadableConcat | PointCloud/pointcloud.cpp:34-46 | a selection the loop can process as a whole splits into two parts it can process, the second from the dimensions the first leaves |
| Reconstruction.RunConcat | PointCloud/pointcloud.cpp:35-46 | frames are processed in the given order: the run over a+b is the run over a followed by the run over b from the dimensions a leaves |
| Reconstruction.RunOfRejectedFrames | PointCloud/pointcloud.cpp:28-48 | from an empty raster, frames whose depth images are all rejected (for example unreadable paths) can be processed with any trajectory, even an empty one; they emit nothing and leave the dimensions as they were |
| Reconstruction.PointCloud.Camera | PointCloud/pointcloud.cpp:62-65 | the fixed intrinsics have nonzero focal lengths |
| Reconstruction.PointCloud.constructor | PointCloud/pointcloud.cpp:4-8 | the buffer and tables start empty and the dimensions at zero; then the trajectory holds the file's poses and the tables hold the association file's pairs (last write wins), or stay empty when a file cannot be opened |
| Reconstruction.PointCloud.GetPointsData | PointCloud/pointcloud.cpp:22-25 | returns the current buffer |
| Reconstruction.PointCloud.LoadTrajectoryData | PointCloud/pointcloud.cpp:97-124 | appends the file's poses in file order; an unopenable file changes nothing |
| Reconstruction.PointCloud.LoadAssociationsFile | PointCloud/pointcloud.cpp:126-157 | writes each line's first pair to the colour table and its second pair to the depth table, in file order; an unopenable file changes nothing |
| Reconstruction.PointCloud.LoadRGBImage | PointCloud/pointcloud.cpp:68-76 | keeps the decoded colour image, even an empty one |
| Reconstruction.PointCloud.LoadDepthImage | PointCloud/pointcloud.cpp:78-95 | keeps the decoded depth image; records its width and height only when it is non-empty and 16-bit unsigned |
| Reconstruction.PointCloud.TransformToPointCloudData | PointCloud/pointcloud.cpp:166-225 | appends exactly the frame's points in raster order for the pose at `index`, and keeps what the buffer already held; for an empty raster it appends nothing and needs no pose |
| Reconstruction.PointCloud.TransformRow | PointCloud/pointcloud.cpp:174-223 | the column loop appends the points of row v in column order, reading the pose at `index` for each pixel; a zero-width row appends nothing |
| Reconstruction.PointCloud.ProcessFrame | PointCloud/pointcloud.cpp:37-45 | one frame: both tables gain the index if it was missing; the images become the decoded paths; the dimensions follow the depth-acceptance rule; the frame's points are appended, using the pose at the index converted to `size_t` only when the raster is non-empty |
| Reconstruction.PointCloud.ProcessFrames | PointCloud/pointcloud.cpp:33-47 | the frame loop appends the run over the selected indices in order, leaves the run's dimensions and the last frame's images, and touches both tables at every selected index; an empty selection leaves the images as they were |
| Reconstruction.PointCloud.IterateThroughImages | PointCloud/pointcloud.cpp:28-48 | the buffer is cleared once; with imagesAll nothing else changes; otherwise the buffer is exactly the run over the selected frames, with the dimensions, tables and last images that run leaves (an empty selection leaves the images as they were) |
| Visualizer.Segment | Visualizer/Renderer/renderer.cpp:199-243 | a grid line segment is six floats |
| Visualizer.SegmentAlong | Visualizer/Renderer/renderer.cpp:199-243 | a segment runs from 0 to gridSize*spacing along its axis and keeps both other coordinates fixed at its two lattice positions |
| Visualizer.LineCount | Visualizer/Renderer/renderer.cpp:196-199 | gridSize+1 lines per direction and fixed index, or none when gridSize is negative |
| Visualizer.GridVerticesLength | Visualizer/Renderer/renderer.cpp:191-245 | the buffer holds 18(gridSize+1)^2 floats, and nothing for a negative grid size |
| Visualizer.GroupLength | Visualizer/Renderer/renderer.cpp:199-212 | each direction's group holds 6(gridSize+1)^2 floats |
| Visualizer.GroupAt | Visualizer/Renderer/renderer.cpp:199-212 | within its group, the segment with lattice indices (i,j) is segment number i*n+j |
| Visualizer.GroupBlockAt | Visualizer/Renderer/renderer.cpp:191-245 | block p of the second (third) of three equal groups laid end to end sits after one (two) whole groups |
| Visualizer.GroupInGrid | Visualizer/Renderer/renderer.cpp:191-245 | the X group comes first, then Y, then Z |
| Visualizer.GridSegmentAt | Visualizer/Renderer/renderer.cpp:191-245 | the segment along an axis with lattice indices (i,j) is segment number axis*n^2 + i*n + j of the buffer, and it has the expected endpoints |
| Visualizer.IdentityFixesPoints | Visualizer/Renderer/renderer.cpp:183-186 | the identity matrix fixes every point |
| Visualizer.Renderer.constructor | Visualizer/Renderer/renderer.cpp:4-7 | construction runs initVariables; the grid buffer starts empty |
| Visualizer.Renderer.InitVariables | Visualizer/Renderer/renderer.cpp:173-187 | the mouse position, the camera vectors and the speeds are zero; the transform is the identity and fixes every point; nothing else changes |
| Visualizer.Renderer.GenerateGridVertices | Visualizer/Renderer/renderer.cpp:191-245 | the old buffer is discarded and replaced by exactly the reference grid (X group, then Y, then Z) |
| Visualizer.Renderer.AppendLines | Visualizer/Renderer/renderer.cpp:199-212 | one loop pair appends its direction's group, outer index outermost |
| Visualizer.Renderer.AppendLineRow | Visualizer/Renderer/renderer.cpp:200-211 | one inner loop appends the segments for a fixed outer index, in inner-index order, start point then end point |

## Left out

- Floating point: every `float` is a `real`, so rounding, overflow to infinity and NaN are not modelled. In particular, the round trips of ScaledDepth and CameraPointProjectsBack hold exactly only in the model.
- File reading: a trajectory or association file is given as its parsed lines, or as None when it cannot be opened. A line that `istringstream` parses only in part, or not at all, is not modelled. The model assumes each line yields its full set of fields.
- Image decoding (`cv::imread`) is a lookup table from path to decoded image. A path that is not in the table decodes to an empty image. Channel order and sample type are taken as the decoder reports them.
- Error messages written to `std::cerr` are left out, and so are the destructor and heap ownership of the member pointers.
- The `imagesAll` branch of `iterateThroughImages` has no loop, so no frame is processed on that path; the model does the same. `InputData.maxIndex` is stored and never read.
- Undefined behaviour becomes preconditions:
  - reading the pose of a frame whose raster is non-empty, when the index converted to `size_t` is not below the trajectory length (a frame with an empty raster never reads its pose, and needs none);
  - a pixel read outside an image;
  - a read from an image that is not 16-bit, under dimensions left by an earlier frame.
  These are `PoseAvailable`, `Readable` and `RunReadable`.
- Reconstruction.PointCloud: `imageWidth` and `imageHeight` are `int` in the source and `nat` here. They are only ever set from image dimensions, which are never negative.
- Loop structure:
  - Each inner loop of the source is a separate method: TransformRow for the pixel loop, AppendLineRow for the grid.
  - The three loop pairs of `GenerateGridVertices` are one method, AppendLines, called once per axis.
  - The six `push_back` calls for a segment, and the `insert` of six floats for a pixel, are each one append of six elements.
- Reconstruction.PointCloud.ProcessFrame: the two `operator[]` lookups on the association tables are Touch (insert the empty path if missing) followed by indexing. The colour lookup comes before the depth lookup, as in the source.
- Visualizer.Segment: its own postcondition states only the length. The coordinates are stated in SegmentAlong.
- Visualizer.Renderer.GenerateGridVertices: `gridSize + 1` overflowing `int` is excluded by a precondition. The products `y * gridSpacing` and `gridSize * gridSpacing` are real products of the index and the spacing.
- Renderer: camera navigation (the mouse and key handlers), the OpenGL setup, shaders, buffers and drawing, and the point-cloud upload are not part of this model.
