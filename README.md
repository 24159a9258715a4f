# Data registration: point-cloud projection and cubemap file handling

This project models the core of a small Python data-registration toolkit. The core has two parts.

1. **`image_projection.py`** projects a LiDAR point cloud onto a panoramic photo. It:
   - scales the raw LAS coordinates with the header's per-axis scale and offset;
   - moves the cloud to the camera position;
   - rotates it about z by `degZ` and about y by `degY`, the two angles `angle_between` derives from the view direction (image_projection.py:167-168), here given as `Angle` parameters;
   - culls every point outside the camera's 90° view pyramid;
   - divides by depth;
   - min–max rescales the two ratios onto the image size, flipping the vertical one.

   The model is pure. Points are a `Vec3` datatype over `real`. Each numpy vectorised expression is a sequence comprehension. Each numpy or Python error is a `Result` failure.

2. **`panorama2cube.py` and `cube2panorama.py`** handle the files around the equirectangular ↔ cubemap conversion:
   - collecting the `.jpg` panoramas of a folder;
   - the HWC → CHW shape checks and transpose;
   - naming the six faces (`back, left, front, right, top, down`) when they are saved, with a `'side'` flag that stops after four;
   - recognising a face's orientation from the four characters before `.jpg` when reading it back;
   - placing each face in one of six slots;
   - naming the reconstructed panorama.

   The loops in these scripts are `method`s with loop invariants: `load_image`'s `for`, `save`'s `for` with `break`, `read_image`'s search with `break`, and `load_cube`'s slot updates. Each is proved against a specification function.

   The module `CubemapNaming` proves that the two scripts agree. Every face name the writer produces is read back as the orientation it was written for. A folder holding the saved faces of one panorama reloads with face i in slot i and the unsaved slots empty.

Modules:

- `Outcomes`: `Option`, `Result` and the Python exceptions that can occur.
- `Strings`: `.jpg` test and Python's negative-index slices `s[:-n]` and `s[-a:-b]`.
- `NdArrays`: n-dimensional arrays, the HWC shape check, and the HWC ↔ CHW transposes.
- `ImageProjection`.
- `Panorama2Cube`.
- `Cube2Panorama`.
- `CubemapNaming`.

Inputs and effects that the model takes as parameters or leaves out:

- **Directory listings** (`os.listdir`) are a `seq<string>` parameter, in listing order.
- **Image opening** (`Image.open`) is a function parameter from path to image.
- **Saving** is returned as the list of (file name, image) pairs written, in order.
- **Trigonometric values** of each rotation angle are an `Angle`. This is a pair (cos, sin) constrained by cos² + sin² = 1.
- **The norm passed to `to_unit`** is a parameter.

## Model

| member | source | states |
|---|---|---|
| ImageProjection.AxisIndex | image_projection.py:31-32 | the axis table maps exactly 'X', 'Y', 'Z' to 0, 1, 2 |
| ImageProjection.ScalePoints | image_projection.py:23-33 | each value is `data*scale[k] + offset[k]` for the flag's axis k; any other flag is a KeyError |
| ImageProjection.UnscaleRecoversRaw | image_projection.py:33 | with a non-zero scale, the raw coordinates are recovered from the scaled ones |
| ImageProjection.DivideBy | image_projection.py:45 | `v/norm` multiplied back by the norm gives v |
| ImageProjection.ToUnit | image_projection.py:35-45 | the `False` sentinel comes back exactly when the norm is 0; otherwise every component times the norm is the original component |
| ImageProjection.Negated | image_projection.py:88-89 | the inverse angle keeps the cosine and negates the sine |
| ImageProjection.PlaneRotationNorm | image_projection.py:88-89 | a plane rotation keeps u² + v² when cos² + sin² = 1 |
| ImageProjection.PlaneRotationInverse | image_projection.py:88-89 | rotating by (cos, sin) and then by (cos, −sin) restores both coordinates |
| ImageProjection.RotateZ | image_projection.py:87-90 | the z-rotation keeps z and the squared norm of a point |
| ImageProjection.RotateY | image_projection.py:101-104 | the y-rotation keeps y and the squared norm of a point |
| ImageProjection.RotateX | image_projection.py:115-118 | the x-rotation keeps x and the squared norm of a point |
| ImageProjection.RotateZInverse | image_projection.py:88-89 | z-rotation by the negated angle undoes z-rotation |
| ImageProjection.RotateYInverse | image_projection.py:102-103 | y-rotation by the negated angle undoes y-rotation |
| ImageProjection.RotateXInverse | image_projection.py:116-117 | x-rotation by the negated angle undoes x-rotation |
| ImageProjection.RotationZ | image_projection.py:78-90 | `coordinates_rotation_z` keeps the number of points, every z and every squared norm |
| ImageProjection.RotationY | image_projection.py:92-104 | `coordinates_rotation_y` keeps the number of points, every y and every squared norm |
| ImageProjection.RotationX | image_projection.py:106-118 | `coordinates_rotation_x` keeps the number of points, every x and every squared norm |
| ImageProjection.RotationsInvertible | image_projection.py:78-118 | each whole-cloud rotation is undone by the same rotation with the negated angle |
| ImageProjection.InFrustum | image_projection.py:130 | the four strict inequalities x−y>0, x+y>0, x−z>0, x+z>0 mean exactly x>0 with y and z strictly inside (−x, x) |
| ImageProjection.KeptFrom | image_projection.py:130 | the comprehension from a start index lists, in strictly increasing order, exactly the indices of points in the frustum |
| ImageProjection.KeptIndices | image_projection.py:130 | `idx` is strictly increasing, and i is in `idx` iff point i satisfies the four inequalities |
| ImageProjection.Gather | image_projection.py:131-132 | fancy indexing `rows[idx, :]` yields `rows[idx[k]]` at position k, and an IndexError iff some index is out of range |
| ImageProjection.Discard | image_projection.py:120-133 | `discard_v2` returns `idx` as above, coordinates and colours both equal to the input rows at `idx` (so equal length and aligned), every kept point has x>0; it fails with IndexError only when the colours are too short |
| ImageProjection.SeqMin | image_projection.py:143 | `min` of a non-empty array is an element no larger than any other |
| ImageProjection.SeqMax | image_projection.py:144 | `max` of a non-empty array is an element no smaller than any other |
| ImageProjection.Shifted | image_projection.py:143 | `array - min(array)` has the input's length |
| ImageProjection.ShiftedMax | image_projection.py:143-144 | the maximum of the shifted array is max − min |
| ImageProjection.Normalised | image_projection.py:144 | `(x − min)/spread * range` times the spread is `(x − min) * range` |
| ImageProjection.NormalisedBounds | image_projection.py:144 | a value between min and max is rescaled into [0, range] |
| ImageProjection.NormalisedEnds | image_projection.py:144 | min is rescaled to 0 and max to range |
| ImageProjection.NormalisedMonotone | image_projection.py:144 | rescaling keeps order, strictly when range > 0 |
| ImageProjection.ScaleImage | image_projection.py:135-145 | an empty array fails in `min()` with ValueError; otherwise it fails exactly when all values are equal (0/0); on success the length is kept |
| ImageProjection.ScaleImageValue | image_projection.py:143-144 | on success max > min and element i is `(a[i] − min)/(max − min) * range` |
| ImageProjection.ScaleImageBounds | image_projection.py:143-145 | every rescaled value lies in [0, range] |
| ImageProjection.ScaleImageEndpointsAt | image_projection.py:143-145 | an element equal to the minimum maps to 0, one equal to the maximum maps to range |
| ImageProjection.ScaleImageEndpoints | image_projection.py:143-145 | all minimal elements map to 0 and all maximal elements to range |
| ImageProjection.ScaleImageMonotone | image_projection.py:143-145 | rescaling preserves order, strictly when range > 0 |
| ImageProjection.FlipVertical | image_projection.py:183 | `shape[1] − values` keeps the length |
| ImageProjection.FlippedRows | image_projection.py:183 | `img.shape[1] − scale_image(y_image, img.shape[1])` lies in [0, img.shape[1]] and reverses the order of `y_image`, strictly when the height is positive |
| ImageProjection.NegateExtremes | image_projection.py:182 | the minimum of `-x_image` is minus the maximum of `x_image` and vice versa, so one is constant exactly when the other is |
| ImageProjection.RescalingsSucceed | image_projection.py:182-183 | both rescalings succeed exactly when there is a point and neither ratio array is constant |
| ImageProjection.ColumnsReverse | image_projection.py:182 | `scale_image(-x_image, shape[0])` lies in [0, shape[0]] and runs against `x_image`, strictly for a positive size |
| ImageProjection.RowsReverse | image_projection.py:183 | `shape[1] − scale_image(y_image, shape[1])` lies in [0, shape[1]] and runs against `y_image`, strictly for a positive size |
| ImageProjection.Negate | image_projection.py:182 | `-x_image` negates each element |
| ImageProjection.HorizontalRatios | image_projection.py:180 | `x_image[k]` times the depth is the point's y |
| ImageProjection.VerticalRatios | image_projection.py:179 | `y_image[k]` times the depth is the point's z |
| ImageProjection.ProjectToImage | image_projection.py:179-183 | succeeds exactly when there is a point and neither `x_image` nor `y_image` is constant (an empty set fails with ValueError); then `x_image_scale` lies in [0, shape[0]] and `y_image_scale` in [0, shape[1]], one per point, and pixel k's column runs against point k's `y/x` and its row against point k's `z/x` (strictly for a positive image size) |
| ImageProjection.ScaleTwoLevels | image_projection.py:143-145 | an array with only two distinct values is rescaled onto 0 and range |
| ImageProjection.PyramidColumns | image_projection.py:180-182 | for four points at the corners of the view, `-x_image` rescales to [0, 1000, 0, 1000] |
| ImageProjection.PyramidRows | image_projection.py:179-183 | for the same points, `y_image` rescales to [1000, 1000, 0, 0] and the flip gives [0, 0, 1000, 1000] |
| ImageProjection.SymmetricPyramid | image_projection.py:179-183 | the four corner points project onto the four corners of a 1000×1000 image |
| ImageProjection.Stack3 | image_projection.py:157 | `vstack(...).transpose()` has one row (x, y, z) per point, and fails with ValueError when the channels differ in length |
| ImageProjection.Translate | image_projection.py:159 | `coordinates - camera_position`, so adding the camera position back gives each point |
| ImageProjection.CameraFrame | image_projection.py:159-171 | `moved_y_data` (rotation about z by `degZ`, then about y by `degY`) keeps every point's distance from the camera |
| ImageProjection.ProjectCloud | image_projection.py:157-183 | culling of `moved_y_data` then projection: with a colour per point it succeeds exactly when some point is kept and neither tangent array of the kept points is constant, and otherwise fails only with ValueError or a zero spread; on success one pixel and one colour per kept point, each colour the kept point's own, every pixel inside the image, and pixel k ordered by kept point k's `y/x` and `z/x` |
| ImageProjection.KeptPoints | image_projection.py:131 | `c_v2` holds the point at each kept index, in order, each with positive depth |
| NdArrays.HwcCheck | panorama2cube.py:43-44 | no error exactly for a 3-dimensional array with last dimension 3; "input must be dim=3" is raised before "input must be HWC" |
| NdArrays.ToChw | panorama2cube.py:45 | `transpose(img, (2, 0, 1))`: shape (C, H, W) and `out[c][h][w] == in[h][w][c]` |
| NdArrays.ToHwc | cube2panorama.py:79 | `transpose(img, (1, 2, 0))`: the inverse axis order, `out[h][w][c] == in[c][h][w]` |
| NdArrays.ChwThenHwc | panorama2cube.py:45 | transposing to CHW and back gives the same array |
| NdArrays.HwcThenChw | panorama2cube.py:45 | transposing to HWC and back gives the same array |
| Strings.EndsWith | panorama2cube.py:20 | `s.endswith(suffix)` holds exactly when s is some string followed by suffix |
| Strings.IsJpg | cube2panorama.py:46 | `name.endswith(".jpg")` holds exactly when the last four characters are `.jpg` |
| Strings.DropLast | panorama2cube.py:98 | `s[:-n]` keeps the first max(0, len − n) characters |
| Strings.SliceFromEnd | cube2panorama.py:21 | `s[-a:-b]` is the slice between those two end offsets, clipped like Python for short strings |
| Strings.DropLastOfConcat | panorama2cube.py:98 | dropping the last n characters of p + q, where q has length n, gives p |
| Strings.SliceFromEndOfConcat | cube2panorama.py:21 | a tail slice of p + q depends only on q when q is long enough |
| Panorama2Cube.LoadImage | panorama2cube.py:10-28 | the keys are exactly the `.jpg` entries of the listing, each mapped to the image opened at `folder_path + '/' + name` |
| Panorama2Cube.Preprocess | panorama2cube.py:31-46 | rejects non-3-dimensional and non-HWC input with the two assertion messages; accepted (H, W, 3) input becomes (3, H, W) with `out[c][h][w] == in[h][w][c]` |
| Panorama2Cube.PreprocessInvertible | panorama2cube.py:45 | the preprocessed image transposes back to the original |
| Panorama2Cube.FaceCount | panorama2cube.py:103-106 | 4 faces exactly for the flag 'side', otherwise 6 |
| Panorama2Cube.FaceBaseName | panorama2cube.py:107 | face i is named `im_name[:-4] + '_' + orientation[i] + '.jpg'` |
| Panorama2Cube.FaceFileName | panorama2cube.py:107 | every face path ends in `.jpg` |
| Panorama2Cube.Save | panorama2cube.py:86-111 | the directory is `(result_folder + '/' + im_name)[:-4]`; faces 0, 1, … are written in order, face i to its file name with `result[i]`; 4 faces and a warning for 'side', 6 and no warning otherwise |
| Panorama2Cube.SaveDirectory | panorama2cube.py:97-98 | for a name of at least 4 characters the directory is `result_folder + '/' + im_name[:-4]` |
| Panorama2Cube.OrientationDistinct | panorama2cube.py:102 | the six orientation names are pairwise distinct |
| Panorama2Cube.FaceFileNamesDistinct | panorama2cube.py:102-107 | no two faces are written to the same file |
| Cube2Panorama.SuffixKey | cube2panorama.py:21 | the key is `img_path[-8:-4]`, the four characters before the extension |
| Cube2Panorama.FirstMatchFrom | cube2panorama.py:20-23 | the search returns the first table index from the start whose entry equals the key, or nothing if none does |
| Cube2Panorama.OrientationOf | cube2panorama.py:19-23 | `idx` is the first i with `name_list[i] == img_path[-8:-4]`, and unbound iff the key is not in the table |
| Cube2Panorama.NameListDistinct | cube2panorama.py:19 | the six table entries are pairwise distinct |
| Cube2Panorama.OrientationUnique | cube2panorama.py:19-23 | any matching index is the one found |
| Cube2Panorama.ReadOutcome | cube2panorama.py:10-33 | shape assertions fail first; then an unbound `idx` fails; otherwise the CHW transpose and the matched orientation |
| Cube2Panorama.ReadImage | cube2panorama.py:10-33 | the search loop with `break` computes exactly `ReadOutcome` for the loaded image |
| Cube2Panorama.Place | cube2panorama.py:46-51 | a non-`.jpg` entry leaves the slots as they are; a `.jpg` entry succeeds iff its `read_image` does, and keeps six slots |
| Cube2Panorama.Loaded | cube2panorama.py:43-56 | the slots after the listing are six |
| Cube2Panorama.LoadCube | cube2panorama.py:36-56 | the loop's outcome is `[Loaded(...)]`, or the first failing `read_image`'s error |
| Cube2Panorama.LoadedFailureSticks | cube2panorama.py:44-51 | once an entry has failed, later entries do not change the outcome |
| Cube2Panorama.SlotOf | cube2panorama.py:46-51 | a listing entry fills at most one of the six slots |
| Cube2Panorama.LastFilling | cube2panorama.py:44-51 | the last entry of the listing that fills slot i, or none |
| Cube2Panorama.PlaceSlot | cube2panorama.py:51 | placing one image changes only the slot of its orientation, to the CHW image |
| Cube2Panorama.LoadedSlots | cube2panorama.py:43-56 | slot i stays the empty list if no `.jpg` entry has orientation i, and otherwise holds the CHW image of the last such entry, so a later file overwrites an earlier one |
| Cube2Panorama.LoadedSucceeds | cube2panorama.py:44-51 | the load succeeds iff every `.jpg` entry's `read_image` succeeds |
| Cube2Panorama.ReconstructedFileName | cube2panorama.py:94 | the output path is `pano_folder + '/' + filename` followed by exactly `_reconstructed.jpg` |
| Cube2Panorama.ReconstructedIsNoFace | cube2panorama.py:94 | a reconstructed panorama's name matches no face orientation |
| CubemapNaming.FaceEnding | panorama2cube.py:107 | the four characters before `.jpg` in `'_' + orientation[i] + '.jpg'` are `name_list[i]` of the reader |
| CubemapNaming.OrientationRoundTrip | cube2panorama.py:19-23 | any path ending in `'_' + orientation[i] + '.jpg'` is read back as orientation i |
| CubemapNaming.FaceFileRoundTrip | panorama2cube.py:107 | every face file the writer saves is read back as its own orientation |
| CubemapNaming.ReloadSavedFaces | cube2panorama.py:36-56 | a folder whose `.jpg` entries are exactly the first n saved faces (n = 4 for 'side', 6 otherwise) reloads with face i in slot i and the other slots empty |

## Left out

- `get_direction` and `angle_between` (image_projection.py:47-76) compute with `tan`, `sqrt`, `arccos` and `clip` on floats. Transcendental functions have no exact model over `real`, so the angles enter as `Angle` parameters.
- `np.cos` and `np.sin` are represented by the (cos, sin) pair of an `Angle`. The rotations are proved for every pair with cos² + sin² = 1.
- ToUnit: `np.linalg.norm(v)` is passed in as the `norm` parameter, and the contract does not state that `v/norm` has unit length. Proving that needs nonlinear reasoning about square roots over `real`.
- The roll rotation `moved_x_data` (image_projection.py:172) is computed by the script but never used afterwards. It is modelled (`RotationX`) but takes no part in `ProjectCloud`, which culls `moved_y_data` as the script does (image_projection.py:175).
- ScaleImage: when every value is equal, numpy divides 0 by 0 and yields NaN with a runtime warning rather than raising. The model reports this case as a `ZeroDivision` failure, because the result is not a number.
- Floating-point rounding is left out: every float is a mathematical `real`.
- Reading the LAS file and its header (image_projection.py:149-158) is I/O, so the header's scale and offset are a `Header` parameter.
- The colour division `rgb / 100000` (image_projection.py:158) only feeds the plot colours, and colours are carried unchanged.
- The hard-coded camera constants (image_projection.py:7-21) are left out.
- The matplotlib image loading and plotting (image_projection.py:11, 185-188) are left out.
- The source scales `x_image` by `img.shape[0]` and `y_image` by `img.shape[1]` (image_projection.py:182-183). The model keeps this pairing, as `shape0` and `shape1`, although shape[0] is the image height.
- `equi2cube` and `cube2equi` (panorama2cube.py:59-83, cube2panorama.py:59-81) belong to the equilib library, whose source is not part of this model. The resampling is not modelled.
- `rearrange_list` (panorama2cube.py:49-57) depends on that library's output shape, so it is not modelled.
- `Image.open` and RGBA → RGB conversion (`convert`, `np.asarray`) are I/O. The loaded image is a parameter, so the `isinstance` branch is left out.
- `Image.fromarray`, `im.save` and `os.makedirs` are not modelled. `Save` returns the (file name, face) pairs it would write, in order.
- `os.path.exists` and `os.fsdecode` are I/O and are left out.
- The `print` warning in `save` becomes the `warned` result.
- `tqdm` progress bars are left out.
- The `__main__` drivers of both cubemap scripts are left out.
- Panorama2Cube.Save requires exactly six faces, the list of 6 images its documentation asks for and its only caller passes. Python behaves differently for other lengths, and the model does not cover them. With flag 'side', four or five faces are enough and are written without error. A list shorter than the number of faces to write raises an IndexError once the loop reaches its end, after the earlier faces have been written. A longer list is accepted and only its first six are written.
- `discard_v2` indexes the colour array with the kept indices and does not check that the two arrays have equal length. numpy raises IndexError only when a kept index lies past the end of the colour array, and `Discard` models exactly that.
- The order of `os.listdir` is unspecified, so the listing is a parameter. Its order decides which of two files of the same orientation `load_cube` keeps (the later one).
- `scale_image`'s default `range = 2000` (image_projection.py:135) is not modelled. The script always passes the image size, so `ScaleImage` takes the range as an explicit argument.
