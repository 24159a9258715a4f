/** The file handling around the panorama-to-cubemap conversion: collecting the `.jpg`
    panoramas of a folder, checking and transposing an image for the resampler, and
    naming and writing the cube faces. The resampling itself is not modelled; the
    directory listing and `Image.open` are parameters. */
module Panorama2Cube {
  import opened Outcomes
  import opened Strings
  import opened NdArrays

  // ---------------------------------------------------------------------------
  // load_image

  /** `load_image`: a dictionary from the name of every `.jpg` entry of the listing to the
      image opened at `folder_path + '/' + name`; every other entry is skipped. */
  method LoadImage<T>(folderPath: string, listing: seq<string>, open: string -> T)
    returns (imageStack: map<string, T>)
    ensures forall name :: name in imageStack <==> name in listing && IsJpg(name)
    ensures forall name :: name in imageStack ==> imageStack[name] == open(folderPath + "/" + name)
  {
    imageStack := map[];
    for i := 0 to |listing|
      invariant forall name :: name in imageStack <==> name in listing[..i] && IsJpg(name)
      invariant forall name :: name in imageStack ==> imageStack[name] == open(folderPath + "/" + name)
    {
      var filename := listing[i];
      assert listing[..i + 1] == listing[..i] + [filename];
      if IsJpg(filename) {
        imageStack := imageStack[filename := open(folderPath + "/" + filename)];
      }
    }
    assert listing[..|listing|] == listing;
  }

  // ---------------------------------------------------------------------------
  // preprocess

  /** `preprocess`: the two shape asserts, then the HWC to CHW transpose. */
  function Preprocess(img: NdArray): (r: Result<NdArray>)
    ensures r.Failure? <==> !(|img.shape| == 3 && img.shape[2] == 3)
    ensures |img.shape| != 3 ==> r == Failure(AssertionError("input must be dim=3"))
    ensures |img.shape| == 3 && img.shape[2] != 3 ==> r == Failure(AssertionError("input must be HWC"))
    ensures r.Success? ==>
      && r.value.shape == [3, img.shape[0], img.shape[1]]
      && forall c: nat, h: nat, w: nat :: r.value.at([c, h, w]) == img.at([h, w, c])
  {
    match HwcCheck(img)
    case Some(e) => Failure(e)
    case None => Success(ToChw(img))
  }

  /** The accepted image can be put back into HWC order unchanged (the layout that the
      resampler's output is rearranged into before saving). */
  lemma PreprocessInvertible(img: NdArray)
    requires Preprocess(img).Success?
    ensures SameArray(ToHwc(Preprocess(img).value), img)
  {
    ChwThenHwc(img);
  }

  // ---------------------------------------------------------------------------
  // save

  /** The face order of the resampler's list output. */
  const Orientation: seq<string> := ["back", "left", "front", "right", "top", "down"]

  /** 4 faces for the flag 'side' (the loop stops at i = 4), all 6 for any other flag. */
  function FaceCount(flag: string): (n: nat)
    ensures n == 4 || n == 6
    ensures n == 4 <==> flag == "side"
  {
    if flag == "side" then 4 else 6
  }

  /** The file name of face i inside the output directory:
      `im_name[:-4] + '_' + orientation[i] + '.jpg'`. */
  function FaceBaseName(imName: string, i: nat): (r: string)
    requires i < 6
    ensures IsJpg(r)
    ensures r == DropLast(imName, 4) + "_" + Orientation[i] + ".jpg"
  {
    var r := DropLast(imName, 4) + "_" + Orientation[i] + ".jpg";
    assert r[|r| - 4..] == ".jpg";
    r
  }

  /** The full path of face i: `directory + '/' + im_name[:-4] + '_' + orientation[i] + '.jpg'`. */
  function FaceFileName(directory: string, imName: string, i: nat): (r: string)
    requires i < 6
    ensures IsJpg(r)
  {
    var r := directory + "/" + FaceBaseName(imName, i);
    assert r[|r| - 4..] == FaceBaseName(imName, i)[|FaceBaseName(imName, i)| - 4..];
    r
  }

  /** `save`: builds the output directory `(result_folder + '/' + im_name)[:-4]`, then writes
      faces 0, 1, ... in order, each face i to its file name; with the flag 'side' it
      warns and stops at face 4. `written` lists the (file name, face) pairs in the order
      they are saved; creating the directory and encoding the files is left out. */
  method Save<T>(resultFolder: string, result: seq<T>, imName: string, flag: string)
    returns (directory: string, written: seq<(string, T)>, warned: bool)
    requires |result| == 6
    ensures directory == DropLast(resultFolder + "/" + imName, 4)
    ensures |written| == FaceCount(flag)
    ensures forall i :: 0 <= i < |written| ==> written[i] == (FaceFileName(directory, imName, i), result[i])
    ensures warned <==> flag == "side"
  {
    directory := DropLast(resultFolder + "/" + imName, 4);
    written := [];
    warned := false;
    var i := 0;
    while i < 6
      invariant 0 <= i <= FaceCount(flag)
      invariant |written| == i
      invariant forall k :: 0 <= k < i ==> written[k] == (FaceFileName(directory, imName, k), result[k])
      invariant !warned
    {
      if i >= 4 && flag == "side" {
        warned := true;
        break;
      }
      var imgFilename := directory + "/" + DropLast(imName, 4) + "_" + Orientation[i] + ".jpg";
      assert imgFilename == FaceFileName(directory, imName, i);
      written := written + [(imgFilename, result[i])];
      i := i + 1;
    }
  }

  /** For a panorama name of at least 4 characters, the output directory is the result
      folder followed by the name without its extension. */
  lemma SaveDirectory(resultFolder: string, imName: string)
    requires |imName| >= 4
    ensures DropLast(resultFolder + "/" + imName, 4) == resultFolder + "/" + DropLast(imName, 4)
  {
    var stem, ext := DropLast(imName, 4), imName[|imName| - 4..];
    assert imName == stem + ext;
    assert resultFolder + "/" + imName == (resultFolder + "/" + stem) + ext;
    DropLastOfConcat(resultFolder + "/" + stem, ext, 4);
  }

  /** Equal strings with the same front and back have the same middle. */
  lemma SameMiddle(p: string, a: string, b: string, q: string)
    requires p + a + q == p + b + q
    ensures a == b
  {
    var s := p + a + q;
    assert |a| == |b|;
    assert s[|p|..|p| + |a|] == a;
    assert (p + b + q)[|p|..|p| + |b|] == b;
  }

  /** The six orientation names differ already in their first letter. */
  lemma OrientationDistinct(i: nat, j: nat)
    requires i < 6 && j < 6 && i != j
    ensures Orientation[i] != Orientation[j]
  {
    var initials := "blfrtd";
    assert forall k :: 0 <= k < 6 ==> Orientation[k][0] == initials[k];
    assert initials[i] != initials[j];
  }

  /** A face's path is a prefix common to all faces, its orientation, and ".jpg". */
  lemma FaceFileNameParts(directory: string, imName: string, i: nat)
    requires i < 6
    ensures FaceFileName(directory, imName, i) == (directory + "/" + DropLast(imName, 4) + "_") + Orientation[i] + ".jpg"
  {
  }

  /** No two faces share a file name, so no face overwrites another. */
  lemma FaceFileNamesDistinct(directory: string, imName: string, i: nat, j: nat)
    requires i < 6 && j < 6 && i != j
    ensures FaceFileName(directory, imName, i) != FaceFileName(directory, imName, j)
  {
    var p := directory + "/" + DropLast(imName, 4) + "_";
    FaceFileNameParts(directory, imName, i);
    FaceFileNameParts(directory, imName, j);
    OrientationDistinct(i, j);
    if p + Orientation[i] + ".jpg" == p + Orientation[j] + ".jpg" {
      SameMiddle(p, Orientation[i], Orientation[j], ".jpg");
      assert false;
    }
  }
}
