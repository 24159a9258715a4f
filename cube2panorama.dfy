/** The file handling around the cubemap-to-panorama conversion: recovering a face's
    orientation from its file name, checking and transposing each face, placing the
    faces of a folder into the six slots of the resampler's input, and naming the
    reconstructed panorama. The resampling itself is not modelled; the directory listing
    and the image loader are parameters. */
module Cube2Panorama {
  import opened Outcomes
  import opened Strings
  import opened NdArrays

  // ---------------------------------------------------------------------------
  // read_image

  /** The four characters before the extension that identify each face, in slot order:
      the last four letters of back, left, front, right, "_" + top, down. */
  const NameList: seq<string> := ["back", "left", "ront", "ight", "_top", "down"]

  /** `img_path[-8:-4]` */
  function SuffixKey(path: string): (r: string)
    ensures |path| >= 8 ==> |r| == 4 && r == path[|path| - 8..|path| - 4]
  {
    SliceFromEnd(path, 8, 4)
  }

  /** The first table index at or after `from` whose entry equals key. */
  function FirstMatchFrom(key: string, from: nat): (r: Option<nat>)
    requires from <= 6
    ensures r.Some? ==> from <= r.value < 6 && NameList[r.value] == key
    ensures r.Some? ==> forall j :: from <= j < r.value ==> NameList[j] != key
    ensures r.None? <==> forall j :: from <= j < 6 ==> NameList[j] != key
    decreases 6 - from
  {
    if from == 6 then None
    else if NameList[from] == key then Some(from)
    else FirstMatchFrom(key, from + 1)
  }

  /** The orientation index that `read_image`'s search binds to `idx`: the first i with
      `img_path[-8:-4] == name_list[i]`, or None when the loop ends without binding it. */
  function OrientationOf(path: string): (r: Option<nat>)
    ensures r.Some? ==> r.value < 6 && NameList[r.value] == SuffixKey(path)
    ensures r.Some? ==> forall j :: 0 <= j < r.value ==> NameList[j] != SuffixKey(path)
    ensures r.None? <==> SuffixKey(path) !in NameList
  {
    FirstMatchFrom(SuffixKey(path), 0)
  }

  /** The six table entries are pairwise distinct. */
  lemma NameListDistinct(i: nat, j: nat)
    requires i < 6 && j < 6 && i != j
    ensures NameList[i] != NameList[j]
  {
    var initials := "blri_d";
    assert forall k :: 0 <= k < 6 ==> NameList[k][0] == initials[k];
    assert initials[i] != initials[j];
  }

  /** Hence a path matches at most one entry, and the search finds that one. */
  lemma OrientationUnique(path: string, i: nat)
    requires i < 6 && NameList[i] == SuffixKey(path)
    ensures OrientationOf(path) == Some(i)
  {
    var r := OrientationOf(path);
    assert r.Some?;
    if r.value != i {
      NameListDistinct(r.value, i);
      assert false;
    }
  }

  /** A face read from disk: the CHW array and its orientation index. */
  datatype Face = Face(img: NdArray, idx: nat)

  /** What `read_image(img_path)` returns for the image `img` loaded from that path: the
      shape asserts come first, then the unbound `idx` of a path that matches no entry. */
  function ReadOutcome(imgPath: string, img: NdArray): (r: Result<Face>)
    ensures r.Success? <==> HwcCheck(img).None? && OrientationOf(imgPath).Some?
    ensures HwcCheck(img).Some? ==> r == Failure(HwcCheck(img).value)
    ensures HwcCheck(img).None? && OrientationOf(imgPath).None? ==> r == Failure(UnboundLocalError("idx"))
    ensures r.Success? ==>
      && r.value.idx == OrientationOf(imgPath).value
      && r.value.img.shape == [3, img.shape[0], img.shape[1]]
      && forall c: nat, h: nat, w: nat :: r.value.img.at([c, h, w]) == img.at([h, w, c])
  {
    match (HwcCheck(img), OrientationOf(imgPath))
    case (Some(e), _) => Failure(e)
    case (None, None) => Failure(UnboundLocalError("idx"))
    case (None, Some(i)) => Success(Face(ToChw(img), i))
  }

  /** `read_image`: loads the image, searches the table with an early `break`, checks the
      shape and transposes it to CHW. */
  method ReadImage(imgPath: string, load: string -> NdArray) returns (r: Result<Face>)
    ensures r == ReadOutcome(imgPath, load(imgPath))
  {
    var img := load(imgPath);
    var idx: Option<nat> := None;
    var key := SliceFromEnd(imgPath, 8, 4);
    var i := 0;
    while i < 6
      invariant 0 <= i <= 6
      invariant idx.None? ==> FirstMatchFrom(key, 0) == FirstMatchFrom(key, i)
      invariant idx.Some? ==> idx == FirstMatchFrom(key, 0)
    {
      if key == NameList[i] {
        idx := Some(i);
        break;
      }
      i := i + 1;
    }
    if |img.shape| != 3 {
      return Failure(AssertionError("input must be dim=3"));
    }
    if img.shape[|img.shape| - 1] != 3 {
      return Failure(AssertionError("input must be HWC"));
    }
    if idx.None? {
      return Failure(UnboundLocalError("idx"));
    }
    r := Success(Face(ToChw(img), idx.value));
  }

  // ---------------------------------------------------------------------------
  // load_cube

  /** One entry of `image_list[0]`: the initial empty list, or a CHW face. */
  datatype Slot = Empty | Filled(img: NdArray)

  const EmptyCube: seq<Slot> := [Empty, Empty, Empty, Empty, Empty, Empty]

  /** One iteration of `load_cube`'s loop for the directory entry `name`: a `.jpg` entry is
      read and placed at its orientation's slot, overwriting what was there; any other
      entry leaves the slots as they are. A failing read ends the whole load. */
  function Place(directory: string, name: string, load: string -> NdArray, slots: seq<Slot>)
    : (r: Result<seq<Slot>>)
    requires |slots| == 6
    ensures !IsJpg(name) ==> r == Success(slots)
    ensures IsJpg(name) ==> r.Success? == ReadOutcome(directory + "/" + name, load(directory + "/" + name)).Success?
    ensures r.Success? ==> |r.value| == 6
  {
    if IsJpg(name) then
      var path := directory + "/" + name;
      var face :- ReadOutcome(path, load(path));
      Success(slots[face.idx := Filled(face.img)])
    else
      Success(slots)
  }

  /** The slots after `load_cube` has gone through the entries `names` in order. */
  function Loaded(directory: string, names: seq<string>, load: string -> NdArray): (r: Result<seq<Slot>>)
    ensures r.Success? ==> |r.value| == 6
    decreases |names|
  {
    if names == [] then Success(EmptyCube)
    else
      var slots :- Loaded(directory, names[..|names| - 1], load);
      Place(directory, names[|names| - 1], load, slots)
  }

  /** `load_cube`: starts from six empty slots and places the faces of the listed entries
      one after the other; the result is the single-element outer list the resampler
      expects, or the error of the first entry that cannot be read. */
  method LoadCube(directory: string, listing: seq<string>, load: string -> NdArray)
    returns (r: Result<seq<seq<Slot>>>)
    ensures Loaded(directory, listing, load).Failure? ==> r == Failure(Loaded(directory, listing, load).error)
    ensures Loaded(directory, listing, load).Success? ==> r == Success([Loaded(directory, listing, load).value])
  {
    var imageList := EmptyCube;
    for i := 0 to |listing|
      invariant Loaded(directory, listing[..i], load) == Success(imageList)
    {
      var imgName := listing[i];
      assert listing[..i + 1][..i] == listing[..i];
      if IsJpg(imgName) {
        var face := ReadImage(directory + "/" + imgName, load);
        if face.Failure? {
          LoadedFailureSticks(directory, listing, load, i + 1);
          return Failure(face.error);
        }
        imageList := imageList[face.value.idx := Filled(face.value.img)];
      }
    }
    assert listing[..|listing|] == listing;
    r := Success([imageList]);
  }

  /** Once a prefix of the listing fails to load, the whole listing fails with the same
      error. */
  lemma {:induction false} LoadedFailureSticks(directory: string, names: seq<string>,
                                               load: string -> NdArray, n: nat)
    requires n <= |names| && Loaded(directory, names[..n], load).Failure?
    ensures Loaded(directory, names, load) == Loaded(directory, names[..n], load)
    decreases |names| - n
  {
    if n < |names| {
      var m := |names| - 1;
      assert names[..m][..n] == names[..n];
      LoadedFailureSticks(directory, names[..m], load, n);
      assert names[..m] == names[..|names| - 1];
    } else {
      assert names[..n] == names;
    }
  }

  /** The orientation slot that directory entry `name` fills, if it is a `.jpg` that names
      one. */
  function SlotOf(directory: string, name: string): (r: Option<nat>)
    ensures r.Some? ==> r.value < 6
  {
    if IsJpg(name) then OrientationOf(directory + "/" + name) else None
  }

  /** The position of the last entry of names that fills slot i. */
  function LastFilling(directory: string, names: seq<string>, i: nat): (r: Option<nat>)
    ensures r.Some? ==> r.value < |names| && SlotOf(directory, names[r.value]) == Some(i)
    ensures r.Some? ==> forall k :: r.value < k < |names| ==> SlotOf(directory, names[k]) != Some(i)
    ensures r.None? <==> forall k :: 0 <= k < |names| ==> SlotOf(directory, names[k]) != Some(i)
    decreases |names|
  {
    if names == [] then None
    else if SlotOf(directory, names[|names| - 1]) == Some(i) then Some(|names| - 1)
    else
      var r := LastFilling(directory, names[..|names| - 1], i);
      assert forall k :: 0 <= k < |names| - 1 ==> names[..|names| - 1][k] == names[k];
      r
  }

  /** One placement fills slot i exactly when the entry's orientation is i, and then with
      the CHW transpose of its image; every other slot keeps its content. */
  lemma PlaceSlot(directory: string, name: string, load: string -> NdArray, slots: seq<Slot>, i: nat)
    requires |slots| == 6 && i < 6 && Place(directory, name, load, slots).Success?
    ensures SlotOf(directory, name) != Some(i) ==> Place(directory, name, load, slots).value[i] == slots[i]
    ensures SlotOf(directory, name) == Some(i) ==>
      var img := load(directory + "/" + name);
      |img.shape| == 3 && Place(directory, name, load, slots).value[i] == Filled(ToChw(img))
  {
    if IsJpg(name) {
      var path := directory + "/" + name;
      assert ReadOutcome(path, load(path)).Success?;
    }
  }

  /** After a successful load, slot i is empty exactly when no `.jpg` entry has
      orientation i; otherwise it holds the CHW transpose of the image of the last such
      entry, so a later file overwrites an earlier one. Non-`.jpg` entries have no
      effect. */
  lemma {:induction false} LoadedSlots(directory: string, names: seq<string>, load: string -> NdArray, i: nat)
    requires i < 6 && Loaded(directory, names, load).Success?
    ensures LastFilling(directory, names, i).None? ==> Loaded(directory, names, load).value[i] == Empty
    ensures LastFilling(directory, names, i).Some? ==>
      var img := load(directory + "/" + names[LastFilling(directory, names, i).value]);
      |img.shape| == 3 && Loaded(directory, names, load).value[i] == Filled(ToChw(img))
    decreases |names|
  {
    if names != [] {
      var front, name := names[..|names| - 1], names[|names| - 1];
      var before := Loaded(directory, front, load);
      assert before.Success?;
      assert Loaded(directory, names, load) == Place(directory, name, load, before.value);
      PlaceSlot(directory, name, load, before.value, i);
      if SlotOf(directory, name) != Some(i) {
        LoadedSlots(directory, front, load, i);
        assert LastFilling(directory, names, i) == LastFilling(directory, front, i);
        assert forall k :: 0 <= k < |front| ==> front[k] == names[k];
      }
    }
  }

  /** The load succeeds exactly when every `.jpg` entry names an orientation and holds a
      three-channel HWC image. */
  lemma {:induction false} LoadedSucceeds(directory: string, names: seq<string>, load: string -> NdArray)
    ensures Loaded(directory, names, load).Success? <==>
      forall k :: 0 <= k < |names| && IsJpg(names[k]) ==>
        ReadOutcome(directory + "/" + names[k], load(directory + "/" + names[k])).Success?
    decreases |names|
  {
    if names != [] {
      var front := names[..|names| - 1];
      LoadedSucceeds(directory, front, load);
      assert forall k :: 0 <= k < |front| ==> front[k] == names[k];
    }
  }

  // ---------------------------------------------------------------------------
  // save

  /** `save`'s output path: `pano_folder + '/' + filename + '_reconstructed' + '.jpg'`. */
  function ReconstructedFileName(panoFolder: string, filename: string): (r: string)
    ensures IsJpg(r)
    ensures DropLast(r, 18) == panoFolder + "/" + filename
    ensures |r| >= 18 && r[|r| - 18..] == "_reconstructed.jpg"
  {
    var stem := panoFolder + "/" + filename;
    var r := stem + "_reconstructed" + ".jpg";
    assert r == stem + "_reconstructed.jpg";
    DropLastOfConcat(stem, "_reconstructed.jpg", 18);
    r
  }

  /** A reconstructed panorama is a `.jpg` whose name matches no face orientation, so it
      cannot be mistaken for a face. */
  lemma ReconstructedIsNoFace(panoFolder: string, filename: string)
    ensures OrientationOf(ReconstructedFileName(panoFolder, filename)).None?
  {
    var stem := panoFolder + "/" + filename;
    assert ReconstructedFileName(panoFolder, filename) == stem + "_reconstructed.jpg";
    SliceFromEndOfConcat(stem, "_reconstructed.jpg", 8, 4);
    assert SuffixKey("_reconstructed.jpg") == "cted";
    assert forall k :: 0 <= k < 6 ==> NameList[k][0] != 'c';
  }
}
