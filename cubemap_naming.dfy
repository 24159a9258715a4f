/** The naming convention shared by the two cubemap scripts: the face names the
    panorama-to-cubemap writer produces are read back by the cubemap-to-panorama reader
    as the orientations they were written for, and a folder of saved faces reloads into
    the matching slots. */
module CubemapNaming {
  import opened Outcomes
  import opened Strings
  import opened NdArrays
  import opened Panorama2Cube
  import opened Cube2Panorama

  /** The ending the writer gives face i: `'_' + orientation[i] + '.jpg'`. */
  function FaceEnding(i: nat): (r: string)
    requires i < 6
    ensures |r| >= 8
    ensures SliceFromEnd(r, 8, 4) == NameList[i]
  {
    var r := "_" + Orientation[i] + ".jpg";
    assert i == 0 || i == 1 || i == 2 || i == 3 || i == 4 || i == 5;
    r
  }

  /** Round trip: any path ending in `'_' + orientation[i] + '.jpg'` is read back as
      orientation i, whatever comes before. */
  lemma {:induction false} OrientationRoundTrip(prefix: string, i: nat)
    requires i < 6
    ensures OrientationOf(prefix + "_" + Orientation[i] + ".jpg") == Some(i)
  {
    var ending := FaceEnding(i);
    assert prefix + "_" + Orientation[i] + ".jpg" == prefix + ending;
    SliceFromEndOfConcat(prefix, ending, 8, 4);
    OrientationUnique(prefix + ending, i);
  }

  /** In particular every face file the writer saves is read back as its own face. */
  lemma FaceFileRoundTrip(directory: string, imName: string, i: nat)
    requires i < 6
    ensures OrientationOf(FaceFileName(directory, imName, i)) == Some(i)
    ensures SlotOf(directory, FaceBaseName(imName, i)) == Some(i)
  {
    var prefix := directory + "/" + DropLast(imName, 4);
    FaceFileNameParts(directory, imName, i);
    assert FaceFileName(directory, imName, i) == prefix + "_" + Orientation[i] + ".jpg";
    OrientationRoundTrip(prefix, i);
  }

  /** Reloading the faces of one panorama: if every `.jpg` entry of the folder listing is
      the file name of one of the first n faces, each of those faces is listed, and every
      saved face is a three-channel HWC image, then the load succeeds, slot i holds the
      CHW transpose of face i for i < n, and the remaining slots stay empty. With n = 4
      (the 'side' flag) the top and down slots are empty. */
  lemma {:induction false} ReloadSavedFaces(directory: string, imName: string, n: nat,
                                            listing: seq<string>, load: string -> NdArray)
    requires n <= 6
    requires forall k :: 0 <= k < |listing| && IsJpg(listing[k]) ==>
      exists i :: 0 <= i < n && listing[k] == FaceBaseName(imName, i)
    requires forall i :: 0 <= i < n ==> FaceBaseName(imName, i) in listing
    requires forall i :: 0 <= i < n ==>
      |load(FaceFileName(directory, imName, i)).shape| == 3 && load(FaceFileName(directory, imName, i)).shape[2] == 3
    ensures Loaded(directory, listing, load).Success?
    ensures forall i :: n <= i < 6 ==> Loaded(directory, listing, load).value[i] == Empty
    ensures forall i :: 0 <= i < n ==>
      Loaded(directory, listing, load).value[i] == Filled(ToChw(load(FaceFileName(directory, imName, i))))
  {
    forall k | 0 <= k < |listing| && IsJpg(listing[k])
      ensures exists i :: 0 <= i < n && SlotOf(directory, listing[k]) == Some(i)
                && directory + "/" + listing[k] == FaceFileName(directory, imName, i)
    {
      var i :| 0 <= i < n && listing[k] == FaceBaseName(imName, i);
      FaceFileRoundTrip(directory, imName, i);
    }
    forall k | 0 <= k < |listing| && IsJpg(listing[k])
      ensures ReadOutcome(directory + "/" + listing[k], load(directory + "/" + listing[k])).Success?
    {
      var i :| 0 <= i < n && SlotOf(directory, listing[k]) == Some(i)
               && directory + "/" + listing[k] == FaceFileName(directory, imName, i);
    }
    LoadedSucceeds(directory, listing, load);
    forall i | 0 <= i < 6
      ensures i >= n ==> Loaded(directory, listing, load).value[i] == Empty
      ensures i < n ==>
        Loaded(directory, listing, load).value[i] == Filled(ToChw(load(FaceFileName(directory, imName, i))))
    {
      LoadedSlots(directory, listing, load, i);
      var last := LastFilling(directory, listing, i);
      if i < n {
        FaceFileRoundTrip(directory, imName, i);
        var k :| 0 <= k < |listing| && listing[k] == FaceBaseName(imName, i);
        assert SlotOf(directory, listing[k]) == Some(i);
        var m := last.value;
        var j :| 0 <= j < n && SlotOf(directory, listing[m]) == Some(j)
                 && directory + "/" + listing[m] == FaceFileName(directory, imName, j);
        assert j == i;
      } else {
        forall k | 0 <= k < |listing|
          ensures SlotOf(directory, listing[k]) != Some(i)
        {
          if IsJpg(listing[k]) {
            var j :| 0 <= j < n && SlotOf(directory, listing[k]) == Some(j)
                     && directory + "/" + listing[k] == FaceFileName(directory, imName, j);
          }
        }
      }
    }
  }
}
