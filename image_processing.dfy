/// The second copy of the face stitcher, the one the cube-face pipeline
/// runs before rotating and flipping the top and bottom faces. Its
/// stitch_face is line for line the one of the stand-alone merge script, so
/// it is modelled by that one; the rotations and flips are image-library
/// calls and are not part of this model.
module ImageProcessing {
  import opened Common
  import opened MergeTile

  /** stitch_face: the same level choice, tile map, canvas size and paste
      offsets as the stand-alone stitcher. */
  method StitchFace(faceFolder: string, face: string, levelDirs: seq<string>,
                    walkOf: string -> seq<(string, seq<string>)>, sizeOf: string -> (nat, nat))
    returns (err: Option<StitchError>, canvas: Canvas?, output: string)
    ensures levelDirs == [] ==> err == Some(NoLevelFolders) && canvas == null
    ensures levelDirs != [] && FaceTiles(faceFolder, levelDirs, walkOf).keys == [] ==>
              err == Some(NoTiles) && canvas == null
    ensures levelDirs != [] && FaceTiles(faceFolder, levelDirs, walkOf).keys != [] ==>
              var m := FaceTiles(faceFolder, levelDirs, walkOf);
              var size := sizeOf(m.path[m.keys[0]]);
              err == None && canvas != null && fresh(canvas)
              && canvas.width == CanvasWidth(m, size.0) && canvas.height == CanvasHeight(m, size.1)
              && canvas.pastes == Layout(m, size.0, size.1)
              && output == OutputName(face)
  {
    err, canvas, output := MergeTile.StitchFace(faceFolder, face, levelDirs, walkOf, sizeOf);
  }
}
