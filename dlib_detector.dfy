/** `DLibFaceAndLandmarksDetector`: dlib finds the faces and their landmarks
    in one call; its faces are re-keyed 0..n-1. */
module DLibFaceAndLandmarksDetector {
  import opened Wrappers
  import opened DLibFace68
  import opened DetectorCommon

  /** The detector: its collaborators (null when absent) and `mDetFaces`.
      The face detector maps a frame to the faces with landmarks, or fails to
      parse its protobuf reply. */
  class Detector {
    const cameraMetadata: Option<CameraMetadata>
    const faceDetector: Option<FrameMetadata -> Option<seq<FaceData>>>
    var detFaces: SparseArray<FaceData>

    constructor (cameraMetadata: Option<CameraMetadata>,
                 faceDetector: Option<FrameMetadata -> Option<seq<FaceData>>>)
      ensures this.cameraMetadata == cameraMetadata && this.faceDetector == faceDetector
      ensures detFaces == []
    {
      this.cameraMetadata := cameraMetadata;
      this.faceDetector := faceDetector;
      detFaces := [];
    }

    /** `detect(frame)`: the guard throws, the previous faces are cleared,
        and a successful reply is stored under keys 0..n-1. */
    method Detect(frame: FrameMetadata) returns (r: DetectResult)
      modifies this
      ensures cameraMetadata.None? || faceDetector.None? ==> r == IllegalState && detFaces == old(detFaces)
      ensures cameraMetadata.Some? && faceDetector.Some? && faceDetector.value(frame).None? ==>
                r == NullResult && detFaces == []
      ensures cameraMetadata.Some? && faceDetector.Some? && faceDetector.value(frame).Some? ==>
                detFaces == Indexed(faceDetector.value(frame).value) && r == Detected(detFaces)
    {
      if cameraMetadata.None? || faceDetector.None? {
        return IllegalState;
      }
      detFaces := [];
      var detected := faceDetector.value(frame);
      if detected.None? {
        return NullResult;
      }
      detFaces := Rekey(detected.value);
      return Detected(detFaces);
    }
  }
}
