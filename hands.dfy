/**
 * The hand-landmark side of the application (js/core/hands.js): turning the 21
 * landmarks MediaPipe reports for a hand into a flat feature vector, and the
 * hand-presence state `onResults` keeps.
 */
module Hands {
  import opened Wrappers

  /** One tracked point of a hand, in normalised image coordinates. */
  datatype Landmark = Landmark(x: real, y: real, z: real)

  /** The feature vector of a landmark list: `[x1, y1, z1, x2, y2, z2, ...]`. */
  function Flatten(ls: seq<Landmark>): seq<real> {
    if ls == [] then []
    else
      var last := ls[|ls| - 1];
      Flatten(ls[..|ls| - 1]) + [last.x, last.y, last.z]
  }

  /** Entries 3i, 3i+1 and 3i+2 of the feature vector are the coordinates of landmark i. */
  lemma {:induction false} FlattenLayout(ls: seq<Landmark>)
    ensures |Flatten(ls)| == 3 * |ls|
    ensures forall i :: 0 <= i < |ls| ==>
      Flatten(ls)[3 * i] == ls[i].x && Flatten(ls)[3 * i + 1] == ls[i].y && Flatten(ls)[3 * i + 2] == ls[i].z
  {
    if ls != [] {
      FlattenLayout(ls[..|ls| - 1]);
    }
  }

  /**
   * `extractFeatures`: `null` for absent landmarks; otherwise one push of
   * x, y and z per landmark, in landmark order (an empty list gives an empty vector).
   */
  method ExtractFeatures(landmarks: Option<seq<Landmark>>) returns (features: Option<seq<real>>)
    ensures features.None? <==> landmarks.None?
    ensures landmarks.Some? ==> features == Some(Flatten(landmarks.value))
    ensures landmarks.Some? ==> |features.value| == 3 * |landmarks.value|
  {
    if landmarks.None? {
      return None;
    }
    var ls := landmarks.value;
    var acc: seq<real> := [];
    for i := 0 to |ls|
      invariant acc == Flatten(ls[..i])
    {
      assert ls[..i + 1][..i] == ls[..i];
      acc := acc + [ls[i].x, ls[i].y, ls[i].z];
    }
    assert ls[..|ls|] == ls;
    FlattenLayout(ls);
    features := Some(acc);
  }

  /** The part of `HandTracker` the rest of the application reads. */
  class HandTracker {
    var currentLandmarks: Option<seq<Landmark>>
    var handDetected: bool

    /** A hand is reported as detected exactly when landmarks are held for it. */
    ghost predicate Valid()
      reads this
    {
      handDetected <==> currentLandmarks.Some?
    }

    constructor ()
      ensures Valid()
      ensures currentLandmarks == None && !handDetected
    {
      currentLandmarks := None;
      handDetected := false;
    }

    /**
     * The state update of `onResults`: the first hand's landmarks when MediaPipe
     * reports at least one hand, otherwise no hand.
     */
    method OnResults(multiHandLandmarks: Option<seq<seq<Landmark>>>)
      modifies this
      ensures Valid()
      ensures handDetected <==> multiHandLandmarks.Some? && |multiHandLandmarks.value| > 0
      ensures currentLandmarks ==
        if handDetected then Some(multiHandLandmarks.value[0]) else None
    {
      if multiHandLandmarks.Some? && |multiHandLandmarks.value| > 0 {
        handDetected := true;
        currentLandmarks := Some(multiHandLandmarks.value[0]);
      } else {
        handDetected := false;
        currentLandmarks := None;
      }
    }

    /** `getLandmarks`: present exactly when a hand is detected. */
    function GetLandmarks(): (r: Option<seq<Landmark>>)
      reads this
      requires Valid()
      ensures r.Some? <==> handDetected
    {
      currentLandmarks
    }

    /** `isHandDetected`: true exactly when landmarks are available. */
    function IsHandDetected(): (r: bool)
      reads this
      requires Valid()
      ensures r <==> currentLandmarks.Some?
    {
      handDetected
    }
  }
}
