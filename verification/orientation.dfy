/**
 * The decision part of detect_orientation: the confidence check and the
 * table from Tesseract's page orientation to a clockwise angle. Setting up
 * the engine and running its orientation detection is a foreign call; its
 * result is a parameter here.
 */
module Orientation {
  import opened Wrappers

  /** Tesseract's orientation of the page's top, as its detector reports it. */
  datatype PageOrientation = PageUp | PageRight | PageDown | PageLeft

  /** What the detector returns: an orientation and a confidence. */
  datatype OsResult = OsResult(orientation: PageOrientation, confidence: real)

  /** What detect_orientation returns. */
  datatype Detected = Detected(angle: nat, confidence: real)

  /** "no script detected" */
  datatype OrientationError = NoScript

  /** The angle in degrees that each orientation stands for. */
  function Angle(o: PageOrientation): (angle: nat)
    ensures angle < 360 && angle % 90 == 0
  {
    match o
    case PageUp => 0
    case PageRight => 90
    case PageDown => 180
    case PageLeft => 270
  }

  /** The inverse of the table, on the four right angles. */
  function OrientationOfAngle(angle: nat): (o: Option<PageOrientation>)
    ensures o.Some? <==> angle < 360 && angle % 90 == 0
  {
    if angle == 0 then Some(PageUp)
    else if angle == 90 then Some(PageRight)
    else if angle == 180 then Some(PageDown)
    else if angle == 270 then Some(PageLeft)
    else None
  }

  /** The table is one-to-one: every right angle names exactly one orientation. */
  lemma AngleRoundTrip(o: PageOrientation, angle: nat)
    ensures OrientationOfAngle(Angle(o)) == Some(o)
    ensures OrientationOfAngle(angle).Some? ==> Angle(OrientationOfAngle(angle).value) == angle
  {
  }

  /** detect_orientation after the detector has run: a confidence that is not
      positive means no script was found; otherwise the angle of the
      reported orientation, with the detector's confidence. */
  function DetectOrientation(os: OsResult): (r: Result<Detected, OrientationError>)
    ensures r.Err? <==> os.confidence <= 0.0
    ensures r.Ok? ==> r.value.confidence == os.confidence > 0.0
    ensures r.Ok? ==> OrientationOfAngle(r.value.angle) == Some(os.orientation)
  {
    if os.confidence <= 0.0 then Err(NoScript)
    else Ok(Detected(Angle(os.orientation), os.confidence))
  }
}
