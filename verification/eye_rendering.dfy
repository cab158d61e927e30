/** The eye selection of `StimuTest`: which eyes the headset camera would
    render to. The script defines the selection but its one call is
    commented out, kept for later single-eye tests, so a run renders with
    the camera's own mask.

    The script has two switches, one per eye. Both on select both eyes,
    one on selects that eye alone, and both off is reported as an error
    and leaves the camera's target mask as it was. */
module EyeRendering {

  /** The camera's stereo target mask. */
  datatype EyeMask = NoEye | LeftEye | RightEye | BothEyes

  datatype Eye = Left | Right

  /** Whether a mask renders to an eye. */
  predicate Covers(mask: EyeMask, eye: Eye) {
    match mask
    case NoEye => false
    case LeftEye => eye == Left
    case RightEye => eye == Right
    case BothEyes => true
  }

  /** The camera's mask after the selection, and whether an error was
      reported. */
  datatype Selection = Selection(mask: EyeMask, error: bool)

  /** The selection table. */
  function ControlEyesRendering(current: EyeMask, leftEye: bool, rightEye: bool): (r: Selection)
    ensures r.error <==> !leftEye && !rightEye
    ensures r.error ==> r.mask == current
    ensures !r.error ==> (Covers(r.mask, Left) <==> leftEye) && (Covers(r.mask, Right) <==> rightEye)
  {
    if leftEye && rightEye then Selection(BothEyes, false)
    else if leftEye && !rightEye then Selection(LeftEye, false)
    else if !leftEye && rightEye then Selection(RightEye, false)
    else Selection(current, true)
  }

  /** A mask is determined by the eyes it covers, so the coverage stated
      for a successful selection pins the selected mask down exactly. */
  lemma CoverageDeterminesMask(a: EyeMask, b: EyeMask)
    requires forall eye :: Covers(a, eye) == Covers(b, eye)
    ensures a == b
  {
    assert Covers(a, Left) == Covers(b, Left);
    assert Covers(a, Right) == Covers(b, Right);
  }

  /** The selection never renders to no eye: a successful selection covers
      at least one eye. */
  lemma SelectionNeverBlind(current: EyeMask, leftEye: bool, rightEye: bool)
    ensures var r := ControlEyesRendering(current, leftEye, rightEye);
            !r.error ==> r.mask != NoEye
  {
  }
}
