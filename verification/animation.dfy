/**
  The walk cycle: four joint angles driven by one swing value per frame.
  The swing is the sine sample of the frame (an input: the clock and the
  sine are the runtime's) scaled by the amplitude while walking, and zero
  otherwise.
 */
module Animation {

  datatype Joints = Joints(leftArm: real, rightArm: real, leftLeg: real, rightLeg: real)

  const Neutral: Joints := Joints(0.0, 0.0, 0.0, 0.0)

  const SwingAmplitude: real := 0.7

  function Swing(walking: bool, wave: real): real {
    if walking then wave * SwingAmplitude else 0.0
  }

  /**
    The pose of one frame: arms and legs swing in opposite pairs, left arm
    with right leg and right arm with left leg, and a standing figure has
    every joint at rest.
   */
  function WalkPose(walking: bool, wave: real): (j: Joints)
    ensures !walking ==> j == Neutral
    ensures j.leftArm == j.rightLeg && j.rightArm == j.leftLeg
    ensures j.rightArm == -j.leftArm
  {
    var swing := Swing(walking, wave);
    Joints(swing, -swing, -swing, swing)
  }

  // The facts below multiply the sample by the amplitude, so they are kept
  // out of `WalkPose`'s contract, which every frame's proof carries along.

  /** A sine sample in [-1, 1] keeps every joint within the amplitude. */
  lemma PoseWithinAmplitude(walking: bool, wave: real)
    requires -1.0 <= wave <= 1.0
    ensures var j := WalkPose(walking, wave);
            && -SwingAmplitude <= j.leftArm <= SwingAmplitude
            && -SwingAmplitude <= j.rightArm <= SwingAmplitude
  {
  }

  /**
    While walking, the left arm follows the sample scaled by the amplitude,
    and the limbs are at rest exactly when the sample is 0.
   */
  lemma WalkingPoseMoves(wave: real)
    ensures WalkPose(true, wave).leftArm == wave * SwingAmplitude
    ensures WalkPose(true, wave) == Neutral <==> wave == 0.0
  {
  }
}
