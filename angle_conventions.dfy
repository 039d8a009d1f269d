/** The two scripts describe the same kind of arm with different angle
    conventions: 2r-pick-and-place-robot.py gives link 2's absolute heading,
    interactive_robot_arm_singularity_explorer.py its angle relative to link 1.
    This module converts between the two and relates the two models. */
module AngleConventions {
  import opened RealMath
  import PickAndPlace
  import SingularityExplorer

  /** Joint angles in the explorer's convention: the heading of link 1 and the
      elbow angle of link 2 measured from link 1. */
  datatype RelativeJoints = RelativeJoints(shoulder: real, elbow: real)

  /** Absolute headings to the relative convention; link 2's heading is kept. */
  function ToRelative(q: PickAndPlace.Joints): (r: RelativeJoints)
    ensures r.shoulder == q.theta1
    ensures r.shoulder + r.elbow == q.theta2
  {
    RelativeJoints(q.theta1, q.theta2 - q.theta1)
  }

  /** The relative convention to absolute headings; the inverse of ToRelative. */
  function ToAbsolute(r: RelativeJoints): (q: PickAndPlace.Joints)
    ensures ToRelative(q) == r
    ensures q.theta2 - q.theta1 == r.elbow
  {
    PickAndPlace.Joints(r.shoulder, r.shoulder + r.elbow)
  }

  /** Converting to the relative convention and back is the identity. */
  lemma {:induction false} ConversionsInverse(q: PickAndPlace.Joints)
    ensures ToAbsolute(ToRelative(q)) == q
  {
    var r := ToRelative(q);
    assert ToAbsolute(r).theta2 == r.shoulder + r.elbow;
  }

  /** Both scripts put the end-effector at the same point: the pick-and-place
      forward kinematics on absolute angles (without the box offset) agrees with
      the position the explorer's calculate_jacobian returns for the matching
      relative angles and the same link lengths. */
  lemma {:induction false} SameEndEffector(tr: Trig, q: PickAndPlace.Joints)
    ensures var tip := PickAndPlace.ForwardKinematics(tr, q.theta1, q.theta2, 0.0).tip;
            var r := ToRelative(q);
            var pos := SingularityExplorer.CalculateJacobian(tr, r.shoulder, r.elbow, PickAndPlace.L1, PickAndPlace.L2).position;
            tip == pos
  {
    var r := ToRelative(q);
    assert r.shoulder + r.elbow == q.theta2;
    assert tr.cos(r.shoulder + r.elbow) == tr.cos(q.theta2);
    assert tr.sin(r.shoulder + r.elbow) == tr.sin(q.theta2);
  }

  /** The explorer's singularity test applied to the pick-and-place arm: a
      configuration is singular exactly when the sine of the difference of the
      two absolute headings is small, that is when the links are (nearly)
      aligned or folded back on each other. */
  lemma {:induction false} PickAndPlaceSingularity(tr: Trig, q: PickAndPlace.Joints)
    requires SineSubtraction(tr)
    ensures var r := ToRelative(q);
            SingularityExplorer.IsSingular(
              SingularityExplorer.CalculateJacobian(tr, r.shoulder, r.elbow, PickAndPlace.L1, PickAndPlace.L2).det)
            <==> Abs(tr.sin(q.theta2 - q.theta1))
                 < SingularityExplorer.SingularThreshold / (PickAndPlace.L1 * PickAndPlace.L2)
  {
    SingularityExplorer.SingularIffElbowSineSmall(tr, q.theta1, q.theta2 - q.theta1, PickAndPlace.L1, PickAndPlace.L2);
  }
}
