/** The Jacobian and the singularity test of interactive_robot_arm_singularity_explorer.py.
    Angles here are RELATIVE: theta2 is the angle of link 2 measured from link 1,
    so link 2's heading is theta1 + theta2. */
module SingularityExplorer {
  import opened RealMath
  import opened Plane

  // The script's configuration.
  const L1: real := 1.0
  const L2: real := 0.8
  /** |det| below this counts as a singularity. */
  const SingularThreshold: real := 0.01
  /** How close theta2 must be to 0 or pi for the "stretched out or folded back" note. */
  const WhyTolerance: real := 0.1

  /** The 2x2 matrix [[m11, m12], [m21, m22]]. */
  datatype Matrix2 = Matrix2(m11: real, m12: real, m21: real, m22: real)

  /** What calculate_jacobian returns: the matrix, its determinant and the
      end-effector position. */
  datatype JacobianResult = JacobianResult(jacobian: Matrix2, det: real, position: Point)

  /** The determinant np.linalg.det computes, taken exactly. */
  function Det(m: Matrix2): real
  {
    m.m11 * m.m22 - m.m12 * m.m21
  }

  /** The analytic Jacobian of the end-effector position with respect to the two
      joint angles. Its first column is the position turned a quarter turn:
      J11 = -y and J21 = x. */
  function CalculateJacobian(tr: Trig, theta1: real, theta2: real, l1: real, l2: real): (r: JacobianResult)
    ensures r.jacobian.m11 == -r.position.y && r.jacobian.m21 == r.position.x
    ensures r.det == Det(r.jacobian)
  {
    var x := l1 * tr.cos(theta1) + l2 * tr.cos(theta1 + theta2);
    var y := l1 * tr.sin(theta1) + l2 * tr.sin(theta1 + theta2);
    var j11 := -l1 * tr.sin(theta1) - l2 * tr.sin(theta1 + theta2);
    var j12 := -l2 * tr.sin(theta1 + theta2);
    var j21 := l1 * tr.cos(theta1) + l2 * tr.cos(theta1 + theta2);
    var j22 := l2 * tr.cos(theta1 + theta2);
    var j := Matrix2(j11, j12, j21, j22);
    JacobianResult(j, Det(j), Point(x, y))
  }

  /** The singularity test every singular/normal branch of plot_robot_arm uses:
      the determinant lies strictly between -0.01 and 0.01. */
  predicate IsSingular(det: real): (b: bool)
    ensures b <==> -SingularThreshold < det < SingularThreshold
  {
    Abs(det) < SingularThreshold
  }

  /** The second column is link 2's contribution alone: it depends on link 2's
      heading theta1 + theta2 and its length, not on how the heading splits
      between the joints nor on link 1; the first column is that column plus
      link 1's own contribution. */
  lemma SecondColumnIsLinkTwo(tr: Trig, theta1: real, theta2: real, phi1: real, phi2: real,
                              l1: real, k1: real, l2: real)
    requires theta1 + theta2 == phi1 + phi2
    ensures var j := CalculateJacobian(tr, theta1, theta2, l1, l2).jacobian;
            var k := CalculateJacobian(tr, phi1, phi2, k1, l2).jacobian;
            j.m12 == k.m12 && j.m22 == k.m22
    ensures var j := CalculateJacobian(tr, theta1, theta2, l1, l2).jacobian;
            j.m11 - j.m12 == -(l1 * tr.sin(theta1)) && j.m21 - j.m22 == l1 * tr.cos(theta1)
  {
    assert tr.sin(theta1 + theta2) == tr.sin(phi1 + phi2);
    assert tr.cos(theta1 + theta2) == tr.cos(phi1 + phi2);
  }

  /** Expanding the products, the link-2-only terms cancel:
      det = L1 L2 (sin(theta1 + theta2) cos theta1 - sin theta1 cos(theta1 + theta2)). */
  lemma {:induction false} DeterminantExpanded(tr: Trig, theta1: real, theta2: real, l1: real, l2: real)
    ensures CalculateJacobian(tr, theta1, theta2, l1, l2).det
         == l1 * l2 * (tr.sin(theta1 + theta2) * tr.cos(theta1) - tr.sin(theta1) * tr.cos(theta1 + theta2))
  {
    DeterminantAlgebra(l1, l2, tr.sin(theta1), tr.sin(theta1 + theta2), tr.cos(theta1), tr.cos(theta1 + theta2));
  }

  /** The polynomial identity behind DeterminantExpanded, with a = sin theta1,
      b = sin(theta1 + theta2), c = cos theta1, d = cos(theta1 + theta2). */
  lemma DeterminantAlgebra(l1: real, l2: real, a: real, b: real, c: real, d: real)
    ensures (-l1 * a - l2 * b) * (l2 * d) - (-l2 * b) * (l1 * c + l2 * d) == l1 * l2 * (b * c - a * d)
  {
  }

  /** With the angle-subtraction identity the determinant is L1 L2 sin theta2:
      it depends on the elbow angle only. */
  lemma {:induction false} DeterminantIsSineOfElbow(tr: Trig, theta1: real, theta2: real, l1: real, l2: real)
    requires SineSubtraction(tr)
    ensures CalculateJacobian(tr, theta1, theta2, l1, l2).det == l1 * l2 * tr.sin(theta2)
  {
    DeterminantExpanded(tr, theta1, theta2, l1, l2);
    assert (theta1 + theta2) - theta1 == theta2;
    assert tr.sin((theta1 + theta2) - theta1)
        == tr.sin(theta1 + theta2) * tr.cos(theta1) - tr.cos(theta1 + theta2) * tr.sin(theta1);
  }

  /** Turning the shoulder does not change the determinant. */
  lemma {:induction false} DeterminantIndependentOfShoulder(tr: Trig, theta1: real, phi1: real, theta2: real,
                                                            l1: real, l2: real)
    requires SineSubtraction(tr)
    ensures CalculateJacobian(tr, theta1, theta2, l1, l2).det == CalculateJacobian(tr, phi1, theta2, l1, l2).det
  {
    DeterminantIsSineOfElbow(tr, theta1, theta2, l1, l2);
    DeterminantIsSineOfElbow(tr, phi1, theta2, l1, l2);
  }

  /** The arm is singular when fully stretched out (theta2 = 0) and when folded
      back (theta2 = pi): there the determinant is exactly zero. */
  lemma {:induction false} SingularWhenStraightOrFolded(tr: Trig, theta1: real, l1: real, l2: real)
    requires SineSubtraction(tr) && SineZeros(tr)
    ensures CalculateJacobian(tr, theta1, 0.0, l1, l2).det == 0.0
    ensures CalculateJacobian(tr, theta1, tr.pi, l1, l2).det == 0.0
    ensures IsSingular(CalculateJacobian(tr, theta1, 0.0, l1, l2).det)
    ensures IsSingular(CalculateJacobian(tr, theta1, tr.pi, l1, l2).det)
  {
    DeterminantIsSineOfElbow(tr, theta1, 0.0, l1, l2);
    DeterminantIsSineOfElbow(tr, theta1, tr.pi, l1, l2);
  }

  /** For links of positive length, the test |det| < 0.01 singles out exactly
      the elbow angles with |sin theta2| < 0.01 / (L1 L2). */
  lemma {:induction false} SingularIffElbowSineSmall(tr: Trig, theta1: real, theta2: real, l1: real, l2: real)
    requires SineSubtraction(tr)
    requires l1 > 0.0 && l2 > 0.0
    ensures IsSingular(CalculateJacobian(tr, theta1, theta2, l1, l2).det)
        <==> Abs(tr.sin(theta2)) < SingularThreshold / (l1 * l2)
  {
    DeterminantIsSineOfElbow(tr, theta1, theta2, l1, l2);
    PositiveProduct(l1, l2);
    ThresholdScaled(CalculateJacobian(tr, theta1, theta2, l1, l2).det, l1 * l2, tr.sin(theta2), SingularThreshold);
  }

  /** |p s| < e exactly when |s| < e / p, for a positive scale p. */
  lemma ThresholdScaled(det: real, p: real, s: real, e: real)
    requires p > 0.0
    requires det == p * s
    ensures Abs(det) < e <==> Abs(s) < e / p
  {
    AbsScale(p, s);
    ScaledBelow(p, Abs(s), e);
  }

  lemma PositiveProduct(a: real, b: real)
    requires a > 0.0 && b > 0.0
    ensures a * b > 0.0
  {
    MulMonotone(0.0, a, b);
  }

  lemma AbsScale(p: real, x: real)
    requires p > 0.0
    ensures Abs(p * x) == p * Abs(x)
  {
  }

  lemma ScaledBelow(p: real, x: real, e: real)
    requires p > 0.0
    ensures p * x < e <==> x < e / p
  {
    DivMulCancel(e, p);
    MulMonotone(x, e / p, p);
    MulMonotone(e / p, x, p);
  }

  // ---------------------------------------------------------------------------
  // What plot_robot_arm shows

  /** The red (singular) or green (normal) variant of a piece of the figure. */
  datatype Mode = Singular | Normal

  /** Which way of drawing the end-effector's freedom of motion the figure takes:
      the singular branch (a short red line along the first Jacobian column,
      drawn only when that column is not nearly zero) or the normal branch (a
      dashed green circle). */
  datatype MobilityCue = RestrictedLine | FullCircle

  /** The decisions plot_robot_arm takes for one configuration, with the
      values it returns (det and the end-effector). */
  datatype ArmView = ArmView(
    elbow: Point,
    tip: Point,
    cue: MobilityCue,
    title: Mode,
    explanation: Mode,
    whyNote: bool,
    det: real)

  function PlotRobotArm(tr: Trig, theta1: real, theta2: real, l1: real, l2: real): (v: ArmView)
    ensures v.tip == CalculateJacobian(tr, theta1, theta2, l1, l2).position
    ensures v.det == CalculateJacobian(tr, theta1, theta2, l1, l2).det
  {
    var x1 := l1 * tr.cos(theta1);
    var y1 := l1 * tr.sin(theta1);
    var x2 := x1 + l2 * tr.cos(theta1 + theta2);
    var y2 := y1 + l2 * tr.sin(theta1 + theta2);
    var det := CalculateJacobian(tr, theta1, theta2, l1, l2).det;
    ArmView(
      Point(x1, y1),
      Point(x2, y2),
      if Abs(det) < SingularThreshold then RestrictedLine else FullCircle,
      if Abs(det) < SingularThreshold then Singular else Normal,
      if Abs(det) < SingularThreshold then Singular else Normal,
      Abs(det) < SingularThreshold && (Abs(theta2) < WhyTolerance || Abs(theta2 - tr.pi) < WhyTolerance),
      det)
  }

  /** All the singular/normal branches of the figure agree with each other and
      with IsSingular, and the explanatory note only ever appears on a singular
      configuration. */
  lemma PlotBranchesAgree(tr: Trig, theta1: real, theta2: real, l1: real, l2: real)
    ensures var v := PlotRobotArm(tr, theta1, theta2, l1, l2);
      && (v.cue == RestrictedLine <==> IsSingular(v.det))
      && (v.title == Singular <==> IsSingular(v.det))
      && v.explanation == v.title
      && (v.whyNote ==> IsSingular(v.det))
  {
  }

  /** At the two classic singular poses the figure is red and carries the
      "stretched out or folded back" note, whatever the shoulder angle. */
  lemma {:induction false} ExplainedWhenStraightOrFolded(tr: Trig, theta1: real, l1: real, l2: real)
    requires SineSubtraction(tr) && SineZeros(tr)
    ensures PlotRobotArm(tr, theta1, 0.0, l1, l2).whyNote
    ensures PlotRobotArm(tr, theta1, tr.pi, l1, l2).whyNote
    ensures PlotRobotArm(tr, theta1, 0.0, l1, l2).title == Singular
    ensures PlotRobotArm(tr, theta1, tr.pi, l1, l2).title == Singular
  {
    SingularWhenStraightOrFolded(tr, theta1, l1, l2);
  }

  // ---------------------------------------------------------------------------
  // The slider callback

  /** np.radians. */
  function Radians(tr: Trig, degrees: real): (r: real)
    ensures degrees == 0.0 ==> r == 0.0
    ensures degrees == 180.0 ==> r == tr.pi
  {
    degrees * tr.pi / 180.0
  }

  /** The figure for the two slider positions, in degrees, on the script's arm:
      the Jacobian taken at the angles in radians, with every singular/normal
      branch following IsSingular. */
  function SliderView(tr: Trig, degrees1: real, degrees2: real): (v: ArmView)
    ensures var j := CalculateJacobian(tr, Radians(tr, degrees1), Radians(tr, degrees2), L1, L2);
            v.det == j.det && v.tip == j.position
    ensures v.cue == RestrictedLine <==> IsSingular(v.det)
    ensures v.title == Singular <==> IsSingular(v.det)
    ensures v.whyNote ==> IsSingular(v.det)
  {
    PlotBranchesAgree(tr, Radians(tr, degrees1), Radians(tr, degrees2), L1, L2);
    PlotRobotArm(tr, Radians(tr, degrees1), Radians(tr, degrees2), L1, L2)
  }

  /** Moving the elbow slider to 0 or 180 degrees makes the figure singular, as
      the closing remarks of the script say. */
  lemma {:induction false} SliderSingularities(tr: Trig, degrees1: real)
    requires SineSubtraction(tr) && SineZeros(tr)
    ensures SliderView(tr, degrees1, 0.0).whyNote && SliderView(tr, degrees1, 180.0).whyNote
  {
    ExplainedWhenStraightOrFolded(tr, Radians(tr, degrees1), L1, L2);
  }
}
