/** The 2-link planar pick-and-place arm of 2r-pick-and-place-robot.py: closed-form
    inverse kinematics, forward kinematics, the shortest-angle wrap, and the
    six-window schedule that turns a frame number into joint angles and a box
    position. Angles here are ABSOLUTE: theta2 is the heading of link 2 measured
    from the x axis, not its angle relative to link 1. */
module PickAndPlace {
  import opened RealMath
  import opened Plane
  import opened Wrappers

  // The script's configuration (its module-level constants).
  const L1: real := 6.0
  const L2: real := 6.0
  const LinkThickness: real := 0.5
  const BoxWidth: real := 1.0
  const BoxHeight: real := 1.0
  const NumFrames: int := 400
  const HomeTarget: Point := Point(-5.0, 5.0)
  const InitialBox: Point := Point(-10.0, -5.0)
  const FinalBox: Point := Point(10.0, -5.0)

  /** Absolute joint angles: theta1 is the heading of link 1, theta2 that of link 2. */
  datatype Joints = Joints(theta1: real, theta2: real)

  /** The elbow (joint between the links) and the end-effector point. */
  datatype ArmPose = ArmPose(elbow: Point, tip: Point)

  /** The three stored configurations the animation moves between. */
  datatype Plan = Plan(home: Joints, initial: Joints, final: Joints)

  // ---------------------------------------------------------------------------
  // Inverse and forward kinematics

  /** The squared distance from the base to the target raised by `offset`. */
  function TargetDistanceSquared(x: real, y: real, offset: real): (d2: real)
    ensures d2 >= 0.0
  {
    SquareNonNegative(x);
    SquareNonNegative(y + offset);
    x * x + (y + offset) * (y + offset)
  }

  /** The argument the law of cosines hands to arccos. */
  function CosineRatio(x: real, y: real, offset: real): real
  {
    (L1 * L1 + L2 * L2 - TargetDistanceSquared(x, y, offset)) / (2.0 * L1 * L2)
  }

  /** The target lies in the annulus the two links can reach. */
  predicate Reachable(x: real, y: real, offset: real)
  {
    var d2 := TargetDistanceSquared(x, y, offset);
    (L1 - L2) * (L1 - L2) <= d2 <= (L1 + L2) * (L1 + L2)
  }

  /** Closed-form inverse kinematics. The elbow angle a comes from the law of
      cosines; link 2's relative angle is pi - a and its absolute heading is that
      plus the base angle. The squared distance is used directly, since the
      script's sqrt is squared again before use. */
  function InverseKinematics(tr: Trig, x: real, y: real, offset: real): (r: Joints)
    ensures r.theta2 - r.theta1 == tr.pi - tr.arccos(CosineRatio(x, y, offset))
  {
    var a := tr.arccos(CosineRatio(x, y, offset));
    var alpha2 := tr.pi - a;
    var b := tr.atan2(y + offset, x) - tr.atan2(L2 * tr.sin(alpha2), L1 + L2 * tr.cos(alpha2));
    Joints(b, alpha2 + b)
  }

  /** Forward kinematics: the elbow at L1 along theta1, the end-effector at L2
      further along theta2, lowered by `offset`. */
  function ForwardKinematics(tr: Trig, theta1: real, theta2: real, offset: real): (p: ArmPose)
    ensures p.elbow == Point(L1 * tr.cos(theta1), L1 * tr.sin(theta1))
    ensures p.tip.x - p.elbow.x == L2 * tr.cos(theta2)
    ensures p.tip.y + offset - p.elbow.y == L2 * tr.sin(theta2)
  {
    var x1 := L1 * tr.cos(theta1);
    var y1 := L1 * tr.sin(theta1);
    ArmPose(Point(x1, y1), Point(x1 + L2 * tr.cos(theta2), y1 + L2 * tr.sin(theta2) - offset))
  }

  /** The configurations the script solves for at start-up: for each target,
      link 2 is turned from link 1 by pi minus the law-of-cosines angle. */
  function SourcePlan(tr: Trig): (plan: Plan)
    ensures plan.home.theta2 - plan.home.theta1
         == tr.pi - tr.arccos(CosineRatio(HomeTarget.x, HomeTarget.y, 0.0))
    ensures plan.initial.theta2 - plan.initial.theta1
         == tr.pi - tr.arccos(CosineRatio(InitialBox.x, InitialBox.y, BoxHeight / 2.0))
    ensures plan.final.theta2 - plan.final.theta1
         == tr.pi - tr.arccos(CosineRatio(FinalBox.x, FinalBox.y, BoxHeight / 2.0))
  {
    Plan(InverseKinematics(tr, HomeTarget.x, HomeTarget.y, 0.0),
         InverseKinematics(tr, InitialBox.x, InitialBox.y, BoxHeight / 2.0),
         InverseKinematics(tr, FinalBox.x, FinalBox.y, BoxHeight / 2.0))
  }

  /** arccos is only defined on [-1, 1]: its argument is in range exactly when
      the target is reachable. */
  lemma ReachableIffCosineRatioInDomain(x: real, y: real, offset: real)
    ensures Reachable(x, y, offset) <==> -1.0 <= CosineRatio(x, y, offset) <= 1.0
  {
    var d2 := TargetDistanceSquared(x, y, offset);
    assert CosineRatio(x, y, offset) == (72.0 - d2) / 72.0;
  }

  /** All three targets the script solves for lie within reach. */
  lemma SourceTargetsReachable()
    ensures Reachable(HomeTarget.x, HomeTarget.y, 0.0)
    ensures Reachable(InitialBox.x, InitialBox.y, BoxHeight / 2.0)
    ensures Reachable(FinalBox.x, FinalBox.y, BoxHeight / 2.0)
  {
  }

  /** The offset only raises the target: solving for (x, y) with an offset is
      solving for (x, y + offset) with none. */
  lemma InverseKinematicsOffset(tr: Trig, x: real, y: real, offset: real)
    ensures InverseKinematics(tr, x, y, offset) == InverseKinematics(tr, x, y + offset, 0.0)
  {
  }

  /** The offset only lowers the reported end-effector; the elbow is unaffected. */
  lemma ForwardKinematicsOffset(tr: Trig, theta1: real, theta2: real, offset: real)
    ensures ForwardKinematics(tr, theta1, theta2, offset).elbow == ForwardKinematics(tr, theta1, theta2, 0.0).elbow
    ensures ForwardKinematics(tr, theta1, theta2, offset).tip.x == ForwardKinematics(tr, theta1, theta2, 0.0).tip.x
    ensures ForwardKinematics(tr, theta1, theta2, offset).tip.y == ForwardKinematics(tr, theta1, theta2, 0.0).tip.y - offset
  {
  }

  /** The links are rigid: with sin^2 + cos^2 = 1, the elbow is L1 from the base
      and the (un-lowered) end-effector is L2 from the elbow. */
  lemma {:induction false} ForwardKinematicsLinkLengths(tr: Trig, theta1: real, theta2: real, offset: real)
    requires Pythagorean(tr)
    ensures var p := ForwardKinematics(tr, theta1, theta2, offset);
      && p.elbow.x * p.elbow.x + p.elbow.y * p.elbow.y == L1 * L1
      && (p.tip.x - p.elbow.x) * (p.tip.x - p.elbow.x)
         + (p.tip.y + offset - p.elbow.y) * (p.tip.y + offset - p.elbow.y) == L2 * L2
  {
    var c1, s1 := tr.cos(theta1), tr.sin(theta1);
    var c2, s2 := tr.cos(theta2), tr.sin(theta2);
    assert s1 * s1 + c1 * c1 == 1.0;
    assert s2 * s2 + c2 * c2 == 1.0;
    assert (L1 * c1) * (L1 * c1) + (L1 * s1) * (L1 * s1) == L1 * L1 * (s1 * s1 + c1 * c1);
    assert (L2 * c2) * (L2 * c2) + (L2 * s2) * (L2 * s2) == L2 * L2 * (s2 * s2 + c2 * c2);
  }

  // ---------------------------------------------------------------------------
  // Shortest-angle wrap and interpolation

  /** (a2 - a1 + pi) % (2 pi) - pi with Python's sign-of-divisor `%`: the signed
      turn from a1 to a2 taken the short way round, in [-pi, pi). */
  function ShortestAngleDiff(a1: real, a2: real, pi: real): (r: real)
    requires pi > 0.0
    ensures -pi <= r < pi
  {
    FloorMod(a2 - a1 + pi, 2.0 * pi) - pi
  }

  /** The number of whole turns the wrap removes from a2 - a1. */
  function Turns(a1: real, a2: real, pi: real): int
    requires pi > 0.0
  {
    FloorDiv(a2 - a1 + pi, 2.0 * pi)
  }

  /** Turning from a1 by the wrapped difference lands on a2 up to whole turns. */
  lemma ShortestAngleDiffCongruent(a1: real, a2: real, pi: real)
    requires pi > 0.0
    ensures a1 + ShortestAngleDiff(a1, a2, pi) == a2 - Turns(a1, a2, pi) as real * (2.0 * pi)
  {
  }

  /** A difference already in [-pi, pi) is returned unchanged, and only then. */
  lemma ShortestAngleDiffOfWrapped(a1: real, a2: real, pi: real)
    requires pi > 0.0
    ensures ShortestAngleDiff(a1, a2, pi) == a2 - a1 <==> -pi <= a2 - a1 < pi
  {
    if -pi <= a2 - a1 < pi {
      FloorModUnique(a2 - a1 + pi, 2.0 * pi, 0, a2 - a1 + pi);
    }
  }

  /** Wrapping twice is wrapping once. */
  lemma ShortestAngleDiffIdempotent(a1: real, a2: real, pi: real)
    requires pi > 0.0
    ensures ShortestAngleDiff(0.0, ShortestAngleDiff(a1, a2, pi), pi) == ShortestAngleDiff(a1, a2, pi)
  {
    ShortestAngleDiffOfWrapped(0.0, ShortestAngleDiff(a1, a2, pi), pi);
  }

  /** No turn is needed to stay put. */
  lemma ShortestAngleDiffSelf(a: real, pi: real)
    requires pi > 0.0
    ensures ShortestAngleDiff(a, a, pi) == 0.0
  {
    ShortestAngleDiffOfWrapped(a, a, pi);
  }

  /** A half turn is reported as -pi, never +pi. */
  lemma ShortestAngleDiffHalfTurn(a: real, pi: real)
    requires pi > 0.0
    ensures ShortestAngleDiff(a, a + pi, pi) == -pi
  {
    FloorModUnique(2.0 * pi, 2.0 * pi, 1, 0.0);
  }

  /** The result depends on a2 only modulo whole turns. */
  lemma ShortestAngleDiffPeriodic(a1: real, a2: real, pi: real, k: int)
    requires pi > 0.0
    ensures ShortestAngleDiff(a1, a2 + k as real * (2.0 * pi), pi) == ShortestAngleDiff(a1, a2, pi)
  {
    FloorModShift(a2 - a1 + pi, a2 + k as real * (2.0 * pi) - a1 + pi, 2.0 * pi, k);
  }

  /** The wrapped difference is the shortest of all the turns from a1 to a2:
      no whole-turn variant of a2 - a1 has a smaller magnitude. */
  lemma ShortestAngleDiffMinimal(a1: real, a2: real, pi: real, k: int)
    requires pi > 0.0
    ensures Abs(ShortestAngleDiff(a1, a2, pi)) <= Abs(a2 - a1 + k as real * (2.0 * pi))
  {
    var r := ShortestAngleDiff(a1, a2, pi);
    var c := 2.0 * pi;
    var t := Turns(a1, a2, pi);
    ShortestAngleDiffCongruent(a1, a2, pi);
    Distributes(k as real, t as real, c);
    assert a2 - a1 + k as real * c == r + (k + t) as real * c;
    WholeTurnsAreLonger(r, pi, k + t);
  }

  /** Adding any number of whole turns to a value in [-pi, pi) can only make
      it larger in magnitude. */
  lemma WholeTurnsAreLonger(r: real, pi: real, j: int)
    requires pi > 0.0
    requires -pi <= r < pi
    ensures Abs(r) <= Abs(r + j as real * (2.0 * pi))
  {
    WholeMultiples(j, 2.0 * pi);
    AwayFromHalfTurn(r, pi, j as real * (2.0 * pi));
  }

  lemma AwayFromHalfTurn(r: real, pi: real, v: real)
    requires pi > 0.0
    requires -pi <= r < pi
    requires v >= 2.0 * pi || v <= -2.0 * pi || v == 0.0
    ensures Abs(r) <= Abs(r + v)
  {
  }

  /** The angle reached after fraction t of the shortest turn from a1 to a2:
      a1 itself at t = 0, and a2 up to whole turns at t = 1. */
  function Interpolate(a1: real, a2: real, t: real, pi: real): (a: real)
    requires pi > 0.0
    ensures t == 0.0 ==> a == a1
    ensures t == 1.0 ==> a == a2 - Turns(a1, a2, pi) as real * (2.0 * pi)
  {
    ShortestAngleDiffCongruent(a1, a2, pi);
    a1 + t * ShortestAngleDiff(a1, a2, pi)
  }

  /** Both joints moved the fraction t of their shortest turns: the start
      configuration itself at t = 0, the target one up to whole turns at t = 1. */
  function Blend(from: Joints, to: Joints, t: real, pi: real): (q: Joints)
    requires pi > 0.0
    ensures t == 0.0 ==> q == from
    ensures t == 1.0 ==> q.theta1 == to.theta1 - Turns(from.theta1, to.theta1, pi) as real * (2.0 * pi)
    ensures t == 1.0 ==> q.theta2 == to.theta2 - Turns(from.theta2, to.theta2, pi) as real * (2.0 * pi)
  {
    Joints(Interpolate(from.theta1, to.theta1, t, pi), Interpolate(from.theta2, to.theta2, t, pi))
  }

  /** Interpolation never strays more than t*pi from a1. */
  lemma InterpolateWithinHalfTurns(a1: real, a2: real, t: real, pi: real)
    requires pi > 0.0
    requires 0.0 <= t <= 1.0
    ensures Abs(Interpolate(a1, a2, t, pi) - a1) <= t * pi
  {
    ScaledWithinHalfTurn(t, ShortestAngleDiff(a1, a2, pi), pi);
  }

  /** A fraction t in [0, 1] of a turn d in [-pi, pi) is at most t pi in magnitude. */
  lemma ScaledWithinHalfTurn(t: real, d: real, pi: real)
    requires 0.0 <= t
    requires -pi <= d <= pi
    ensures Abs(t * d) <= t * pi
  {
    MulMonotone(d, pi, t + 1.0);
    if t > 0.0 {
      MulMonotone(d, pi, t);
      MulMonotone(-pi, d, t);
    }
  }

  // ---------------------------------------------------------------------------
  // The six-window schedule

  datatype Phase = MoveToInitial | HoldAtInitial | MoveToFinal | HoldAtFinal | ReturnToHome | HoldAtHome
  {
    /** Position of the window in the cycle, 0 to 5. */
    function Index(): nat
    {
      match this
      case MoveToInitial => 0
      case HoldAtInitial => 1
      case MoveToFinal => 2
      case HoldAtFinal => 3
      case ReturnToHome => 4
      case HoldAtHome => 5
    }

    predicate IsMove()
    {
      MoveToInitial? || MoveToFinal? || ReturnToHome?
    }
  }

  /** The first frame value of window k: k * num_frames / 6, in real division. */
  function WindowStart(numFrames: int, k: nat): real
  {
    k as real * numFrames as real / 6.0
  }

  /** Consecutive windows are num_frames / 6 apart. */
  lemma WindowWidth(numFrames: int, k: nat)
    ensures WindowStart(numFrames, k + 1) == WindowStart(numFrames, k) + numFrames as real / 6.0
  {
    Distributes(k as real, 1.0, numFrames as real);
  }

  /** Which of the six windows a frame falls in: window k starts at k W and the
      next one at (k + 1) W. Frames before 0 count as the first window, frames
      at or past the end as the last. */
  function PhaseOf(frame: int, numFrames: int): (p: Phase)
    requires numFrames > 0
    ensures p == MoveToInitial || WindowStart(numFrames, p.Index()) <= frame as real
    ensures p == HoldAtHome || frame as real < WindowStart(numFrames, p.Index() + 1)
  {
    var f := frame as real;
    if f < WindowStart(numFrames, 1) then MoveToInitial
    else if f < WindowStart(numFrames, 2) then HoldAtInitial
    else if f < WindowStart(numFrames, 3) then MoveToFinal
    else if f < WindowStart(numFrames, 4) then HoldAtFinal
    else if f < WindowStart(numFrames, 5) then ReturnToHome
    else HoldAtHome
  }

  /** How far through window k the frame is: (frame - k W) / W with W = num_frames / 6,
      0 at the window's start and 1 at the next window's start. */
  function Progress(frame: int, numFrames: int, k: nat): (t: real)
    requires numFrames > 0
    ensures frame as real == WindowStart(numFrames, k) ==> t == 0.0
    ensures frame as real == WindowStart(numFrames, k + 1) ==> t == 1.0
  {
    WindowWidth(numFrames, k);
    RatioEnds(frame as real - WindowStart(numFrames, k), numFrames as real / 6.0);
    (frame as real - WindowStart(numFrames, k)) / (numFrames as real / 6.0)
  }

  lemma RatioEnds(d: real, w: real)
    requires w > 0.0
    ensures d == 0.0 ==> d / w == 0.0
    ensures d == w ==> d / w == 1.0
  {
  }

  /** The configuration a move window starts from. */
  function MoveStart(plan: Plan, p: Phase): Joints
    requires p.IsMove()
  {
    match p
    case MoveToInitial => plan.home
    case MoveToFinal => plan.initial
    case ReturnToHome => plan.final
  }

  /** The configuration a move window heads for. */
  function MoveEnd(plan: Plan, p: Phase): Joints
    requires p.IsMove()
  {
    match p
    case MoveToInitial => plan.initial
    case MoveToFinal => plan.final
    case ReturnToHome => plan.home
  }

  /** The joint angles shown at a frame: interpolated in the three move windows,
      held in the other three. */
  function JointAnglesAt(plan: Plan, pi: real, frame: int, numFrames: int): (q: Joints)
    requires pi > 0.0
    requires numFrames > 0
    ensures var p := PhaseOf(frame, numFrames);
      p.IsMove() ==> q == Blend(MoveStart(plan, p), MoveEnd(plan, p), Progress(frame, numFrames, p.Index()), pi)
    ensures PhaseOf(frame, numFrames) == HoldAtInitial ==> q == plan.initial
    ensures PhaseOf(frame, numFrames) == HoldAtFinal ==> q == plan.final
    ensures PhaseOf(frame, numFrames) == HoldAtHome ==> q == plan.home
  {
    match PhaseOf(frame, numFrames)
    case MoveToInitial => Blend(plan.home, plan.initial, Progress(frame, numFrames, 0), pi)
    case HoldAtInitial => plan.initial
    case MoveToFinal => Blend(plan.initial, plan.final, Progress(frame, numFrames, 2), pi)
    case HoldAtFinal => plan.final
    case ReturnToHome => Blend(plan.final, plan.home, Progress(frame, numFrames, 4), pi)
    case HoldAtHome => plan.home
  }

  /** For a frame of the animation, the window of index k is the one it falls
      in exactly when k W <= frame < (k + 1) W: the six windows tile [0, num_frames). */
  lemma {:induction false} PhaseOfWindow(frame: int, numFrames: int, k: nat)
    requires numFrames > 0 && 0 <= frame < numFrames
    requires k < 6
    ensures PhaseOf(frame, numFrames).Index() == k
        <==> WindowStart(numFrames, k) <= frame as real < WindowStart(numFrames, k + 1)
  {
    assert WindowStart(numFrames, 6) == numFrames as real;
    assert WindowStart(numFrames, 0) == 0.0;
  }

  /** In a move window the progress runs over [0, 1). */
  lemma {:induction false} ProgressInUnitInterval(frame: int, numFrames: int)
    requires numFrames > 0 && 0 <= frame < numFrames
    requires PhaseOf(frame, numFrames).IsMove()
    ensures var t := Progress(frame, numFrames, PhaseOf(frame, numFrames).Index());
      0.0 <= t < 1.0
  {
    var k := PhaseOf(frame, numFrames).Index();
    PhaseOfWindow(frame, numFrames, k);
    WindowWidth(numFrames, k);
    DivBelowOne(frame as real - WindowStart(numFrames, k), numFrames as real / 6.0);
  }

  /** Each move window starts exactly at its start configuration: home at frame
      0, initial at 2 W and final at 4 W (when those are whole frames). */
  lemma {:induction false} MoveWindowsStartExactly(plan: Plan, pi: real, numFrames: int, frame: int)
    requires pi > 0.0
    requires numFrames > 0
    ensures JointAnglesAt(plan, pi, 0, numFrames) == plan.home
    ensures frame as real == WindowStart(numFrames, 2) ==> JointAnglesAt(plan, pi, frame, numFrames) == plan.initial
    ensures frame as real == WindowStart(numFrames, 4) ==> JointAnglesAt(plan, pi, frame, numFrames) == plan.final
  {
    assert Progress(0, numFrames, 0) == 0.0;
    if frame as real == WindowStart(numFrames, 2) {
      assert PhaseOf(frame, numFrames) == MoveToFinal;
      assert Progress(frame, numFrames, 2) == 0.0;
    }
    if frame as real == WindowStart(numFrames, 4) {
      assert PhaseOf(frame, numFrames) == ReturnToHome;
      assert Progress(frame, numFrames, 4) == 0.0;
    }
  }

  /** In a move window each joint is on the short arc from the window's start
      configuration toward its end configuration, at most pi away from the start. */
  lemma {:induction false} MoveWindowsTakeShortArc(plan: Plan, pi: real, frame: int, numFrames: int)
    requires pi > 0.0
    requires numFrames > 0 && 0 <= frame < numFrames
    requires PhaseOf(frame, numFrames).IsMove()
    ensures var from := MoveStart(plan, PhaseOf(frame, numFrames));
            var q := JointAnglesAt(plan, pi, frame, numFrames);
            Abs(q.theta1 - from.theta1) < pi && Abs(q.theta2 - from.theta2) < pi
  {
    var p := PhaseOf(frame, numFrames);
    var t := Progress(frame, numFrames, p.Index());
    ProgressInUnitInterval(frame, numFrames);
    BlendShortArc(MoveStart(plan, p), MoveEnd(plan, p), t, pi);
  }

  /** Short of the full step (t < 1), a blend stays strictly within pi of its start. */
  lemma BlendShortArc(from: Joints, to: Joints, t: real, pi: real)
    requires pi > 0.0
    requires 0.0 <= t < 1.0
    ensures Abs(Blend(from, to, t, pi).theta1 - from.theta1) < pi
    ensures Abs(Blend(from, to, t, pi).theta2 - from.theta2) < pi
  {
    InterpolateShortArc(from.theta1, to.theta1, t, pi);
    InterpolateShortArc(from.theta2, to.theta2, t, pi);
  }

  lemma InterpolateShortArc(a1: real, a2: real, t: real, pi: real)
    requires pi > 0.0
    requires 0.0 <= t < 1.0
    ensures Abs(Interpolate(a1, a2, t, pi) - a1) < pi
  {
    InterpolateWithinHalfTurns(a1, a2, t, pi);
    MulMonotone(t, 1.0, pi);
    calc {
      Abs(Interpolate(a1, a2, t, pi) - a1);
    <=
      t * pi;
    <
      1.0 * pi;
    ==
      pi;
    }
  }

  // ---------------------------------------------------------------------------
  // The box

  function Lerp(a: Point, b: Point, t: real): Point
  {
    Point(a.x + t * (b.x - a.x), a.y + t * (b.y - a.y))
  }

  /** The lower-left corner handed to set_xy for a box centred on c. */
  function BoxCorner(c: Point): Point
  {
    Point(c.x - BoxWidth / 2.0, c.y - BoxHeight / 2.0)
  }

  /** The new box centre at a frame, given the end-effector point, or None when
      the frame leaves the box where it is. The box is moved exactly in the
      carry window, where it is centred on the end-effector, and in the last
      window up to the end of the animation. */
  function BoxCentre(frame: int, numFrames: int, tip: Point): (c: Option<Point>)
    requires numFrames > 0
    ensures c.Some? <==> PhaseOf(frame, numFrames) == MoveToFinal
                         || (PhaseOf(frame, numFrames) == HoldAtHome && frame < numFrames)
    ensures PhaseOf(frame, numFrames) == MoveToFinal ==> c == Some(tip)
  {
    var f := frame as real;
    if WindowStart(numFrames, 2) <= f < WindowStart(numFrames, 3) then Some(tip)
    else if WindowStart(numFrames, 5) <= f < numFrames as real then
      Some(Lerp(FinalBox, InitialBox, Progress(frame, numFrames, 5)))
    else None
  }

  /** The coordinates the on-screen label shows at a frame. While carried, it
      shows the end-effector's x and the box's bottom edge; when the box slides
      back, its new centre; when the box is not moved, one of its two spots. */
  function BoxLabel(frame: int, numFrames: int, tip: Point): (l: Point)
    requires numFrames > 0
    ensures PhaseOf(frame, numFrames) == MoveToFinal ==> l == Point(tip.x, tip.y - BoxHeight / 2.0)
    ensures PhaseOf(frame, numFrames) != MoveToFinal && BoxCentre(frame, numFrames, tip).Some?
            ==> l == BoxCentre(frame, numFrames, tip).value
    ensures BoxCentre(frame, numFrames, tip).None? ==> l == InitialBox || l == FinalBox
  {
    var f := frame as real;
    match BoxCentre(frame, numFrames, tip)
    case Some(c) =>
      if WindowStart(numFrames, 2) <= f < WindowStart(numFrames, 3) then Point(tip.x, tip.y - BoxHeight / 2.0)
      else c
    case None =>
      if f < WindowStart(numFrames, 1) then InitialBox
      else if f < WindowStart(numFrames, 2) then InitialBox
      else if f < WindowStart(numFrames, 5) then FinalBox
      else InitialBox
  }

  /** While the arm carries the box (the MoveToFinal window) it is centred on
      the end-effector and the label shows its bottom edge under it. */
  lemma BoxFollowsEndEffector(frame: int, numFrames: int, tip: Point)
    requires numFrames > 0
    requires PhaseOf(frame, numFrames) == MoveToFinal
    ensures BoxCentre(frame, numFrames, tip) == Some(tip)
    ensures BoxLabel(frame, numFrames, tip) == Point(tip.x, tip.y - BoxHeight / 2.0)
  {
  }

  /** In the last window of the animation the box slides from the final spot
      back toward the initial one, independently of the arm: at the window's
      start it is at the final spot and it stays on the segment between the two,
      strictly inside it once the window has begun. */
  lemma {:induction false} BoxResetSlides(frame: int, numFrames: int, tip: Point)
    requires numFrames > 0 && 0 <= frame < numFrames
    requires PhaseOf(frame, numFrames) == HoldAtHome
    ensures var t := Progress(frame, numFrames, 5);
      && 0.0 <= t < 1.0
      && BoxCentre(frame, numFrames, tip) == Some(Lerp(FinalBox, InitialBox, t))
      && BoxLabel(frame, numFrames, tip) == Lerp(FinalBox, InitialBox, t)
      && (t == 0.0 ==> Lerp(FinalBox, InitialBox, t) == FinalBox)
      && (t > 0.0 ==> InitialBox.x < Lerp(FinalBox, InitialBox, t).x < FinalBox.x)
      && Lerp(FinalBox, InitialBox, t).y == FinalBox.y
  {
    PhaseOfWindow(frame, numFrames, 5);
    WindowWidth(numFrames, 5);
    DivBelowOne(frame as real - WindowStart(numFrames, 5), numFrames as real / 6.0);
  }

  /** Outside the carry window and the reset window the box is not moved, and
      the label shows where the box was left: the initial spot before the carry,
      the final spot after it. */
  lemma {:induction false} BoxLeftInPlace(frame: int, numFrames: int, tip: Point)
    requires numFrames > 0 && 0 <= frame < numFrames
    requires PhaseOf(frame, numFrames) != MoveToFinal && PhaseOf(frame, numFrames) != HoldAtHome
    ensures BoxCentre(frame, numFrames, tip) == None
    ensures PhaseOf(frame, numFrames).Index() < 2 ==> BoxLabel(frame, numFrames, tip) == InitialBox
    ensures PhaseOf(frame, numFrames).Index() > 2 ==> BoxLabel(frame, numFrames, tip) == FinalBox
  {
    PhaseOfWindow(frame, numFrames, PhaseOf(frame, numFrames).Index());
  }

  /** The script's own run (400 frames): frame 0 shows home, frame 133 holds the
      initial configuration, frames 134 to 199 carry the box, frame 200 already
      holds at the final configuration with the box left alone, and at frame 399
      the box is strictly between the final and initial spots. */
  lemma ScriptScenario(tr: Trig, tip: Point)
    ensures JointAnglesAt(SourcePlan(tr), tr.pi, 0, NumFrames) == SourcePlan(tr).home
    ensures JointAnglesAt(SourcePlan(tr), tr.pi, 133, NumFrames) == SourcePlan(tr).initial
    ensures PhaseOf(134, NumFrames) == MoveToFinal && PhaseOf(199, NumFrames) == MoveToFinal
    ensures BoxCentre(199, NumFrames, tip) == Some(tip)
    ensures PhaseOf(200, NumFrames) == HoldAtFinal && BoxCentre(200, NumFrames, tip) == None
    ensures BoxCentre(399, NumFrames, tip).Some?
    ensures InitialBox.x < BoxCentre(399, NumFrames, tip).value.x < FinalBox.x
  {
    MoveWindowsStartExactly(SourcePlan(tr), tr.pi, NumFrames, 0);
    BoxResetSlides(399, NumFrames, tip);
    assert Progress(399, NumFrames, 5) > 0.0;
  }
}
