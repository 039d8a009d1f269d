/** The animated figure of 2r-pick-and-place-robot.py: the patches that the
    per-frame `update` callback repositions. Everything `update` draws is a
    function of the frame number except the box, which keeps the position it
    was last given in the frames that do not move it. */
module PickAndPlaceScene {
  import opened RealMath
  import opened PickAndPlace
  import opened Plane
  import opened Wrappers

  class Scene {
    // What the script fixes at start-up.
    const tr: Trig
    const plan: Plan
    const numFrames: int

    // Link 1 is drawn rotated by this angle about the base.
    var link1Rotation: real
    // Link 2 is drawn rotated by link2Rotation about link2Pivot, its patch anchored at link2Origin.
    var link2Pivot: Point
    var link2Rotation: real
    var link2Origin: Point
    // The circle marking the elbow joint.
    var jointCenter: Point
    // The lower-left corner of the box rectangle.
    var boxCorner: Point
    // The coordinates the box caption shows; None while it still holds the empty text.
    var boxLabel: Option<Point>

    ghost predicate Valid()
      reads this
    {
      numFrames > 0
    }

    /** The figure as the script sets it up: the arm drawn at home through the
        base, the box at its initial spot, the caption empty. */
    constructor (tr: Trig)
      ensures Valid()
      ensures this.tr == tr && plan == SourcePlan(tr) && numFrames == NumFrames
      ensures link1Rotation == plan.home.theta1 && link2Rotation == plan.home.theta2
      ensures link2Pivot == Point(0.0, 0.0) && jointCenter == Point(0.0, 0.0)
      ensures link2Origin == Point(LinkThickness / 2.0, -LinkThickness / 2.0)
      ensures boxCorner == BoxCorner(InitialBox)
      ensures boxLabel == None
    {
      this.tr := tr;
      plan := SourcePlan(tr);
      numFrames := NumFrames;
      link1Rotation := SourcePlan(tr).home.theta1;
      link2Rotation := SourcePlan(tr).home.theta2;
      link2Pivot := Point(0.0, 0.0);
      link2Origin := Point(LinkThickness / 2.0, -LinkThickness / 2.0);
      jointCenter := Point(0.0, 0.0);
      boxCorner := BoxCorner(InitialBox);
      boxLabel := None;
    }

    /** The per-frame callback. The arm is redrawn from the frame alone; the box
        is moved only in the carry and reset windows and otherwise stays put. */
    method Update(frame: int)
      requires Valid()
      modifies this
      ensures Valid()
      ensures var q := JointAnglesAt(plan, tr.pi, frame, numFrames);
              var pose := ForwardKinematics(tr, q.theta1, q.theta2, BoxHeight / 2.0);
              && link1Rotation == q.theta1
              && link2Rotation == q.theta2
              && link2Pivot == pose.elbow
              && jointCenter == pose.elbow
              && link2Origin == Point(pose.elbow.x, pose.elbow.y - LinkThickness / 2.0)
              && boxLabel == Some(BoxLabel(frame, numFrames, pose.tip))
              && boxCorner == match BoxCentre(frame, numFrames, pose.tip)
                              case Some(c) => BoxCorner(c)
                              case None => old(boxCorner)
    {
      var q := SelectJoints(plan, tr.pi, frame, numFrames);
      var pose := ForwardKinematics(tr, q.theta1, q.theta2, BoxHeight / 2.0);
      var x1, y1 := pose.elbow.x, pose.elbow.y;
      link1Rotation := q.theta1;
      link2Pivot, link2Rotation := Point(x1, y1), q.theta2;
      link2Origin := Point(x1, y1 - LinkThickness / 2.0);
      jointCenter := Point(x1, y1);
      var centre, caption := PlaceBox(frame, numFrames, pose.tip);
      if centre.Some? {
        boxCorner := BoxCorner(centre.value);
      }
      boxLabel := Some(caption);
    }
  }

  /** FuncAnimation repeats by default, so frame 0 follows frame 399. Frame 0
      does not move the box, which stays short of its initial spot where the
      last frame left it, while the caption already reads the initial spot. */
  method Replay(tr: Trig) returns (s: Scene)
    ensures s.boxLabel == Some(InitialBox)
    ensures s.boxCorner != BoxCorner(InitialBox)
    ensures s.boxCorner.x > BoxCorner(InitialBox).x
  {
    s := new Scene(tr);
    s.Update(NumFrames - 1);
    ghost var tip := ForwardKinematics(tr, JointAnglesAt(s.plan, tr.pi, NumFrames - 1, NumFrames).theta1,
                                        JointAnglesAt(s.plan, tr.pi, NumFrames - 1, NumFrames).theta2,
                                        BoxHeight / 2.0).tip;
    ScriptScenario(tr, tip);
    s.Update(0);
    BoxLeftInPlace(0, NumFrames, ForwardKinematics(tr, JointAnglesAt(s.plan, tr.pi, 0, NumFrames).theta1,
                                                   JointAnglesAt(s.plan, tr.pi, 0, NumFrames).theta2,
                                                   BoxHeight / 2.0).tip);
  }

  /** The joint-angle part of `update`: the six-way branch on the frame. */
  method SelectJoints(plan: Plan, pi: real, frame: int, numFrames: int) returns (q: Joints)
    requires pi > 0.0 && numFrames > 0
    ensures q == JointAnglesAt(plan, pi, frame, numFrames)
  {
    var f, w := frame as real, numFrames as real / 6.0;
    if f < WindowStart(numFrames, 1) {
      q := MoveJoints(plan.home, plan.initial, (f - WindowStart(numFrames, 0)) / w, pi);
    } else if f < WindowStart(numFrames, 2) {
      q := Joints(plan.initial.theta1, plan.initial.theta2);
    } else if f < WindowStart(numFrames, 3) {
      q := MoveJoints(plan.initial, plan.final, (f - WindowStart(numFrames, 2)) / w, pi);
    } else if f < WindowStart(numFrames, 4) {
      q := Joints(plan.final.theta1, plan.final.theta2);
    } else if f < WindowStart(numFrames, 5) {
      q := MoveJoints(plan.final, plan.home, (f - WindowStart(numFrames, 4)) / w, pi);
    } else {
      q := Joints(plan.home.theta1, plan.home.theta2);
    }
  }

  /** One joint-space step of a move window: each joint advances by the fraction
      t of its shortest signed difference to the target. */
  method MoveJoints(from: Joints, to: Joints, t: real, pi: real) returns (q: Joints)
    requires pi > 0.0
    ensures q == Blend(from, to, t, pi)
  {
    var theta1 := from.theta1 + t * ShortestAngleDiff(from.theta1, to.theta1, pi);
    var theta2 := from.theta2 + t * ShortestAngleDiff(from.theta2, to.theta2, pi);
    q := Joints(theta1, theta2);
  }

  /** The box part of `update`: where the box is moved to, if anywhere, and
      what the caption then shows. */
  method PlaceBox(frame: int, numFrames: int, tip: Point) returns (centre: Option<Point>, caption: Point)
    requires numFrames > 0
    ensures centre == BoxCentre(frame, numFrames, tip)
    ensures caption == BoxLabel(frame, numFrames, tip)
  {
    var f, n, w := frame as real, numFrames as real, numFrames as real / 6.0;
    if 2.0 * n / 6.0 <= f < 3.0 * n / 6.0 {
      centre := Some(tip);
      caption := Point(tip.x, tip.y - BoxHeight / 2.0);
    } else if 5.0 * n / 6.0 <= f < n {
      var t := (f - 5.0 * n / 6.0) / w;
      assert t == Progress(frame, numFrames, 5);
      var xBox := FinalBox.x + t * (InitialBox.x - FinalBox.x);
      var yBox := FinalBox.y + t * (InitialBox.y - FinalBox.y);
      centre := Some(Point(xBox, yBox));
      caption := Point(xBox, yBox);
    } else {
      centre := None;
      if f < n / 6.0 {
        caption := InitialBox;
      } else if f < 2.0 * n / 6.0 {
        caption := InitialBox;
      } else if f < 5.0 * n / 6.0 {
        caption := FinalBox;
      } else {
        caption := InitialBox;
      }
    }
  }
}
