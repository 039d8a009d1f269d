# 2-link planar arm: kinematics, motion schedule, cubic blend and singularity test

This project models, over exact real numbers, the numerical core shared by three
robotics scripts of the repository, and proves properties of that model.

- **Pick-and-place animation** (`2r-pick-and-place-robot.py`):
  - closed-form inverse kinematics and forward kinematics with absolute joint angles;
  - the shortest-angle wrap `(d + pi) % (2 pi) - pi`;
  - the six-window schedule that turns a frame number into joint angles;
  - the rule that moves the box and sets its coordinate caption;
  - the animated figure as a class whose `Update` method changes the patches in place.
- **Cubic trajectory** (`Python_program_for_2R_Robot.py`): the rest-to-rest cubic
  coefficients and the evaluation of the polynomial.
- **Singularity explorer** (`interactive_robot_arm_singularity_explorer.py`):
  - the analytic 2x2 Jacobian with relative joint angles, and its determinant;
  - the `|det| < 0.01` test and the singular/normal choices `plot_robot_arm` makes.

The two angle conventions are kept apart. `PickAndPlace.Joints` holds absolute
headings. The explorer's functions take link 2's angle relative to link 1.
`AngleConventions` converts between them and relates the two models.

Files:

| file | module | what it holds |
|---|---|---|
| `plane.dfy` | `Plane` | the `Point` both arms use |
| `wrappers.dfy` | `Wrappers` | `Option` |
| `real_math.dfy` | `RealMath` | Python's `%` on reals, `**2`/`**3`, `abs`, and the trigonometry record `Trig` |
| `pick_and_place.dfy` | `PickAndPlace` | kinematics, wrap, schedule, box rule |
| `pick_and_place_scene.dfy` | `PickAndPlaceScene` | the animated figure (`Scene`) and the per-frame `update` |
| `cubic_trajectory.dfy` | `CubicTrajectory` | cubic coefficients and evaluation |
| `singularity_explorer.dfy` | `SingularityExplorer` | Jacobian, determinant, singularity test, what the figure shows |
| `angle_conventions.dfy` | `AngleConventions` | absolute versus relative joint angles |

How the model is set up:

- **Trigonometry.** `np.sin`, `np.cos`, `np.arccos` and `np.arctan2` are fields of a
  `Trig` value, and so is `np.pi`, a positive real. They are uninterpreted. A lemma that
  needs an identity asks for it in its `requires`:
  - `SineSubtraction`: sin(a - b) = sin a cos b - cos a sin b;
  - `SineZeros`: sin 0 = sin pi = 0;
  - `Pythagorean`: sin^2 + cos^2 = 1.
- **Python's `%`** with a positive divisor is `FloorMod`, whose result lies in
  [0, m). Python floors; it does not truncate toward zero.
- **Floats** are exact reals, so rounding is not modelled.

In the places below the code behaves differently from what one might expect of it. The model follows the code:

- In exact arithmetic `shortest_angle_diff` returns values in [-pi, pi), not
  (-pi, pi]. A half turn is reported as -pi (`ShortestAngleDiffHalfTurn`). With floats,
  `%` can round a tiny negative dividend up to 2 pi, so the script can return +pi.
- With 400 frames the windows start at 0, 66.67, 133.33, 200, 266.67 and 333.33.
  - Frame 199 is still in the carry window (MoveToFinal), not a hold at the initial
    configuration.
  - Frame 200 is the first frame of HoldAtFinal. There the box is no longer moved.
  - The box is tracked from frame 134 to frame 199 (`ScriptScenario`).
- An unreachable inverse-kinematics target is not reported as an error. The
  script hands an out-of-range value to `arccos`, which yields NaN.
  `ReachableIffCosineRatioInDomain` states exactly when that happens.
- The cubic is defined only for `tf != t0`, as a precondition. The script divides by
  zero otherwise. Time is counted from 0: the polynomial reaches `qf` at
  `t = tf - t0`, not at `t = tf`.
- Frames at or beyond `num_frames` hold at home. The schedule does not wrap around.
- `FuncAnimation` repeats by default, so frame 0 follows frame 399. Frames 0 to 133
  never call `set_xy`. On the second pass the box therefore stays where frame 399 left
  it, just short of the initial spot, while the caption already reads (-10.00, -5.00)
  (`Replay`).
- `SelectJoints`, `MoveJoints` and `PlaceBox` are the branch-by-branch rendering of
  the body of `update`. Each is proved equal to the function that specifies it
  (`JointAnglesAt`, `Blend`, `BoxCentre` and `BoxLabel`), and the lemmas are stated
  about those functions.

## Model

| member | source | states |
|---|---|---|
| RealMath.FloorMod | 2r-pick-and-place-robot.py:65 | Python's `%` by a positive divisor lies in [0, m) and differs from x by a whole number of m |
| RealMath.FloorModUnique | 2r-pick-and-place-robot.py:65 | any split x = k m + r with r in [0, m) is the one `%` and floor division produce |
| RealMath.FloorModShift | 2r-pick-and-place-robot.py:65 | adding whole multiples of the divisor does not change the remainder |
| PickAndPlace.TargetDistanceSquared | 2r-pick-and-place-robot.py:22 | the squared distance to the raised target is never negative |
| PickAndPlace.InverseKinematics | 2r-pick-and-place-robot.py:20-33 | the second returned angle minus the first is the relative elbow angle pi - arccos(law-of-cosines ratio) |
| PickAndPlace.ReachableIffCosineRatioInDomain | 2r-pick-and-place-robot.py:22-25 | the arccos argument lies in [-1, 1] exactly when the target is within reach (distance between abs(L1 - L2) and L1 + L2) |
| PickAndPlace.SourceTargetsReachable | 2r-pick-and-place-robot.py:39-41 | the home, initial and final targets the script solves for are all within reach |
| PickAndPlace.SourcePlan | 2r-pick-and-place-robot.py:39-41 | for each of the home, initial and final targets, link 2 is turned from link 1 by pi minus the law-of-cosines angle of that target |
| PickAndPlace.InverseKinematicsOffset | 2r-pick-and-place-robot.py:20-33 | solving with an offset is solving for the target raised by that offset |
| PickAndPlace.ForwardKinematics | 2r-pick-and-place-robot.py:44-53 | the elbow is L1 along theta1 from the base; the end-effector, raised back by the offset, is L2 along theta2 from the elbow |
| PickAndPlace.ForwardKinematicsOffset | 2r-pick-and-place-robot.py:44-53 | the offset lowers the end-effector only and leaves the elbow alone |
| PickAndPlace.ForwardKinematicsLinkLengths | 2r-pick-and-place-robot.py:44-53 | given sin^2 + cos^2 = 1, the elbow is L1 from the base and the end-effector L2 from the elbow |
| PickAndPlace.ShortestAngleDiff | 2r-pick-and-place-robot.py:63-65 | in exact arithmetic the wrapped difference lies in [-pi, pi) |
| PickAndPlace.ShortestAngleDiffCongruent | 2r-pick-and-place-robot.py:63-65 | a1 plus the wrapped difference equals a2 minus a whole number of turns |
| PickAndPlace.ShortestAngleDiffOfWrapped | 2r-pick-and-place-robot.py:63-65 | a2 - a1 comes back unchanged if and only if it already lies in [-pi, pi) |
| PickAndPlace.ShortestAngleDiffIdempotent | 2r-pick-and-place-robot.py:63-65 | wrapping an already wrapped difference changes nothing |
| PickAndPlace.ShortestAngleDiffSelf | 2r-pick-and-place-robot.py:63-65 | the difference from an angle to itself is 0 |
| PickAndPlace.ShortestAngleDiffHalfTurn | 2r-pick-and-place-robot.py:63-65 | a half turn comes out as -pi, never +pi |
| PickAndPlace.ShortestAngleDiffPeriodic | 2r-pick-and-place-robot.py:63-65 | adding whole turns to a2 does not change the result |
| PickAndPlace.ShortestAngleDiffMinimal | 2r-pick-and-place-robot.py:63-65 | no whole-turn variant of a2 - a1 has a smaller magnitude than the wrapped difference |
| PickAndPlace.Interpolate | 2r-pick-and-place-robot.py:77-81 | at t = 0 the angle is a1 itself, and at t = 1 it is a2 up to a whole number of turns |
| PickAndPlace.InterpolateWithinHalfTurns | 2r-pick-and-place-robot.py:77-81 | for t in [0, 1] the interpolated angle is within t pi of its start |
| PickAndPlace.Blend | 2r-pick-and-place-robot.py:77-81 | at t = 0 both joints are at the start configuration; at t = 1 each joint is at its target up to whole turns |
| PickAndPlace.InterpolateShortArc | 2r-pick-and-place-robot.py:78-81 | for t in [0, 1) the interpolated angle is strictly less than pi from its start |
| PickAndPlace.BlendShortArc | 2r-pick-and-place-robot.py:78-81 | both joints of a blend stay strictly within pi of the start configuration |
| PickAndPlace.WindowWidth | 2r-pick-and-place-robot.py:74-116 | consecutive window boundaries k num_frames / 6 are num_frames / 6 apart |
| PickAndPlace.PhaseOf | 2r-pick-and-place-robot.py:74-116 | for every frame, the chosen window k has k W <= frame (except the first window) and frame < (k + 1) W (except the last) |
| PickAndPlace.Progress | 2r-pick-and-place-robot.py:77-107 | the progress through window k is 0 at the window's first boundary k W and 1 at the next boundary (k + 1) W |
| PickAndPlace.PhaseOfWindow | 2r-pick-and-place-robot.py:74-116 | for a frame in [0, num_frames), window k is chosen if and only if k W <= frame < (k + 1) W, so the six windows tile the animation |
| PickAndPlace.ProgressInUnitInterval | 2r-pick-and-place-robot.py:77-107 | in the three move windows the progress t lies in [0, 1) |
| PickAndPlace.JointAnglesAt | 2r-pick-and-place-robot.py:74-116 | a move window shows the blend of its start and end configurations at the window's progress; each hold window shows its stored configuration (initial, final, home), whatever the frame |
| PickAndPlace.MoveWindowsStartExactly | 2r-pick-and-place-robot.py:74-111 | the schedule starts exactly at home at frame 0; the moves from initial and from final start exactly there at frames 2W and 4W whenever those are whole frames (with 400 frames they are not, so there the first frame of those moves already has progress above 0) |
| PickAndPlace.MoveWindowsTakeShortArc | 2r-pick-and-place-robot.py:74-111 | in a move window each joint stays strictly within pi of the window's start configuration |
| PickAndPlace.BoxCentre | 2r-pick-and-place-robot.py:134-142 | the box is moved exactly in the carry window and in the last window before num_frames, and in the carry window it is centred on the end-effector |
| PickAndPlace.BoxLabel | 2r-pick-and-place-robot.py:134-151 | in the carry window the caption shows the end-effector's x and the box's bottom edge; when the box slides back, its new centre; when it is not moved, the initial or the final spot |
| PickAndPlace.BoxFollowsEndEffector | 2r-pick-and-place-robot.py:134-136 | in the carry window the box is centred on the end-effector and the caption shows the box's bottom edge |
| PickAndPlace.BoxResetSlides | 2r-pick-and-place-robot.py:137-142 | in the last window the box slides from the final spot toward the initial spot, strictly between them once the window has begun |
| PickAndPlace.BoxLeftInPlace | 2r-pick-and-place-robot.py:143-151 | in every other frame the box is not moved, and the caption shows the initial spot before the carry and the final spot after it |
| PickAndPlace.ScriptScenario | 2r-pick-and-place-robot.py:74-151 | with 400 frames: home at frame 0, initial held at 133, the box carried from 134 to 199 and not moved at 200, and between the two spots at 399 |
| PickAndPlaceScene.Scene.constructor | 2r-pick-and-place-robot.py:164-192 | the figure starts with both links at their home rotations about the base, the box at its initial spot and an empty caption |
| PickAndPlaceScene.Scene.Update | 2r-pick-and-place-robot.py:68-153 | links and joint follow the scheduled angles through forward kinematics; the box is moved only in the carry and reset windows and otherwise keeps its previous position |
| PickAndPlaceScene.Replay | 2r-pick-and-place-robot.py:134-151 | when the animation repeats (frame 0 after frame 399), the caption reads the initial spot while the box is still short of it |
| PickAndPlaceScene.SelectJoints | 2r-pick-and-place-robot.py:73-116 | the six-way branch on the frame computes exactly the scheduled joint angles |
| PickAndPlaceScene.MoveJoints | 2r-pick-and-place-robot.py:77-81 | advancing each joint by t times its shortest difference is the blend of the two configurations |
| PickAndPlaceScene.PlaceBox | 2r-pick-and-place-robot.py:131-151 | the box branch computes exactly the box centre (if any) and the caption of the box rule |
| CubicTrajectory.CubicCoefficients | Python_program_for_2R_Robot.py:12-17 | a0 = q0, a1 = 0, a2 (tf - t0)^2 = 3 (qf - q0) and a3 (tf - t0)^3 = -2 (qf - q0) |
| CubicTrajectory.CubicTrajectory | Python_program_for_2R_Robot.py:19-20 | the position minus a0 is t times a1 + t (a2 + t a3): Horner's form of the cubic |
| CubicTrajectory.VelocityIsDerivative | Python_program_for_2R_Robot.py:19-20 | the velocity polynomial is the derivative of the trajectory: the change over a step h is h times the velocity plus a term of order h^2 |
| CubicTrajectory.StartsAtStart | Python_program_for_2R_Robot.py:13-20 | the trajectory is at q0 at time 0 |
| CubicTrajectory.EndsAtGoal | Python_program_for_2R_Robot.py:15-20 | the trajectory reaches qf at time tf - t0 |
| CubicTrajectory.RestAtEnd | Python_program_for_2R_Robot.py:15-16 | coefficients solving the two end equations give zero velocity at the end of the window |
| CubicTrajectory.AtRestAtBothEnds | Python_program_for_2R_Robot.py:14-16 | the velocity is zero at time 0 and at time tf - t0 |
| CubicTrajectory.StillWhenNoTravel | Python_program_for_2R_Robot.py:15-17 | when q0 = qf the coefficients are (q0, 0, 0, 0) and the trajectory stays at q0 |
| SingularityExplorer.CalculateJacobian | interactive_robot_arm_singularity_explorer.py:24-51 | J11 = -y and J21 = x for the returned end-effector (x, y); the returned det is the determinant of the returned matrix |
| SingularityExplorer.IsSingular | interactive_robot_arm_singularity_explorer.py:81 | a determinant counts as singular exactly when it lies strictly between -0.01 and 0.01 |
| SingularityExplorer.SecondColumnIsLinkTwo | interactive_robot_arm_singularity_explorer.py:39-42 | the second column depends only on link 2's heading and length; the first column is the second plus link 1's contribution |
| SingularityExplorer.DeterminantExpanded | interactive_robot_arm_singularity_explorer.py:39-49 | det = L1 L2 (sin(theta1 + theta2) cos theta1 - sin theta1 cos(theta1 + theta2)) |
| SingularityExplorer.DeterminantIsSineOfElbow | interactive_robot_arm_singularity_explorer.py:39-49 | given the angle-subtraction identity, det = L1 L2 sin theta2 |
| SingularityExplorer.DeterminantIndependentOfShoulder | interactive_robot_arm_singularity_explorer.py:39-49 | given the angle-subtraction identity, the determinant does not depend on theta1 |
| SingularityExplorer.SingularWhenStraightOrFolded | interactive_robot_arm_singularity_explorer.py:249-251 | fully stretched (theta2 = 0) and folded back (theta2 = pi), det is 0 and the test reports a singularity |
| SingularityExplorer.SingularIffElbowSineSmall | interactive_robot_arm_singularity_explorer.py:81 | for positive link lengths, abs(det) < 0.01 holds exactly when abs(sin theta2) < 0.01 / (L1 L2) |
| SingularityExplorer.PlotRobotArm | interactive_robot_arm_singularity_explorer.py:54-161 | the end-effector found by chaining the links is the position calculate_jacobian returns, and the returned det is the Jacobian's |
| SingularityExplorer.PlotBranchesAgree | interactive_robot_arm_singularity_explorer.py:81-151 | the motion cue, title and explanation are all singular exactly when abs(det) < 0.01, and the "why" note appears only on a singular configuration |
| SingularityExplorer.ExplainedWhenStraightOrFolded | interactive_robot_arm_singularity_explorer.py:150-154 | at theta2 = 0 and theta2 = pi the title is the singular one and the "stretched out or folded back" note is shown |
| SingularityExplorer.Radians | interactive_robot_arm_singularity_explorer.py:188-189 | 0 degrees is 0 radians and 180 degrees is pi |
| SingularityExplorer.SliderView | interactive_robot_arm_singularity_explorer.py:186-192 | the figure for slider positions in degrees shows the Jacobian's det and end-effector at those angles in radians, and its cue and title are singular exactly when abs(det) < 0.01 |
| SingularityExplorer.SliderSingularities | interactive_robot_arm_singularity_explorer.py:249-251 | elbow slider at 0 or 180 degrees gives the singular figure with its note, whatever the shoulder slider says |
| AngleConventions.ToRelative | 2r-pick-and-place-robot.py:33 | the relative form keeps link 1's heading, and link 1's heading plus the elbow angle is link 2's absolute heading |
| AngleConventions.ToAbsolute | 2r-pick-and-place-robot.py:33 | converting back to the relative convention gives the input, and the heading difference is the elbow angle |
| AngleConventions.ConversionsInverse | 2r-pick-and-place-robot.py:33 | absolute to relative and back is the identity |
| AngleConventions.SameEndEffector | 2r-pick-and-place-robot.py:44-53 | with the same link lengths, the pick-and-place forward kinematics on absolute angles and the explorer's position on the matching relative angles put the end-effector at the same point |
| AngleConventions.PickAndPlaceSingularity | interactive_robot_arm_singularity_explorer.py:81 | the pick-and-place arm is singular in the explorer's sense exactly when abs(sin(theta2 - theta1)) of its absolute headings is below 0.01 / (L1 L2) |

## Left out

- Drawing is not modelled: matplotlib patches, transforms, `FuncAnimation`, sliders, buttons and text boxes. The scene keeps only the values `update` hands to the patches.
- The workspace-boundary sampling loop, the `np.linspace` circle and line samples, and the Jacobian's text layout are not modelled. These are rendering details.
- The direction of the restricted-movement line is not modelled. That covers the normalisation of the first Jacobian column and its `1e-6` norm threshold. The model's cue records which branch of the `abs(det) < 0.01` test was taken. When the first column's norm is at most `1e-6` the script draws no line in that branch, and the model does not tell that case apart. This is floating-point vector work for display.
- The determinant examples and remarks printed at the end of the explorer are console output. Only the remark that theta2 = 0 and 180 degrees are singular is stated (`SliderSingularities`).
- The frame loop of `Python_program_for_2R_Robot.py` is not modelled. It accumulates `tframe` and writes bone locations and keyframes, which is host-application I/O.
- The rest of the repository is not part of this model: `Robot_programming.py`, `transformations.py`, `robotics_utils.py`, `blender_utils.py` and `playground.py`. It is scene-graph plumbing over a 3D content tool.
- PickAndPlace.InverseKinematics: only the relation between the two returned angles is stated. The inverse/forward round trip and the value of `arccos`/`arctan2` need a theory of trigonometry, which the uninterpreted functions do not provide.
- PickAndPlace.InverseKinematics: an out-of-reach target gives NaN in the script. The model has no NaN; `ReachableIffCosineRatioInDomain` states exactly which targets fall outside `arccos`'s domain.
- PickAndPlace.InverseKinematics: `sqrt` is omitted. The distance is squared again right after it is computed, so the squared distance is used directly.
- Floating-point rounding is not modelled. `np.linalg.det` is taken as the exact 2x2 determinant, and frame boundaries such as 400 / 6 are exact reals.
- The trigonometric identities are hypotheses of the lemmas that use them, not facts about a concrete sine. They are angle subtraction, sin 0 = sin pi = 0, and sin^2 + cos^2 = 1.
- The link-1 patch's position, the base circle and the base plate are not fields of `Scene`, because `update` never changes them. The elbow joint circle that `update` moves is `jointCenter`.
- The captions' `:.2f` formatting is not modelled. A caption is the point it formats, not the two-decimal string.
