/**
  The pose planner of the 3D mascot: each animation frame picks target
  values for the figure's position and for its head, arm and body rotations
  from the current page section, then layers the right-arm wave (section 5)
  and the head's mouse parallax on top.

  Only the targets are modelled.  The spring and damping that chase them,
  and the idle motions (breathing, spine sway, engine pulse, left-arm drift),
  are floating-point dynamics and are not part of this model.  The wave term
  `sin(t * 4)` appears as a parameter `w`.
 */
module RobotParts {

  datatype Vec3 = Vec3(x: real, y: real, z: real)

  /** A rotation about the x and y axes (head, body). */
  datatype Tilt = Tilt(x: real, y: real)

  /** A rotation about the x and z axes (arms). */
  datatype Swing = Swing(x: real, z: real)

  /** The five target groups the section table writes. */
  datatype Pose = Pose(position: Vec3, head: Tilt, rightArm: Swing, leftArm: Swing, body: Tilt)

  /**
    The `currentSection` prop: the rounded scroll ratio, or a non-finite
    number (NaN or Infinity) when the viewport height is zero.
   */
  datatype Section = Index(n: int) | NonFinite

  /** The normalised pointer sample shared with the scene, each component nominally in [-1, 1]. */
  datatype Mouse = Mouse(x: real, y: real)

  /** Viewports narrower than this (in world units) use the mobile placement. */
  const MobileWidth: real := 5.0

  function IsMobile(viewportWidth: real): bool
  {
    viewportWidth < MobileWidth
  }

  /** Where the figure stands by default: far right on wide screens, nearer the centre and lower on narrow ones. */
  function BasePosition(viewportWidth: real): (b: Vec3)
    ensures b.z == -6.0
    ensures IsMobile(viewportWidth) <==> b.x == 1.5
    ensures IsMobile(viewportWidth) <==> b.y == -3.0
    ensures !IsMobile(viewportWidth) ==> b == Vec3(5.5, -2.0, -6.0)
  {
    if IsMobile(viewportWidth) then Vec3(1.5, -3.0, -6.0) else Vec3(5.5, -2.0, -6.0)
  }

  /** The targets every frame starts from, before the section table is consulted. */
  function DefaultPose(base: Vec3): Pose
  {
    Pose(base, Tilt(0.0, 0.0), Swing(0.0, -0.5), Swing(0.0, 0.5), Tilt(0.0, -0.3))
  }

  /** The section table: each case overwrites some targets of the defaults; any other value keeps them all. */
  function TablePose(s: Section, base: Vec3): Pose
  {
    var d := DefaultPose(base);
    if !s.Index? then d
    else if s.n == 0 then
      d.(position := base, head := Tilt(-0.1, -0.2), body := Tilt(0.0, -0.4))
    else if s.n == 1 then
      d.(position := Vec3(base.x, base.y, base.z + 1.0), body := Tilt(0.1, -0.6), head := Tilt(0.1, -0.3))
    else if s.n == 2 then
      d.(position := Vec3(base.x, base.y + 0.5, base.z), rightArm := Swing(0.5, -0.2), head := Tilt(-0.2, 0.0))
    else if s.n == 3 then
      d.(position := Vec3(base.x + 1.0, base.y, base.z - 2.0), body := Tilt(0.0, -0.8), head := Tilt(0.0, -0.5))
    else if s.n == 4 then
      d.(position := Vec3(base.x, base.y + 1.0, base.z + 1.5), body := Tilt(0.2, -0.2),
         head := Tilt(0.3, -0.2), rightArm := Swing(0.4, -1.0))
    else if s.n == 5 then
      d.(position := Vec3(base.x, base.y - 0.5, base.z + 2.0), head := Tilt(0.2, 0.0), rightArm := Swing(0.8, -0.5))
    else d
  }

  /** The sections the table has a case for. */
  predicate InTable(s: Section)
  {
    s.Index? && 0 <= s.n <= 5
  }

  datatype Part = Position | Head | RightArm | LeftArm | Body

  /** The target groups each case of the table assigns, read off the cases one by one. */
  function Assigned(s: Section): set<Part>
  {
    if s == Index(0) then {Position, Head, Body}
    else if s == Index(1) then {Position, Body, Head}
    else if s == Index(2) then {Position, RightArm, Head}
    else if s == Index(3) then {Position, Body, Head}
    else if s == Index(4) then {Position, Body, Head, RightArm}
    else if s == Index(5) then {Position, Head, RightArm}
    else {}
  }

  predicate SameAt(p: Pose, q: Pose, part: Part)
  {
    match part
    case Position => p.position == q.position
    case Head => p.head == q.head
    case RightArm => p.rightArm == q.rightArm
    case LeftArm => p.leftArm == q.leftArm
    case Body => p.body == q.body
  }

  /** A target group a case does not assign keeps its default. */
  lemma UnassignedKeepsDefault(s: Section, base: Vec3, part: Part)
    requires part !in Assigned(s)
    ensures SameAt(TablePose(s, base), DefaultPose(base), part)
  {
  }

  /** The table yields exactly the defaults for every section outside 0..5 and for no section inside it. */
  lemma DefaultsExactlyOutsideTable(s: Section, base: Vec3)
    ensures TablePose(s, base) == DefaultPose(base) <==> !InTable(s)
  {
  }

  /** The right arm keeps its default (0, -0.5) in every section except 2, 4 and 5. */
  lemma RightArmDefaultUnlessRaised(s: Section, base: Vec3)
    ensures (TablePose(s, base).rightArm == Swing(0.0, -0.5))
        <==> !(s == Index(2) || s == Index(4) || s == Index(5))
  {
  }

  /** The body keeps its default turn (0, -0.3) in every section except 0, 1, 3 and 4. */
  lemma BodyDefaultUnlessTurned(s: Section, base: Vec3)
    ensures (TablePose(s, base).body == Tilt(0.0, -0.3))
        <==> !(s == Index(0) || s == Index(1) || s == Index(3) || s == Index(4))
  {
  }

  /** No case touches the left arm: its target is (0, 0.5) everywhere. */
  lemma LeftArmNeverMoves(s: Section, base: Vec3)
    ensures TablePose(s, base).leftArm == Swing(0.0, 0.5)
  {
  }

  /** The figure stays at the base x in every section but 3, which steps one unit right. */
  lemma OnlySection3MovesSideways(s: Section, base: Vec3)
    ensures TablePose(s, base).position.x == base.x <==> s != Index(3)
    ensures s == Index(3) ==> TablePose(s, base).position.x == base.x + 1.0
  {
  }

  /** Section 3 turns the body and looks back; section 0 stands at the base with a light turn. */
  lemma Sections0And3(base: Vec3)
    ensures TablePose(Index(3), base).position == Vec3(base.x + 1.0, base.y, base.z - 2.0)
    ensures TablePose(Index(3), base).body.y == -0.8
    ensures TablePose(Index(3), base).head.y == -0.5
    ensures TablePose(Index(0), base).position == base
    ensures TablePose(Index(0), base).body.y == -0.4
  {
  }

  /** The frame's body target is the table's turn: -0.4 in section 0 and -0.8 in section 3. */
  lemma FrameBodyTurns(viewportWidth: real, mouse: Mouse, w: real)
    ensures FrameTargets(Index(0), viewportWidth, mouse, w).body.y == -0.4
    ensures FrameTargets(Index(3), viewportWidth, mouse, w).body.y == -0.8
  {
    Sections0And3(BasePosition(viewportWidth));
  }

  /**
    The section-5 wave: the right arm's x target becomes 0.5 and its z target
    swings around -2.5 with the wave phase `w`; other sections are untouched.
   */
  function WaveOverride(s: Section, arm: Swing, w: real): (r: Swing)
    ensures s != Index(5) ==> r == arm
    ensures s == Index(5) ==> r.x == 0.5
    ensures s == Index(5) && -1.0 <= w <= 1.0 ==> -2.8 <= r.z <= -2.2
    ensures s == Index(5) ==> r.z + 2.5 == 0.3 * w
  {
    if s == Index(5) then Swing(0.5, -2.5 + w * 0.3) else arm
  }

  /** The head's yaw and pitch targets after mouse parallax. */
  datatype Gaze = Gaze(yaw: real, pitch: real)

  function Abs(x: real): real
  {
    if x < 0.0 then -x else x
  }

  /**
    Mouse parallax on the head: yaw follows the pointer's x and pitch the
    inverse of its y, each by at most 0.2 away from the table's target.
   */
  function HeadGaze(head: Tilt, mouse: Mouse): (g: Gaze)
    ensures g.yaw == head.y <==> mouse.x == 0.0
    ensures g.pitch == head.x <==> mouse.y == 0.0
    ensures Abs(mouse.x) <= 1.0 ==> Abs(g.yaw - head.y) <= 0.2
    ensures Abs(mouse.y) <= 1.0 ==> Abs(g.pitch - head.x) <= 0.2
    ensures mouse.x > 0.0 ==> g.yaw > head.y
    ensures mouse.x < 0.0 ==> g.yaw < head.y
    ensures mouse.y > 0.0 ==> g.pitch < head.x
    ensures mouse.y < 0.0 ==> g.pitch > head.x
    ensures mouse.x == 1.0 ==> g.yaw == head.y + 0.2
    ensures mouse.x == -1.0 ==> g.yaw == head.y - 0.2
    ensures mouse.y == 1.0 ==> g.pitch == head.x - 0.2
    ensures mouse.y == -1.0 ==> g.pitch == head.x + 0.2
  {
    Gaze(head.y + mouse.x * 0.2, head.x - mouse.y * 0.2)
  }

  /**
    The parallax is linear in the pointer: scaling the pointer sample scales
    the head's offset from its table target by the same factor.  With the
    offsets of exactly 0.2 at the window edges, this fixes the gain at 0.2
    for every pointer position.
   */
  lemma HeadGazeScales(head: Tilt, mouse: Mouse, k: real)
    ensures HeadGaze(head, Mouse(k * mouse.x, k * mouse.y)).yaw - head.y == k * (HeadGaze(head, mouse).yaw - head.y)
    ensures HeadGaze(head, Mouse(k * mouse.x, k * mouse.y)).pitch - head.x == k * (HeadGaze(head, mouse).pitch - head.x)
  {
  }

  /**
    Everything one frame hands to the damping: position, body turn, head aim
    and both arms.  Of the left arm only `z` is ever read; its `x` is carried
    along unread.
   */
  datatype Targets = Targets(position: Vec3, body: Tilt, gaze: Gaze, rightArm: Swing, leftArm: Swing)

  /**
    The overrides a frame layers on a table pose: the pose's position, body
    and left arm pass through, the right arm takes the section-5 wave, and
    the head aim takes the mouse parallax.
   */
  function Overlay(p: Pose, s: Section, mouse: Mouse, w: real): (t: Targets)
    ensures t.position == p.position && t.body == p.body && t.leftArm == p.leftArm
    ensures s != Index(5) ==> t.rightArm == p.rightArm
    ensures s == Index(5) ==> t.rightArm.x == 0.5 && t.rightArm.z + 2.5 == 0.3 * w
    ensures t.gaze == HeadGaze(p.head, mouse)
  {
    Targets(p.position, p.body, HeadGaze(p.head, mouse), WaveOverride(s, p.rightArm, w), p.leftArm)
  }

  /** A frame's targets: the section's table pose with both overrides applied. */
  function FrameTargets(s: Section, viewportWidth: real, mouse: Mouse, w: real): (t: Targets)
    ensures t.position == TablePose(s, BasePosition(viewportWidth)).position
    ensures t.body == TablePose(s, BasePosition(viewportWidth)).body
    ensures t.leftArm == Swing(0.0, 0.5)
    ensures s != Index(5) ==> t.rightArm == TablePose(s, BasePosition(viewportWidth)).rightArm
    ensures s == Index(5) ==> t.rightArm.x == 0.5 && t.rightArm.z + 2.5 == 0.3 * w
    ensures t.gaze == HeadGaze(TablePose(s, BasePosition(viewportWidth)).head, mouse)
  {
    LeftArmNeverMoves(s, BasePosition(viewportWidth));
    Overlay(TablePose(s, BasePosition(viewportWidth)), s, mouse, w)
  }

  /**
    At frame level the head follows the pointer: yaw moves with its x and
    pitch against its y, each within 0.2 of the section's table target while
    the sample stays in [-1, 1].
   */
  lemma FrameHeadFollowsPointer(s: Section, viewportWidth: real, mouse: Mouse, w: real)
    ensures var t := FrameTargets(s, viewportWidth, mouse, w);
            var head := TablePose(s, BasePosition(viewportWidth)).head;
            && (Abs(mouse.x) <= 1.0 ==> Abs(t.gaze.yaw - head.y) <= 0.2)
            && (Abs(mouse.y) <= 1.0 ==> Abs(t.gaze.pitch - head.x) <= 0.2)
            && (mouse.x > 0.0 ==> t.gaze.yaw > head.y)
            && (mouse.x < 0.0 ==> t.gaze.yaw < head.y)
            && (mouse.y > 0.0 ==> t.gaze.pitch < head.x)
            && (mouse.y < 0.0 ==> t.gaze.pitch > head.x)
  {
  }

  /** Section 5's override replaces the table's (0.8, -0.5) arm pose: the x target drops from 0.8 to 0.5. */
  lemma WaveReplacesTableArm(viewportWidth: real, mouse: Mouse, w: real)
    requires -1.0 <= w <= 1.0
    ensures TablePose(Index(5), BasePosition(viewportWidth)).rightArm == Swing(0.8, -0.5)
    ensures FrameTargets(Index(5), viewportWidth, mouse, w).rightArm.x == 0.5
    ensures -2.8 <= FrameTargets(Index(5), viewportWidth, mouse, w).rightArm.z <= -2.2
  {
  }

  /** Only section 5 varies with time: elsewhere the targets ignore the wave phase, there they track it exactly. */
  lemma OnlySection5Varies(s: Section, viewportWidth: real, mouse: Mouse, w1: real, w2: real)
    ensures s != Index(5) ==> FrameTargets(s, viewportWidth, mouse, w1) == FrameTargets(s, viewportWidth, mouse, w2)
    ensures s == Index(5) ==>
              (FrameTargets(s, viewportWidth, mouse, w1) == FrameTargets(s, viewportWidth, mouse, w2) <==> w1 == w2)
  {
  }

  /** With a centred pointer the head aims exactly at the table's target. */
  lemma CentredMouseKeepsTableHead(s: Section, viewportWidth: real, w: real)
    ensures FrameTargets(s, viewportWidth, Mouse(0.0, 0.0), w).gaze
              == Gaze(TablePose(s, BasePosition(viewportWidth)).head.y, TablePose(s, BasePosition(viewportWidth)).head.x)
  {
  }
}
