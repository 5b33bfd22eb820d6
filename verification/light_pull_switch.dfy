/**
  The light-pull theme switch: a rope hanging from the top of the page that
  the user grabs, drags down and lets go of.  A release that has pulled the
  rope far enough flips the site theme and asks for a short haptic pulse.

  Each pointer handler is one atomic transition on an immutable `Switch`
  record.  The rope's spring animation is not part of this model.
 */
module LightPullSwitch {

  /** Furthest the rope can be pulled, in CSS pixels. */
  const MaxPull: real := 150.0

  /** A release strictly beyond this pull flips the theme. */
  const TriggerThreshold: real := 80.0

  /** The site-wide colour scheme; the theme store only ever flips it. */
  datatype Theme = Light | Dark

  function Toggle(t: Theme): (r: Theme)
    ensures r != t
  {
    if t == Light then Dark else Light
  }

  /** `t` flipped `n` times. */
  function Flipped(t: Theme, n: nat): Theme
  {
    if n % 2 == 0 then t else Toggle(t)
  }

  /** The component's React state: whether a drag is in progress and how far the rope is pulled. */
  datatype Switch = Switch(isDragging: bool, pullY: real)

  /** The state at mount: not dragging, rope at rest. */
  const Idle := Switch(false, 0.0)

  /** The pull stays within the clamp, and it is zero whenever no drag is in progress. */
  predicate Valid(s: Switch)
  {
    && 0.0 <= s.pullY <= MaxPull
    && (!s.isDragging ==> s.pullY == 0.0)
  }

  function Dist(a: real, b: real): real
  {
    if a <= b then b - a else a - b
  }

  /** `max(0, min(v, MaxPull))`: the point of [0, MaxPull] nearest to `v`. */
  function Clamp(v: real): (r: real)
    ensures 0.0 <= r <= MaxPull
    ensures 0.0 <= v <= MaxPull ==> r == v
    ensures v >= MaxPull ==> r == MaxPull
    ensures v <= 0.0 ==> r == 0.0
    ensures forall u: real {:trigger Dist(u, v)} :: 0.0 <= u <= MaxPull ==> Dist(r, v) <= Dist(u, v)
  {
    var lowered := if v < MaxPull then v else MaxPull;
    if 0.0 < lowered then lowered else 0.0
  }

  /** Pointer-down starts a drag; the pull itself is left as it is. */
  function PointerDown(s: Switch): (r: Switch)
    ensures r.isDragging
    ensures r.pullY == s.pullY
    ensures Valid(s) ==> Valid(r)
  {
    s.(isDragging := true)
  }

  /** Pointer-move adds the vertical movement to the pull, clamped to [0, MaxPull]. */
  function PointerMove(s: Switch, movementY: real): (r: Switch)
    ensures !s.isDragging ==> r == s
    ensures s.isDragging ==> r.isDragging && 0.0 <= r.pullY <= MaxPull
    ensures s.isDragging && 0.0 <= s.pullY + movementY <= MaxPull ==> r.pullY == s.pullY + movementY
    ensures s.isDragging && s.pullY + movementY >= MaxPull ==> r.pullY == MaxPull
    ensures s.isDragging && s.pullY + movementY <= 0.0 ==> r.pullY == 0.0
    ensures s.isDragging ==> r.pullY == Clamp(s.pullY + movementY)
    ensures Valid(s) ==> Valid(r)
  {
    if !s.isDragging then s
    else s.(pullY := Clamp(s.pullY + movementY))
  }

  /** What a release leaves behind: the switch, the theme and whether a haptic pulse was requested. */
  datatype Release = Release(switch: Switch, theme: Theme, haptic: bool)

  /**
    Pointer-up (and pointer-cancel, which is wired to the same handler):
    ignored unless dragging; otherwise the theme flips exactly when the pull
    is strictly beyond the threshold, and the switch returns to rest.
   */
  function PointerUp(s: Switch, theme: Theme): (r: Release)
    ensures !s.isDragging ==> r == Release(s, theme, false)
    ensures s.isDragging ==> r.switch == Idle
    ensures s.isDragging ==> (r.theme != theme <==> s.pullY > TriggerThreshold)
    ensures r.haptic <==> r.theme != theme
  {
    if !s.isDragging then Release(s, theme, false)
    else
      var toggles := s.pullY > TriggerThreshold;
      Release(Idle, if toggles then Toggle(theme) else theme, toggles)
  }

  /** The pointer events the switch listens to. */
  datatype Event = Down | Move(movementY: real) | Up | Cancel

  /** The switch together with the theme it drives and a count of haptic pulses requested so far. */
  datatype Session = Session(switch: Switch, theme: Theme, pulses: nat)

  function Step(st: Session, e: Event): Session
  {
    match e
    case Down => st.(switch := PointerDown(st.switch))
    case Move(dy) => st.(switch := PointerMove(st.switch, dy))
    case _ =>
      var rel := PointerUp(st.switch, st.theme);
      Session(rel.switch, rel.theme, if rel.haptic then st.pulses + 1 else st.pulses)
  }

  /** Handles the events in order, first to last. */
  function Run(st: Session, events: seq<Event>): Session
    decreases |events|
  {
    if |events| == 0 then st else Run(Step(st, events[0]), events[1..])
  }

  /** The pointer-downs of a run that start a drag, i.e. arrive while no drag is in progress. */
  function Starts(st: Session, events: seq<Event>): nat
    decreases |events|
  {
    if |events| == 0 then 0
    else (if events[0] == Down && !st.switch.isDragging then 1 else 0) + Starts(Step(st, events[0]), events[1..])
  }

  function DragBit(s: Switch): nat
  {
    if s.isDragging then 1 else 0
  }

  /** Pointer-cancel and pointer-up are the same transition. */
  lemma CancelIsRelease(st: Session)
    ensures Step(st, Cancel) == Step(st, Up)
    ensures st.switch.isDragging && st.switch.pullY > TriggerThreshold ==> Step(st, Cancel).theme == Toggle(st.theme)
  {
  }

  /** Every transition keeps the clamp and the rest-when-idle invariant. */
  lemma StepPreservesValid(st: Session, e: Event)
    requires Valid(st.switch)
    ensures Valid(Step(st, e).switch)
  {
  }

  /** Whatever the movements, the pull stays in [0, MaxPull] and is zero when no drag is in progress. */
  lemma {:induction false} RunPreservesValid(st: Session, events: seq<Event>)
    requires Valid(st.switch)
    ensures Valid(Run(st, events).switch)
    decreases |events|
  {
    if |events| > 0 {
      StepPreservesValid(st, events[0]);
      RunPreservesValid(Step(st, events[0]), events[1..]);
    }
  }

  /** Running two event sequences back to back is running their concatenation. */
  lemma {:induction false} RunAppend(st: Session, a: seq<Event>, b: seq<Event>)
    ensures Run(st, a + b) == Run(Run(st, a), b)
    decreases |a|
  {
    if |a| == 0 {
      assert a + b == b;
    } else {
      assert (a + b)[1..] == a[1..] + b;
      RunAppend(Step(st, a[0]), a[1..], b);
    }
  }

  /**
    The theme only ever changes together with a haptic pulse: after any run
    it is the starting theme flipped once per pulse requested.
   */
  lemma {:induction false} ThemeFollowsPulses(st: Session, events: seq<Event>)
    ensures Run(st, events).pulses >= st.pulses
    ensures Run(st, events).theme == Flipped(st.theme, Run(st, events).pulses - st.pulses)
    decreases |events|
  {
    if |events| > 0 {
      var next := Step(st, events[0]);
      ThemeFollowsPulses(next, events[1..]);
      var fin := Run(next, events[1..]);
      if next.pulses == st.pulses + 1 {
        assert next.theme == Toggle(st.theme);
        assert Toggle(Toggle(st.theme)) == st.theme;
        assert (fin.pulses - st.pulses) % 2 != (fin.pulses - next.pulses) % 2;
      } else {
        assert next.theme == st.theme;
      }
    }
  }

  /**
    At most one flip per gesture: the flips of a run never outnumber the
    pointer-downs that started a drag (a pointer-down during a drag starts
    nothing), counting a drag already in progress.
   */
  lemma {:induction false} AtMostOneFlipPerGesture(st: Session, events: seq<Event>)
    ensures Run(st, events).pulses + DragBit(Run(st, events).switch)
              <= st.pulses + DragBit(st.switch) + Starts(st, events)
    decreases |events|
  {
    if |events| > 0 {
      var next := Step(st, events[0]);
      assert next.pulses + DragBit(next.switch)
               <= st.pulses + DragBit(st.switch) + (if events[0] == Down && !st.switch.isDragging then 1 else 0);
      AtMostOneFlipPerGesture(next, events[1..]);
    }
  }

  /** A second pointer-down in the middle of a drag neither opens a second gesture nor resets the pull. */
  lemma RepeatedDownStartsOneGesture(t: Theme)
    ensures Starts(Session(Idle, t, 0), [Down, Down, Move(100.0), Up]) == 1
    ensures Run(Session(Idle, t, 0), [Down, Down, Move(100.0), Up]) == Session(Idle, Toggle(t), 1)
    ensures Run(Session(Idle, t, 0), [Down, Move(100.0), Down]).switch == Switch(true, 100.0)
    ensures Run(Session(Idle, t, 0), [Down, Move(100.0), Down, Up]) == Session(Idle, Toggle(t), 1)
  {
  }

  /** From a valid state, a gesture that ends in a release or cancel leaves the switch exactly at rest. */
  lemma ReleaseResets(st: Session, gesture: seq<Event>, last: Event)
    requires Valid(st.switch)
    requires last == Up || last == Cancel
    ensures Run(st, gesture + [last]).switch == Idle
  {
    RunAppend(st, gesture, [last]);
    RunPreservesValid(st, gesture);
    var mid := Run(st, gesture);
    assert Run(mid, [last]) == Step(mid, last);
  }

  /**
    No state leaks between gestures: two sessions whose switches agree react
    to the same events with the same switch state, the same number of pulses
    and the same theme change.
   */
  lemma {:induction false} SameGestureSameOutcome(st1: Session, st2: Session, events: seq<Event>)
    requires st1.switch == st2.switch
    ensures Run(st1, events).switch == Run(st2, events).switch
    ensures Run(st1, events).pulses - st1.pulses == Run(st2, events).pulses - st2.pulses
    ensures (Run(st1, events).theme == st1.theme) == (Run(st2, events).theme == st2.theme)
    decreases |events|
  {
    ThemeFollowsPulses(st1, events);
    ThemeFollowsPulses(st2, events);
    if |events| > 0 {
      SameGestureSameOutcome(Step(st1, events[0]), Step(st2, events[0]), events[1..]);
    }
  }

  /** The clamp acts on every step, so an overshoot is forgotten: +200 then -100 leaves the rope at 50. */
  lemma OvershootIsForgotten(t: Theme)
    ensures Run(Session(Idle, t, 0), [Down, Move(200.0), Move(-100.0)]).switch == Switch(true, 50.0)
  {
  }

  /** The threshold is strict: a release at 81 flips the theme and buzzes once, a release at 80 does neither. */
  lemma ThresholdIsStrict(t: Theme)
    ensures Run(Session(Idle, t, 0), [Down, Move(81.0), Up]) == Session(Idle, Toggle(t), 1)
    ensures Run(Session(Idle, t, 0), [Down, Move(80.0), Up]) == Session(Idle, t, 0)
  {
  }

  /** Starting dark, dragging down 100 pixels in two moves and letting go gives the light theme and one pulse. */
  lemma PullFromDarkToLight()
    ensures Run(Session(Idle, Dark, 0), [Down, Move(60.0), Move(40.0), Up]) == Session(Idle, Light, 1)
  {
  }
}
