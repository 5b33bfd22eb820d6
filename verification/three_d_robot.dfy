/**
  The scene's two window listeners: scrolling picks the page section the
  mascot poses for, and mouse movement updates the normalised pointer sample
  that the head parallax reads.  Both overwrite their value on every event;
  nothing is queued or averaged.

  Numbers are exact reals.  JavaScript's `Math.round` (halves go up, towards
  positive infinity) is `(x + 0.5).Floor` on every finite `x`.
 */
module ThreeDRobot {
  import opened RobotParts

  /** `Math.round`: the integer nearest to `x`, with halves rounded up (`r` is above `x - 1/2` and at most `x + 1/2`). */
  function JsRound(x: real): (r: int)
    ensures r as real - 0.5 <= x < r as real + 0.5
  {
    (x + 0.5).Floor
  }

  /** `Math.round` has exactly one candidate: the integer `n` with `x` at least `n - 1/2` and strictly below `n + 1/2`. */
  lemma JsRoundIsUnique(x: real, n: int)
    ensures JsRound(x) == n <==> n as real - 0.5 <= x < n as real + 0.5
  {
  }

  /** Scaling by a positive factor keeps the order of two reals, both ways. */
  lemma ScalePreservesOrder(x: real, y: real, b: real)
    requires b > 0.0
    ensures x <= y <==> x * b <= y * b
    ensures x < y <==> x * b < y * b
  {
    assert (x - y) * b == x * b - y * b;
    if x < y {
      assert (y - x) * b > 0.0;
    } else if x > y {
      assert (x - y) * b > 0.0;
    }
  }

  /** Dividing by a non-zero real and multiplying back is the identity. */
  lemma DivMulCancel(a: real, b: real)
    requires b != 0.0
    ensures (a / b) * b == a
    ensures (a * b) / b == a
  {
  }

  /** One section spans 80% of the viewport height of scrolling. */
  const SectionFraction: real := 0.8

  function Band(innerHeight: real): real
  {
    innerHeight * SectionFraction
  }

  /**
    The scroll handler's section: `Math.round(scrollY / (innerHeight * 0.8))`.
    A zero height makes the quotient NaN or Infinity, which no case of the
    pose table matches.  For a positive height the section is the one whose
    anchor lies within half a band of the scroll offset.
   */
  function SectionOf(scrollY: real, innerHeight: real): (s: Section)
    ensures s.NonFinite? <==> innerHeight == 0.0
    ensures innerHeight > 0.0 ==>
              (s.n as real - 0.5) * Band(innerHeight) <= scrollY < (s.n as real + 0.5) * Band(innerHeight)
  {
    if innerHeight == 0.0 then NonFinite
    else
      var r := JsRound(scrollY / Band(innerHeight));
      assert innerHeight > 0.0 ==> (r as real - 0.5) * Band(innerHeight) <= scrollY < (r as real + 0.5) * Band(innerHeight) by {
        if innerHeight > 0.0 {
          BandScaling(scrollY, Band(innerHeight), r);
        }
      }
      Index(r)
  }

  /** Multiplying the rounding bounds through by a positive band width. */
  lemma BandScaling(scrollY: real, b: real, n: int)
    requires b > 0.0
    ensures (n as real - 0.5 <= scrollY / b < n as real + 0.5)
              <==> ((n as real - 0.5) * b <= scrollY < (n as real + 0.5) * b)
  {
    var q := scrollY / b;
    DivMulCancel(scrollY, b);
    ScalePreservesOrder(n as real - 0.5, q, b);
    ScalePreservesOrder(q, n as real + 0.5, b);
  }

  /** For a positive height, the band around a section's anchor is exactly the set of offsets that select it. */
  lemma SectionIffBand(scrollY: real, innerHeight: real, n: int)
    requires innerHeight > 0.0
    ensures (SectionOf(scrollY, innerHeight) == Index(n))
        <==> ((n as real - 0.5) * Band(innerHeight) <= scrollY < (n as real + 0.5) * Band(innerHeight))
  {
    BandScaling(scrollY, Band(innerHeight), n);
    JsRoundIsUnique(scrollY / Band(innerHeight), n);
  }

  /** At the top of the page the section is 0 (unless the height is zero). */
  lemma TopOfPageIsSection0(innerHeight: real)
    requires innerHeight != 0.0
    ensures SectionOf(0.0, innerHeight) == Index(0)
  {
  }

  /** Scrolling down never gives a negative section. */
  lemma SectionNonNegative(scrollY: real, innerHeight: real)
    requires scrollY >= 0.0 && innerHeight > 0.0
    ensures SectionOf(scrollY, innerHeight).Index?
    ensures SectionOf(scrollY, innerHeight).n >= 0
  {
  }

  /** Scrolling further down never lowers the section. */
  lemma SectionMonotone(y1: real, y2: real, innerHeight: real)
    requires innerHeight > 0.0
    requires y1 <= y2
    ensures SectionOf(y1, innerHeight).n <= SectionOf(y2, innerHeight).n
  {
    var b := Band(innerHeight);
    var n1 := SectionOf(y1, innerHeight).n;
    var n2 := SectionOf(y2, innerHeight).n;
    assert (n1 as real - 0.5) * b <= y1;
    assert y2 < (n2 as real + 0.5) * b;
    ScalePreservesOrder(n1 as real - 0.5, n2 as real + 0.5, b);
    assert n1 as real - 0.5 < n2 as real + 0.5;
  }

  /** An offset of exactly `k` bands selects section `k`. */
  lemma WholeBandsSelectTheirSection(k: nat, innerHeight: real)
    requires innerHeight > 0.0
    ensures SectionOf(k as real * Band(innerHeight), innerHeight) == Index(k)
  {
    DivMulCancel(k as real, Band(innerHeight));
    JsRoundIsUnique(k as real, k);
  }

  /**
    There is no upper clamp: six bands down the page the section is 6, and
    the pose table falls back to its defaults there.
   */
  lemma SectionCanPassTheTable(innerHeight: real, viewportWidth: real)
    requires innerHeight > 0.0
    ensures SectionOf(6.0 * Band(innerHeight), innerHeight) == Index(6)
    ensures TablePose(SectionOf(6.0 * Band(innerHeight), innerHeight), BasePosition(viewportWidth))
              == DefaultPose(BasePosition(viewportWidth))
  {
    WholeBandsSelectTheirSection(6, innerHeight);
    DefaultsExactlyOutsideTable(Index(6), BasePosition(viewportWidth));
  }

  /** Scrolling from the top to three bands down turns the body target from -0.4 to -0.8. */
  lemma ScrollToExperienceTurnsBody(innerHeight: real, viewportWidth: real, mouse: Mouse, w: real)
    requires innerHeight > 0.0
    ensures FrameTargets(SectionOf(0.0, innerHeight), viewportWidth, mouse, w).body.y == -0.4
    ensures FrameTargets(SectionOf(3.0 * Band(innerHeight), innerHeight), viewportWidth, mouse, w).body.y == -0.8
  {
    var top := SectionOf(0.0, innerHeight);
    var third := SectionOf(3.0 * Band(innerHeight), innerHeight);
    TopOfPageIsSection0(innerHeight);
    WholeBandsSelectTheirSection(3, innerHeight);
    assert top == Index(0) && third == Index(3);
    FrameBodyTurns(viewportWidth, mouse, w);
  }

  /** A coordinate lies inside a window of positive size exactly when its ratio to the size lies in [0, 1]. */
  lemma UnitInterval(c: real, size: real)
    requires size != 0.0
    ensures size > 0.0 ==> (0.0 <= c / size <= 1.0 <==> 0.0 <= c <= size)
  {
    if size > 0.0 {
      var q := c / size;
      DivMulCancel(c, size);
      ScalePreservesOrder(0.0, q, size);
      ScalePreservesOrder(q, 1.0, size);
      assert 0.0 <= q <==> 0.0 * size <= q * size;
      assert q <= 1.0 <==> q * size <= 1.0 * size;
      assert 1.0 * size == size;
    }
  }

  /** Pointer x: `(clientX / innerWidth) * 2 - 1`, in [-1, 1] exactly when the pointer is inside the window. */
  function NormalizeX(clientX: real, innerWidth: real): (x: real)
    requires innerWidth != 0.0
    ensures innerWidth > 0.0 ==> (-1.0 <= x <= 1.0 <==> 0.0 <= clientX <= innerWidth)
    ensures clientX == 0.0 ==> x == -1.0
    ensures clientX == innerWidth ==> x == 1.0
    ensures 2.0 * clientX == innerWidth ==> x == 0.0
  {
    UnitInterval(clientX, innerWidth);
    (clientX / innerWidth) * 2.0 - 1.0
  }

  /** Pointer y: `-(clientY / innerHeight) * 2 + 1`, inverted so that the top edge is +1 and the bottom edge -1. */
  function NormalizeY(clientY: real, innerHeight: real): (y: real)
    requires innerHeight != 0.0
    ensures innerHeight > 0.0 ==> (-1.0 <= y <= 1.0 <==> 0.0 <= clientY <= innerHeight)
    ensures clientY == 0.0 ==> y == 1.0
    ensures clientY == innerHeight ==> y == -1.0
    ensures 2.0 * clientY == innerHeight ==> y == 0.0
  {
    UnitInterval(clientY, innerHeight);
    -(clientY / innerHeight) * 2.0 + 1.0
  }

  /** The client coordinate a normalised x came from. */
  function ClientX(x: real, innerWidth: real): real
  {
    (x + 1.0) / 2.0 * innerWidth
  }

  /** The client coordinate a normalised y came from. */
  function ClientY(y: real, innerHeight: real): real
  {
    (1.0 - y) / 2.0 * innerHeight
  }

  /** Normalisation loses nothing: it and its inverse undo each other on both axes. */
  lemma NormalizeRoundTrip(c: real, n: real, size: real)
    requires size != 0.0
    ensures ClientX(NormalizeX(c, size), size) == c
    ensures NormalizeX(ClientX(n, size), size) == n
    ensures ClientY(NormalizeY(c, size), size) == c
    ensures NormalizeY(ClientY(n, size), size) == n
  {
    var q := c / size;
    assert q * size == c;
    assert ClientX(NormalizeX(c, size), size) == q * size;
    assert ClientY(NormalizeY(c, size), size) == q * size;
    DivMulCancel((n + 1.0) / 2.0, size);
    DivMulCancel((1.0 - n) / 2.0, size);
  }

  /** Moving right raises the sample's x; moving down lowers its y. */
  lemma NormalizeOrientation(c1: real, c2: real, size: real)
    requires size > 0.0
    requires c1 < c2
    ensures NormalizeX(c1, size) < NormalizeX(c2, size)
    ensures NormalizeY(c1, size) > NormalizeY(c2, size)
  {
    assert c1 / size < c2 / size;
  }

  /** The window events the scene listens to. */
  datatype WindowEvent =
    | Scroll(scrollY: real, innerHeight: real)
    | MouseMove(clientX: real, clientY: real, innerWidth: real, innerHeight: real)

  /** Events whose normalisation is defined: mouse moves in a window of non-zero size. */
  predicate Measurable(e: WindowEvent)
  {
    e.MouseMove? ==> e.innerWidth != 0.0 && e.innerHeight != 0.0
  }

  predicate AllMeasurable(events: seq<WindowEvent>)
  {
    forall i :: 0 <= i < |events| ==> Measurable(events[i])
  }

  /** The scene's event-driven state: the section index and the pointer sample. */
  datatype Scene = Scene(section: Section, mouse: Mouse)

  /** At mount: section 0 and a centred pointer. */
  const Mounted := Scene(Index(0), Mouse(0.0, 0.0))

  /** One handler call: each listener overwrites its own value and leaves the other alone. */
  function Handle(sc: Scene, e: WindowEvent): (r: Scene)
    requires Measurable(e)
    ensures e.Scroll? ==> r.mouse == sc.mouse
    ensures e.MouseMove? ==> r.section == sc.section
    ensures e.Scroll? ==> r.section == SectionOf(e.scrollY, e.innerHeight)
    ensures e.MouseMove? ==>
              r.mouse == Mouse(NormalizeX(e.clientX, e.innerWidth), NormalizeY(e.clientY, e.innerHeight))
  {
    match e
    case Scroll(y, h) => sc.(section := SectionOf(y, h))
    case MouseMove(cx, cy, w, h) => sc.(mouse := Mouse(NormalizeX(cx, w), NormalizeY(cy, h)))
  }

  /** Handles the events in order, first to last. */
  function Replay(sc: Scene, events: seq<WindowEvent>): Scene
    requires AllMeasurable(events)
    decreases |events|
  {
    if |events| == 0 then sc else Replay(Handle(sc, events[0]), events[1..])
  }

  predicate NoScroll(events: seq<WindowEvent>)
  {
    forall i :: 0 <= i < |events| ==> !events[i].Scroll?
  }

  predicate NoMouseMove(events: seq<WindowEvent>)
  {
    forall i :: 0 <= i < |events| ==> !events[i].MouseMove?
  }

  lemma {:induction false} ReplayAppend(sc: Scene, a: seq<WindowEvent>, b: seq<WindowEvent>)
    requires AllMeasurable(a) && AllMeasurable(b)
    ensures AllMeasurable(a + b)
    ensures Replay(sc, a + b) == Replay(Replay(sc, a), b)
    decreases |a|
  {
    assert AllMeasurable(a + b) by {
      forall i | 0 <= i < |a + b|
        ensures Measurable((a + b)[i])
      {
        if i < |a| { assert (a + b)[i] == a[i]; } else { assert (a + b)[i] == b[i - |a|]; }
      }
    }
    if |a| == 0 {
      assert a + b == b;
    } else {
      assert (a + b)[1..] == a[1..] + b;
      ReplayAppend(Handle(sc, a[0]), a[1..], b);
    }
  }

  /** Mouse moves alone never change the section, and scrolls alone never change the pointer sample. */
  lemma {:induction false} HandlersKeepToTheirOwnValue(sc: Scene, events: seq<WindowEvent>)
    requires AllMeasurable(events)
    ensures NoScroll(events) ==> Replay(sc, events).section == sc.section
    ensures NoMouseMove(events) ==> Replay(sc, events).mouse == sc.mouse
    decreases |events|
  {
    if |events| > 0 {
      HandlersKeepToTheirOwnValue(Handle(sc, events[0]), events[1..]);
      assert NoScroll(events) ==> NoScroll(events[1..]);
      assert NoMouseMove(events) ==> NoMouseMove(events[1..]);
    }
  }

  /**
    The scene mounts at section 0 with a centred pointer, and keeps each of
    those until the first event of its own kind arrives.
   */
  lemma {:induction false} MountedUntilFirstEvent(events: seq<WindowEvent>)
    requires AllMeasurable(events)
    ensures NoScroll(events) ==> Replay(Mounted, events).section == Index(0)
    ensures NoMouseMove(events) ==> Replay(Mounted, events).mouse == Mouse(0.0, 0.0)
  {
    HandlersKeepToTheirOwnValue(Mounted, events);
  }

  /** The latest scroll decides the section, whatever came before it. */
  lemma LatestScrollWins(sc: Scene, before: seq<WindowEvent>, scrollY: real, innerHeight: real, after: seq<WindowEvent>)
    requires AllMeasurable(before) && AllMeasurable(after)
    requires NoScroll(after)
    ensures AllMeasurable(before + [Scroll(scrollY, innerHeight)] + after)
    ensures Replay(sc, before + [Scroll(scrollY, innerHeight)] + after).section == SectionOf(scrollY, innerHeight)
  {
    var e := [Scroll(scrollY, innerHeight)];
    ReplayAppend(sc, before, e);
    ReplayAppend(sc, before + e, after);
    var mid := Replay(sc, before);
    assert Replay(mid, e) == Handle(mid, e[0]);
    HandlersKeepToTheirOwnValue(Replay(sc, before + e), after);
  }

  /** The latest mouse move decides the pointer sample; no history is kept. */
  lemma LatestMouseMoveWins(sc: Scene, before: seq<WindowEvent>, clientX: real, clientY: real,
                            innerWidth: real, innerHeight: real, after: seq<WindowEvent>)
    requires AllMeasurable(before) && AllMeasurable(after)
    requires innerWidth != 0.0 && innerHeight != 0.0
    requires NoMouseMove(after)
    ensures AllMeasurable(before + [MouseMove(clientX, clientY, innerWidth, innerHeight)] + after)
    ensures Replay(sc, before + [MouseMove(clientX, clientY, innerWidth, innerHeight)] + after).mouse
              == Mouse(NormalizeX(clientX, innerWidth), NormalizeY(clientY, innerHeight))
  {
    var e := [MouseMove(clientX, clientY, innerWidth, innerHeight)];
    ReplayAppend(sc, before, e);
    ReplayAppend(sc, before + e, after);
    var mid := Replay(sc, before);
    assert Replay(mid, e) == Handle(mid, e[0]);
    HandlersKeepToTheirOwnValue(Replay(sc, before + e), after);
  }
}
