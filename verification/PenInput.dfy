/** Touch and Apple Pencil input (src/input/InputInjector.cpp): what is injected into Windows, and the
    flags that mirror it. */
module PenInput {
  import opened Wrappers
  import opened ControlProtocol

  // ----- Places -----

  datatype Rect = Rect(left: int, top: int, right: int, bottom: int)

  datatype Point = Point(x: int, y: int)

  /** The virtual desktop: GetSystemMetrics of SM_XVIRTUALSCREEN and its companions. */
  datatype Desktop = Desktop(x: int, y: int, width: int, height: int)

  function Normalized(v: real): (r: real)
    ensures 0.0 <= r <= 1.0
  {
    if v < 0.0 then 0.0 else if v > 1.0 then 1.0 else v
  }

  /** The normalized share of a length in pixels. */
  function Share(v: real, length: int): real {
    Normalized(v) * length as real
  }

  /** A cast to an integer type drops the fraction. */
  function Truncated(v: real): int {
    if v >= 0.0 then v.Floor else -(-v).Floor
  }

  /** std::lround: halves away from zero. */
  function Rounded(v: real): int {
    if v >= 0.0 then (v + 0.5).Floor else -(-v + 0.5).Floor
  }

  function ScreenPoint(rect: Rect, desktop: Desktop, nx: real, ny: real): Point {
    Point(rect.left + Rounded(Share(nx, rect.right - rect.left)) - desktop.x,
          rect.top + Rounded(Share(ny, rect.bottom - rect.top)) - desktop.y)
  }

  function OnDesktop(coordinate: int, origin: int, extent: int): int {
    if extent <= 0 then 0 else Truncated((coordinate - origin) as real * 65535.0 / extent as real)
  }

  function TouchPoint(rect: Rect, desktop: Desktop, nx: real, ny: real): Point {
    Point(OnDesktop(rect.left + Truncated(Share(nx, rect.right - rect.left)), desktop.x, desktop.width),
          OnDesktop(rect.top + Truncated(Share(ny, rect.bottom - rect.top)), desktop.y, desktop.height))
  }

  predicate IsRect(r: Rect) {
    r.left <= r.right && r.top <= r.bottom
  }

  lemma PartOfLength(v: real, length: int)
    requires length >= 0
    ensures 0 <= Rounded(Share(v, length)) <= length
    ensures 0 <= Truncated(Share(v, length)) <= length
  {
    var part := Share(v, length);
    Scaled(Normalized(v), length as real);
    assert 0.0 <= part <= length as real;
    hide Share;
    assert part.Floor <= length;
    assert (part + 0.5).Floor <= length;
  }

  lemma Scaled(share: real, length: real)
    requires 0.0 <= share <= 1.0 && length >= 0.0
    ensures 0.0 <= share * length <= length
  {
  }

  /** Whatever coordinates the receiver sends, the pen stays on the monitor. */
  lemma PenStaysOnMonitor(rect: Rect, desktop: Desktop, nx: real, ny: real)
    requires IsRect(rect)
    ensures var p := ScreenPoint(rect, desktop, nx, ny);
            && rect.left <= p.x + desktop.x <= rect.right && rect.top <= p.y + desktop.y <= rect.bottom
  {
    PartOfLength(nx, rect.right - rect.left);
    PartOfLength(ny, rect.bottom - rect.top);
    hide Share, Rounded;
  }

  lemma OnDesktopRange(coordinate: int, origin: int, extent: int)
    requires extent > 0 && origin <= coordinate <= origin + extent
    ensures 0 <= OnDesktop(coordinate, origin, extent) <= 65535
  {
    var share := (coordinate - origin) as real * 65535.0 / extent as real;
    assert share >= 0.0;
    assert share * extent as real == (coordinate - origin) as real * 65535.0;
    assert share <= 65535.0;
  }

  /** And the finger stays within SendInput's absolute range, if the monitor is part of the desktop. */
  lemma TouchStaysOnDesktop(rect: Rect, desktop: Desktop, nx: real, ny: real)
    requires IsRect(rect) && desktop.width > 0 && desktop.height > 0
    requires desktop.x <= rect.left && rect.right <= desktop.x + desktop.width
    requires desktop.y <= rect.top && rect.bottom <= desktop.y + desktop.height
    ensures var p := TouchPoint(rect, desktop, nx, ny); 0 <= p.x <= 65535 && 0 <= p.y <= 65535
  {
    hide Share, Truncated, OnDesktop;
    AxisOnDesktop(nx, rect.left, rect.right, desktop.x, desktop.width);
    AxisOnDesktop(ny, rect.top, rect.bottom, desktop.y, desktop.height);
  }

  lemma AxisOnDesktop(v: real, low: int, high: int, origin: int, extent: int)
    requires extent > 0 && origin <= low <= high <= origin + extent
    ensures 0 <= OnDesktop(low + Truncated(Share(v, high - low)), origin, extent) <= 65535
  {
    PartOfLength(v, high - low);
    var part := Truncated(Share(v, high - low));
    hide *;
    OnDesktopRange(low + part, origin, extent);
  }

  /** Where a share of an axis lies on the monitor: between its edges, and on the nearer one outside 0..1. */
  function Position(v: real, low: int, high: int): real {
    if v <= 0.0 then low as real else if v >= 1.0 then high as real else (1.0 - v) * low as real + v * high as real
  }

  lemma ShareIsPosition(v: real, low: int, high: int)
    ensures low as real + Share(v, high - low) == Position(v, low, high)
  {
    var l, h := low as real, high as real;
    assert (high - low) as real == h - l;
    if 0.0 < v < 1.0 { assert v * (h - l) == v * h - v * l; }
  }

  /** The pen is put on the pixel nearest to its place, x from x along the width and y from y along the
      height, counted from the corner of the desktop. */
  lemma PenIsAtItsPlace(rect: Rect, desktop: Desktop, nx: real, ny: real)
    requires IsRect(rect)
    ensures var p := ScreenPoint(rect, desktop, nx, ny);
            && -0.5 <= (p.x + desktop.x) as real - Position(nx, rect.left, rect.right) <= 0.5
            && -0.5 <= (p.y + desktop.y) as real - Position(ny, rect.top, rect.bottom) <= 0.5
  {
    AxisRounded(nx, rect.left, rect.right);
    AxisRounded(ny, rect.top, rect.bottom);
    hide Share, Rounded, Position;
  }

  lemma AxisRounded(v: real, low: int, high: int)
    requires low <= high
    ensures -0.5 <= (low + Rounded(Share(v, high - low))) as real - Position(v, low, high) <= 0.5
  {
    ShareIsPosition(v, low, high);
    PartOfLength(v, high - low);
    hide Share, Position;
  }

  /** The finger is put less than a pixel and a step of the absolute range before its place, and never
      behind it; the range of 0 to 65535 spans the desktop. */
  lemma TouchIsAtItsPlace(rect: Rect, desktop: Desktop, nx: real, ny: real)
    requires IsRect(rect) && desktop.width > 0 && desktop.height > 0
    requires desktop.x <= rect.left && rect.right <= desktop.x + desktop.width
    requires desktop.y <= rect.top && rect.bottom <= desktop.y + desktop.height
    ensures var p := TouchPoint(rect, desktop, nx, ny);
            && Lands(p.x, Position(nx, rect.left, rect.right), desktop.x, desktop.width)
            && Lands(p.y, Position(ny, rect.top, rect.bottom), desktop.y, desktop.height)
  {
    AxisLands(nx, rect.left, rect.right, desktop.x, desktop.width);
    AxisLands(ny, rect.top, rect.bottom, desktop.y, desktop.height);
    hide Share, Truncated, OnDesktop, Position, Lands;
  }

  /** Where a step of the absolute range lies on an axis of `extent` pixels. */
  function StepAt(step: int, extent: int): real {
    step as real * extent as real / 65535.0
  }

  /** Without a desktop to span, the range is not used. */
  lemma TouchWithoutDesktop(rect: Rect, desktop: Desktop, nx: real, ny: real)
    ensures desktop.width <= 0 ==> TouchPoint(rect, desktop, nx, ny).x == 0
    ensures desktop.height <= 0 ==> TouchPoint(rect, desktop, nx, ny).y == 0
  {
  }

  /** Step `step` of the absolute range lies at `place` or less than a pixel and a step before it. */
  predicate Lands(step: int, place: real, origin: int, extent: int)
    requires extent > 0
  {
    StepAt(step, extent) <= place - origin as real < StepAt(step + 1, extent) + 1.0
  }

  lemma AxisLands(v: real, low: int, high: int, origin: int, extent: int)
    requires extent > 0 && origin <= low <= high <= origin + extent
    ensures Lands(OnDesktop(low + Truncated(Share(v, high - low)), origin, extent), Position(v, low, high), origin, extent)
  {
    ShareIsPosition(v, low, high);
    PartOfLength(v, high - low);
    var part := Truncated(Share(v, high - low));
    TruncatedBelow(v, low, high);
    hide Share, Truncated, Position;
    assert part >= 0;
    hide OnDesktop;
    StepLands(low + part, origin, extent);
  }

  lemma TruncatedBelow(v: real, low: int, high: int)
    requires low <= high
    ensures var part := Share(v, high - low); Truncated(part) as real <= part < Truncated(part) as real + 1.0
  {
    PartOfLength(v, high - low);
    Scaled(Normalized(v), (high - low) as real);
    hide Normalized;
  }

  lemma StepLands(c: int, origin: int, extent: int)
    requires extent > 0 && c >= origin
    ensures var step := OnDesktop(c, origin, extent);
            StepAt(step, extent) <= (c - origin) as real < StepAt(step + 1, extent)
  {
    var e, d := extent as real, (c - origin) as real;
    var share := d * 65535.0 / e;
    StepBelow(c, origin, extent);
    Quotient(d * 65535.0, e);
    var step := OnDesktop(c, origin, extent);
    assert (step + 1) as real == step as real + 1.0;
    hide OnDesktop;
    Below(d * 65535.0, share, e, step as real);
    Above(d * 65535.0, share, e, (step + 1) as real);
    DividedOut(step as real * e, d, (step + 1) as real * e);
  }

  lemma StepBelow(c: int, origin: int, extent: int)
    requires extent > 0 && c >= origin
    ensures var step := OnDesktop(c, origin, extent) as real;
            step <= (c - origin) as real * 65535.0 / extent as real < step + 1.0
  {
    assert (c - origin) as real * 65535.0 / extent as real >= 0.0;
  }

  lemma Below(x: real, q: real, e: real, s: real)
    requires e > 0.0 && q * e == x && s <= q
    ensures s * e <= x
  {
    var d := q - s;
    assert d * e == q * e - s * e;
    NotNegative(d, e);
  }

  lemma Above(x: real, q: real, e: real, s: real)
    requires e > 0.0 && q * e == x && q < s
    ensures x < s * e
  {
    var d := s - q;
    assert d * e == s * e - q * e;
    NotNegative(d, e);
  }

  lemma Quotient(x: real, e: real)
    requires e > 0.0
    ensures x / e * e == x
  {
  }

  lemma NotNegative(a: real, e: real)
    requires e > 0.0
    ensures (a >= 0.0 ==> a * e >= 0.0) && (a > 0.0 ==> a * e > 0.0)
  {
  }

  lemma DividedOut(a: real, d: real, b: real)
    requires a <= d * 65535.0 < b
    ensures a / 65535.0 <= d < b / 65535.0
  {
  }

  // ----- What is injected -----

  /** POINTER_FLAG_INRANGE and _INCONTACT, and which of _DOWN, _UPDATE and _UP (press, update, lift). */
  datatype Change = Press | Update | Lift

  datatype Injected =
    | Pen(inRange: bool, inContact: bool, change: Change, at: Point, pressure: int)
    | MouseMove(to: Point)
    | LeftDown
    | LeftUp
    | Wheel(delta: int)
    | HWheel(delta: int)

  /** What Windows has been told: the pen's contact and range, and the mouse button. */
  datatype Told = Told(contact: bool, range: bool, button: bool)

  const NOTHING := Told(false, false, false)

  function Tell(t: Told, e: Injected): Told {
    match e
    case Pen(inRange, inContact, _, _, _) => t.(range := inRange, contact := inContact)
    case LeftDown => t.(button := true)
    case LeftUp => t.(button := false)
    case _ => t
  }

  function After(trace: seq<Injected>): Told {
    if trace == [] then NOTHING else Tell(After(trace[..|trace| - 1]), trace[|trace| - 1])
  }

  /** The pen is lifted only from contact, is never moved without contact while Windows believes it down,
      presses only in contact, and the button is released only when it is down. */
  predicate Fitting(t: Told, e: Injected) {
    match e
    case Pen(inRange, inContact, change, _, pressure) =>
      && (change == Lift ==> t.contact && !inContact)
      && (change == Update && !inContact ==> !t.contact)
      && (change == Update && inContact ==> t.contact)
      && (change == Press ==> inContact)
      && (inContact ==> inRange)
      && 0 <= pressure <= 1024 && (!inContact ==> pressure == 0)
    case LeftUp => t.button
    case _ => true
  }

  predicate Orderly(trace: seq<Injected>) {
    forall k :: 0 <= k < |trace| ==> Fitting(After(trace[..k]), trace[k])
  }

  lemma OneMore(trace: seq<Injected>, e: Injected)
    requires Orderly(trace) && Fitting(After(trace), e)
    ensures Orderly(trace + [e]) && After(trace + [e]) == Tell(After(trace), e)
  {
    hide Fitting, Tell;
    var longer := trace + [e];
    assert longer[..|trace|] == trace;
    forall k | 0 <= k < |longer| ensures Fitting(After(longer[..k]), longer[k]) {
      if k < |trace| { assert longer[..k] == trace[..k]; }
    }
  }

  function Pressure(v: real): (r: int)
    ensures 0 <= r <= 1024
  {
    PartOfLength(v, 1024);
    Rounded(Share(v, 1024))
  }

  // ----- The injector -----

  /** What one pencil message injects, with the pen down or not. */
  function PencilEvents(phase: PencilPhase, down: bool, at: Point, pressure: real): seq<Injected> {
    var release := if down then [Pen(true, false, Lift, at, 0)] else [];
    var hover := Pen(true, false, Update, at, 0);
    match phase
    case Down => [Pen(true, true, Press, at, Pressure(pressure))]
    case Move => [if down then Pen(true, true, Update, at, Pressure(pressure)) else hover]
    case Up => release
    case Hover => release + [hover]
    case UnknownPencil => []
  }

  function TouchEvents(phase: TouchPhase, down: bool, at: Point): seq<Injected> {
    match phase
    case Began => [MouseMove(at), LeftDown]
    case Moved => [MouseMove(at)]
    case Ended => [MouseMove(at)] + if down then [LeftUp] else []
    case Cancelled => [MouseMove(at)] + if down then [LeftUp] else []
    case UnknownTouch => []
  }

  /** A proximity message that changes the range; leaving it lifts the pen first. */
  function ProximityEvents(entering: bool, inRange: bool, down: bool, at: Point): seq<Injected> {
    if entering == inRange then []
    else if entering then [Pen(true, false, Update, at, 0)]
    else (if down then [Pen(true, false, Lift, at, 0)] else []) + [Pen(false, false, Update, at, 0)]
  }

  /** 120 a notch of 100 pixels. */
  function Notches(v: real): int {
    var pixels := if v < -10000.0 then -10000.0 else if v > 10000.0 then 10000.0 else v;
    Truncated(pixels / 100.0 * 120.0)
  }

  /** At most one event an axis, and none for what rounds to nothing. */
  function WheelEvents(dx: real, dy: real): seq<Injected> {
    (if Notches(dy) != 0 then [Wheel(Notches(dy))] else []) + (if Notches(dx) != 0 then [HWheel(Notches(dx))] else [])
  }

  // ----- What the events mean -----

  function Limited(v: real, low: real, high: real): real {
    if v < low then low else if v > high then high else v
  }

  /** Pressure is in steps of 1/1024, rounded to the nearest. */
  lemma PressureIsNearest(v: real)
    ensures -0.5 <= Pressure(v) as real - 1024.0 * Limited(v, 0.0, 1.0) <= 0.5
  {
    PartOfLength(v, 1024);
    assert Share(v, 1024) == 1024.0 * Limited(v, 0.0, 1.0);
    hide Share;
  }

  /** One pencil message: a pen that is down is lifted first by Up and Hover; then Down, Move and Hover are
      one event, which touches the panel, with the message's pressure, exactly for Down and for Move with the
      pen down; all of it at the message's point. */
  lemma PencilMeans(phase: PencilPhase, down: bool, at: Point, pressure: real)
    ensures var events := PencilEvents(phase, down, at, pressure);
            var lifts, acts := down && phase in {Up, Hover}, phase in {PencilPhase.Down, Move, Hover};
            var touches := phase == PencilPhase.Down || (phase == Move && down);
            && |events| == (if lifts then 1 else 0) + (if acts then 1 else 0)
            && (forall k :: 0 <= k < |events| ==> events[k].Pen? && events[k].at == at && events[k].inRange)
            && (lifts ==> events[0].change == Lift && !events[0].inContact)
            && (acts ==>
                  var last := events[|events| - 1];
                  && last.inContact == touches && last.change == (if phase == PencilPhase.Down then Press else Update)
                  && last.pressure == (if touches then Pressure(pressure) else 0))
  {
    hide Pressure;
  }

  /** One touch message: the pointer moves to its point, and the button goes down when it begins and up, if
      it is down, when it ends. */
  lemma TouchMeans(phase: TouchPhase, down: bool, at: Point)
    ensures var events := TouchEvents(phase, down, at);
            && (phase == UnknownTouch <==> events == [])
            && (events != [] ==> events[0] == MouseMove(at) && |events| <= 2)
            && (|events| == 2 <==> phase == Began || (down && phase in {TouchPhase.Ended, Cancelled}))
            && (|events| == 2 ==> events[1] == if phase == Began then LeftDown else LeftUp)
  {
  }

  /** One proximity message: nothing unless it changes the range; the last event tells the new range, at its
      point, and the pen is lifted before it leaves. */
  lemma ProximityMeans(entering: bool, inRange: bool, down: bool, at: Point)
    ensures var events := ProximityEvents(entering, inRange, down, at);
            && (events == [] <==> entering == inRange)
            && (forall k :: 0 <= k < |events| ==> events[k].Pen? && events[k].at == at && !events[k].inContact)
            && (events != [] ==>
                  && events[|events| - 1].inRange == entering && events[|events| - 1].change == Update
                  && (|events| == 2 <==> !entering && down) && |events| <= 2
                  && (|events| == 2 ==> events[0].change == Lift))
  {
  }

  /** 1.2 steps a pixel, at most 10000 pixels, rounded toward zero. */
  lemma NotchesAre(v: real)
    ensures var steps, n := 1.2 * Limited(v, -10000.0, 10000.0), Notches(v) as real;
            if v >= 0.0 then n <= steps < n + 1.0 else n - 1.0 < steps <= n
  {
    var steps := 1.2 * Limited(v, -10000.0, 10000.0);
    assert (if v < -10000.0 then -10000.0 else if v > 10000.0 then 10000.0 else v) / 100.0 * 120.0 == steps;
  }

  /** The wheel turns for dy and the horizontal wheel for dx, each exactly if it is at least one step. */
  lemma ScrollMeans(dx: real, dy: real)
    ensures var events := WheelEvents(dx, dy);
            var up, across := 1.2 * Limited(dy, -10000.0, 10000.0), 1.2 * Limited(dx, -10000.0, 10000.0);
            && |events| == (if up >= 1.0 || up <= -1.0 then 1 else 0) + (if across >= 1.0 || across <= -1.0 then 1 else 0)
            && (forall k :: 0 <= k < |events| ==> events[k].Wheel? || events[k].HWheel?)
            && (up >= 1.0 || up <= -1.0 ==> events[0] == Wheel(Notches(dy)))
            && (across >= 1.0 || across <= -1.0 ==> events[|events| - 1] == HWheel(Notches(dx)))
  {
    NotchesAre(dx);
    NotchesAre(dy);
    hide Notches;
  }

  // ----- A whole session -----

  function TellAll(t: Told, events: seq<Injected>): Told {
    if events == [] then t else Tell(TellAll(t, events[..|events| - 1]), events[|events| - 1])
  }

  lemma {:induction false} AfterBoth(trace: seq<Injected>, events: seq<Injected>)
    ensures After(trace + events) == TellAll(After(trace), events)
    decreases |events|
  {
    hide Tell;
    if events == [] {
      assert trace + events == trace;
    } else {
      var n := |events| - 1;
      AfterBoth(trace, events[..n]);
      assert (trace + events)[..|trace| + n] == trace + events[..n];
    }
  }

  /** What one message injects when Windows has been told `t`; pens work only with a pen device. */
  function MessageEvents(m: ControlMessage, rect: Rect, desktop: Desktop, t: Told, pens: bool): seq<Injected> {
    match m
    case Touch(phase, x, y) => TouchEvents(phase, t.button, TouchPoint(rect, desktop, x, y))
    case Scroll(dx, dy) => WheelEvents(dx, dy)
    case Pencil(phase, x, y, pressure, _, _) =>
      if pens then PencilEvents(phase, t.contact, ScreenPoint(rect, desktop, x, y), pressure) else []
    case Proximity(entering, x, y) =>
      if pens then ProximityEvents(entering, t.range, t.contact, ScreenPoint(rect, desktop, x, y)) else []
    case _ => []
  }

  /** Each event's point and pressure are those of the message, x from its x and y from its y. */
  lemma MessageMeans(m: ControlMessage, rect: Rect, desktop: Desktop, t: Told, pens: bool)
    ensures var events := MessageEvents(m, rect, desktop, t, pens);
            && (m.Touch? ==> forall e :: e in events && e.MouseMove? ==> e.to == TouchPoint(rect, desktop, m.x, m.y))
            && (m.Pencil? ==> forall e :: e in events ==> e.Pen? && e.at == ScreenPoint(rect, desktop, m.px, m.py))
            && (m.Pencil? ==> forall e :: e in events && e.Pen? && e.inContact ==> e.pressure == Pressure(m.pressure))
            && (m.Proximity? ==> forall e :: e in events ==> e.Pen? && e.at == ScreenPoint(rect, desktop, m.qx, m.qy))
            && (m.Scroll? ==> forall e :: e in events ==> e == Wheel(Notches(m.dy)) || e == HWheel(Notches(m.dx)))
            && ((m.Pencil? || m.Proximity?) && !pens ==> events == [])
  {
    hide TouchPoint, ScreenPoint, Pressure, Notches;
  }

  function MessagesEvents(ms: seq<ControlMessage>, rects: seq<Rect>, desktop: Desktop, t: Told, pens: bool): seq<Injected>
    requires |ms| == |rects|
  {
    if ms == [] then []
    else
      var n := |ms| - 1;
      var before := MessagesEvents(ms[..n], rects[..n], desktop, t, pens);
      before + MessageEvents(ms[n], rects[n], desktop, TellAll(t, before), pens)
  }

  /** The button is released, the pen lifted and taken away, at the place where it was last. */
  function EndEvents(t: Told, last: Point, pens: bool): seq<Injected> {
    (if t.button then [LeftUp] else [])
    + (if pens && t.contact then [Pen(true, false, Lift, last, 0)] else [])
    + (if pens && t.range then [Pen(false, false, Update, last, 0)] else [])
  }

  predicate NeedsPen(m: ControlMessage) {
    m.Pencil? || m.Proximity?
  }

  /** Without pen messages it does not matter whether pens work. */
  lemma {:induction false} NoPenNeeded(ms: seq<ControlMessage>, rects: seq<Rect>, desktop: Desktop, t: Told)
    requires |ms| == |rects| && forall k :: 0 <= k < |ms| ==> !NeedsPen(ms[k])
    ensures MessagesEvents(ms, rects, desktop, t, true) == MessagesEvents(ms, rects, desktop, t, false)
    decreases |ms|
  {
    if ms != [] {
      var n := |ms| - 1;
      hide TellAll;
      NoPenNeeded(ms[..n], rects[..n], desktop, t);
    }
  }

  lemma OneMoreMessage(ms: seq<ControlMessage>, rects: seq<Rect>, desktop: Desktop, start: seq<Injected>,
                       before: seq<Injected>, after: seq<Injected>, pens: bool, k: nat)
    requires k < |ms| == |rects| && before == start + MessagesEvents(ms[..k], rects[..k], desktop, After(start), pens)
    requires after == before + MessageEvents(ms[k], rects[k], desktop, After(before), pens)
    ensures after == start + MessagesEvents(ms[..k + 1], rects[..k + 1], desktop, After(start), pens)
  {
    hide After, MessageEvents, TellAll;
    var t := After(start);
    var events := MessagesEvents(ms[..k], rects[..k], desktop, t, pens);
    AfterBoth(start, events);
    assert ms[..k + 1][..k] == ms[..k] && rects[..k + 1][..k] == rects[..k];
    var more := MessageEvents(ms[k], rects[k], desktop, TellAll(t, events), pens);
    assert start + events + more == start + (events + more);
  }

  class InputInjector {
    const desktop: Desktop
    var monitorRect: Rect
    var isDown: bool
    var penDevice: bool        // penDevice_ is not null
    var penDeviceFailed: bool
    var penDown: bool
    var penInRange: bool
    var lastPenPoint: Point
    var trace: seq<Injected>

    constructor (desktop: Desktop)
      ensures this.desktop == desktop && trace == [] && Valid()
    {
      this.desktop := desktop;
      monitorRect := Rect(0, 0, 0, 0);
      isDown, penDevice, penDeviceFailed, penDown, penInRange := false, false, false, false, false;
      lastPenPoint := Point(0, 0);
      trace := [];
    }

    /** The flags mirror what has been injected. */
    predicate Valid()
      reads this
    {
      && Orderly(trace) && After(trace) == Told(penDown, penInRange, isDown)
      && (penDown ==> penInRange) && (!penDevice ==> !penInRange)
    }

    method SetMonitorRect(rect: Rect)
      modifies this`monitorRect
      ensures monitorRect == rect
    {
      monitorRect := rect;
    }

    method HandleTouch(phase: TouchPhase, x: real, y: real)
      requires Valid()
      modifies this`isDown, this`trace
      ensures Valid() && isDown == (if phase == Began then true
                                    else if phase == TouchPhase.Ended || phase == Cancelled then false else old(isDown))
      ensures trace == old(trace) + TouchEvents(phase, old(isDown), TouchPoint(monitorRect, desktop, x, y))
    {
      hide Orderly, After, TouchPoint;
      var at := TouchPoint(monitorRect, desktop, x, y);
      match phase
      case Began =>
        Inject(MouseMove(at));
        InjectButton(LeftDown);
      case Moved =>
        Inject(MouseMove(at));
      case Ended =>
        Inject(MouseMove(at));
        if isDown { InjectButton(LeftUp); }
      case Cancelled =>
        Inject(MouseMove(at));
        if isDown { InjectButton(LeftUp); }
      case UnknownTouch =>
    }

    method Inject(e: Injected)
      requires Valid() && Fitting(After(trace), e) && Tell(After(trace), e) == After(trace)
      modifies this`trace
      ensures Valid() && trace == old(trace) + [e]
    {
      hide Orderly, After, Fitting, Tell;
      OneMore(trace, e);
      trace := trace + [e];
    }

    /** The button is injected and noted in isDown_. */
    method InjectButton(e: Injected)
      requires Valid() && (e == LeftDown || (e == LeftUp && isDown))
      modifies this`trace, this`isDown
      ensures Valid() && trace == old(trace) + [e] && isDown == (e == LeftDown)
    {
      hide Orderly, After;
      OneMore(trace, e);
      trace := trace + [e];
      isDown := e == LeftDown;
    }

    method HandleScroll(dx: real, dy: real)
      requires Valid()
      modifies this`trace
      ensures Valid() && trace == old(trace) + WheelEvents(dx, dy)
    {
      hide Orderly, After;
      if dy != 0.0 {
        var delta := Notches(dy);
        if delta != 0 { Inject(Wheel(delta)); }
      }
      if dx != 0.0 {
        var delta := Notches(dx);
        if delta != 0 { Inject(HWheel(delta)); }
      }
    }

    method EnsurePenDevice() returns (ok: bool)
      requires Valid()
      modifies this`penDevice, this`penDeviceFailed
      ensures Valid() && ok == penDevice && (old(penDevice) ==> penDevice)
      ensures old(penDeviceFailed) ==> penDevice == old(penDevice)
      ensures Decided() && (old(Decided()) ==> penDevice == old(penDevice) && penDeviceFailed == old(penDeviceFailed))
    {
      if penDevice { return true; }
      if penDeviceFailed { return false; }
      penDevice := *;
      if !penDevice {
        penDeviceFailed := true;
        return false;
      }
      return true;
    }

    /** The flags after the call are the caller's to set; `down` and `range` say to what. */
    method InjectPen(e: Injected, down: bool, range: bool)
      requires Valid() && penDevice && e.Pen? && Fitting(After(trace), e)
      requires down == e.inContact && range == e.inRange
      modifies this`trace, this`lastPenPoint, this`penDown, this`penInRange
      ensures Valid() && trace == old(trace) + [e] && lastPenPoint == e.at && penDown == down && penInRange == range
    {
      hide Orderly, After;
      OneMore(trace, e);
      lastPenPoint := e.at;
      trace := trace + [e];
      penDown := down;
      penInRange := range;
    }

    method ReleasePenIfDown(at: Point)
      requires Valid()
      modifies this`trace, this`lastPenPoint, this`penDown, this`penInRange
      ensures Valid() && !penDown && penInRange == old(penInRange)
      ensures trace == old(trace) + if old(penDown) then [Pen(true, false, Lift, at, 0)] else []
      ensures lastPenPoint == if old(penDown) then at else old(lastPenPoint)
    {
      hide Orderly, After;
      if !penDown { return; }
      InjectPen(Pen(true, false, Lift, at, 0), false, true);
    }

    method HandlePencil(phase: PencilPhase, x: real, y: real, pressure: real)
      requires Valid()
      modifies this`trace, this`lastPenPoint, this`penDown, this`penInRange, this`penDevice, this`penDeviceFailed
      ensures Valid()
      ensures Decided() && (old(Decided()) ==> penDevice == old(penDevice) && penDeviceFailed == old(penDeviceFailed))
      ensures !penDevice ==> trace == old(trace)
      ensures penDevice ==>
                && trace == old(trace) + PencilEvents(phase, old(penDown), ScreenPoint(monitorRect, desktop, x, y), pressure)
                && penDown == (phase == PencilPhase.Down || (old(penDown) && phase in {Move, UnknownPencil}))
    {
      hide Orderly, After, ScreenPoint, Pressure;
      var ok := EnsurePenDevice();
      if !ok { return; }
      var at := ScreenPoint(monitorRect, desktop, x, y);
      match phase
      case Down =>
        InjectPen(Pen(true, true, Press, at, Pressure(pressure)), true, true);
      case Move =>
        if penDown {
          InjectPen(Pen(true, true, Update, at, Pressure(pressure)), true, true);
        } else {
          InjectPen(Pen(true, false, Update, at, 0), false, true);
        }
      case Up =>
        ReleasePenIfDown(at);
      case Hover =>
        ReleasePenIfDown(at);
        InjectPen(Pen(true, false, Update, at, 0), false, true);
      case UnknownPencil =>
    }

    method HandleProximity(entering: bool, x: real, y: real)
      requires Valid()
      modifies this`trace, this`lastPenPoint, this`penDown, this`penInRange, this`penDevice, this`penDeviceFailed
      ensures Valid() && (penDevice ==> penInRange == entering && (!entering ==> !penDown))
      ensures Decided() && (old(Decided()) ==> penDevice == old(penDevice) && penDeviceFailed == old(penDeviceFailed))
      ensures trace == old(trace) + if penDevice
                then ProximityEvents(entering, old(penInRange), old(penDown), ScreenPoint(monitorRect, desktop, x, y)) else []
    {
      hide Orderly, After, ScreenPoint;
      var ok := EnsurePenDevice();
      if !ok { return; }
      if entering == penInRange { return; }
      var at := ScreenPoint(monitorRect, desktop, x, y);
      if entering {
        InjectPen(Pen(true, false, Update, at, 0), false, true);
      } else {
        ReleasePenIfDown(at);
        InjectPen(Pen(false, false, Update, at, 0), false, false);
      }
    }

    /** Whatever was going on: the button is up, the pen lifted and away, where it was last. */
    method EndSession()
      requires Valid()
      modifies this`trace, this`lastPenPoint, this`penDown, this`penInRange, this`isDown
      ensures Valid() && After(trace) == NOTHING && !isDown && !penDown && !penInRange
      ensures lastPenPoint == old(lastPenPoint)
      ensures trace == old(trace) + EndEvents(old(After(trace)), old(lastPenPoint), penDevice)
    {
      hide Orderly, After;
      if isDown { InjectButton(LeftUp); }
      if !penDevice { return; }
      ReleasePenIfDown(lastPenPoint);
      if penInRange {
        InjectPen(Pen(false, false, Update, lastPenPoint, 0), false, false);
      }
    }

    /** One message of the reader thread. */
    method Handle(message: ControlMessage)
      requires Valid()
      modifies this`trace, this`lastPenPoint, this`penDown, this`penInRange, this`penDevice, this`penDeviceFailed, this`isDown
      ensures Valid()
      ensures trace == old(trace) + MessageEvents(message, monitorRect, desktop, old(After(trace)), penDevice)
      ensures NeedsPen(message) ==> Decided()
      ensures old(Decided()) || !NeedsPen(message) ==>
                penDevice == old(penDevice) && penDeviceFailed == old(penDeviceFailed)
    {
      hide Orderly, After, TouchPoint, ScreenPoint, PencilEvents, TouchEvents, WheelEvents, ProximityEvents;
      match message {
        case Touch(phase, x, y) => HandleTouch(phase, x, y);
        case Scroll(dx, dy) => HandleScroll(dx, dy);
        case Pencil(phase, x, y, pressure, _, _) => HandlePencil(phase, x, y, pressure);
        case Proximity(entering, x, y) => HandleProximity(entering, x, y);
        case _ =>
      }
      assert trace[..|old(trace)|] == old(trace);
    }

    /** Whether pens work has shown. */
    predicate Decided()
      reads this
    {
      penDevice || penDeviceFailed
    }

    /** The input messages of one connection, as the reader thread hands them on, and its end: exactly
        what each of them means in turn. */
    method Session(messages: seq<ControlMessage>, rects: seq<Rect>)
      requires Valid() && |rects| == |messages|
      modifies this
      ensures Valid() && After(trace) == NOTHING
      ensures var events := MessagesEvents(messages, rects, desktop, old(After(trace)), penDevice);
              exists last :: trace == old(trace) + events + EndEvents(TellAll(old(After(trace)), events), last, penDevice)
    {
      hide Orderly, After, MessageEvents, EndEvents, Tell;
      ghost var t := After(trace);
      ghost var start := trace;
      var k := 0;
      assert trace == start + [];
      while k < |messages|
        invariant k <= |messages| && Valid()
        invariant !Decided() ==> forall j :: 0 <= j < k ==> !NeedsPen(messages[j])
        invariant trace == start + MessagesEvents(messages[..k], rects[..k], desktop, t, penDevice)
      {
        SetMonitorRect(rects[k]);
        ghost var was, before := penDevice, trace;
        Handle(messages[k]);
        if penDevice != was { NoPenNeeded(messages[..k], rects[..k], desktop, t); }
        OneMoreMessage(messages, rects, desktop, start, before, trace, penDevice, k);
        k := k + 1;
      }
      assert messages[..k] == messages && rects[..k] == rects;
      ghost var events := MessagesEvents(messages, rects, desktop, t, penDevice);
      AfterBoth(start, events);
      EndSession();
    }
  }
}
