/** One sender's RunLoop (src/app/SenderApp.cpp) with the calls it makes into the virtual display
    (src/display/VirtualDisplay.cpp). The world (network, receiver, driver, other senders, the user) is
    nondeterministic; what matters of a run is the trace it leaves. */
module Session {
  import opened Wrappers
  import opened ControlProtocol
  import opened Panel

  // ----- Traces -----

  datatype FrameKind = Welcome | Pong | Video | SenderPing

  datatype Event =
    | Connected
    | Heard(message: Option<ControlMessage>)   // a frame was read; None: not a control message
    | Sent(kind: FrameKind, ok: bool)          // what SendFrame returned
    | HungUp
    | Claimed(size: Size)                      // AcquirePanel succeeded
    | Unclaimed
    | DisplayAdded
    | DisplayRemoved
    | DisplayResized                           // the mode of the display is set
    | DuplicationOpened
    | DuplicationClosed

  datatype Stage = Apart | Fresh | Accepted | Welcomed

  /** `panel`: what the accepted hello of the connection asked for. `refused`: the hello of a connection
      was one of another device. `failed`: the worker could not send a frame on the connection. */
  datatype View = View(duplicating: bool, stage: Stage, panel: Option<Size>, holding: bool, refused: bool, failed: bool)

  predicate IsHello(message: Option<ControlMessage>) {
    message.Some? && message.value.Hello?
  }

  predicate AcceptsHello(message: Option<ControlMessage>, expected: string) {
    IsHello(message) && (expected == "" || message.value.id == expected)
  }

  /** What only the worker sends; the reader answers pings and repeated hellos. */
  predicate IsWorkers(kind: FrameKind) {
    kind == Video || kind == SenderPing
  }

  function Next(v: View, e: Event, expected: string): View {
    match e
    case Connected => v.(stage := Fresh, panel := None, failed := false)
    case Heard(message) =>
      if v.stage != Fresh || !IsHello(message) then v
      else if AcceptsHello(message, expected) then
        v.(stage := Accepted, panel := PanelOf(message.value.pixelsWide, message.value.pixelsHigh))
      else v.(refused := true)
    case Sent(kind, ok) =>
      if !ok then if IsWorkers(kind) || v.stage == Accepted then v.(failed := true) else v
      else if kind == Welcome && v.stage == Accepted then v.(stage := Welcomed)
      else v
    case HungUp => v.(stage := Apart)
    case Claimed(_) => v.(holding := true)
    case Unclaimed => v.(holding := false)
    case DuplicationOpened => v.(duplicating := true)
    case DuplicationClosed => v.(duplicating := false)
    case _ => v
  }

  const START := View(false, Apart, None, false, false, false)

  function After(trace: seq<Event>, expected: string): View {
    if trace == [] then START
    else Next(After(trace[..|trace| - 1], expected), trace[|trace| - 1], expected)
  }

  /** What may happen next: the display is left alone while it is being duplicated; the first frame of a
      connection is the welcome, after an accepted hello; anything else is sent only after it and, with a
      managed display, while the panel is held, and by the worker only until it fails once; every claim is given back before the next connection; a
      refused hello is the last thing that is heard, and after it there is only cleaning up. */
  predicate Allowed(v: View, e: Event, managed: bool) {
    && (v.refused ==> e in {HungUp, DuplicationClosed, DisplayRemoved})
    && match e
    case DisplayAdded => !v.duplicating
    case DisplayRemoved => !v.duplicating
    case DisplayResized => !v.duplicating
    case Sent(kind, _) =>
      if kind == Welcome then (v.stage == Accepted && !v.failed) || v.stage == Welcomed
      else v.stage == Welcomed && (managed ==> v.holding) && (IsWorkers(kind) ==> !v.failed)
    case Connected => v.stage == Apart && !v.holding
    case Claimed(size) => !v.holding && v.panel == Some(size)
    case Unclaimed => v.holding
    case _ => true
  }

  predicate Proper(trace: seq<Event>, expected: string, managed: bool) {
    forall k :: 0 <= k < |trace| ==> Allowed(After(trace[..k], expected), trace[k], managed)
  }

  lemma OneMore(trace: seq<Event>, e: Event, expected: string, managed: bool)
    requires Proper(trace, expected, managed) && Allowed(After(trace, expected), e, managed)
    ensures Proper(trace + [e], expected, managed)
    ensures After(trace + [e], expected) == Next(After(trace, expected), e, expected)
  {
    hide Allowed, Next;
    var longer := trace + [e];
    assert longer[..|trace|] == trace;
    forall k | 0 <= k < |longer| ensures Allowed(After(longer[..k], expected), longer[k], managed) {
      if k < |trace| { assert longer[..k] == trace[..k]; }
    }
  }

  // ----- What a proper trace says, without the view -----

  predicate IsDisplayChange(e: Event) {
    e.DisplayAdded? || e.DisplayRemoved? || e.DisplayResized?
  }

  lemma {:induction false} DuplicatingSince(trace: seq<Event>, expected: string, i: nat)
    requires i < |trace| && trace[i] == DuplicationOpened
    requires forall j :: i < j < |trace| ==> trace[j] != DuplicationClosed
    ensures After(trace, expected).duplicating
  {
    var n := |trace| - 1;
    if i < n { DuplicatingSince(trace[..n], expected, i); }
  }

  /** No display is added, removed or resized between an opening of the duplication and its closing. */
  lemma DisplayIsLeftAlone(trace: seq<Event>, expected: string, managed: bool, i: nat, k: nat)
    requires Proper(trace, expected, managed)
    requires i < k < |trace| && trace[i] == DuplicationOpened && IsDisplayChange(trace[k])
    ensures exists j :: i < j < k && trace[j] == DuplicationClosed
  {
    assert Allowed(After(trace[..k], expected), trace[k], managed);
    if forall j :: i < j < k ==> trace[j] != DuplicationClosed {
      DuplicatingSince(trace[..k], expected, i);
    }
  }

  /** In the connection begun at `i`, which lasts to the end of the trace, an accepted hello was read. */
  predicate HelloRead(trace: seq<Event>, expected: string, i: nat, j: nat) {
    && i < j < |trace| && trace[i] == Connected && trace[j].Heard? && AcceptsHello(trace[j].message, expected)
    && forall x :: i < x < |trace| ==> trace[x] != Connected && trace[x] != HungUp
  }

  lemma {:induction false} StageHasHistory(trace: seq<Event>, expected: string)
    ensures After(trace, expected).stage == Fresh ==> exists i :: ConnectedSince(trace, i)
    ensures After(trace, expected).stage == Accepted ==> exists i, j :: HelloRead(trace, expected, i, j)
    ensures After(trace, expected).stage == Welcomed ==>
              exists i: nat, j: nat, m: nat :: HelloRead(trace, expected, i, j) && j < m < |trace| && trace[m] == Sent(Welcome, true)
  {
    if trace != [] {
      var n := |trace| - 1;
      var before, e := trace[..n], trace[n];
      StageHasHistory(before, expected);
      var v, w := After(before, expected), After(trace, expected);
      assert w == Next(v, e, expected);
      if w.stage == Fresh {
        if e == Connected { assert ConnectedSince(trace, n); }
        else {
          var i :| ConnectedSince(before, i);
          assert ConnectedSince(trace, i);
        }
      } else if w.stage == Accepted && v.stage == Fresh {
        var i :| ConnectedSince(before, i);
        assert HelloRead(trace, expected, i, n);
      } else if w.stage == Accepted || (w.stage == Welcomed && v.stage == Accepted) {
        var i, j :| HelloRead(before, expected, i, j);
        assert HelloRead(trace, expected, i, j);
      } else if w.stage == Welcomed {
        var i: nat, j: nat, m: nat :| HelloRead(before, expected, i, j) && j < m < n && before[m] == Sent(Welcome, true);
        assert HelloRead(trace, expected, i, j) && trace[m] == Sent(Welcome, true);
      }
    }
  }

  predicate ConnectedSince(trace: seq<Event>, i: nat) {
    && i < |trace| && trace[i] == Connected
    && forall x :: i < x < |trace| ==> trace[x] != Connected && trace[x] != HungUp
  }

  /** Whatever is sent belongs to a connection on which an accepted hello was read before, and every
      frame but a welcome comes behind a welcome: the first frame of a connection is the welcome. */
  lemma WelcomeComesFirst(trace: seq<Event>, expected: string, managed: bool, k: nat)
    requires Proper(trace, expected, managed) && k < |trace| && trace[k].Sent?
    ensures exists i, j :: HelloRead(trace[..k], expected, i, j)
    ensures trace[k].kind != Welcome ==>
              exists i: nat, j: nat, m: nat :: HelloRead(trace[..k], expected, i, j) && j < m < k && trace[..k][m] == Sent(Welcome, true)
  {
    assert Allowed(After(trace[..k], expected), trace[k], managed);
    StageHasHistory(trace[..k], expected);
  }

  /** On the connection begun at `i` nothing was heard yet that a hello is. */
  predicate FreshSince(trace: seq<Event>, i: nat) {
    && i < |trace| && trace[i] == Connected
    && forall x :: i < x < |trace| ==> trace[x] != Connected && trace[x] != HungUp && !(trace[x].Heard? && IsHello(trace[x].message))
  }

  /** The first hello of the connection begun at `i` was heard at `j`, and it was another device's. */
  predicate RefusedHello(trace: seq<Event>, expected: string, i: nat, j: nat) {
    && j < |trace| && FreshSince(trace[..j], i)
    && trace[j].Heard? && IsHello(trace[j].message) && !AcceptsHello(trace[j].message, expected)
  }

  lemma {:induction false} FreshIff(trace: seq<Event>, expected: string)
    requires !After(trace, expected).refused
    ensures After(trace, expected).stage == Fresh <==> exists i :: FreshSince(trace, i)
  {
    if trace != [] {
      var n := |trace| - 1;
      var before := trace[..n];
      FreshIff(before, expected);
      if trace[n] == Connected { assert FreshSince(trace, n); }
      forall i: nat | FreshSince(trace, i) && i < n ensures FreshSince(before, i) {
      }
      if After(before, expected).stage == Fresh {
        var i :| FreshSince(before, i);
        assert After(trace, expected).stage == Fresh && trace[n] != Connected ==> FreshSince(trace, i);
      }
    }
  }

  lemma {:induction false} RefusedIff(trace: seq<Event>, expected: string)
    ensures After(trace, expected).refused <==> exists i, j :: RefusedHello(trace, expected, i, j)
  {
    if trace != [] {
      var n := |trace| - 1;
      var before := trace[..n];
      RefusedIff(before, expected);
      forall i: nat, j: nat | j < n ensures RefusedHello(trace, expected, i, j) <==> RefusedHello(before, expected, i, j) {
        assert trace[..j] == before[..j];
      }
      if !After(before, expected).refused {
        FreshIff(before, expected);
        forall i: nat | RefusedHello(trace, expected, i, n) ensures After(trace, expected).refused {
        }
        if After(trace, expected).refused {
          var i :| FreshSince(before, i);
          assert RefusedHello(trace, expected, i, n);
        }
      }
    }
  }

  /** After a refused hello there is only cleaning up: no further connection, frame, claim or display. */
  lemma NothingAfterRefusal(trace: seq<Event>, expected: string, managed: bool, i: nat, j: nat, k: nat)
    requires Proper(trace, expected, managed) && RefusedHello(trace, expected, i, j) && j < k < |trace|
    ensures trace[k] in {HungUp, DuplicationClosed, DisplayRemoved}
  {
    assert trace[..k][..j] == trace[..j];
    assert RefusedHello(trace[..k], expected, i, j);
    RefusedIff(trace[..k], expected);
    assert Allowed(After(trace[..k], expected), trace[k], managed);
  }

  /** A run that ends so: the receiver at the address calls itself "b" where "a" is expected. */
  lemma MismatchLeavesLock()
    ensures var trace := [Connected, Heard(Stranger()), HungUp];
            Proper(trace, "a", true) && After(trace, "a") == START.(refused := true) && RefusedHello(trace, "a", 0, 1)
  {
    var hello := Heard(Stranger());
    StrangerIsRefused();
    BeginsProper();
    hide Stranger, Proper, After, AcceptsHello, FreshSince, IsHello;
    OneMore([], Connected, "a", true);
    assert [] + [Connected] == [Connected];
    OneMore([Connected], hello, "a", true);
    assert [Connected] + [hello] == [Connected, hello];
    OneMore([Connected, hello], HungUp, "a", true);
    assert [Connected, hello] + [HungUp] == [Connected, hello, HungUp];
    assert [Connected, hello, HungUp][..1] == [Connected];
  }

  function Stranger(): Option<ControlMessage> {
    Some(Hello(1024, 768, 2, "iPad", "b", 3))
  }

  lemma StrangerIsRefused()
    ensures IsHello(Stranger()) && !AcceptsHello(Stranger(), "a") && FreshSince([Connected], 0)
  {
  }

  lemma BeginsProper()
    ensures After([], "a") == START && Proper([], "a", true)
  {
  }

  // ----- The claim -----

  predicate LastConnect(trace: seq<Event>, i: nat) {
    i < |trace| && trace[i] == Connected && forall x :: i < x < |trace| ==> trace[x] != Connected
  }

  /** An accepted hello of the connection begun at `i`, still the last one begun, asked for this size. */
  predicate AskedAt(trace: seq<Event>, expected: string, i: nat, j: nat, size: Size) {
    && LastConnect(trace, i) && i < j < |trace| && trace[j].Heard? && AcceptsHello(trace[j].message, expected)
    && PanelOf(trace[j].message.value.pixelsWide, trace[j].message.value.pixelsHigh) == Some(size)
  }

  lemma {:induction false} StageIsConnected(trace: seq<Event>, expected: string)
    ensures After(trace, expected).stage != Apart ==>
              exists i :: LastConnect(trace, i)
  {
    if trace != [] {
      var n := |trace| - 1;
      StageIsConnected(trace[..n], expected);
      if trace[n] == Connected {
        assert LastConnect(trace, n);
      } else if i: nat :| LastConnect(trace[..n], i) {
        assert LastConnect(trace, i);
      }
    }
  }

  lemma {:induction false} PanelWasAsked(trace: seq<Event>, expected: string) returns (i: nat, j: nat)
    requires After(trace, expected).panel.Some?
    ensures AskedAt(trace, expected, i, j, After(trace, expected).panel.value)
  {
    var n := |trace| - 1;
    var before := trace[..n];
    var v := After(before, expected);
    if v.stage == Fresh && trace[n].Heard? && AcceptsHello(trace[n].message, expected) {
      StageIsConnected(before, expected);
      i :| LastConnect(before, i);
      j := n;
    } else {
      i, j := PanelWasAsked(before, expected);
    }
  }

  /** The panel is claimed at the size that the connection's accepted hello reports, cut to even. */
  lemma ClaimsWhatWasAsked(trace: seq<Event>, expected: string, managed: bool, k: nat) returns (i: nat, j: nat)
    requires Proper(trace, expected, managed) && k < |trace| && trace[k].Claimed?
    ensures AskedAt(trace[..k], expected, i, j, trace[k].size)
  {
    assert Allowed(After(trace[..k], expected), trace[k], managed);
    i, j := PanelWasAsked(trace[..k], expected);
  }

  predicate HeldSince(trace: seq<Event>, i: nat) {
    i < |trace| && trace[i].Claimed? && forall j :: i < j < |trace| ==> trace[j] != Unclaimed
  }

  lemma {:induction false} HoldingHasHistory(trace: seq<Event>, expected: string)
    ensures After(trace, expected).holding <==> exists i :: HeldSince(trace, i)
  {
    if trace != [] {
      var n := |trace| - 1;
      var before := trace[..n];
      HoldingHasHistory(before, expected);
      forall i: nat | HeldSince(before, i) && trace[n] != Unclaimed ensures HeldSince(trace, i) {
      }
      forall i: nat | HeldSince(trace, i) && i < n ensures HeldSince(before, i) && trace[n] != Unclaimed {
      }
      if trace[n].Claimed? { assert HeldSince(trace, n); }
    }
  }

  /** With a managed display, nothing but welcomes is sent unless the panel is held; and it is not held
      when the next connection is made. */
  lemma StreamsOnlyWhileHolding(trace: seq<Event>, expected: string, k: nat)
    requires Proper(trace, expected, true) && k < |trace|
    ensures trace[k].Sent? && trace[k].kind != Welcome ==> exists i :: HeldSince(trace[..k], i)
    ensures trace[k] == Connected ==> !exists i :: HeldSince(trace[..k], i)
  {
    assert Allowed(After(trace[..k], expected), trace[k], true);
    HoldingHasHistory(trace[..k], expected);
  }

  // ----- After a failed send -----

  lemma {:induction false} FailedSince(trace: seq<Event>, expected: string, i: nat)
    requires i < |trace| && trace[i].Sent? && IsWorkers(trace[i].kind) && !trace[i].ok
    requires forall j :: i < j < |trace| ==> trace[j] != Connected
    ensures After(trace, expected).failed
  {
    var n := |trace| - 1;
    if i < n { FailedSince(trace[..n], expected, i); }
  }

  /** Once a video frame or a ping could not be sent, no other one is until the next connection. */
  lemma WorkerStopsAfterFailure(trace: seq<Event>, expected: string, managed: bool, i: nat, k: nat)
    requires Proper(trace, expected, managed) && i < k < |trace|
    requires trace[i].Sent? && IsWorkers(trace[i].kind) && !trace[i].ok
    requires trace[k].Sent? && IsWorkers(trace[k].kind)
    ensures exists j :: i < j < k && trace[j] == Connected
  {
    assert Allowed(After(trace[..k], expected), trace[k], managed);
    if forall j :: i < j < k ==> trace[j] != Connected {
      FailedSince(trace[..k], expected, i);
    }
  }

  // ----- The sender -----

  datatype Exit = Unlocked | Mismatch | Stopped

  /** How a connection ended after its hello was accepted. */
  datatype End = NotWelcomed | NotAPanel | Blocked | NotBuilt | Streamed

  class Sender {
    const managed: bool
    const expected: string
    const panelState: PanelState   // one for the whole process
    var others: nat                // how many other senders hold the panel
    var locked: bool          // the cross-process mutex
    var deviceOpen: bool      // vdisp.IsOpen()
    var displayUp: bool       // displayIndex_ >= 0
    var target: Size
    var running: bool
    var sleeping: bool
    var closing: bool
    var pendingResize: Option<Size>
    var trace: seq<Event>

    constructor (managed: bool, expected: string, panelState: PanelState)
      requires panelState.Valid()
      ensures this.managed == managed && this.expected == expected && this.panelState == panelState
      ensures trace == [] && Shared() && !locked && !displayUp && !deviceOpen
    {
      this.managed, this.expected, this.panelState := managed, expected, panelState;
      others := panelState.holders;
      locked, deviceOpen, displayUp, running, sleeping, closing := false, false, false, false, false, false;
      target, pendingResize, trace := NO_SIZE, None, [];
    }

    predicate Valid()
      reads this
    {
      Proper(trace, expected, managed) && (displayUp ==> deviceOpen) && (!managed ==> !deviceOpen)
    }

    function Now(): View
      reads this
    {
      After(trace, expected)
    }

    method Note(e: Event)
      requires Valid() && Allowed(Now(), e, managed)
      modifies this`trace
      ensures Valid() && Now() == Next(old(Now()), e, expected)
    {
      OneMore(trace, e, expected, managed);
      trace := trace + [e];
    }

    // ----- The duplication and the display -----

    method CloseDuplication()
      requires Valid()
      modifies this`trace
      ensures Valid() && Now() == old(Now()).(duplicating := false)
    {
      hide Proper, After;
      if Now().duplicating { Note(DuplicationClosed); }
    }

    method OpenDuplication() returns (ok: bool)
      requires Valid() && !Now().refused
      modifies this`trace
      ensures Valid() && Now() == old(Now()).(duplicating := ok || old(Now()).duplicating)
    {
      hide Proper, After;
      ok := *;
      if ok { Note(DuplicationOpened); }
    }

    /** VirtualDisplay::EnsureResolution: an attached display of the right size is reused, any other is
        removed and a new one added. */
    method EnsureResolution(size: Size) returns (ok: bool)
      requires Valid() && !Now().duplicating && !Now().refused && managed
      modifies this`trace, this`displayUp, this`target
      ensures Valid() && Now() == old(Now())
      ensures ok ==> displayUp && target == size
    {
      hide Proper, After;
      if !deviceOpen { return false; }
      var there: bool := *;
      if displayUp && target == size && there { return true; }
      target := size;
      var registered: bool := *;
      if !registered { return false; }
      if displayUp {
        Note(DisplayRemoved);
        displayUp := false;
      }
      var claimed: bool, added: bool, placed: bool := *, *, *;
      if !claimed || !added { return false; }
      Note(DisplayAdded);
      displayUp := true;
      if !placed {
        Note(DisplayRemoved);
        displayUp := false;
        return false;
      }
      Note(DisplayResized);
      return true;
    }

    /** VirtualDisplay::Close. */
    method CloseDisplay()
      requires Valid() && !Now().duplicating
      modifies this`trace, this`displayUp, this`deviceOpen
      ensures Valid() && Now() == old(Now()) && !displayUp && !deviceOpen
    {
      hide Proper, After;
      if displayUp && deviceOpen {
        Note(DisplayRemoved);
      }
      displayUp := false;
      deviceOpen := false;
    }

    method BuildPipeline(size: Size) returns (ok: bool)
      requires Valid() && !Now().refused
      modifies this`trace, this`displayUp, this`target, this`deviceOpen
      ensures Valid() && SameConnection(old(Now()), Now())
      ensures ok && managed ==> displayUp && target == size
    {
      hide Proper, After;
      if managed && !deviceOpen {
        deviceOpen := *;
        if !deviceOpen { return false; }
      }
      CloseDuplication();
      if managed {
        var attached := EnsureResolution(size);
        if !attached { return false; }
      } else {
        var attached: bool := *;
        if !attached { return false; }
      }
      var duplicated := OpenDuplication();
      if !duplicated { return false; }
      var configured: bool := *;
      return configured;
    }

    method DetachManagedDisplay()
      requires Valid()
      modifies this`trace, this`displayUp, this`deviceOpen
      ensures Valid() && SameConnection(old(Now()), Now())
      ensures managed ==> !displayUp && !deviceOpen
    {
      hide Proper, After;
      if !managed || !deviceOpen { return; }
      CloseDuplication();
      CloseDisplay();
    }

    /** CaptureFrameNv12 closes and reopens the duplication by itself when it was lost. */
    method Capture()
      requires Valid() && !Now().refused
      modifies this`trace
      ensures Valid() && SameConnection(old(Now()), Now())
    {
      hide Proper, After;
      var lost: bool := *;
      if lost {
        CloseDuplication();
        var _ := OpenDuplication();
      }
    }

    // ----- One connection -----

    method HangUp()
      requires Valid()
      modifies this`trace
      ensures Valid() && Now() == old(Now()).(stage := Apart)
    {
      hide Proper, After;
      if Now().stage != Apart { Note(HungUp); }
    }

    /** The destructor of PanelHolder. */
    method ReleaseClaim()
      requires Shared() && !Now().refused
      modifies this`trace, panelState
      ensures Shared() && Now() == old(Now()).(holding := false) && others == old(others)
    {
      hide Proper, After;
      if Now().holding {
        panelState.ReleasePanel();
        Note(Unclaimed);
      }
    }

    /** The claim on the panel counts the other senders' holders and this one. */
    predicate Shared()
      reads this, panelState
    {
      Valid() && panelState.Valid() && panelState.holders == others + if Now().holding then 1 else 0
    }

    /** Any number of calls of other senders. Whatever they do, the size that this one holds stays. */
    method OthersMove(n: nat)
      requires Shared()
      modifies this`others, panelState
      ensures Shared() && (Now().holding ==> panelState.Now().size == old(panelState.Now().size))
    {
      hide Proper, After;
      var k := 0;
      while k < n
        invariant Shared() && (Now().holding ==> panelState.Now().size == old(panelState.Now().size))
      {
        var joins: bool, turns: bool, width: nat, height: nat := *, *, *, *;
        if joins {
          var held, _ := panelState.AcquirePanel(Size(width, height));
          if held { others := others + 1; }
        } else if others > 0 {
          if turns {
            var _ := panelState.RetunePanel(Size(width, height));
          } else {
            panelState.ReleasePanel();
            others := others - 1;
          }
        }
        k := k + 1;
      }
    }

    /** Frames are read until a hello comes, the connection ends or a stop is requested. */
    method WaitForHello(n: nat) returns (hello: Option<ControlMessage>)
      requires Valid() && Now().stage == Fresh && !Now().refused
      modifies this`trace
      ensures Valid() && (hello.Some? ==> hello.value.Hello?)
      ensures Now() == Answered(old(Now()), hello, expected)
    {
      hide Proper, After;
      hello := None;
      var k := 0;
      var stopRequested: bool := *;
      while hello.None? && !stopRequested && k < n
        invariant Valid() && (hello.Some? ==> hello.value.Hello?)
        invariant Now() == Answered(old(Now()), hello, expected)
        decreases n - k
      {
        var read: bool := *;
        if !read { break; }
        var message: Option<ControlMessage> := *;
        Note(Heard(message));
        if message.Some? && message.value.Hello? { hello := message; }
        stopRequested := *;
        k := k + 1;
      }
    }

    predicate Streaming()
      reads this
    {
      Valid() && Now().stage == Welcomed && (managed ==> Now().holding) && !Now().refused
    }

    /** Any number of turns of the reader thread, between two actions of the worker. */
    method ReaderTurns(n: nat)
      requires Streaming()
      modifies this`trace, this`running, this`sleeping, this`closing, this`pendingResize
      ensures Streaming() && Now() == old(Now())
    {
      hide Proper, After;
      var k := 0;
      while running && k < n
        invariant Streaming() && Now() == old(Now())
        decreases n - k
      {
        var read: bool := *;
        if !read {
          running := false;
          break;
        }
        var message: Option<ControlMessage> := *;
        Note(Heard(message));
        if message.Some? { ReaderHandles(message.value); }
        k := k + 1;
      }
    }

    method ReaderHandles(message: ControlMessage)
      requires Streaming()
      modifies this`trace, this`running, this`sleeping, this`closing, this`pendingResize
      ensures Streaming() && Now() == old(Now())
      ensures pendingResize != old(pendingResize) ==>
                AcceptsHello(Some(message), expected) && pendingResize == PanelOf(message.pixelsWide, message.pixelsHigh)
      ensures sleeping == (old(sleeping) || message.Sleeping?) && closing == (old(closing) || message.Closing?)
    {
      hide Proper, After, PanelOf;
      var sent: bool := *;
      if message.Ping? {
        var serialized: bool := *;
        if serialized {
          Note(Sent(Pong, sent));
          if !sent { running := false; }
        }
      } else if message.Hello? {
        if !HelloMatchesExpectedDevice(message, expected) {
          running := false;
          return;
        }
        Note(Sent(Welcome, sent));
        if !sent {
          running := false;
          return;
        }
        var size := NormalizePanelSize(message.pixelsWide, message.pixelsHigh);
        if size.None? {
          running := false;
          return;
        }
        pendingResize := size;
      } else if message.Sleeping? {
        sleeping := true;
        running := false;
      } else if message.Closing? {
        closing := true;
        running := false;
      }
    }

    /** The frames one turn of the worker has encoded, and the ping when it is due. */
    method SendVideo(n: nat)
      requires Streaming() && !Now().failed
      modifies this`trace, this`running, this`sleeping, this`closing, this`pendingResize
      ensures Streaming() && Now() == old(Now()).(failed := Now().failed) && (running ==> !Now().failed)
    {
      hide Proper, After;
      var k, frames: nat := 0, *;
      while k < frames && k < n
        invariant Streaming() && Now() == old(Now())
        decreases n - k
      {
        var writable: bool, sent: bool := *, *;
        if !writable { break; }
        Note(Sent(Video, sent));
        ReaderTurns(n);
        if !sent {
          running := false;
          break;
        }
        k := k + 1;
      }
      var pingDue: bool, pinged: bool := *, *;
      if running && pingDue {
        Note(Sent(SenderPing, pinged));
        if !pinged { running := false; }
      }
    }

    /** The receiver was turned: the size on the air follows exactly when no other sender holds the panel,
        and the pipeline is rebuilt either way. */
    method Rotate(size: Size) returns (ok: bool)
      requires Streaming() && Shared()
      modifies this`trace, this`displayUp, this`target, this`deviceOpen, panelState
      ensures Streaming() && Shared() && SameConnection(old(Now()), Now())
      ensures panelState.Now().size == if managed && others == 0 then size else old(panelState.Now().size)
    {
      hide Proper, After;
      if managed { var _ := panelState.RetunePanel(size); }
      ok := BuildPipeline(size);
    }

    /** What the worker does first in a turn: the network is still safe, and the receiver's last size is
        followed. */
    method FollowReceiver(size: Size) returns (panel: Size, ok: bool)
      requires Streaming() && Shared()
      modifies this`trace, this`displayUp, this`target, this`deviceOpen, this`pendingResize, panelState
      ensures Streaming() && Shared() && SameConnection(old(Now()), Now())
      ensures panel == size || old(pendingResize) == Some(panel)
      ensures ok && old(pendingResize).Some? ==> panel == old(pendingResize).value
    {
      hide Proper, After;
      panel := size;
      var safe: bool := *;
      if !safe { return panel, false; }
      var requested := pendingResize;
      pendingResize := None;
      if requested.Some? && requested.value != panel {
        var rebuilt := Rotate(requested.value);
        if !rebuilt { return panel, false; }
        panel := requested.value;
      }
      return panel, true;
    }

    /** The capture, whose size may have been turned in Windows or be wrong; `again` after a rebuild for it. */
    method CaptureFrame(size: Size) returns (panel: Size, configured: bool, again: bool)
      requires Streaming() && Shared()
      modifies this`trace, this`displayUp, this`target, this`deviceOpen
      ensures Streaming() && Shared() && SameConnection(old(Now()), Now())
      ensures panel == size || (managed && panel == Size(size.height, size.width))
    {
      hide Proper, After;
      panel, again := size, false;
      Capture();
      configured := *;
      var turned: bool, wrongSize: bool := *, *;
      if managed && turned { panel := Size(panel.height, panel.width); }
      if managed && wrongSize { again := BuildPipeline(panel); }
    }

    /** One turn of the worker's loop. */
    method Turn(size: Size, n: nat) returns (panel: Size)
      requires Streaming() && Shared() && running && !Now().failed
      modifies this`trace, this`displayUp, this`target, this`deviceOpen, this`running, this`sleeping, this`closing,
               this`pendingResize, this`others, panelState
      ensures Streaming() && Shared() && SameButFailed(old(Now()), Now()) && (running ==> !Now().failed)
    {
      hide Proper, After;
      ReaderTurns(n);
      OthersMove(n);
      var ok: bool;
      panel, ok := FollowReceiver(size);
      if !ok {
        running := false;
        return;
      }
      ReaderTurns(n);
      var configured: bool, again: bool;
      panel, configured, again := CaptureFrame(panel);
      if !configured { running := false; }
      if again { return; }
      ReaderTurns(n);
      SendVideo(n);
    }

    /** The worker's loop while the connection streams, the reader and the other senders beside it. */
    method Stream(size: Size, n: nat)
      requires Streaming() && Shared() && !Now().failed
      modifies this`trace, this`displayUp, this`target, this`deviceOpen, this`running, this`sleeping, this`closing,
               this`pendingResize, this`others, panelState
      ensures Streaming() && Shared() && SameButFailed(old(Now()), Now())
    {
      hide Proper, After;
      var panel := size;
      running, sleeping, closing, pendingResize := true, false, false, None;
      var k := 0;
      var stopRequested: bool := *;
      while running && !stopRequested && k < n
        invariant Streaming() && Shared() && SameButFailed(old(Now()), Now()) && (running ==> !Now().failed)
        decreases n - k
      {
        k := k + 1;
        stopRequested := *;
        panel := Turn(panel, n);
      }
    }

    /** From the accepted hello to the end of the connection. */
    method Serve(hello: ControlMessage, n: nat) returns (end: End)
      requires Shared() && hello.Hello? && Now().stage == Accepted && !Now().holding && !Now().refused
      requires Now().panel == PanelOf(hello.pixelsWide, hello.pixelsHigh) && !Now().failed
      modifies this`trace, this`displayUp, this`target, this`deviceOpen, this`running, this`sleeping, this`closing,
               this`pendingResize, this`others, panelState
      ensures Shared() && Now().stage == Apart && !Now().holding && !Now().refused
      ensures managed && closing ==> !displayUp
      ensures end != NotWelcomed ==> (end == NotAPanel <==> PanelOf(hello.pixelsWide, hello.pixelsHigh).None?)
      ensures end == Blocked ==>
                managed && others > 0 && Some(panelState.Now().size) != PanelOf(hello.pixelsWide, hello.pixelsHigh)
      ensures managed && (end == NotBuilt || (end == Streamed && sleeping)) ==> !displayUp && !deviceOpen
    {
      hide Proper, After, IsPanel;
      closing := false;
      var welcomeSent: bool := *;
      Note(Sent(Welcome, welcomeSent));
      if !welcomeSent {
        HangUp();
        return NotWelcomed;
      }
      var size := NormalizePanelSize(hello.pixelsWide, hello.pixelsHigh);
      if size.None? {
        HangUp();
        return NotAPanel;
      }
      if managed {
        OthersMove(n);
        var held, _ := panelState.AcquirePanel(size.value);
        if !held {
          HangUp();
          return Blocked;
        }
        Note(Claimed(size.value));
      }
      hide PanelOf, Joined;
      end := ServePanel(size.value, n);
    }

    /** With the panel claimed: the pipeline, the stream, and everything given back. */
    method ServePanel(size: Size, n: nat) returns (end: End)
      requires Streaming() && Shared() && !Now().failed && !closing
      modifies this`trace, this`displayUp, this`target, this`deviceOpen, this`running, this`sleeping, this`closing,
               this`pendingResize, this`others, panelState
      ensures Shared() && Now().stage == Apart && !Now().holding && !Now().refused
      ensures end == NotBuilt || end == Streamed
      ensures managed && (end == NotBuilt || sleeping || closing) ==> !displayUp && !deviceOpen
    {
      hide Proper, After;
      var built := BuildPipeline(size);
      if !built {
        HangUp();
        DetachManagedDisplay();
        ReleaseClaim();
        return NotBuilt;
      }
      Stream(size, n);
      HangUp();
      if sleeping || closing { DetachManagedDisplay(); }
      ReleaseClaim();
      return Streamed;
    }

    // ----- The reconnect loop -----

    /** The destructors of the locals: the duplication is declared after the display and goes first. */
    method DropLocals()
      requires Valid()
      modifies this`trace, this`displayUp, this`deviceOpen
      ensures Valid() && SameConnection(old(Now()), Now()) && !Now().duplicating && !displayUp
    {
      hide Proper, After;
      CloseDuplication();
      CloseDisplay();
    }

    /** At most `n` turns of each loop: `n` is any number, the stop request may come at any time. */
    method RunLoop(n: nat) returns (exit: Exit)
      requires Shared() && Now() == START && !displayUp && !deviceOpen && !locked
      modifies this, panelState
      ensures Shared() && Now() == START.(refused := locked, panel := Now().panel, failed := Now().failed) && !displayUp
      ensures locked <==> exit == Mismatch
      ensures locked <==> exists i, j :: RefusedHello(trace, expected, i, j)
      ensures expected == "" ==> !locked
    {
      hide Proper, After, RefusedHello;
      var created: bool, existed: bool := *, *;
      RefusedIff(trace, expected);
      if !created || existed { return Unlocked; }
      locked := true;
      closing := false;
      var k := 0;
      var stopRequested: bool := *;
      while !stopRequested && k < n
        invariant Shared() && Now().stage == Apart && !Now().holding && !Now().refused && locked
        decreases n - k
      {
        k := k + 1;
        stopRequested := *;
        var graceOver: bool, allowed: bool, connects: bool := *, *, *;
        if graceOver { DetachManagedDisplay(); }
        if !allowed || !connects { continue; }
        Note(Connected);
        var hello := WaitForHello(n);
        if hello.None? {
          HangUp();
          continue;
        }
        if !HelloMatchesExpectedDevice(hello.value, expected) {
          HangUp();
          DropLocals();
          RefusedIff(trace, expected);
          return Mismatch;
        }
        var _ := Serve(hello.value, n);
        if closing { break; }
      }
      DetachManagedDisplay();
      locked := false;
      DropLocals();
      RefusedIff(trace, expected);
      return Stopped;
    }
  }

  /** Where a connection stands after its hello, if it came. */
  function Answered(v: View, hello: Option<ControlMessage>, expected: string): View {
    if hello.None? then v else Next(v, Heard(hello), expected)
  }

  /** Nothing but the duplication differs, and whether a send has failed. */
  predicate SameButFailed(v: View, w: View) {
    w == v.(duplicating := w.duplicating, failed := w.failed)
  }

  /** Nothing but the duplication differs. */
  predicate SameConnection(v: View, w: View) {
    w == v.(duplicating := w.duplicating)
  }
}
