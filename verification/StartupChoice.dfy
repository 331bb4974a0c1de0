/** Which transport a startup run tries first, and when it turns to the other. */
module StartupChoice {
  import opened Wrappers
  import opened Startup
  import opened StartupRuns
  import DeviceOrder

  /** The remembered transport was USB, or none was remembered and a cable is there. */
  predicate UsbComesFirst(setup: Setup, w: World) {
    setup.lastTransport == "usb" || (setup.lastTransport != "wifi" && w.usbTarget)
  }

  function FirstChoice(setup: Setup, w: World): Transport {
    if UsbComesFirst(setup, w) then Usb else Wifi
  }

  /** A cable for USB; for Wi-Fi an address of the first device of the order. */
  predicate CanStart(t: Transport, setup: Setup, w: World) {
    match t
    case Usb => w.usbTarget
    case Wifi => Order(setup) != [] && Order(setup)[0] in w.reachable
    case NoTransport => false
  }

  function StartOf(t: Transport, setup: Setup): Started {
    if t == Wifi then WifiStarted(if Order(setup) == [] then 0 else Order(setup)[0]) else UsbStarted
  }

  lemma AttemptIs(m: Machine, t: Transport, setup: Setup, w: World)
    requires |m.apps| == |setup.devices| && AllOff(m.apps) && t != NoTransport
    ensures var r := StartTransport(m, t, setup, w);
            && r.ok == CanStart(t, setup, w) && r.m.tried == m.tried + [t]
            && r.m.starts == m.starts + (if CanStart(t, setup, w) then [StartOf(t, setup)] else [])
            && |r.m.apps| == |m.apps| && (!r.ok ==> AllOff(r.m.apps))
            && r.m.startup.transport == m.startup.transport
            && r.m.startup.waitingTransportStop == m.startup.waitingTransportStop
  {
    DeviceOrder.OrderIsPriority(setup.devices, setup.preferredDevice);
    var order := Order(setup);
    assert order != [] ==> order[0] < |m.apps|;
    hide Order;
    if order != [] && t == Wifi { assert m.apps[order[0]] == Off; }
  }

  /** The first step, from any idle state: the first choice is tried, and started if it can be; if not,
      the other transport is. */
  lemma BeginTries(m: Machine, setup: Setup, w: World)
    requires Idle(m, setup)
    ensures var first := FirstChoice(setup, w); var second := Other(first);
            var r := Begin(m, setup, w);
            if CanStart(first, setup, w) then
              r.tried == [first] && r.starts == [StartOf(first, setup)] && r.startup.transport == first
            else if CanStart(second, setup, w) then
              r.tried == [first, second] && r.starts == [StartOf(second, setup)] && r.startup.transport == second
            else r.tried == [first, second] && r.starts == [] && r.startup.transport == NoTransport
  {
    var first := FirstChoice(setup, w);
    var n := m.(startup := IDLE);
    assert Favourite(setup, w) == first;
    hide StartTransport, CanStart, StartOf, UsbComesFirst, Favourite;
    AttemptIs(n, first, setup, w);
    if !CanStart(first, setup, w) {
      AttemptIs(StartTransport(n, first, setup, w).m, Other(first), setup, w);
    }
  }

  // ----- One tick -----

  predicate AllDown(m: Machine) {
    AllOff(m.apps) && m.usb == Off
  }

  /** The other transport's turn has come: the first one's senders were told to stop and are gone, and
      nothing streams. */
  predicate TurnsOver(m: Machine, w: World) {
    var st := m.startup;
    && st.transport != NoTransport && st.waitingTransportStop && AllDown(m)
    && !st.fallbackUsed && !IsStreaming(st.transport, w)
  }

  function TransportOf(s: Started): Transport {
    match s case UsbStarted => Usb case WifiStarted(_) => Wifi
  }

  /** At most one Wi-Fi sender was started, and only while Wi-Fi is tried. */
  predicate MayStartNext(m: Machine, n: Machine) {
    && m.starts <= n.starts && |n.starts| <= |m.starts| + 1
    && (|n.starts| > |m.starts| ==> m.startup.transport == Wifi && n.starts[|m.starts|].WifiStarted?)
  }

  lemma FallbackTries(m: Machine, setup: Setup, w: World)
    requires Inv(m, setup) && m.startup.transport != NoTransport && m.startup.waitingTransportStop && AllDown(m)
    ensures var second := Other(m.startup.transport);
            var r := Fallback(m, setup, w);
            if m.startup.fallbackUsed then r.tried == m.tried && r.starts == m.starts && r.startup.transport == NoTransport
            else
              && r.tried == m.tried + [second]
              && r.starts == m.starts + (if CanStart(second, setup, w) then [StartOf(second, setup)] else [])
              && r.startup.transport == (if CanStart(second, setup, w) then second else NoTransport)
  {
    var failed := m.startup.transport;
    var stopped := (if failed == Usb then m.(usb := Off) else m.(apps := AllStopped(m.apps)))
                   .(startup := m.startup.(waitingTransportStop := false));
    hide StartTransport, CanStart, StartOf, OneSender, StartedInOrder, TriedOnce, OnWifi, OnUsb;
    if !m.startup.fallbackUsed { AttemptIs(stopped, Other(failed), setup, w); }
  }

  lemma TurnKeepsTried(m: Machine, setup: Setup, w: World)
    requires Inv(m, setup) && m.startup.transport == Wifi && !m.startup.waitingTransportStop
    ensures var r := WifiTurn(m, w); r.tried == m.tried && MayStartNext(m, r)
  {
    hide Order, WifiStarts, UsbStarts, OneSender, IsGlobal, StartedInOrder, TriedOnce;
  }

  lemma DownMeansNotUp(m: Machine, setup: Setup)
    requires Inv(m, setup) && m.startup.transport != NoTransport
    ensures StillUp(m) <==> !AllDown(m)
  {
    hide Order, OneSender, StartedInOrder, TriedOnce;
  }

  /** A tick tries the other transport exactly when its turn has come. */
  lemma TickTries(m: Machine, setup: Setup, w: World)
    requires Inv(m, setup)
    ensures var r, second := Advance(m, setup, w), Other(m.startup.transport);
            if TurnsOver(m, w) then
              && r.tried == m.tried + [second]
              && r.starts == m.starts + (if CanStart(second, setup, w) then [StartOf(second, setup)] else [])
            else r.tried == m.tried && MayStartNext(m, r)
  {
    hide StartTransport, Fallback, WifiTurn, CanStart, StartOf, StillUp, IsStreaming, Order;
    var st := m.startup;
    if st.transport != NoTransport && !IsStreaming(st.transport, w) {
      DownMeansNotUp(m, setup);
      if st.waitingTransportStop {
        if AllDown(m) { FallbackTries(m, setup, w); }
      } else if st.transport == Wifi {
        TurnKeepsTried(m, setup, w);
      }
    }
  }

  // ----- Whole runs -----

  /** The first choice, alone or with the other transport behind it, and the starts in that order. */
  predicate TriedInTurn(m: Machine, first: Transport) {
    && (m.tried == [first] || m.tried == [first, Other(first)])
    && (forall i :: 0 <= i < |m.starts| ==> TransportOf(m.starts[i]) in m.tried)
    && (forall i, j :: 0 <= i < j < |m.starts| && TransportOf(m.starts[j]) == first ==> TransportOf(m.starts[i]) == first)
  }

  lemma BeginsInTurn(m: Machine, setup: Setup, w: World)
    requires Idle(m, setup)
    ensures TriedInTurn(Begin(m, setup, w), FirstChoice(setup, w))
  {
    hide Begin, CanStart;
    BeginTries(m, setup, w);
  }

  lemma TicksInTurn(m: Machine, setup: Setup, w: World, first: Transport)
    requires Inv(m, setup) && TriedInTurn(m, first) && first in {Usb, Wifi}
    ensures TriedInTurn(Advance(m, setup, w), first)
  {
    TickTries(m, setup, w);
    var r := Advance(m, setup, w);
    var second := Other(m.startup.transport);
    assert m.startup.transport != NoTransport ==> m.tried[|m.tried| - 1] == m.startup.transport;
    assert TurnsOver(m, w) ==> |m.tried| == 1 && TransportOf(StartOf(second, setup)) == second;
    hide Advance, Inv, CanStart, StartOf, TurnsOver, TriedInTurn;
    GrowsInTurn(m, r, first);
  }

  lemma GrowsInTurn(m: Machine, n: Machine, first: Transport)
    requires TriedInTurn(m, first) && first in {Usb, Wifi}
    requires m.tried <= n.tried && m.starts <= n.starts && |n.starts| <= |m.starts| + 1
    requires n.tried == m.tried || (|m.tried| == 1 && n.tried == m.tried + [Other(m.tried[0])])
    requires |n.starts| > |m.starts| ==> TransportOf(n.starts[|m.starts|]) == n.tried[|n.tried| - 1]
    ensures TriedInTurn(n, first)
  {
    assert forall i :: 0 <= i < |m.starts| ==> n.starts[i] == m.starts[i];
  }

  /** Every run: USB is tried first exactly if it was remembered, or nothing was and a cable is there at
      the beginning; whatever is tried and started afterwards follows in that order. */
  lemma {:induction false} TriesInTurn(r: Run, k: nat)
    requires IsRun(r) && k < |r.after|
    ensures TriedInTurn(r.after[k], if UsbComesFirst(r.setup, r.first) then Usb else Wifi)
    decreases k
  {
    hide Inv, Idle, Begin, Advance, TriedInTurn, UsbComesFirst;
    if k == 0 {
      BeginsInTurn(r.idle, r.setup, r.first);
    } else {
      TriesInTurn(r, k - 1);
      assert Tick(r, k - 1);
      RunKeepsInv(r, k - 1);
      var m, b := r.after[k - 1], r.before[k - 1];
      var first := FirstChoice(r.setup, r.first);
      ExitsInTurn(m, b, first);
      TicksInTurn(b, r.setup, r.worlds[k - 1], first);
    }
  }

  lemma ExitsInTurn(m: Machine, n: Machine, first: Transport)
    requires Exits(m, n) && TriedInTurn(m, first)
    ensures TriedInTurn(n, first)
  {
  }

  // ----- Told to stop -----

  predicate NoneRunning(m: Machine) {
    m.usb != Running && forall i :: 0 <= i < |m.apps| ==> m.apps[i] != Running
  }

  /** Tick `j` found the time of the attempt over and told all its senders to stop. */
  predicate ToldAt(r: Run, j: nat) {
    && j < |r.worlds| && j < |r.before| && j + 1 < |r.after|
    && TimedOut(r.before[j], r.worlds[j]) && NoneRunning(r.after[j + 1]) && r.after[j + 1].startup.waitingTransportStop
    && r.after[j + 1].startup.transport == r.before[j].startup.transport
  }

  lemma TimeUpTells(m: Machine, setup: Setup, w: World)
    requires Inv(m, setup) && m.startup.transport != NoTransport && !m.startup.waitingTransportStop
    requires Advance(m, setup, w).startup.waitingTransportStop
    ensures TimedOut(m, w) && NoneRunning(Advance(m, setup, w))
    ensures Advance(m, setup, w).startup.transport == m.startup.transport
  {
    hide Order, WifiStarts, UsbStarts, OneSender, IsGlobal, StartedInOrder, TriedOnce, Fallback, StillUp, IsStreaming;
  }

  /** Whoever waits for stopped senders has been waiting since they were told. */
  lemma StillWaiting(m: Machine, setup: Setup, w: World)
    requires Inv(m, setup) && m.startup.transport != NoTransport && m.startup.waitingTransportStop
    requires var r := Advance(m, setup, w); r.startup.transport != NoTransport && r.startup.waitingTransportStop
    ensures Advance(m, setup, w).startup == m.startup
  {
    hide Order, OneSender, StartedInOrder, TriedOnce, StartTransport, StillUp, CanStart, StartOf;
    DownMeansNotUp(m, setup);
    if AllDown(m) && !m.startup.fallbackUsed {
      var failed := m.startup.transport;
      var stopped := (if failed == Usb then m.(usb := Off) else m.(apps := AllStopped(m.apps)))
                     .(startup := m.startup.(waitingTransportStop := false));
      AttemptIs(stopped, Other(failed), setup, w);
    }
  }

  lemma BeginsUnawaited(m: Machine, setup: Setup, w: World)
    requires Idle(m, setup)
    ensures !Begin(m, setup, w).startup.waitingTransportStop
  {
    hide Order, Favourite, DeviceOrder.OrderOf;
  }

  predicate Waits(m: Machine) {
    m.startup.transport != NoTransport && m.startup.waitingTransportStop
  }

  lemma {:induction false} WaitingWasTold(r: Run, k: nat) returns (j: nat)
    requires IsRun(r) && k < |r.before| && Waits(r.before[k])
    ensures j < k && ToldAt(r, j) && r.after[j + 1].startup == r.before[k].startup
    decreases k
  {
    hide *;
    SameStartup(r, k);
    if k == 0 {
      NobodyWaitsYet(r);
      assert false;
    } else if Waits(r.before[k - 1]) {
      StillSame(r, k);
      j := WaitingWasTold(r, k - 1);
    } else {
      j := k - 1;
      ToldHere(r, j);
    }
  }

  lemma SameStartup(r: Run, k: nat)
    requires IsRun(r) && k < |r.before|
    ensures |r.after| == |r.before| + 1 == |r.worlds| + 1 && r.after[k].startup == r.before[k].startup
    ensures Waits(r.after[k]) <==> Waits(r.before[k])
  {
    assert Tick(r, k);
  }

  lemma NobodyWaitsYet(r: Run)
    requires IsRun(r)
    ensures |r.after| > 0 && !Waits(r.after[0])
  {
    BeginsUnawaited(r.idle, r.setup, r.first);
    hide Begin, Tick;
  }

  lemma StillSame(r: Run, k: nat)
    requires IsRun(r) && 0 < k < |r.before| && Waits(r.after[k]) && Waits(r.before[k - 1])
    ensures r.after[k].startup == r.before[k - 1].startup
  {
    assert Tick(r, k - 1);
    RunKeepsInv(r, k - 1);
    hide Advance, Inv;
    StillWaiting(r.before[k - 1], r.setup, r.worlds[k - 1]);
  }

  lemma ToldHere(r: Run, j: nat)
    requires IsRun(r) && j < |r.worlds| && j + 1 < |r.after| && Waits(r.after[j + 1])
    requires j < |r.before| && !Waits(r.before[j])
    ensures ToldAt(r, j)
  {
    assert Tick(r, j);
    RunKeepsInv(r, j);
    hide Advance, Inv, TimedOut, NoneRunning;
    NothingBegins(r.before[j], r.setup, r.worlds[j]);
    TimeUpTells(r.before[j], r.setup, r.worlds[j]);
  }

  lemma NothingBegins(m: Machine, setup: Setup, w: World)
    requires |m.apps| == |setup.devices|
    ensures m.startup.transport == NoTransport ==> Advance(m, setup, w) == m
  {
    hide Fallback, WifiTurn;
  }

  /** Every run: the other transport is tried at the beginning exactly if the first choice could not be
      started; and at a tick exactly if the senders of the first were told to stop by an earlier tick that
      found its time over, all are gone, and nothing streams. */
  lemma TurnsExactly(r: Run, k: nat)
    requires IsRun(r) && k < |r.worlds|
    ensures |r.after[0].tried| == 2 <==> !CanStart(FirstChoice(r.setup, r.first), r.setup, r.first)
    ensures r.after[k + 1].tried != r.after[k].tried <==> TurnsOver(r.before[k], r.worlds[k])
    ensures TurnsOver(r.before[k], r.worlds[k]) ==>
              exists j :: 0 <= j < k && ToldAt(r, j) && r.after[j + 1].startup == r.before[k].startup
  {
    assert Tick(r, k);
    RunKeepsInv(r, k);
    BeginTries(r.idle, r.setup, r.first);
    TickTries(r.before[k], r.setup, r.worlds[k]);
    hide Idle, Begin, Advance, Inv, ToldAt, CanStart, FirstChoice;
    if TurnsOver(r.before[k], r.worlds[k]) {
      assert |r.after[k + 1].tried| == |r.after[k].tried| + 1;
      var j := WaitingWasTold(r, k);
    }
  }
}
