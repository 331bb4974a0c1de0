/** When the Wi-Fi round gives every auto-connected device its turn, and a run in which it does not. */
module StartupOrder {
  import opened Wrappers
  import opened ConfigStore
  import opened Startup
  import opened StartupRuns
  import DeviceOrder

  /** The Wi-Fi round is under way: its senders have not been told to make room for the other transport. */
  predicate OnRound(m: Machine) {
    m.startup.transport == Wifi && !m.startup.waitingTransportStop
  }

  /** The stopped device is gone, its time is over, and another device comes next: this one tick decides
      whether that device gets its turn. */
  predicate LastCall(m: Machine, w: World, n: nat) {
    var st := m.startup;
    && OnRound(m) && st.waitingNext && TimedOut(m, w) && st.wifiPosition + 1 < n
    && st.activeDevice.Some? && st.activeDevice.value < |m.apps| && m.apps[st.activeDevice.value] == Off
  }

  predicate Lengths(r: Run) {
    |r.after| == |r.worlds| + 1 && |r.before| == |r.worlds|
  }

  /** The first device had an address when Wi-Fi was attempted, within the first `k` ticks. */
  predicate FirstHadAddress(r: Run, k: nat)
    requires Lengths(r) && k <= |r.worlds|
  {
    var order := Order(r.setup);
    order != [] ==>
      && (Wifi in r.after[0].tried ==> order[0] in r.first.reachable)
      && forall j {:trigger r.worlds[j]} | 0 <= j < k && Wifi !in r.before[j].tried && Wifi in Advanced(r, j).tried ::
           order[0] in r.worlds[j].reachable
  }

  function Advanced(r: Run, j: nat): Machine
    requires Lengths(r) && j < |r.worlds|
  {
    r.after[j + 1]
  }

  /** At each last call within the first `k` ticks the device that comes next had an address. */
  predicate NextHadAddress(r: Run, k: nat)
    requires Lengths(r) && k <= |r.worlds|
  {
    var order := Order(r.setup);
    forall j | 0 <= j < k && LastCall(r.before[j], r.worlds[j], |order|) ::
      NextOf(order, r.before[j]) in r.worlds[j].reachable
  }

  function NextOf(order: seq<nat>, m: Machine): nat {
    var p := m.startup.wifiPosition + 1;
    if p < |order| then order[p] else 0
  }

  /** No device streams and no failure concerns all devices while the round is under way. */
  predicate Undisturbed(r: Run, k: nat)
    requires Lengths(r) && k <= |r.worlds|
  {
    forall j | 0 <= j < k && OnRound(r.before[j]) :: Quiet(r.worlds[j])
  }

  predicate Quiet(w: World) {
    !w.wifiStreaming && !IsGlobal(w)
  }

  // ----- One tick -----

  lemma AttemptEnters(m: Machine, setup: Setup, w: World)
    requires |m.apps| == |setup.devices| && AllOff(m.apps)
    requires !m.startup.waitingTransportStop && !m.startup.waitingNext
    ensures var r, order := StartTransport(m, Wifi, setup, w), Order(setup);
            && r.m.tried == m.tried + [Wifi] && |r.m.apps| == |m.apps|
            && (r.ok <==> order != [] && order[0] in w.reachable)
            && (!r.ok ==> r.m.starts == m.starts)
            && !r.m.startup.waitingTransportStop && r.m.startup.transport == m.startup.transport
  {
    DeviceOrder.OrderIsPriority(setup.devices, setup.preferredDevice);
    var order := Order(setup);
    assert order != [] ==> order[0] < |m.apps|;
    hide Order;
  }

  lemma UsbEnters(m: Machine, setup: Setup, w: World)
    requires |m.apps| == |setup.devices|
    ensures var r := StartTransport(m, Usb, setup, w);
            && r.m.tried == m.tried + [Usb] && r.m.startup == m.startup
            && WifiStarts(r.m.starts) == WifiStarts(m.starts) && |r.m.apps| == |m.apps|
            && (!r.ok ==> r.m.apps == m.apps)
  {
    OneMoreStart(m.starts, UsbStarted);
  }

  /** What one step from `m` to `n` does before, at and after the round, for the order `order`. */
  predicate Steps(m: Machine, n: Machine, w: World, order: seq<nat>) {
    && (Wifi !in m.tried ==>
          && !OnRound(m)
          && (Wifi in n.tried ==> (OnRound(n) <==> order != [] && order[0] in w.reachable))
          && (!OnRound(n) ==> WifiStarts(n.starts) == []))
    && (OnRound(m) && Quiet(w) ==>
          if LastCall(m, w, |order|) then
            if NextOf(order, m) in w.reachable then OnRound(n) else !OnRound(n) && WifiStarts(n.starts) != order
          else OnRound(n) || WifiStarts(n.starts) == order)
    && (Wifi in m.tried && !OnRound(m) ==> !OnRound(n) && WifiStarts(n.starts) == WifiStarts(m.starts))
    && (Wifi in m.tried ==> Wifi in n.tried)
    && (OnRound(n) ==> Wifi in n.tried)
  }

  lemma BeginSteps(m: Machine, setup: Setup, w: World)
    requires Idle(m, setup)
    ensures Steps(m.(startup := IDLE), Begin(m, setup, w), w, Order(setup))
  {
    var n := m.(startup := IDLE);
    assert WifiStarts([]) == [];
    FavouriteIsReal(setup, w);
    hide Order, WifiStarts, StartTransport, Favourite, LastCall, NextOf, Quiet;
    var t := Favourite(setup, w);
    var first := StartTransport(n, t, setup, w);
    if t == Wifi { AttemptEnters(n, setup, w); } else { UsbEnters(n, setup, w); }
    if !first.ok {
      if t == Wifi { UsbEnters(first.m, setup, w); } else { AttemptEnters(first.m, setup, w); }
    }
  }

  lemma FallbackSteps(m: Machine, setup: Setup, w: World)
    requires Inv(m, setup) && m.startup.transport != NoTransport && !StillUp(m)
    requires m.startup.waitingTransportStop
    ensures Steps(m, Fallback(m, setup, w), w, Order(setup))
  {
    var failed := m.startup.transport;
    var stopped := (if failed == Usb then m.(usb := Off) else m.(apps := AllStopped(m.apps)))
                   .(startup := m.startup.(waitingTransportStop := false));
    hide StartTransport, Order, WifiStarts, UsbStarts, OneSender;
    if !m.startup.fallbackUsed {
      if failed == Usb { AttemptEnters(stopped, setup, w); } else { UsbEnters(stopped, setup, w); }
    }
  }

  lemma RoundSteps(m: Machine, setup: Setup, w: World)
    requires Inv(m, setup) && OnRound(m)
    ensures var order, n := Order(setup), WifiTurn(m, w);
            && n.tried == m.tried
            && (Quiet(w) ==>
                  if LastCall(m, w, |order|) then
                    if NextOf(order, m) in w.reachable then OnRound(n) else !OnRound(n) && WifiStarts(n.starts) != order
                  else OnRound(n) || WifiStarts(n.starts) == order)
  {
    var order, done := Order(setup), WifiStarts(m.starts);
    assert done <= order && |done| == m.startup.wifiPosition + 1;
    assert |done| == |order| ==> done == order;
    DeviceOrder.OrderIsPriority(setup.devices, setup.preferredDevice);
    assert forall k :: 0 <= k < |order| ==> order[k] < |m.apps|;
    hide Order, WifiStarts, UsbStarts, OneSender, IsGlobal, TriedOnce, StartedInOrder;
  }

  lemma AdvanceSteps(m: Machine, setup: Setup, w: World)
    requires Inv(m, setup)
    ensures Steps(m, Advance(m, setup, w), w, Order(setup))
  {
    hide Order, WifiStarts, UsbStarts, OneSender, Fallback, WifiTurn, StillUp, IsGlobal;
    var st := m.startup;
    if st.transport == NoTransport {
    } else if IsStreaming(st.transport, w) {
    } else if st.waitingTransportStop {
      if !StillUp(m) { FallbackSteps(m, setup, w); }
    } else if st.transport == Wifi {
      RoundSteps(m, setup, w);
    }
  }

  // ----- The whole run -----

  predicate AllHadAddress(r: Run, k: nat)
    requires Lengths(r) && k <= |r.worlds|
  {
    FirstHadAddress(r, k) && NextHadAddress(r, k)
  }

  /** What the ticks so far say of the Wi-Fi starts: nothing was missed up to the end of the round, and at
      its end every device was started exactly if nothing was missed. */
  predicate Account(r: Run, k: nat)
    requires Lengths(r) && k <= |r.worlds|
  {
    var m, order := r.after[k], Order(r.setup);
    && (Wifi !in m.tried ==> WifiStarts(m.starts) == [])
    && (Wifi !in m.tried || OnRound(m) ==> AllHadAddress(r, k))
    && (Wifi in m.tried && !OnRound(m) ==> (WifiStarts(m.starts) == order <==> AllHadAddress(r, k)))
  }

  /** What tick `k` asks of its world. */
  predicate Asked(r: Run, k: nat)
    requires Lengths(r) && k < |r.worlds|
  {
    var m, w, order := r.before[k], r.worlds[k], Order(r.setup);
    && (order != [] && Wifi !in m.tried && Wifi in r.after[k + 1].tried ==> order[0] in w.reachable)
    && (LastCall(m, w, |order|) ==> NextOf(order, m) in w.reachable)
  }

  lemma OneMoreTick(r: Run, k: nat)
    requires Lengths(r) && k < |r.worlds|
    ensures AllHadAddress(r, k + 1) <==> AllHadAddress(r, k) && Asked(r, k)
  {
    hide Order, LastCall, NextOf;
    var order := Order(r.setup);
    var m, w := r.before[k], r.worlds[k];
    var first := order != [] && Wifi !in m.tried && Wifi in r.after[k + 1].tried ==> order[0] in w.reachable;
    var next := LastCall(m, w, |order|) ==> NextOf(order, m) in w.reachable;
    assert FirstHadAddress(r, k + 1) <==> FirstHadAddress(r, k) && first;
    assert NextHadAddress(r, k + 1) <==> NextHadAddress(r, k) && next;
  }

  lemma BeginAccounts(r: Run)
    requires IsRun(r)
    ensures Account(r, 0)
  {
    BeginSteps(r.idle, r.setup, r.first);
    hide Begin, Order, WifiStarts, LastCall, NextOf, Quiet, Tick;
  }

  lemma TickAccounts(r: Run, k: nat)
    requires IsRun(r) && k < |r.worlds| && Account(r, k) && (OnRound(r.before[k]) ==> Quiet(r.worlds[k]))
    ensures Account(r, k + 1)
  {
    assert Tick(r, k);
    RunKeepsInv(r, k);
    OneMoreTick(r, k);
    AdvanceSteps(r.before[k], r.setup, r.worlds[k]);
    hide IsRun, Inv, Advance, AllHadAddress, Order, WifiStarts, Quiet;
  }

  lemma {:induction false} RunAccounts(r: Run, k: nat)
    requires IsRun(r) && k <= |r.worlds| && Undisturbed(r, k)
    ensures Account(r, k)
    decreases k
  {
    if k == 0 {
      BeginAccounts(r);
    } else {
      hide IsRun, Account, OnRound, Quiet;
      RunAccounts(r, k - 1);
      TickAccounts(r, k - 1);
    }
  }

  /** When the Wi-Fi round is over and was not cut short, every device of the order was started exactly if
      the first had an address when the round began and each next one had one at its last call. */
  lemma AllTriedIff(r: Run, k: nat)
    requires IsRun(r) && k <= |r.worlds| && Undisturbed(r, k)
    requires Wifi in r.after[k].tried && !OnRound(r.after[k])
    ensures WifiStarts(r.after[k].starts) == Order(r.setup) <==> FirstHadAddress(r, k) && NextHadAddress(r, k)
  {
    RunAccounts(r, k);
  }

  // ----- A device that never gets its turn -----

  function Device(id: string): DeviceConfig {
    DeviceConfig(id, "", "", "", 7000, "wifi", 0, true, 0, "")
  }

  /** Three devices, the second without an address, and no cable. */
  const THREE := Setup([Device("a"), Device("b"), Device("c")], "", "wifi")

  function At(now: nat): World {
    World(now, false, false, false, {0, 2}, OtherPhase, OtherFailure, true)
  }

  /** The run: the first device is started, is told to stop after eight seconds, and is gone a second later. */
  function SkippingRun(): Run {
    var idle := Machine(IDLE, [Off, Off, Off], Off, [], []);
    var first := Attempt(Wifi, false, 0, [0, 1, 2], 0, Some(0), false, false);
    var m0 := Machine(first, [Running, Off, Off], Off, [WifiStarted(0)], [Wifi]);
    var m1 := m0.(apps := [Off, Off, Off], startup := first.(waitingNext := true));
    var m2 := m1.(startup := first.(waitingTransportStop := true));
    var m3 := m1.(startup := first.(transport := NoTransport), tried := [Wifi, Usb]);
    Run(THREE, idle, At(0), [m0, m1, m2, m3], [m0, m1, m2], [At(8000), At(9000), At(10000)])
  }

  lemma OrderOfThree()
    ensures Order(THREE) == [0, 1, 2]
  {
    var d := THREE.devices;
    assert DeviceOrder.Picked(d, "", false, 1) == [0];
    assert DeviceOrder.Picked(d, "", false, 2) == [0, 1];
    assert DeviceOrder.Picked(d, "", false, 3) == [0, 1, 2];
    DeviceOrder.NobodyPreferred(d, 3);
  }

  lemma SkippingBegins()
    ensures var r := SkippingRun(); Idle(r.idle, r.setup) && r.after[0] == Begin(r.idle, r.setup, r.first)
  {
    OrderOfThree();
    hide DeviceOrder.OrderOf;
    var r := SkippingRun();
    var m := r.idle.(startup := IDLE, tried := [Wifi]);
    var n := m.(startup := IDLE.(wifiOrder := [0, 1, 2], wifiPosition := 0, activeDevice := Some(0)));
    assert StartApp(n, 0) == n.(apps := [Running, Off, Off], starts := [WifiStarted(0)]);
    assert StartWifi(m, r.setup, r.first) == Outcome(true, StartApp(n, 0));
    assert [] + [Wifi] == [Wifi];
  }

  lemma SkippingStopsFirst()
    ensures var r := SkippingRun(); Tick(r, 0)
  {
    var r := SkippingRun();
    var m, w := r.before[0], r.worlds[0];
    assert TellActive(m, w).apps == [Off, Off, Off];
    hide Order;
  }

  lemma SkippingMissesSecond()
    ensures var r := SkippingRun(); Tick(r, 1)
  {
    var r := SkippingRun();
    var m, w := r.before[1], r.worlds[1];
    assert AllTold(m.apps, w.prompt) == [Off, Off, Off];
    assert !StartCandidate(m, 1, w).ok;
    hide Order;
  }

  lemma SkippingEnds()
    ensures var r := SkippingRun(); Tick(r, 2)
  {
    var r := SkippingRun();
    var m := r.before[2];
    assert AllStopped(m.apps) == [Off, Off, Off];
    assert [Wifi] + [Usb] == [Wifi, Usb];
    hide Order;
  }

  lemma SkippingIsRun()
    ensures IsTimedRun(SkippingRun())
  {
    SkippingBegins();
    SkippingStopsFirst();
    SkippingMissesSecond();
    SkippingEnds();
    hide Begin, Tick, Idle;
  }

  /** Not every device gets its turn: in this run the third device has an address all the time, and the
      attempt ends without having started it. */
  lemma ThirdNeverTried()
    ensures var r := SkippingRun();
            && IsTimedRun(r) && Undisturbed(r, 3)
            && (forall k :: 0 <= k < 3 ==> 2 in r.worlds[k].reachable) && 2 in r.first.reachable
            && r.after[3].startup.transport == NoTransport
            && Order(r.setup) == [0, 1, 2] && WifiStarts(r.after[3].starts) == [0]
            && FirstHadAddress(r, 3) && !NextHadAddress(r, 3)
  {
    SkippingIsRun();
    OrderOfThree();
    hide DeviceOrder.OrderOf, IsTimedRun;
    var r := SkippingRun();
    assert WifiStarts([]) == [];
    assert [WifiStarted(0)][..0] == [];
    assert LastCall(r.before[1], r.worlds[1], 3) && NextOf([0, 1, 2], r.before[1]) == 1;
  }
}
