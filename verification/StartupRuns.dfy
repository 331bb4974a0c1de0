/** Every startup auto-connect run: one sender at a time, each transport and each device at most once,
    and an end. */
module StartupRuns {
  import opened Wrappers
  import opened Startup
  import DeviceOrder

  predicate AllOff(apps: seq<App>) {
    forall i :: 0 <= i < |apps| ==> apps[i] == Off
  }

  /** At most one sender, over USB or Wi-Fi, is running. */
  predicate OneSender(m: Machine) {
    && (m.usb != Off ==> AllOff(m.apps))
    && (forall i, j :: 0 <= i < |m.apps| && 0 <= j < |m.apps| && m.apps[i] != Off && m.apps[j] != Off ==> i == j)
  }

  function WifiStarts(starts: seq<Started>): seq<nat> {
    if starts == [] then []
    else
      var rest, last := WifiStarts(starts[..|starts| - 1]), starts[|starts| - 1];
      if last.WifiStarted? then rest + [last.index] else rest
  }

  function UsbStarts(starts: seq<Started>): nat {
    if starts == [] then 0
    else UsbStarts(starts[..|starts| - 1]) + if starts[|starts| - 1].UsbStarted? then 1 else 0
  }

  lemma OneMoreStart(starts: seq<Started>, s: Started)
    ensures WifiStarts(starts + [s]) == WifiStarts(starts) + if s.WifiStarted? then [s.index] else []
    ensures UsbStarts(starts + [s]) == UsbStarts(starts) + if s.UsbStarted? then 1 else 0
  {
    assert (starts + [s])[..|starts|] == starts;
  }

  lemma {:induction false} StartsSplit(starts: seq<Started>)
    ensures |starts| == |WifiStarts(starts)| + UsbStarts(starts)
  {
    if starts != [] { StartsSplit(starts[..|starts| - 1]); }
  }

  /** Each transport was attempted at most once, the current one last. */
  predicate TriedOnce(m: Machine) {
    && NoTransport !in m.tried && |m.tried| <= 2 && (|m.tried| == 2 ==> m.tried[0] != m.tried[1])
    && (m.startup.transport != NoTransport ==>
          && m.tried != [] && m.tried[|m.tried| - 1] == m.startup.transport
          && m.startup.fallbackUsed == (|m.tried| == 2))
  }

  /** Each device was started at most once, in order, and USB at most once. */
  predicate StartedInOrder(m: Machine, order: seq<nat>) {
    && WifiStarts(m.starts) <= order && UsbStarts(m.starts) <= 1
    && (Wifi !in m.tried ==> WifiStarts(m.starts) == [])
    && (Usb !in m.tried ==> UsbStarts(m.starts) == 0)
  }

  /** While Wi-Fi is tried, the device at the current position is the last one started and the only one
      that may run. */
  predicate OnWifi(m: Machine, order: seq<nat>) {
    var st := m.startup;
    && m.usb == Off && st.wifiOrder == order && st.wifiPosition < |order|
    && st.activeDevice == Some(order[st.wifiPosition]) && order[st.wifiPosition] < |m.apps|
    && (forall i :: 0 <= i < |m.apps| && m.apps[i] != Off ==> i == order[st.wifiPosition])
    && |WifiStarts(m.starts)| == st.wifiPosition + 1
    && (st.waitingNext || st.waitingTransportStop ==> m.apps[order[st.wifiPosition]] != Running)
  }

  predicate OnUsb(m: Machine) {
    AllOff(m.apps) && !m.startup.waitingNext && (m.startup.waitingTransportStop ==> m.usb != Running)
  }

  predicate Inv(m: Machine, setup: Setup) {
    && |m.apps| == |setup.devices| && OneSender(m) && TriedOnce(m) && StartedInOrder(m, Order(setup))
    && (m.startup.transport == Wifi ==> OnWifi(m, Order(setup)))
    && (m.startup.transport == Usb ==> OnUsb(m))
    && !(m.startup.waitingNext && m.startup.waitingTransportStop)
  }

  /** Nothing runs and nothing was tried. */
  predicate Idle(m: Machine, setup: Setup) {
    |m.apps| == |setup.devices| && AllOff(m.apps) && m.usb == Off && m.starts == [] && m.tried == []
  }

  /** Before a transport is attempted: everything is down, and it was not attempted before. */
  predicate Ready(m: Machine, t: Transport, setup: Setup) {
    && |m.apps| == |setup.devices| && AllOff(m.apps) && m.usb == Off
    && StartedInOrder(m, Order(setup))
    && NoTransport !in m.tried && |m.tried| <= 1 && t !in m.tried && t != NoTransport
  }

  /** What a failed attempt leaves: everything still down, and no attempt under way. */
  predicate StillDown(m: Machine, n: Machine) {
    && AllOff(n.apps) && |n.apps| == |m.apps| && n.usb == Off && n.starts == m.starts
    && !n.startup.waitingNext && !n.startup.waitingTransportStop && n.startup.transport == m.startup.transport
  }

  lemma UsbKeeps(m: Machine, setup: Setup, w: World, fallback: bool)
    requires Ready(m, Usb, setup) && !m.startup.waitingNext && !m.startup.waitingTransportStop
    requires fallback == (m.tried != [])
    ensures var r := StartTransport(m, Usb, setup, w);
            && r.m.tried == m.tried + [Usb]
            && if r.ok then Inv(Trying(r.m, Usb, fallback, w.now), setup) else StillDown(m, r.m)
  {
    hide Order, WifiStarts, UsbStarts, StartWifi;
    OneMoreStart(m.starts, UsbStarted);
  }

  lemma WifiKeeps(m: Machine, setup: Setup, w: World, fallback: bool)
    requires Ready(m, Wifi, setup) && !m.startup.waitingNext && !m.startup.waitingTransportStop
    requires fallback == (m.tried != [])
    ensures var r := StartTransport(m, Wifi, setup, w);
            && r.m.tried == m.tried + [Wifi]
            && if r.ok then Inv(Trying(r.m, Wifi, fallback, w.now), setup) else StillDown(m, r.m)
  {
    var r := StartTransport(m, Wifi, setup, w);
    if r.ok {
      var order := Order(setup);
      WifiSucceeds(m, setup, w);
      hide Order, WifiStarts, UsbStarts, StartTransport;
      OneMoreStart(m.starts, WifiStarted(order[0]));
      assert [] + [order[0]] == order[..1];
      FirstRuns(m, order[0], r.m.apps);
      assert OneSender(r.m);
    } else {
      hide Order;
    }
  }

  lemma WifiSucceeds(m: Machine, setup: Setup, w: World)
    requires |m.apps| == |setup.devices| && AllOff(m.apps) && StartTransport(m, Wifi, setup, w).ok
    ensures var r, order := StartTransport(m, Wifi, setup, w), Order(setup);
            && order != [] && order[0] < |m.apps|
            && r.m == m.(usb := Off, apps := m.apps[order[0] := Running], starts := m.starts + [WifiStarted(order[0])],
                         tried := m.tried + [Wifi],
                         startup := m.startup.(wifiOrder := order, wifiPosition := 0, activeDevice := Some(order[0])))
  {
    DeviceOrder.OrderIsPriority(setup.devices, setup.preferredDevice);
    var order := Order(setup);
    assert order != [];
    assert order[0] < |m.apps|;
    assert m.apps[order[0]] == Off;
  }

  lemma FirstRuns(m: Machine, i: nat, apps: seq<App>)
    requires AllOff(m.apps) && i < |m.apps| && apps == m.apps[i := Running]
    ensures forall k :: 0 <= k < |apps| && apps[k] != Off ==> k == i
  {
  }

  lemma StartKeeps(m: Machine, t: Transport, setup: Setup, w: World, fallback: bool)
    requires Ready(m, t, setup) && !m.startup.waitingNext && !m.startup.waitingTransportStop
    requires fallback == (m.tried != [])
    ensures var r := StartTransport(m, t, setup, w);
            && r.m.tried == m.tried + [t]
            && if r.ok then Inv(Trying(r.m, t, fallback, w.now), setup) else StillDown(m, r.m)
  {
    hide Inv, StillDown, StartTransport;
    if t == Usb { UsbKeeps(m, setup, w, fallback); } else { WifiKeeps(m, setup, w, fallback); }
  }

  lemma BeginKeeps(m: Machine, setup: Setup, w: World)
    requires Idle(m, setup)
    ensures Inv(Begin(m, setup, w), setup)
  {
    assert WifiStarts([]) == [] && UsbStarts([]) == 0;
    var n := m.(startup := IDLE);
    var t := Favourite(setup, w);
    hide StartTransport, Order, WifiStarts, UsbStarts, Favourite;
    assert t == Usb || t == Wifi by { FavouriteIsReal(setup, w); }
    StartKeeps(n, t, setup, w, false);
    var first := StartTransport(n, t, setup, w);
    if !first.ok {
      StartKeeps(first.m, Other(t), setup, w, true);
    }
  }

  lemma FavouriteIsReal(setup: Setup, w: World)
    ensures Favourite(setup, w) in {Usb, Wifi}
  {
  }

  lemma FallbackKeeps(m: Machine, setup: Setup, w: World)
    requires Inv(m, setup) && m.startup.transport != NoTransport && !StillUp(m)
    requires m.startup.waitingTransportStop
    ensures Inv(Fallback(m, setup, w), setup)
  {
    var failed := m.startup.transport;
    var stopped := (if failed == Usb then m.(usb := Off) else m.(apps := AllStopped(m.apps)))
                   .(startup := m.startup.(waitingTransportStop := false));
    hide StartTransport, Order, WifiStarts, UsbStarts;
    if !m.startup.fallbackUsed {
      StartKeeps(stopped, Other(failed), setup, w, true);
    }
  }

  lemma TimeUpKeeps(m: Machine, setup: Setup, w: World)
    requires Inv(m, setup) && m.startup.transport != NoTransport && !m.startup.waitingNext
    ensures Inv(TimeUp(m, w), setup)
  {
    hide Order, WifiStarts, UsbStarts;
  }

  lemma TellActiveKeeps(m: Machine, setup: Setup, w: World)
    requires Inv(m, setup) && m.startup.transport == Wifi
    ensures Inv(TellActive(m, w), setup)
    ensures TellActive(m, w).startup == m.startup
    ensures var i := m.startup.activeDevice.value; TellActive(m, w).apps[i] != Running
  {
    hide Order, WifiStarts, UsbStarts;
  }

  lemma CandidateKeeps(m: Machine, setup: Setup, w: World)
    requires Inv(m, setup) && m.startup.transport == Wifi && m.startup.waitingNext
    requires m.apps[m.startup.activeDevice.value] == Off
    ensures var r := StartCandidate(m, m.startup.wifiPosition + 1, w);
            if r.ok then Inv(r.m, setup) && r.m.startup.wifiPosition == m.startup.wifiPosition + 1
              && !r.m.startup.waitingNext && !r.m.startup.waitingTransportStop
            else r.m == m
  {
    var order, next := Order(setup), m.startup.wifiPosition + 1;
    hide Order, WifiStarts, UsbStarts;
    if next < |order| {
      OneMoreStart(m.starts, WifiStarted(order[next]));
      assert order[..next] + [order[next]] == order[..next + 1];
      assert WifiStarts(m.starts) == order[..next];
    }
  }

  lemma WifiTurnKeeps(m: Machine, setup: Setup, w: World)
    requires Inv(m, setup) && m.startup.transport == Wifi && !m.startup.waitingTransportStop
    ensures Inv(WifiTurn(m, w), setup)
  {
    hide Order, WifiStarts, UsbStarts, TimeUp, TellActive, StartCandidate;
    var st := m.startup;
    TellActiveKeeps(m, setup, w);
    if st.waitingNext {
      if m.apps[st.activeDevice.value] == Off {
        CandidateKeeps(m, setup, w);
        TimeUpKeeps(m.(startup := st.(waitingNext := false)), setup, w);
      }
    } else {
      TimeUpKeeps(m, setup, w);
      TimeUpKeeps(TellActive(m, w), setup, w);
    }
  }

  lemma AdvanceKeeps(m: Machine, setup: Setup, w: World)
    requires Inv(m, setup)
    ensures Inv(Advance(m, setup, w), setup)
  {
    hide Order, WifiStarts, UsbStarts, TimeUp, WifiTurn, Fallback, StillUp;
    var st := m.startup;
    if st.transport != NoTransport {
      if st.waitingTransportStop {
        if !StillUp(m) { FallbackKeeps(m, setup, w); }
      } else if st.transport == Wifi {
        WifiTurnKeeps(m, setup, w);
      } else {
        TimeUpKeeps(m, setup, w);
      }
    }
  }

  // ----- Runs -----

  /** Between two ticks any sender may exit by itself; none starts. */
  predicate Exits(m: Machine, n: Machine) {
    && n.startup == m.startup && n.starts == m.starts && n.tried == m.tried && |n.apps| == |m.apps|
    && (n.usb == m.usb || n.usb == Off)
    && forall i :: 0 <= i < |m.apps| ==> n.apps[i] == m.apps[i] || n.apps[i] == Off
  }

  lemma ExitsKeep(m: Machine, n: Machine, setup: Setup)
    requires Inv(m, setup) && Exits(m, n)
    ensures Inv(n, setup)
  {
    hide Order, WifiStarts, UsbStarts;
  }

  /** BeginStartupAutoConnect, then any number of timer ticks. */
  datatype Run = Run(setup: Setup, idle: Machine, first: World, after: seq<Machine>, before: seq<Machine>,
                     worlds: seq<World>)

  predicate IsRun(r: Run) {
    && Idle(r.idle, r.setup)
    && |r.after| == |r.worlds| + 1 && |r.before| == |r.worlds|
    && r.after[0] == Begin(r.idle, r.setup, r.first)
    && forall k :: 0 <= k < |r.worlds| ==> Tick(r, k)
  }

  predicate Tick(r: Run, k: nat)
    requires |r.after| == |r.worlds| + 1 && |r.before| == |r.worlds| && k < |r.worlds|
  {
    && Exits(r.after[k], r.before[k]) && |r.before[k].apps| == |r.setup.devices|
    && r.after[k + 1] == Advance(r.before[k], r.setup, r.worlds[k])
  }

  lemma {:induction false} RunKeepsInv(r: Run, k: nat)
    requires IsRun(r) && k < |r.after|
    ensures Inv(r.after[k], r.setup)
    ensures k < |r.before| ==> Inv(r.before[k], r.setup)
    decreases k
  {
    hide Inv, Idle, Begin, Advance, Exits;
    if k == 0 {
      BeginKeeps(r.idle, r.setup, r.first);
    } else {
      RunKeepsInv(r, k - 1);
      assert Tick(r, k - 1);
      AdvanceKeeps(r.before[k - 1], r.setup, r.worlds[k - 1]);
    }
    if k < |r.before| {
      assert Tick(r, k);
      ExitsKeep(r.after[k], r.before[k], r.setup);
    }
  }

  /** At every point of every run: one sender at most, every transport attempted and every device
      started at most once, the devices in order, and no more than one start a device and one for USB. */
  lemma RunIsSafe(r: Run, k: nat)
    requires IsRun(r) && k < |r.after|
    ensures var m, order := r.after[k], Order(r.setup);
            && OneSender(m)
            && |m.tried| <= 2 && (|m.tried| == 2 ==> m.tried[0] != m.tried[1])
            && WifiStarts(m.starts) <= order && UsbStarts(m.starts) <= 1
            && |m.starts| <= |order| + 1
  {
    hide IsRun, Order;
    RunKeepsInv(r, k);
    StartsSplit(r.after[k].starts);
  }

  // ----- The end -----

  /** What is still to be tried, with `n` devices in the order. */
  function Rank(m: Machine, n: nat): nat {
    var st := m.startup;
    if st.transport == NoTransport then 0
    else
      (if st.fallbackUsed then 0 else n + 2)
      + if st.waitingTransportStop then 1
        else if st.transport == Usb then 2
        else if st.wifiPosition < n then 1 + n - st.wifiPosition else 1
  }

  function Devices(setup: Setup): nat {
    |Order(setup)|
  }

  /** Whoever was told to stop has exited. */
  predicate Responsive(m: Machine) {
    m.usb != Stopping && forall i :: 0 <= i < |m.apps| ==> m.apps[i] != Stopping
  }

  predicate TimedOut(m: Machine, w: World) {
    w.now >= m.startup.started + 8000
  }

  /** What comes next waits only for senders that were told to stop. */
  predicate Pending(m: Machine, n: nat) {
    var st := m.startup;
    && st.transport != NoTransport
    && (st.waitingTransportStop
        || (st.transport == Wifi && (st.waitingNext || st.wifiPosition + 1 >= n)
            && st.activeDevice.Some? && st.activeDevice.value < |m.apps| && m.apps[st.activeDevice.value] != Running))
  }

  lemma FallbackFalls(m: Machine, setup: Setup, w: World)
    requires Inv(m, setup) && m.startup.transport != NoTransport && m.startup.waitingTransportStop
    ensures Rank(Fallback(m, setup, w), Devices(setup)) < Rank(m, Devices(setup))
    ensures Fallback(m, setup, w).startup.started in {m.startup.started, w.now}
  {
    hide Order, WifiStarts, UsbStarts, OneSender;
  }

  lemma WifiTurnFalls(m: Machine, setup: Setup, w: World)
    requires Inv(m, setup) && m.startup.transport == Wifi && !m.startup.waitingTransportStop
    ensures var n, r := Devices(setup), WifiTurn(m, w);
            && (r.startup.started == m.startup.started || (r.startup.started == w.now && Rank(r, n) < Rank(m, n)))
            && Rank(r, n) <= Rank(m, n)
            && (TimedOut(m, w) ==> Rank(r, n) < Rank(m, n) || Pending(r, n))
            && (Responsive(m) && TimedOut(m, w) && Pending(m, n) ==> Rank(r, n) < Rank(m, n))
  {
    hide Order, WifiStarts, UsbStarts, OneSender, IsGlobal, StartedInOrder, TriedOnce;
  }

  /** No tick adds to what is to be tried, or restarts the clock without taking from it. A tick after the
      time-out takes from it or leaves it to the stopped senders, and when these are gone the next takes. */
  lemma AdvanceFalls(m: Machine, setup: Setup, w: World)
    requires Inv(m, setup)
    ensures var n, r := Devices(setup), Advance(m, setup, w);
            && (r.startup.started == m.startup.started || (r.startup.started == w.now && Rank(r, n) < Rank(m, n)))
            && Rank(r, n) <= Rank(m, n)
            && (Rank(m, n) > 0 && TimedOut(m, w) ==> Rank(r, n) < Rank(m, n) || Pending(r, n))
            && (Responsive(m) && TimedOut(m, w) && Pending(m, n) ==> Rank(r, n) < Rank(m, n))
  {
    hide Order, WifiStarts, UsbStarts, OneSender, Fallback, WifiTurn, IsStreaming, StartedInOrder;
    var st := m.startup;
    if st.transport != NoTransport {
      if st.waitingTransportStop {
        FallbackFalls(m, setup, w);
      } else if st.transport == Wifi {
        WifiTurnFalls(m, setup, w);
      }
    }
  }

  /** Ticks in time order. */
  predicate IsTimedRun(r: Run) {
    && IsRun(r)
    && (forall k :: 0 <= k < |r.worlds| ==> r.first.now <= r.worlds[k].now)
    && (forall j, k :: 0 <= j <= k < |r.worlds| ==> r.worlds[j].now <= r.worlds[k].now)
  }

  function RankAt(r: Run, k: nat): nat
    requires k < |r.after|
  {
    Rank(r.after[k], Devices(r.setup))
  }

  lemma TickFalls(r: Run, k: nat)
    requires IsTimedRun(r) && k < |r.worlds|
    ensures RankAt(r, k + 1) <= RankAt(r, k)
    ensures r.after[k + 1].startup.started == r.after[k].startup.started
            || (r.after[k + 1].startup.started == r.worlds[k].now && RankAt(r, k + 1) < RankAt(r, k))
    ensures RankAt(r, k) > 0 && TimedOut(r.after[k], r.worlds[k]) ==>
              RankAt(r, k + 1) < RankAt(r, k) || Pending(r.after[k + 1], Devices(r.setup))
    ensures Responsive(r.before[k]) && TimedOut(r.after[k], r.worlds[k]) && Pending(r.after[k], Devices(r.setup)) ==>
              RankAt(r, k + 1) < RankAt(r, k)
  {
    assert Tick(r, k);
    RunKeepsInv(r, k);
    hide IsRun, Inv, Advance, Responsive;
    AdvanceFalls(r.before[k], r.setup, r.worlds[k]);
    ExitsChangeNoRank(r.after[k], r.before[k], Devices(r.setup));
  }

  lemma ExitsChangeNoRank(m: Machine, b: Machine, n: nat)
    requires Exits(m, b)
    ensures Rank(b, n) == Rank(m, n) && (Pending(m, n) ==> Pending(b, n))
  {
  }

  lemma {:induction false} RankOnlyFalls(r: Run, i: nat, j: nat)
    requires IsTimedRun(r) && i <= j < |r.after|
    ensures RankAt(r, j) <= RankAt(r, i)
    ensures RankAt(r, j) == RankAt(r, i) ==> r.after[j].startup.started == r.after[i].startup.started
    decreases j - i
  {
    hide IsTimedRun, Rank, Devices;
    if i < j {
      RunLengths(r);
      RankOnlyFalls(r, i, j - 1);
      TickFalls(r, j - 1);
    }
  }

  lemma RunLengths(r: Run)
    requires IsTimedRun(r)
    ensures |r.after| == |r.worlds| + 1
  {
  }

  lemma {:induction false} StartedInThePast(r: Run, k: nat)
    requires IsTimedRun(r) && k < |r.after|
    ensures r.after[k].startup.started <= if k == 0 then r.first.now else r.worlds[k - 1].now
    decreases k
  {
    if k == 0 {
      hide StartTransport, Favourite;
      BeganNow(r.idle, r.setup, r.first);
    } else {
      hide RankAt;
      StartedInThePast(r, k - 1);
      TickFalls(r, k - 1);
    }
  }

  lemma BeganNow(m: Machine, setup: Setup, w: World)
    requires Idle(m, setup)
    ensures Begin(m, setup, w).startup.started <= w.now
  {
    hide Order, Favourite;
  }

  /** Something has been given up or started by the first tick that finds the stopped senders gone, when
      a tick eight seconds after tick `i` lies before it. The stopped senders may take as long as they like. */
  lemma EightSecondsFall(r: Run, i: nat, j: nat)
    requires IsTimedRun(r) && i + 1 < j < |r.worlds| && RankAt(r, i + 1) > 0
    requires r.worlds[j - 1].now >= r.worlds[i].now + 8000 && Responsive(r.before[j])
    ensures RankAt(r, j + 1) < RankAt(r, i + 1)
  {
    assert r.worlds[j - 1].now <= r.worlds[j].now;
    RunLengths(r);
    StartedInThePast(r, i + 1);
    RankOnlyFalls(r, i + 1, j - 1);
    hide IsTimedRun, Rank, Devices, Pending, Responsive;
    TickFalls(r, j - 1);
    TickFalls(r, j);
  }

  /** Ticks at which the stopped senders are gone, each with a tick before it that is eight seconds later
      than the one before. */
  predicate Spaced(r: Run, marks: seq<nat>)
    requires |r.before| == |r.worlds|
  {
    && (forall x :: 0 <= x < |marks| ==> marks[x] < |r.worlds| && Responsive(r.before[marks[x]]))
    && (forall x :: 0 <= x < |marks| - 1 ==>
          marks[x] + 2 <= marks[x + 1] && r.worlds[marks[x + 1] - 1].now >= r.worlds[marks[x]].now + 8000)
  }

  lemma {:induction false} MarksFall(r: Run, marks: seq<nat>, x: nat)
    requires IsTimedRun(r) && Spaced(r, marks) && x < |marks|
    ensures marks[x] + 1 < |r.after|
    ensures RankAt(r, marks[x] + 1) + x <= 2 * Devices(r.setup) + 4 || RankAt(r, marks[x] + 1) == 0
    decreases x
  {
    RunLengths(r);
    if x == 0 {
      hide IsTimedRun;
      RankStart(r);
      RankOnlyFalls(r, 0, marks[0] + 1);
    } else {
      MarksFall(r, marks, x - 1);
      hide IsTimedRun, RankAt, Devices, Responsive;
      var i, j := marks[x - 1], marks[x];
      if RankAt(r, i + 1) > 0 {
        EightSecondsFall(r, i, j);
      } else {
        RankOnlyFalls(r, i + 1, j + 1);
      }
    }
  }

  lemma RankStart(r: Run)
    requires IsTimedRun(r)
    ensures |r.after| > 0 && RankAt(r, 0) <= 2 * Devices(r.setup) + 4
  {
    hide Begin, Inv, Order;
  }

  /** Every run in which stopped senders exit, however late, ends: after 2n + 5 such ticks nothing is under
      way any more. */
  lemma RunEnds(r: Run, marks: seq<nat>)
    requires IsTimedRun(r) && Spaced(r, marks) && |marks| >= 2 * Devices(r.setup) + 5
    ensures var k := marks[|marks| - 1] + 1;
            forall j :: k <= j < |r.after| ==> r.after[j].startup.transport == NoTransport
  {
    var x := |marks| - 1;
    MarksFall(r, marks, x);
    var k := marks[x] + 1;
    hide IsTimedRun, Devices;
    forall j | k <= j < |r.after| ensures r.after[j].startup.transport == NoTransport {
      RankOnlyFalls(r, k, j);
    }
  }

  /** Not every device gets its turn: a next device without an address, once the time is over, ends the
      Wi-Fi round, whatever devices come behind it. */
  lemma UnreachableEndsWifi(m: Machine, setup: Setup, w: World)
    requires Inv(m, setup) && m.startup.transport == Wifi && m.startup.waitingNext && !w.wifiStreaming && !IsGlobal(w)
    requires m.apps[m.startup.activeDevice.value] == Off && TimedOut(m, w)
    requires m.startup.wifiPosition + 1 < |Order(setup)| && Order(setup)[m.startup.wifiPosition + 1] !in w.reachable
    ensures var r := Advance(m, setup, w); r.startup.waitingTransportStop && r.starts == m.starts
  {
    hide Order, WifiStarts, UsbStarts, OneSender, IsGlobal, StartedInOrder, TriedOnce;
  }
}
