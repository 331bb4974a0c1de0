/** What one tick of the startup auto-connect does in each of its situations, and that an attempt that has
    ended stays ended. */
module StartupTicks {
  import opened Wrappers
  import opened Startup
  import opened StartupRuns
  import opened StartupChoice
  import DeviceOrder

  /** A failure that is not the device's own, so that the next device would meet it too. */
  predicate ConcernsAll(w: World) {
    w.phase == UnsafeNetwork || w.failure == DriverUnavailable || w.failure == ResolutionUnavailable
    || w.failure == CaptureUnavailable || w.failure == EncoderUnavailable || w.failure == AnotherSender
  }

  predicate Streams(m: Machine, w: World) {
    (m.startup.transport == Usb && w.usbStreaming) || (m.startup.transport == Wifi && w.wifiStreaming)
  }

  /** Eight seconds after the start of the attempt. */
  predicate TimeIsUp(m: Machine, w: World) {
    w.now - m.startup.started >= 8000
  }

  /** A sender that is told to stop: gone already if it is prompt, else stopping. */
  predicate IsTold(before: App, after: App, w: World) {
    after == (if before == Off || w.prompt then Off else Stopping)
  }

  /** Only the sender of device `i` was told to stop. */
  predicate OnlyTold(m: Machine, r: Machine, i: nat, w: World) {
    && i < |m.apps| && |r.apps| == |m.apps| && IsTold(m.apps[i], r.apps[i], w)
    && (forall k :: 0 <= k < |m.apps| && k != i ==> r.apps[k] == m.apps[k])
    && r.usb == m.usb && r.starts == m.starts && r.tried == m.tried
  }

  /** All senders were told to stop, and the tick after next looks whether they are gone. */
  predicate RoomIsMade(m: Machine, r: Machine, w: World) {
    && |r.apps| == |m.apps| && r.starts == m.starts && r.tried == m.tried
    && (if m.startup.transport == Usb then IsTold(m.usb, r.usb, w) && r.apps == m.apps
        else r.usb == m.usb && forall k :: 0 <= k < |m.apps| ==> IsTold(m.apps[k], r.apps[k], w))
    && r.startup == m.startup.(waitingNext := false, waitingTransportStop := true)
  }

  /** No attempt, a stream, or a sender that was told to stop and is still up. */
  lemma TickRests(m: Machine, setup: Setup, w: World)
    requires Inv(m, setup)
    ensures var r := Advance(m, setup, w);
            && (m.startup.transport == NoTransport ==> r == m)
            && (Streams(m, w) ==> r == m.(startup := m.startup.(transport := NoTransport)))
            && (m.startup.waitingTransportStop && !AllDown(m) && !Streams(m, w) ==> r == m)
  {
    hide Order, WifiTurn, Fallback, StillUp, OneSender, StartedInOrder, TriedOnce;
    if m.startup.transport != NoTransport { DownMeansNotUp(m, setup); }
  }

  /** A USB attempt has its time, and is then told to stop. */
  lemma TickOnUsb(m: Machine, setup: Setup, w: World)
    requires Inv(m, setup) && m.startup.transport == Usb && !m.startup.waitingTransportStop && !Streams(m, w)
    ensures var r := Advance(m, setup, w); if TimeIsUp(m, w) then RoomIsMade(m, r, w) else r == m
  {
    hide Order, WifiTurn, Fallback, StillUp, OneSender, StartedInOrder, TriedOnce;
  }

  /** On Wi-Fi, device `i` being the one at the current position. */
  predicate IsOnWifi(m: Machine, setup: Setup, w: World, i: nat) {
    && Inv(m, setup) && m.startup.transport == Wifi && !m.startup.waitingTransportStop && !w.wifiStreaming
    && Order(setup)[m.startup.wifiPosition] == i
  }

  /** A failure that concerns all devices ends the attempt at once, and the device is told to stop. */
  lemma TickFailsForAll(m: Machine, setup: Setup, w: World, i: nat)
    requires Inv(m, setup) && IsOnWifi(m, setup, w, i) && ConcernsAll(w)
    ensures var r := Advance(m, setup, w);
            OnlyTold(m, r, i, w) && r.startup == m.startup.(transport := NoTransport)
  {
    hide Order, StartCandidate, TimeUp, Fallback, StillUp, OneSender, StartedInOrder, TriedOnce;
  }

  /** A device whose stop is awaited: nothing while it is up, then the next one if it has an address, and else
      the end of the round when the time is over. */
  lemma TickAwaits(m: Machine, setup: Setup, w: World, i: nat)
    requires Inv(m, setup) && IsOnWifi(m, setup, w, i) && !ConcernsAll(w) && m.startup.waitingNext
    ensures var r, order, next := Advance(m, setup, w), Order(setup), m.startup.wifiPosition + 1;
            && i < |m.apps|
            && if m.apps[i] != Off then r == m
               else if next < |order| && order[next] in w.reachable then
                 && order[next] < |m.apps| && r.apps == m.apps[order[next] := Running] && r.usb == m.usb
                 && r.starts == m.starts + [WifiStarted(order[next])] && r.tried == m.tried
                 && r.startup == m.startup.(wifiPosition := next, activeDevice := Some(order[next]), waitingNext := false,
                                            started := w.now)
               else if TimeIsUp(m, w) then RoomIsMade(m, r, w)
               else r == m.(startup := m.startup.(waitingNext := false))
  {
    NextIsDevice(m, setup);
    hide Order, Fallback, StillUp, OneSender, StartedInOrder, TriedOnce;
  }

  lemma NextIsDevice(m: Machine, setup: Setup)
    requires Inv(m, setup)
    ensures forall k :: 0 <= k < |Order(setup)| ==> Order(setup)[k] < |m.apps|
    ensures forall j, k :: 0 <= j < k < |Order(setup)| ==> Order(setup)[j] != Order(setup)[k]
  {
    DeviceOrder.OrderIsPriority(setup.devices, setup.preferredDevice);
    hide DeviceOrder.OrderOf, OneSender, StartedInOrder, TriedOnce;
  }

  /** A device that has failed, or whose time is over, is told to stop; if another one comes behind it, that
      one waits for it, and if not, the round ends with the time. A device that has neither is left alone. */
  lemma TickHandsOver(m: Machine, setup: Setup, w: World, i: nat)
    requires Inv(m, setup) && IsOnWifi(m, setup, w, i) && !ConcernsAll(w) && !m.startup.waitingNext
    ensures var r := Advance(m, setup, w);
            if w.phase != Failed && !TimeIsUp(m, w) then r == m
            else if m.startup.wifiPosition + 1 < |Order(setup)| then
              OnlyTold(m, r, i, w) && r.startup == m.startup.(waitingNext := true)
            else if TimeIsUp(m, w) && i < |m.apps| && IsTold(m.apps[i], Off, w) then RoomIsMade(m, r, w)
            else OnlyTold(m, r, i, w) && r.startup == m.startup
  {
    hide Order, StartCandidate, Fallback, StillUp, OneSender, StartedInOrder, TriedOnce;
  }

  // ----- The end -----

  /** An attempt that has ended, by a stream, a failure or for want of anything to try, starts nothing more. */
  lemma {:induction false} EndIsFinal(r: Run, k: nat, j: nat)
    requires IsRun(r) && k <= j < |r.after| && r.after[k].startup.transport == NoTransport
    ensures r.after[j].startup == r.after[k].startup && r.after[j].starts == r.after[k].starts
    ensures r.after[j].tried == r.after[k].tried
    decreases j - k
  {
    if k < j {
      EndIsFinal(r, k, j - 1);
      assert Tick(r, j - 1);
      hide Idle, Begin, Advance, Inv;
      NothingBegins(r.before[j - 1], r.setup, r.worlds[j - 1]);
    }
  }
}
