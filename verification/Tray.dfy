/** The startup part of src/app/TrayApp.cpp as it runs: a context whose fields the timer updates. */
module Tray {
  import opened Wrappers
  import opened Startup
  import DeviceOrder

  // ----- What becomes of the coordinator -----

  function FlowAfterStart(f: DeviceOrder.Flow, m: Machine, t: Transport, setup: Setup): DeviceOrder.Flow {
    if t == Wifi && m.apps != [] then DeviceOrder.AfterBegin(setup.devices, setup.preferredDevice) else f
  }

  /** A global failure is reported, and a device's when it fails or its time is over, and not
      while its stop is awaited. */
  function FlowAfterWifi(f: DeviceOrder.Flow, m: Machine, w: World): DeviceOrder.Flow {
    if IsGlobal(w) then DeviceOrder.AfterFailure(f, DeviceOrder.GlobalFailure)
    else if !m.startup.waitingNext && (w.phase == Failed || w.now >= m.startup.started + TIMEOUT) then
      DeviceOrder.AfterFailure(f, DeviceOrder.DeviceFailure)
    else f
  }

  function FlowAfterFallback(f: DeviceOrder.Flow, m: Machine, setup: Setup): DeviceOrder.Flow {
    if m.startup.fallbackUsed then f else FlowAfterStart(f, m, Other(m.startup.transport), setup)
  }

  function FlowAfterBegin(f: DeviceOrder.Flow, m: Machine, setup: Setup, w: World): DeviceOrder.Flow
    requires |m.apps| == |setup.devices|
  {
    var t := Favourite(setup, w);
    var first := StartTransport(m.(startup := IDLE), t, setup, w);
    var g := FlowAfterStart(f, m, t, setup);
    if first.ok then g else FlowAfterStart(g, first.m, Other(t), setup)
  }

  function FlowAfterAdvance(f: DeviceOrder.Flow, m: Machine, setup: Setup, w: World): DeviceOrder.Flow {
    var st := m.startup;
    if st.transport == NoTransport then f
    else if IsStreaming(st.transport, w) then
      if st.transport == Wifi && st.activeDevice.Some? && st.activeDevice.value < |setup.devices| then
        f.(state := DeviceOrder.Streaming, streamingDeviceId := setup.devices[st.activeDevice.value].id)
      else f
    else if st.waitingTransportStop then if StillUp(m) then f else FlowAfterFallback(f, m, setup)
    else if st.transport == Wifi && st.activeDevice.Some? && st.activeDevice.value < |m.apps| then FlowAfterWifi(f, m, w)
    else f
  }

  /** While Wi-Fi is tried the coordinator has the same order, and stands at the device that was started
      or ahead of it: ahead while its stop is awaited, and for good after a candidate that could not be
      started was reported again. */
  predicate KeepsUp(f: DeviceOrder.Flow, m: Machine) {
    var st := m.startup;
    st.transport == Wifi ==>
      f.order == st.wifiOrder && st.wifiPosition + (if st.waitingNext then 1 else 0) <= f.position < |f.order|
  }

  lemma BeginKeepsUp(f: DeviceOrder.Flow, m: Machine, setup: Setup, w: World)
    requires |m.apps| == |setup.devices|
    ensures KeepsUp(FlowAfterBegin(f, m, setup, w), Begin(m, setup, w))
  {
    hide DeviceOrder.OrderOf;
  }

  lemma CoordinatorKeepsUp(f: DeviceOrder.Flow, m: Machine, setup: Setup, w: World)
    requires |m.apps| == |setup.devices| && KeepsUp(f, m) && !(m.startup.waitingNext && m.startup.waitingTransportStop)
    ensures KeepsUp(FlowAfterAdvance(f, m, setup, w), Advance(m, setup, w))
  {
    hide DeviceOrder.OrderOf, IsGlobal, StillUp;
  }

  class TrayContext {
    const setup: Setup
    const deviceFlow: DeviceOrder.Coordinator
    var startup: Attempt
    var apps: seq<App>
    var usb: App
    var starts: seq<Started>
    var tried: seq<Transport>

    constructor (setup: Setup)
      ensures this.setup == setup && fresh(deviceFlow) && Valid()
      ensures Now() == Machine(IDLE, seq(|setup.devices|, _ => Off), Off, [], [])
    {
      this.setup := setup;
      deviceFlow := new DeviceOrder.Coordinator();
      startup := IDLE;
      apps := seq(|setup.devices|, _ => Off);
      usb := Off;
      starts, tried := [], [];
    }

    predicate Valid()
      reads this
    {
      |apps| == |setup.devices|
    }

    function Now(): Machine
      reads this
    {
      Machine(startup, apps, usb, starts, tried)
    }

    method StopUsbSession()
      modifies this`usb
      ensures usb == Off
    {
      usb := Off;
    }

    method StopConfiguredSenders()
      modifies this`apps
      ensures apps == AllStopped(old(apps))
    {
      var i := 0;
      while i < |apps|
        invariant i <= |apps| == |old(apps)|
        invariant forall k :: 0 <= k < i ==> apps[k] == Off
      {
        apps := apps[i := Off];
        i := i + 1;
      }
    }

    method RequestStopConfiguredSenders(prompt: bool)
      modifies this`apps
      ensures apps == AllTold(old(apps), prompt)
    {
      var i := 0;
      while i < |apps|
        invariant i <= |apps| == |old(apps)|
        invariant forall k :: 0 <= k < i ==> apps[k] == Told(old(apps)[k], prompt)
        invariant forall k :: i <= k < |apps| ==> apps[k] == old(apps)[k]
      {
        apps := apps[i := Told(apps[i], prompt)];
        i := i + 1;
      }
    }

    method StartSender(i: nat)
      requires i < |apps|
      modifies this`apps, this`starts
      ensures Now() == StartApp(old(Now()), i)
    {
      if apps[i] != Off {
        return;
      }
      apps := apps[i := Running];
      starts := starts + [WifiStarted(i)];
    }

    method StartUsbSession()
      modifies this
      ensures apps == AllStopped(old(apps)) && usb == Running && starts == old(starts) + [UsbStarted]
      ensures startup == old(startup) && tried == old(tried)
    {
      StopConfiguredSenders();
      StopUsbSession();
      usb := Running;
      starts := starts + [UsbStarted];
    }

    method StartWifiSession(w: World) returns (ok: bool)
      requires Valid()
      modifies this, deviceFlow
      ensures Valid() && Outcome(ok, Now()) == StartWifi(old(Now()), setup, w)
      ensures deviceFlow.Now() == FlowAfterStart(old(deviceFlow.Now()), old(Now()), Wifi, setup)
    {
      if apps == [] {
        return false;
      }
      StopUsbSession();
      var first := deviceFlow.Begin(setup.devices, setup.preferredDevice);
      var order := deviceFlow.order;
      if order == [] {
        return false;
      }
      DeviceOrder.OrderIsPriority(setup.devices, setup.preferredDevice);
      startup := startup.(wifiOrder := order, wifiPosition := 0, activeDevice := Some(order[0]));
      var index := first.value;
      if index !in w.reachable {
        return false;
      }
      StartSender(index);
      return true;
    }

    method StartWifiCandidate(position: nat, w: World) returns (ok: bool)
      modifies this
      ensures Outcome(ok, Now()) == StartCandidate(old(Now()), position, w) && |apps| == |old(apps)|
    {
      if position >= |startup.wifiOrder| {
        return false;
      }
      var index := startup.wifiOrder[position];
      if index >= |apps| {
        return false;
      }
      if index !in w.reachable {
        return false;
      }
      startup := startup.(wifiPosition := position, activeDevice := Some(index), waitingNext := false,
                          started := w.now);
      StartSender(index);
      return true;
    }

    method StartTransportAttempt(t: Transport, w: World) returns (ok: bool)
      requires Valid()
      modifies this, deviceFlow
      ensures Valid() && Outcome(ok, Now()) == StartTransport(old(Now()), t, setup, w)
      ensures deviceFlow.Now() == FlowAfterStart(old(deviceFlow.Now()), old(Now()), t, setup)
    {
      hide StartWifi;
      tried := tried + [t];
      if t == Usb {
        if !w.usbTarget {
          return false;
        }
        StartUsbSession();
        return true;
      }
      if t == Wifi {
        ok := StartWifiSession(w);
        return;
      }
      return false;
    }

    method BeginStartupAutoConnect(w: World)
      requires Valid()
      modifies this, deviceFlow
      ensures Valid() && Now() == Begin(old(Now()), setup, w)
      ensures deviceFlow.Now() == FlowAfterBegin(old(deviceFlow.Now()), old(Now()), setup, w)
    {
      hide StartTransport;
      startup := IDLE;
      var preferred: Transport;
      if setup.lastTransport == "usb" {
        preferred := Usb;
      } else if setup.lastTransport == "wifi" {
        preferred := Wifi;
      } else {
        preferred := if w.usbTarget then Usb else Wifi;
      }
      var ok := StartTransportAttempt(preferred, w);
      if ok {
        startup := startup.(transport := preferred, fallbackUsed := false, started := w.now);
        return;
      }
      var fallback := Other(preferred);
      ok := StartTransportAttempt(fallback, w);
      if ok {
        startup := startup.(transport := fallback, fallbackUsed := true, started := w.now);
      }
    }

    /** The waitingTransportStop branch. */
    method TakeFallback(w: World)
      requires Valid()
      modifies this, deviceFlow
      ensures Valid() && Now() == Fallback(old(Now()), setup, w)
      ensures deviceFlow.Now() == FlowAfterFallback(old(deviceFlow.Now()), old(Now()), setup)
    {
      hide StartTransport;
      var failed := startup.transport;
      if failed == Usb {
        StopUsbSession();
      } else {
        StopConfiguredSenders();
      }
      startup := startup.(waitingTransportStop := false);
      if startup.fallbackUsed {
        startup := startup.(transport := NoTransport);
        return;
      }
      var fallback := Other(failed);
      var ok := StartTransportAttempt(fallback, w);
      if ok {
        startup := startup.(transport := fallback, fallbackUsed := true, started := w.now);
        return;
      }
      startup := startup.(transport := NoTransport);
    }

    method AnyStillUp() returns (r: bool)
      ensures r == StillUp(Now())
    {
      if startup.transport == Usb {
        return usb != Off;
      }
      var i := 0;
      while i < |apps|
        invariant i <= |apps|
        invariant forall k :: 0 <= k < i ==> apps[k] == Off
      {
        if apps[i] != Off {
          return true;
        }
        i := i + 1;
      }
      return false;
    }

    method AdvanceStartupAutoConnect(w: World)
      requires Valid()
      modifies this, deviceFlow
      ensures Valid() && Now() == Advance(old(Now()), setup, w)
      ensures deviceFlow.Now() == FlowAfterAdvance(old(deviceFlow.Now()), old(Now()), setup, w)
    {
      hide Fallback, StillUp;
      if startup.transport == NoTransport {
        return;
      }
      if IsStreaming(startup.transport, w) {
        if startup.transport == Wifi && startup.activeDevice.Some? && startup.activeDevice.value < |setup.devices| {
          deviceFlow.ReportStreaming(setup.devices[startup.activeDevice.value].id);
        }
        startup := startup.(transport := NoTransport);
        return;
      }
      if startup.waitingTransportStop {
        var up := AnyStillUp();
        if up {
          return;
        }
        TakeFallback(w);
        return;
      }
      if startup.transport == Wifi && startup.activeDevice.Some? && startup.activeDevice.value < |apps| {
        var done := AdvanceWifi(w);
        if done {
          return;
        }
      }
      StopWhenTimedOut(w);
    }

    /** The Wi-Fi branch; `done` where the source returns. */
    method AdvanceWifi(w: World) returns (done: bool)
      requires Valid() && startup.activeDevice.Some? && startup.activeDevice.value < |apps|
      modifies this, deviceFlow
      ensures Valid()
      ensures WifiTurn(old(Now()), w) == if done then Now() else TimeUp(Now(), w)
      ensures deviceFlow.Now() == FlowAfterWifi(old(deviceFlow.Now()), old(Now()), w)
    {
      hide StartCandidate, TimeUp;
      var active := startup.activeDevice.value;
      if IsGlobal(w) {
        var _ := deviceFlow.ReportFailure(DeviceOrder.GlobalFailure);
        apps := apps[active := Told(apps[active], w.prompt)];
        startup := startup.(transport := NoTransport);
        return true;
      }
      if startup.waitingNext {
        if apps[active] != Off {
          return true;
        }
        var ok := StartWifiCandidate(startup.wifiPosition + 1, w);
        if ok {
          return true;
        }
        assert Now() == old(Now()) by { FailedCandidate(old(Now()), old(startup).wifiPosition + 1, w); }
        startup := startup.(waitingNext := false);
      } else if w.phase == Failed || w.now >= startup.started + TIMEOUT {
        var _ := deviceFlow.ReportFailure(DeviceOrder.DeviceFailure);
        apps := apps[active := Told(apps[active], w.prompt)];
        if startup.wifiPosition + 1 < |startup.wifiOrder| {
          startup := startup.(waitingNext := true);
          return true;
        }
        if apps[active] != Off {
          return true;
        }
      }
      return false;
    }

    lemma FailedCandidate(m: Machine, position: nat, w: World)
      ensures var r := StartCandidate(m, position, w); !r.ok ==> r.m == m
    {
    }

    method StopWhenTimedOut(w: World)
      requires Valid()
      modifies this
      ensures Valid() && Now() == TimeUp(old(Now()), w)
    {
      if w.now < startup.started + TIMEOUT {
        return;
      }
      if startup.transport == Usb {
        usb := Told(usb, w.prompt);
      } else {
        RequestStopConfiguredSenders(w.prompt);
      }
      startup := startup.(waitingTransportStop := true);
    }
  }
}
