/** The startup auto-connect of src/app/TrayApp.cpp: one transport first, then the other, and on Wi-Fi
    one device after the other. */
module Startup {
  import opened Wrappers
  import opened ConfigStore
  import DeviceOrder

  datatype Transport = NoTransport | Wifi | Usb

  /** A SenderApp: not running, running, or running with its stop requested. */
  datatype App = Off | Running | Stopping

  datatype Attempt = Attempt(
    transport: Transport,
    fallbackUsed: bool,
    started: nat,
    wifiOrder: seq<nat>,
    wifiPosition: nat,
    activeDevice: Option<nat>,
    waitingNext: bool,
    waitingTransportStop: bool)

  const IDLE := Attempt(NoTransport, false, 0, [], 0, None, false, false)

  datatype Started = UsbStarted | WifiStarted(index: nat)

  datatype Machine = Machine(
    startup: Attempt,
    apps: seq<App>,          // one for each configured device
    usb: App,                // Off also when there is no USB sender
    starts: seq<Started>,    // every worker that was started
    tried: seq<Transport>)   // every transport that was attempted

  datatype Phase = OtherPhase | UnsafeNetwork | Failed

  datatype Failure =
    | OtherFailure | DriverUnavailable | ResolutionUnavailable | CaptureUnavailable | EncoderUnavailable | AnotherSender

  /** What never changes during the attempt. */
  datatype Setup = Setup(devices: seq<DeviceConfig>, preferredDevice: string, lastTransport: string)

  /** What one timer tick sees of the world. */
  datatype World = World(
    now: nat,
    usbStreaming: bool,
    wifiStreaming: bool,
    usbTarget: bool,           // PreferredUsbTarget finds a cable
    reachable: set<nat>,       // devices for which ResolveDeviceTarget is not empty
    phase: Phase,              // the active device's snapshot
    failure: Failure,
    prompt: bool)              // a sender told to stop is already gone when it is next looked at

  const TIMEOUT := 8000

  function Order(setup: Setup): seq<nat> {
    DeviceOrder.OrderOf(setup.devices, setup.preferredDevice)
  }

  function Other(t: Transport): Transport {
    match t case Usb => Wifi case Wifi => Usb case NoTransport => NoTransport
  }

  // ----- Senders -----

  function AllStopped(apps: seq<App>): seq<App> {
    seq(|apps|, _ => Off)
  }

  function Told(a: App, prompt: bool): App {
    if a == Off || prompt then Off else Stopping
  }

  function AllTold(apps: seq<App>, prompt: bool): seq<App> {
    seq(|apps|, i requires 0 <= i < |apps| => Told(apps[i], prompt))
  }

  /** SenderApp::Start does nothing while the worker runs. */
  function StartApp(m: Machine, i: nat): Machine
    requires i < |m.apps|
  {
    if m.apps[i] != Off then m else m.(apps := m.apps[i := Running], starts := m.starts + [WifiStarted(i)])
  }

  // ----- Starting a transport -----

  datatype Outcome = Outcome(ok: bool, m: Machine)

  function StartUsb(m: Machine, w: World): Outcome {
    if !w.usbTarget then Outcome(false, m)
    else Outcome(true, m.(apps := AllStopped(m.apps), usb := Running, starts := m.starts + [UsbStarted]))
  }

  function StartWifi(m: Machine, setup: Setup, w: World): Outcome
    requires |m.apps| == |setup.devices|
  {
    if m.apps == [] then Outcome(false, m)
    else
      var order := Order(setup);
      if order == [] then Outcome(false, m.(usb := Off))
      else
        var n := m.(usb := Off,
        startup := m.startup.(wifiOrder := order, wifiPosition := 0, activeDevice := Some(order[0])));
        DeviceOrder.OrderIsPriority(setup.devices, setup.preferredDevice);
        if order[0] !in w.reachable then Outcome(false, n) else Outcome(true, StartApp(n, order[0]))
  }

  function StartTransport(m: Machine, t: Transport, setup: Setup, w: World): Outcome
    requires |m.apps| == |setup.devices|
  {
    var n := m.(tried := m.tried + [t]);
    match t
    case Usb => StartUsb(n, w)
    case Wifi => StartWifi(n, setup, w)
    case NoTransport => Outcome(false, n)
  }

  function StartCandidate(m: Machine, position: nat, w: World): Outcome {
    if position >= |m.startup.wifiOrder| then Outcome(false, m)
    else
      var i := m.startup.wifiOrder[position];
      if i >= |m.apps| || i !in w.reachable then Outcome(false, m)
      else
        Outcome(true, StartApp(m.(startup := m.startup.(
          wifiPosition := position, activeDevice := Some(i), waitingNext := false, started := w.now)), i))
  }

  // ----- BeginStartupAutoConnect and AdvanceStartupAutoConnect -----

  function Favourite(setup: Setup, w: World): Transport {
    if setup.lastTransport == "usb" then Usb else if setup.lastTransport == "wifi" then Wifi
    else if w.usbTarget then Usb else Wifi
  }

  function Trying(m: Machine, t: Transport, fallback: bool, now: nat): Machine {
    m.(startup := m.startup.(transport := t, fallbackUsed := fallback, started := now))
  }

  function Begin(m: Machine, setup: Setup, w: World): Machine
    requires |m.apps| == |setup.devices|
  {
    var t := Favourite(setup, w);
    var first := StartTransport(m.(startup := IDLE), t, setup, w);
    if first.ok then Trying(first.m, t, false, w.now)
    else
      var second := StartTransport(first.m, Other(t), setup, w);
      if second.ok then Trying(second.m, Other(t), true, w.now) else second.m
  }

  predicate IsStreaming(t: Transport, w: World) {
    match t case Usb => w.usbStreaming case Wifi => w.wifiStreaming case NoTransport => false
  }

  predicate IsGlobal(w: World) {
    || w.phase == UnsafeNetwork
    || w.failure in {DriverUnavailable, ResolutionUnavailable, CaptureUnavailable, EncoderUnavailable, AnotherSender}
  }

  function GiveUp(m: Machine): Machine {
    m.(startup := m.startup.(transport := NoTransport))
  }

  predicate StillUp(m: Machine) {
    if m.startup.transport == Usb then m.usb != Off else exists i :: 0 <= i < |m.apps| && m.apps[i] != Off
  }

  /** The senders of the failed transport are down: the other transport's turn, if it has not had it. */
  function Fallback(m: Machine, setup: Setup, w: World): Machine
    requires |m.apps| == |setup.devices|
  {
    var failed := m.startup.transport;
    var stopped := (if failed == Usb then m.(usb := Off) else m.(apps := AllStopped(m.apps)))
                   .(startup := m.startup.(waitingTransportStop := false));
    if m.startup.fallbackUsed then GiveUp(stopped)
    else
      var next := StartTransport(stopped, Other(failed), setup, w);
      if next.ok then Trying(next.m, Other(failed), true, w.now) else GiveUp(next.m)
  }

  function TellActive(m: Machine, w: World): Machine
    requires m.startup.activeDevice.Some? && m.startup.activeDevice.value < |m.apps|
  {
    var i := m.startup.activeDevice.value;
    m.(apps := m.apps[i := Told(m.apps[i], w.prompt)])
  }

  /** The last lines: the attempt is given its time, then its senders are told to stop. */
  function TimeUp(m: Machine, w: World): Machine {
    if w.now < m.startup.started + TIMEOUT then m
    else
      (if m.startup.transport == Usb then m.(usb := Told(m.usb, w.prompt))
       else m.(apps := AllTold(m.apps, w.prompt))).(startup := m.startup.(waitingTransportStop := true))
  }

  function WifiTurn(m: Machine, w: World): Machine
    requires m.startup.activeDevice.Some? && m.startup.activeDevice.value < |m.apps|
  {
    var st := m.startup;
    if IsGlobal(w) then GiveUp(TellActive(m, w))
    else if st.waitingNext then
      if m.apps[st.activeDevice.value] != Off then m
      else
        var next := StartCandidate(m, st.wifiPosition + 1, w);
        if next.ok then next.m else TimeUp(m.(startup := st.(waitingNext := false)), w)
    else if w.phase == Failed || w.now >= st.started + TIMEOUT then
      var told := TellActive(m, w);
      if st.wifiPosition + 1 < |st.wifiOrder| then told.(startup := st.(waitingNext := true))
      else if told.apps[st.activeDevice.value] != Off then told
      else TimeUp(told, w)
    else TimeUp(m, w)
  }

  function Advance(m: Machine, setup: Setup, w: World): Machine
    requires |m.apps| == |setup.devices|
  {
    var st := m.startup;
    if st.transport == NoTransport then m
    else if IsStreaming(st.transport, w) then GiveUp(m)
    else if st.waitingTransportStop then if StillUp(m) then m else Fallback(m, setup, w)
    else if st.transport == Wifi && st.activeDevice.Some? && st.activeDevice.value < |m.apps| then WifiTurn(m, w)
    else TimeUp(m, w)
  }
}
