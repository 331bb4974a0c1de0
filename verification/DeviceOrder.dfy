/** The order in which configured devices are tried (src/app/DeviceCoordinator.cpp). */
module DeviceOrder {
  import opened Wrappers
  import opened ConfigStore

  datatype AutoConnectState = Idle | Trying | WaitingNext | Streaming | UserSwitching | Exhausted | Blocked

  datatype FailureClass = DeviceFailure | GlobalFailure

  predicate IsPreferred(d: DeviceConfig, preferred: string) {
    preferred != "" && d.id == preferred
  }

  /** The auto-connected devices below `n` that are preferred, or those that are not. */
  function Picked(devices: seq<DeviceConfig>, preferred: string, wanted: bool, n: nat): seq<nat>
    requires n <= |devices|
  {
    if n == 0 then []
    else
      var d := devices[n - 1];
      Picked(devices, preferred, wanted, n - 1)
      + if d.autoConnect && IsPreferred(d, preferred) == wanted then [n - 1] else []
  }

  /** `chosen` in front of what the loop has picked below `n`; one more device is looked at. */
  lemma PickNext(chosen: seq<nat>, devices: seq<DeviceConfig>, preferred: string, wanted: bool, n: nat)
    requires n < |devices|
    ensures var take := devices[n].autoConnect && IsPreferred(devices[n], preferred) == wanted;
            chosen + Picked(devices, preferred, wanted, n + 1)
            == chosen + Picked(devices, preferred, wanted, n) + if take then [n] else []
  {
    hide IsPreferred;
    var picked := Picked(devices, preferred, wanted, n);
    assert chosen + (picked + [n]) == chosen + picked + [n];
  }

  lemma PickNone(chosen: seq<nat>, devices: seq<DeviceConfig>, preferred: string, wanted: bool)
    ensures chosen + Picked(devices, preferred, wanted, 0) == chosen
  {
  }

  function OrderOf(devices: seq<DeviceConfig>, preferred: string): seq<nat> {
    Picked(devices, preferred, true, |devices|) + Picked(devices, preferred, false, |devices|)
  }

  /** `a` is tried before `b`: preferred devices first, otherwise as configured. */
  predicate Precedes(devices: seq<DeviceConfig>, preferred: string, a: nat, b: nat)
    requires a < |devices| && b < |devices|
  {
    var p, q := preferred != "" && devices[a].id == preferred, preferred != "" && devices[b].id == preferred;
    (p && !q) || (p == q && a < b)
  }

  lemma {:induction false} PickedIsAscending(devices: seq<DeviceConfig>, preferred: string, wanted: bool, n: nat)
    requires n <= |devices|
    ensures var r := Picked(devices, preferred, wanted, n);
            && (forall i: nat :: i in r <==> i < n && devices[i].autoConnect && IsPreferred(devices[i], preferred) == wanted)
            && (forall j, k :: 0 <= j < k < |r| ==> r[j] < r[k])
  {
    if n > 0 {
      PickedIsAscending(devices, preferred, wanted, n - 1);
      var r, s := Picked(devices, preferred, wanted, n), Picked(devices, preferred, wanted, n - 1);
      forall j, k | 0 <= j < k < |r| ensures r[j] < r[k] {
        assert r[j] == s[j] && s[j] in s;
        if k < |s| { assert r[k] == s[k]; }
      }
    }
  }

  /** The second loop's find: what is not in the order yet is what is not preferred. */
  lemma FindsTheOthers(devices: seq<DeviceConfig>, preferred: string, i: nat)
    requires i < |devices| && devices[i].autoConnect
    ensures i in Picked(devices, preferred, true, |devices|) + Picked(devices, preferred, false, i)
            <==> IsPreferred(devices[i], preferred)
  {
    PickedIsAscending(devices, preferred, true, |devices|);
    PickedIsAscending(devices, preferred, false, i);
    hide Picked;
  }

  /** The order holds exactly the auto-connected devices, each once, the preferred ones first. */
  lemma OrderIsPriority(devices: seq<DeviceConfig>, preferred: string)
    ensures var order := OrderOf(devices, preferred);
            && (forall i: nat :: i in order <==> i < |devices| && devices[i].autoConnect)
            && (forall k :: 0 <= k < |order| ==> order[k] < |devices|)
            && (forall j, k :: 0 <= j < k < |order| ==>
                  order[j] < |devices| && order[k] < |devices| && Precedes(devices, preferred, order[j], order[k]))
  {
    PickedIsAscending(devices, preferred, true, |devices|);
    PickedIsAscending(devices, preferred, false, |devices|);
    var first, second := Picked(devices, preferred, true, |devices|), Picked(devices, preferred, false, |devices|);
    var order := OrderOf(devices, preferred);
    hide Picked;
    forall k | 0 <= k < |order| ensures order[k] < |devices| {
      assert order[k] in order;
    }
    forall j, k | 0 <= j < k < |order|
      ensures order[j] < |devices| && order[k] < |devices| && Precedes(devices, preferred, order[j], order[k])
    {
      assert if j < |first| then order[j] == first[j] && first[j] in first
             else order[j] == second[j - |first|] && second[j - |first|] in second;
      assert if k < |first| then order[k] == first[k] && first[k] in first
             else order[k] == second[k - |first|] && second[k - |first|] in second;
      PreferredMeans(devices[order[j]], preferred);
      PreferredMeans(devices[order[k]], preferred);
      hide IsPreferred;
    }
  }

  lemma PreferredMeans(d: DeviceConfig, preferred: string)
    ensures IsPreferred(d, preferred) <==> preferred != "" && d.id == preferred
  {
  }

  /** All of a coordinator's fields. */
  datatype Flow = Flow(
    state: AutoConnectState, order: seq<nat>, position: nat, switchTarget: Option<nat>, streamingDeviceId: string)

  function AfterBegin(devices: seq<DeviceConfig>, preferred: string): Flow {
    var order := OrderOf(devices, preferred);
    Flow(if order == [] then Exhausted else Trying, order, 0, None, "")
  }

  function AfterFailure(f: Flow, failure: FailureClass): Flow {
    if failure == GlobalFailure then f.(state := Blocked)
    else if f.position + 1 < |f.order| then f.(state := WaitingNext, position := f.position + 1)
    else f.(state := Exhausted)
  }

  class Coordinator {
    var state: AutoConnectState
    var order: seq<nat>
    var position: nat
    var switchTarget: Option<nat>
    var streamingDeviceId: string

    constructor ()
      ensures state == Idle && order == [] && position == 0 && switchTarget == None && streamingDeviceId == ""
    {
      state := Idle;
      order := [];
      position := 0;
      switchTarget := None;
      streamingDeviceId := "";
    }

    function Now(): Flow
      reads this
    {
      Flow(state, order, position, switchTarget, streamingDeviceId)
    }

    function Current(): Option<nat>
      reads this
    {
      if state == UserSwitching then switchTarget
      else if position < |order| then Some(order[position]) else None
    }

    function NextCandidate(): Option<nat>
      reads this
    {
      if position + 1 < |order| then Some(order[position + 1]) else None
    }

    method Reset()
      modifies this
      ensures state == Idle && order == [] && position == 0 && switchTarget == None && streamingDeviceId == ""
    {
      state := Idle;
      order := [];
      position := 0;
      switchTarget := None;
      streamingDeviceId := "";
    }

    method Begin(devices: seq<DeviceConfig>, preferred: string) returns (first: Option<nat>)
      modifies this
      ensures Now() == AfterBegin(devices, preferred) && first == Current()
    {
      hide Picked;
      Reset();
      var n := |devices|;
      PickNone([], devices, preferred, true);
      var i := 0;
      if preferred != "" {
        while i < n
          invariant i <= n && order == [] + Picked(devices, preferred, true, i)
          invariant position == 0 && switchTarget == None && streamingDeviceId == ""
        {
          PickNext([], devices, preferred, true, i);
          if devices[i].autoConnect && devices[i].id == preferred {
            order := order + [i];
          }
          i := i + 1;
        }
      } else {
        NobodyPreferred(devices, n);
      }
      ghost var chosen := Picked(devices, preferred, true, n);
      PickNone(chosen, devices, preferred, false);
      assert order == chosen;
      i := 0;
      while i < n
        invariant i <= n && order == chosen + Picked(devices, preferred, false, i)
        invariant position == 0 && switchTarget == None && streamingDeviceId == ""
      {
        PickNext(chosen, devices, preferred, false, i);
        if devices[i].autoConnect {
          FindsTheOthers(devices, preferred, i);
          if i !in order {
            order := order + [i];
          }
        }
        i := i + 1;
      }
      if order == [] {
        state := Exhausted;
        return None;
      }
      state := Trying;
      return Some(order[0]);
    }

    /** A failing device hands over to the next candidate; a global failure stops where it is. */
    method ReportFailure(failure: FailureClass) returns (next: Option<nat>)
      modifies this`state, this`position
      ensures failure == GlobalFailure ==> next == None && state == Blocked && position == old(position)
      ensures failure == DeviceFailure ==>
                && next == old(NextCandidate())
                && (next.None? ==> state == Exhausted && position == old(position))
                && (next.Some? ==> state == WaitingNext && position == old(position) + 1 && Current() == next)
      ensures Now() == AfterFailure(old(Now()), failure)
    {
      if failure == GlobalFailure {
        state := Blocked;
        return None;
      }
      if position + 1 >= |order| {
        state := Exhausted;
        return None;
      }
      position := position + 1;
      state := WaitingNext;
      return Some(order[position]);
    }

    method ReportStreaming(deviceId: string)
      modifies this`state, this`streamingDeviceId
      ensures state == Streaming && streamingDeviceId == deviceId
    {
      state := Streaming;
      streamingDeviceId := deviceId;
    }

    /** Refused only when that very switch is already under way. */
    method RequestSwitch(index: nat) returns (accepted: bool)
      modifies this`state, this`switchTarget
      ensures accepted <==> !(old(state) == UserSwitching && old(switchTarget) == Some(index))
      ensures state == UserSwitching && Current() == Some(index)
    {
      if state == UserSwitching && switchTarget == Some(index) {
        return false;
      }
      switchTarget := Some(index);
      state := UserSwitching;
      return true;
    }

    /** The walk goes on where the switch found it. */
    method CompleteSwitch(streaming: bool)
      modifies this`state, this`switchTarget
      ensures state == (if streaming then Streaming else Trying) && switchTarget == None
      ensures Current() == if position < |order| then Some(order[position]) else None
    {
      state := if streaming then Streaming else Trying;
      switchTarget := None;
    }
  }

  lemma {:induction false} NobodyPreferred(devices: seq<DeviceConfig>, n: nat)
    requires n <= |devices|
    ensures Picked(devices, "", true, n) == []
  {
    if n > 0 { NobodyPreferred(devices, n - 1); }
  }
}
