/** Any number of threads on one Connection (src/net/Connection.cpp): who holds the send mutex, what
    has reached the wire, and what the far end can make of it after any run. */
module SharedConnection {
  import opened Bytes
  import opened Wrappers
  import opened Framing

  type Thread = nat

  /** Where a thread is inside SendFrame. */
  datatype Phase =
    | Outside
    | Waiting(frame: Payload)              // at the send mutex
    | Sending(frame: Payload, sent: nat)   // in the write loops, holding it
    | Failed(frame: Payload, sent: nat)    // a write loop gave up; the socket is not yet shut down

  datatype State = State(
    valid: bool,                 // socket_ is not INVALID_SOCKET
    shut: bool,                  // shutdown has been called
    wire: seq<byte>,             // what the socket has accepted
    owner: Option<Thread>,       // the holder of sendMutex_
    phases: map<Thread, Phase>,  // a thread without entry is Outside
    sent: seq<Payload>)          // the frames whose SendFrame returned true, in that order

  function PhaseOf(s: State, t: Thread): Phase {
    if t in s.phases then s.phases[t] else Outside
  }

  predicate Init(s: State) {
    s.valid && !s.shut && s.wire == [] && s.owner == None && s.phases == map[] && s.sent == []
  }

  datatype Action =
    | Call(t: Thread, frame: Payload)
    | Refuse(t: Thread)              // got the mutex, but the socket is invalid or the timeout not positive
    | Lock(t: Thread)
    | Write(t: Thread, count: nat)   // one send accepted `count` bytes
    | GiveUp(t: Thread)              // deadline, error or invalid socket before the frame was complete
    | Poison(t: Thread)              // Interrupt, then the mutex is released and false returned
    | Finish(t: Thread)
    | InterruptedFrom(t: Thread)     // Interrupt called by any thread, at any time
    | Closed(t: Thread)              // Close called by any thread, at any time

  function Move(s: State, t: Thread, p: Phase): State {
    s.(phases := s.phases[t := p])
  }

  /** The bytes one send can be given: the header and the payload are written by separate loops. */
  function Limit(frame: Payload, sent: nat): nat
    requires sent <= |Frame(frame)|
  {
    if sent < 4 then 4 - sent else |Frame(frame)| - sent
  }

  predicate Step(s: State, a: Action, s': State) {
    match a
    case Call(t, frame) =>
      PhaseOf(s, t).Outside? && s' == Move(s, t, Waiting(frame))
    case Refuse(t) =>
      PhaseOf(s, t).Waiting? && s.owner == None && s' == Move(s, t, Outside)
    case Lock(t) =>
      PhaseOf(s, t).Waiting? && s.owner == None && s.valid &&
      s' == Move(s, t, Sending(PhaseOf(s, t).frame, 0)).(owner := Some(t))
    case Write(t, count) =>
      var p := PhaseOf(s, t);
      p.Sending? && p.sent <= |Frame(p.frame)| && s.valid && !s.shut && 0 < count <= Limit(p.frame, p.sent) &&
      s' == Move(s, t, Sending(p.frame, p.sent + count)).(wire := s.wire + Frame(p.frame)[p.sent..p.sent + count])
    case GiveUp(t) =>
      var p := PhaseOf(s, t);
      p.Sending? && p.sent < |Frame(p.frame)| && s' == Move(s, t, Failed(p.frame, p.sent))
    case Poison(t) =>
      PhaseOf(s, t).Failed? && s' == Move(s, t, Outside).(owner := None, shut := s.shut || s.valid)
    case Finish(t) =>
      var p := PhaseOf(s, t);
      p.Sending? && p.sent == |Frame(p.frame)| &&
      s' == Move(s, t, Outside).(owner := None, sent := s.sent + [p.frame])
    case InterruptedFrom(t) =>
      s' == s.(shut := s.shut || s.valid)
    case Closed(t) =>
      s' == s.(valid := false, shut := s.shut || s.valid)
  }

  // ----- The invariant -----

  /** The frame being written, as far as it has been written. */
  function Current(s: State): seq<byte> {
    if s.owner.None? then []
    else
      var p := PhaseOf(s, s.owner.value);
      if (p.Sending? || p.Failed?) && p.sent <= |Frame(p.frame)| then Frame(p.frame)[..p.sent] else []
  }

  predicate Dead(s: State) {
    s.shut || !s.valid
  }

  /** The owner, and nobody else, is inside the write loops. */
  predicate OneWriter(s: State) {
    && (forall t :: t in s.phases && (s.phases[t].Sending? || s.phases[t].Failed?) ==> s.owner == Some(t))
    && (s.owner.Some? ==>
          var p := PhaseOf(s, s.owner.value);
          (p.Sending? && p.sent <= |Frame(p.frame)|) || (p.Failed? && p.sent < |Frame(p.frame)|))
  }

  /** Whole frames, then the frame in progress; or, once a frame was torn, its beginning and the
      socket dead. */
  ghost predicate Shape(s: State, torn: seq<byte>) {
    && s.wire == Wire(s.sent) + torn + Current(s)
    && Torn(torn)
    && (torn != [] ==> Dead(s) && Current(s) == [])
  }

  ghost predicate Inv(s: State) {
    OneWriter(s) && exists torn :: Shape(s, torn)
  }

  lemma InitHolds(s: State)
    requires Init(s)
    ensures Inv(s)
  {
    assert s.wire == Wire(s.sent) + [] + Current(s);
    assert Shape(s, []);
  }

  lemma StepKeepsWriter(s: State, a: Action, s': State)
    requires OneWriter(s) && Step(s, a, s')
    ensures OneWriter(s')
  {
    hide Frame;
  }

  lemma StepKeepsShape(s: State, a: Action, s': State, torn: seq<byte>) returns (torn': seq<byte>)
    requires OneWriter(s) && Step(s, a, s') && Shape(s, torn)
    ensures Shape(s', torn')
  {
    torn' := torn;
    match a
    case Write(t, count) => WriteKeepsShape(s, t, count, s', torn);
    case Poison(t) => torn' := PoisonKeepsShape(s, t, s', torn);
    case Finish(t) => FinishKeepsShape(s, t, s', torn);
    case _ => assert Current(s') == Current(s);
  }

  lemma WriteKeepsShape(s: State, t: Thread, count: nat, s': State, torn: seq<byte>)
    requires OneWriter(s) && Step(s, Write(t, count), s') && Shape(s, torn)
    ensures Shape(s', torn)
  {
    hide Frame, Wire;
    var p := PhaseOf(s, t);
    assert t in s.phases && s.owner == Some(t);
    var f := Frame(p.frame);
    assert Current(s') == f[..p.sent + count] == Current(s) + f[p.sent..p.sent + count];
    assert torn == [];
  }

  lemma PoisonKeepsShape(s: State, t: Thread, s': State, torn: seq<byte>) returns (torn': seq<byte>)
    requires OneWriter(s) && Step(s, Poison(t), s') && Shape(s, torn)
    ensures Shape(s', torn')
  {
    var p := PhaseOf(s, t);
    assert t in s.phases && s.owner == Some(t);
    if torn == [] {
      torn' := Current(s);
      assert ProperPrefix(torn', p.frame);
      assert Wire(s.sent) + [] + Current(s) == Wire(s.sent) + torn' + [];
    } else {
      torn' := torn;
    }
  }

  lemma FinishKeepsShape(s: State, t: Thread, s': State, torn: seq<byte>)
    requires OneWriter(s) && Step(s, Finish(t), s') && Shape(s, torn)
    ensures Shape(s', torn)
  {
    hide Frame, Wire;
    var p := PhaseOf(s, t);
    assert t in s.phases && s.owner == Some(t);
    var f := Frame(p.frame);
    assert Current(s) == f[..p.sent] == f;
    assert torn == [];
    WireBack(s.sent, p.frame);
    assert Wire(s.sent) + torn + f == Wire(s.sent) + f + torn + [];
  }

  // ----- Whole runs -----

  datatype Run = Run(states: seq<State>, actions: seq<Action>)

  predicate IsRun(r: Run) {
    && |r.states| == |r.actions| + 1 && Init(r.states[0])
    && forall i :: 0 <= i < |r.actions| ==> Step(r.states[i], r.actions[i], r.states[i + 1])
  }

  lemma {:induction false} RunKeepsInv(r: Run, i: nat)
    requires IsRun(r) && i < |r.states|
    ensures Inv(r.states[i])
    decreases i
  {
    if i == 0 {
      InitHolds(r.states[0]);
    } else {
      RunKeepsInv(r, i - 1);
      var s, a, s' := r.states[i - 1], r.actions[i - 1], r.states[i];
      assert Step(s, a, s');
      var torn :| Shape(s, torn);
      hide Shape, Step, OneWriter, IsRun;
      StepKeepsWriter(s, a, s');
      var torn' := StepKeepsShape(s, a, s', torn);
    }
  }

  /** The frames that are complete on the wire: those sent, and one whose last byte is written but
      whose SendFrame has not returned yet. */
  function Complete(s: State): seq<Payload> {
    if s.owner.None? then s.sent
    else
      var p := PhaseOf(s, s.owner.value);
      if p.Sending? && p.sent == |Frame(p.frame)| then s.sent + [p.frame] else s.sent
  }

  /** What is on the wire behind the complete frames. */
  ghost predicate Behind(s: State, tail: seq<byte>) {
    s.wire == Wire(Complete(s)) + tail && Torn(tail)
  }

  /** At every point of every run the wire is a concatenation of whole frames, each sent under one
      hold of the mutex, and at most one beginning of a frame behind them. */
  lemma WireIsFrames(r: Run, i: nat) returns (tail: seq<byte>)
    requires IsRun(r) && i < |r.states|
    ensures Behind(r.states[i], tail)
  {
    RunKeepsInv(r, i);
    tail := TailOf(r.states[i]);
  }

  lemma TailOf(s: State) returns (tail: seq<byte>)
    requires Inv(s)
    ensures Behind(s, tail)
  {
    var torn :| Shape(s, torn);
    if torn != [] {
      tail := torn;
      assert Wire(s.sent) + torn + [] == Wire(s.sent) + torn;
      if s.owner.Some? { assert |Current(s)| == PhaseOf(s, s.owner.value).sent; }
    } else if s.owner.None? {
      tail := [];
    } else {
      var p := PhaseOf(s, s.owner.value);
      var f := Frame(p.frame);
      if p.Sending? && p.sent == |f| {
        tail := [];
        assert Complete(s)[..|s.sent|] == s.sent;
        assert Current(s) == f;
      } else {
        tail := Current(s);
        assert ProperPrefix(tail, p.frame);
      }
    }
  }

  /** So the far end, whatever the chunking, reads exactly the complete frames, up to the first one
      over its cap. */
  lemma ReceiverReadsComplete(r: Run, i: nat)
    requires IsRun(r) && i < |r.states|
    ensures ReadMany(r.states[i].wire) == UpToCap(Complete(r.states[i]))
  {
    var tail := WireIsFrames(r, i);
    ReadsWholeFrames(Complete(r.states[i]), tail);
  }

  /** A frame has been torn: the mutex is free and a beginning of a frame is the last thing written. */
  ghost predicate Desynchronized(s: State) {
    s.owner == None && s.wire != Wire(s.sent)
  }

  lemma DesynchronizedIsDead(s: State)
    requires Inv(s) && Desynchronized(s)
    ensures Dead(s)
  {
    var torn :| Shape(s, torn);
    if torn == [] { assert Wire(s.sent) + [] + [] == Wire(s.sent); }
  }

  lemma {:induction false} DeadStaysSilent(r: Run, i: nat, j: nat)
    requires IsRun(r) && i <= j < |r.states| && Dead(r.states[i])
    ensures Dead(r.states[j]) && r.states[j].wire == r.states[i].wire
    decreases j - i
  {
    if i < j {
      DeadStaysSilent(r, i, j - 1);
      assert Step(r.states[j - 1], r.actions[j - 1], r.states[j]);
    }
  }

  /** After a torn frame nothing is ever sent again, by any thread. */
  lemma NothingAfterTornFrame(r: Run, i: nat, j: nat)
    requires IsRun(r) && i <= j < |r.states| && Desynchronized(r.states[i])
    ensures r.states[j].wire == r.states[i].wire
  {
    RunKeepsInv(r, i);
    DesynchronizedIsDead(r.states[i]);
    DeadStaysSilent(r, i, j);
  }

  // ----- SendFrame as steps -----

  function SocketOf(s: State): Socket {
    Socket(s.wire, s.valid, s.shut)
  }

  predicate IsPath(p: Run) {
    && |p.states| == |p.actions| + 1
    && forall i :: 0 <= i < |p.actions| ==> Step(p.states[i], p.actions[i], p.states[i + 1])
  }

  function Last(p: Run): State
    requires p.states != []
  {
    p.states[|p.states| - 1]
  }

  function Taken(p: Run, a: Action, s: State): Run {
    Run(p.states + [s], p.actions + [a])
  }

  lemma OneMoreStep(p: Run, a: Action, s: State)
    requires IsPath(p) && Step(Last(p), a, s)
    ensures IsPath(Taken(p, a, s)) && Last(Taken(p, a, s)) == s && Taken(p, a, s).states[0] == p.states[0]
  {
    hide Step;
    var q := Taken(p, a, s);
    forall i | 0 <= i < |q.actions| ensures Step(q.states[i], q.actions[i], q.states[i + 1]) {
      if i < |p.actions| { assert Step(p.states[i], p.actions[i], p.states[i + 1]); }
    }
  }

  /** The write loops, up to `sent` bytes: one write in the header, and one in the payload. */
  lemma WrittenUpTo(p: Run, t: Thread, data: Payload, sent: nat) returns (q: Run)
    requires IsPath(p) && PhaseOf(Last(p), t) == Sending(data, 0) && sent <= |Frame(data)|
    requires sent > 0 ==> Last(p).valid && !Last(p).shut
    ensures IsPath(q) && q.states[0] == p.states[0]
    ensures var s := Last(p); Last(q) == s.(wire := s.wire + Frame(data)[..sent], phases := s.phases[t := Sending(data, sent)])
  {
    q := p;
    var s, f := Last(p), Frame(data);
    hide Frame;
    if sent > 0 {
      var first := if sent < 4 then sent else 4;
      var s1 := Move(s, t, Sending(data, first)).(wire := s.wire + f[0..first]);
      OneMoreStep(p, Write(t, first), s1);
      q := Taken(p, Write(t, first), s1);
      if sent > 4 {
        var s2 := Move(s1, t, Sending(data, sent)).(wire := s1.wire + f[4..sent]);
        OneMoreStep(q, Write(t, sent - 4), s2);
        q := Taken(q, Write(t, sent - 4), s2);
        assert s.wire + f[0..4] + f[4..sent] == s.wire + f[..sent];
      }
    } else {
      assert s.wire + f[..0] == s.wire;
      assert s.phases[t := Sending(data, 0)] == s.phases;
    }
  }

  /** Others interrupt and close the socket until it is as it should be. */
  lemma WornDown(p: Run, t: Thread, valid: bool, shut: bool) returns (q: Run)
    requires IsPath(p)
    requires Worn(SocketOf(Last(p)), Socket(Last(p).wire, valid, shut)) && Last(p).valid
    ensures IsPath(q) && q.states[0] == p.states[0] && Last(q) == Last(p).(valid := valid, shut := shut)
  {
    q := p;
    if shut && !Last(p).shut {
      var s := Last(p).(shut := true);
      OneMoreStep(q, InterruptedFrom(t), s);
      q := Taken(q, InterruptedFrom(t), s);
    }
    if !valid {
      var s := Last(q).(valid := false);
      OneMoreStep(q, Closed(t), s);
      q := Taken(q, Closed(t), s);
    }
  }

  lemma Entered(s: State, t: Thread, data: Payload) returns (p: Run)
    requires s.owner == None && PhaseOf(s, t).Outside? && s.valid
    ensures IsPath(p) && p.states[0] == s
    ensures Last(p) == s.(phases := s.phases[t := Sending(data, 0)], owner := Some(t))
  {
    hide Frame;
    p := Run([s], []);
    var s1 := Move(s, t, Waiting(data));
    OneMoreStep(p, Call(t, data), s1);
    p := Taken(p, Call(t, data), s1);
    var s2 := Move(s1, t, Sending(data, 0)).(owner := Some(t));
    OneMoreStep(p, Lock(t), s2);
    p := Taken(p, Lock(t), s2);
    assert s.phases[t := Waiting(data)][t := Sending(data, 0)] == s.phases[t := Sending(data, 0)];
  }

  lemma TurnedAway(s: State, t: Thread, data: Payload) returns (p: Run)
    requires s.owner == None && PhaseOf(s, t).Outside?
    ensures IsPath(p) && p.states[0] == s && Last(p) == s.(phases := s.phases[t := Outside])
  {
    hide Frame;
    p := Run([s], []);
    var s1 := Move(s, t, Waiting(data));
    OneMoreStep(p, Call(t, data), s1);
    p := Taken(p, Call(t, data), s1);
    var s2 := Move(s1, t, Outside);
    OneMoreStep(p, Refuse(t), s2);
    p := Taken(p, Refuse(t), s2);
    assert s.phases[t := Waiting(data)][t := Outside] == s.phases[t := Outside];
  }

  lemma Left(p: Run, t: Thread, data: Payload, sent: nat) returns (q: Run)
    requires IsPath(p) && PhaseOf(Last(p), t) == Sending(data, sent) && Last(p).valid && sent <= |Frame(data)|
    ensures IsPath(q) && q.states[0] == p.states[0]
    ensures var s, ok := Last(p), sent == |Frame(data)|;
            Last(q) == s.(phases := s.phases[t := Outside], owner := None, shut := s.shut || !ok,
                          sent := s.sent + if ok then [data] else [])
  {
    var s := Last(p);
    hide Frame;
    if sent == |Frame(data)| {
      var s1 := Move(s, t, Outside).(owner := None, sent := s.sent + [data]);
      OneMoreStep(p, Finish(t), s1);
      q := Taken(p, Finish(t), s1);
    } else {
      var s1 := Move(s, t, Failed(data, sent));
      OneMoreStep(p, GiveUp(t), s1);
      q := Taken(p, GiveUp(t), s1);
      var s2 := Move(s1, t, Outside).(owner := None, shut := true);
      OneMoreStep(q, Poison(t), s2);
      q := Taken(q, Poison(t), s2);
      assert s1.phases[t := Outside] == s.phases[t := Outside];
    }
  }

  /** Whatever SendFrame does by its contract, these steps do: called while the mutex is free, it ends in
      the socket it leaves, with the frame counted as sent exactly if it returned true. */
  lemma SendFrameIsSteps(s: State, t: Thread, data: Payload, timeoutMs: int, ok: bool, sent: nat, after: Socket)
      returns (p: Run)
    requires s.owner == None && PhaseOf(s, t).Outside?
    requires SendOutcome(SocketOf(s), after, data, timeoutMs, ok, sent)
    ensures IsPath(p) && p.states[0] == s
    ensures Last(p) == s.(wire := after.wire, valid := after.valid, shut := after.shut,
                          phases := s.phases[t := Outside], sent := s.sent + if ok then [data] else [])
  {
    hide Frame, IsPath;
    if !s.valid || timeoutMs <= 0 {
      p := TurnedAway(s, t, data);
    } else {
      var entered := Entered(s, t, data);
      var written := WrittenUpTo(entered, t, data, sent);
      assert s.phases[t := Sending(data, 0)][t := Sending(data, sent)] == s.phases[t := Sending(data, sent)];
      var left := Left(written, t, data, sent);
      assert s.phases[t := Sending(data, sent)][t := Outside] == s.phases[t := Outside];
      p := WornDown(left, t, after.valid, after.shut);
    }
  }
}
