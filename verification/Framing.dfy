/** The wire framing of src/net/Connection.cpp: a 4-byte big-endian length, then the payload. */
module Framing {
  import opened Bytes
  import opened Wrappers

  /** SendFrame's size is 32 bits wide. */
  type Payload = p: seq<byte> | |p| < 0x1_0000_0000 witness []

  function Frame(p: Payload): (r: seq<byte>)
    ensures |r| == 4 + |p|
  {
    Put32(|p|) + p
  }

  function Wire(frames: seq<Payload>): seq<byte> {
    if frames == [] then [] else Wire(frames[..|frames| - 1]) + Frame(frames[|frames| - 1])
  }

  const MAX_INBOUND := 0x10_0000

  /** The next frame of a stream that ends here, and the bytes behind it. */
  function ReadOne(s: seq<byte>): (r: Option<(Payload, seq<byte>)>)
    ensures r.Some? ==> |r.value.1| < |s|
  {
    if |s| < 4 then None
    else
      var size := Get32(s[0], s[1], s[2], s[3]);
      if size > MAX_INBOUND || |s| < 4 + size then None else Some((s[4..4 + size], s[4 + size..]))
  }

  /** Every frame ReadFrame delivers before it first gives up. */
  function ReadMany(s: seq<byte>): seq<Payload>
    decreases |s|
  {
    match ReadOne(s)
    case None => []
    case Some((p, rest)) => [p] + ReadMany(rest)
  }

  predicate Inbound(p: Payload) {
    |p| <= 1048576
  }

  /** The leading frames that are within the cap. */
  function UpToCap(frames: seq<Payload>): seq<Payload> {
    if frames == [] || !Inbound(frames[0]) then [] else [frames[0]] + UpToCap(frames[1..])
  }

  predicate ProperPrefix(t: seq<byte>, p: Payload) {
    |t| < |Frame(p)| && t == Frame(p)[..|t|]
  }

  /** A torn tail: nothing, or the beginning of some frame. */
  ghost predicate Torn(t: seq<byte>) {
    t == [] || exists p: Payload :: ProperPrefix(t, p)
  }

  lemma ReadOneOfFrame(p: Payload, rest: seq<byte>)
    ensures ReadOne(Frame(p) + rest) == if Inbound(p) then Some((p, rest)) else None
  {
    var s := Frame(p) + rest;
    Get32Put32(|p|);
    assert s[0] == Put32(|p|)[0] && s[1] == Put32(|p|)[1] && s[2] == Put32(|p|)[2] && s[3] == Put32(|p|)[3];
    assert s[4..4 + |p|] == p;
    assert s[4 + |p|..] == rest;
  }

  lemma TornReadsNothing(t: seq<byte>)
    requires Torn(t)
    ensures ReadOne(t) == None
  {
    if t != [] && |t| >= 4 {
      var p: Payload :| ProperPrefix(t, p);
      Get32Put32(|p|);
      var f := Frame(p);
      assert t[0] == f[..|t|][0] == f[0] && t[1] == f[..|t|][1] && t[2] == f[..|t|][2] && t[3] == f[..|t|][3];
      assert f[0] == Put32(|p|)[0] && f[1] == Put32(|p|)[1] && f[2] == Put32(|p|)[2] && f[3] == Put32(|p|)[3];
    }
  }

  /** On the wire the length comes first, in four bytes, the most significant first; then the payload. */
  lemma FrameIsBigEndian(p: Payload)
    ensures var f := Frame(p);
            var a: int, b: int, c: int, d: int := f[0], f[1], f[2], f[3];
            |p| == a * 16777216 + b * 65536 + c * 256 + d && f[4..] == p
  {
  }

  lemma WireBack(frames: seq<Payload>, p: Payload)
    ensures Wire(frames + [p]) == Wire(frames) + Frame(p)
  {
    hide Frame;
    assert (frames + [p])[..|frames|] == frames;
  }

  lemma {:induction false} WireFront(frames: seq<Payload>)
    requires frames != []
    ensures Wire(frames) == Frame(frames[0]) + Wire(frames[1..])
    decreases |frames|
  {
    var n := |frames| - 1;
    if n == 0 {
      assert Wire(frames[..n]) == [] && Wire(frames[1..]) == [];
    } else {
      WireFront(frames[..n]);
      assert frames[..n][1..] == frames[1..][..n - 1];
      assert frames[1..][n - 1] == frames[n];
      var first, middle, last := Frame(frames[0]), Wire(frames[1..][..n - 1]), Frame(frames[n]);
      assert Wire(frames) == first + middle + last;
      assert Wire(frames[1..]) == middle + last;
      hide *;
      assert first + middle + last == first + (middle + last);
    }
  }

  /** Whole frames and a torn tail: exactly the frames before the first one over the cap are read. */
  lemma {:induction false} ReadsWholeFrames(frames: seq<Payload>, tail: seq<byte>)
    requires Torn(tail)
    ensures ReadMany(Wire(frames) + tail) == UpToCap(frames)
    decreases |frames|
  {
    if frames == [] {
      assert Wire(frames) + tail == tail;
      TornReadsNothing(tail);
    } else {
      var rest := Wire(frames[1..]) + tail;
      WireFront(frames);
      assert Wire(frames) + tail == Frame(frames[0]) + rest;
      ReadOneOfFrame(frames[0], rest);
      ReadsWholeFrames(frames[1..], tail);
    }
  }

  lemma {:induction false} AllWithinCap(frames: seq<Payload>)
    requires forall k :: 0 <= k < |frames| ==> Inbound(frames[k])
    ensures UpToCap(frames) == frames
    decreases |frames|
  {
    if frames != [] { AllWithinCap(frames[1..]); }
  }

  // ----- The reading end: recv returns what it likes -----

  /** The stream still to arrive at this end.  `broken` is set when recv reports an error. */
  class Receiver {
    var incoming: seq<byte>
    var valid: bool
    var broken: bool

    constructor (incoming: seq<byte>)
      ensures this.incoming == incoming && valid && !broken
    {
      this.incoming, valid, broken := incoming, true, false;
    }

    /** One recv: some of the next bytes, none at the end of the stream, or an error. */
    method Recv(max: nat) returns (chunk: seq<byte>)
      requires max > 0
      modifies this`incoming, this`broken
      ensures |chunk| <= max && chunk + incoming == old(incoming)
      ensures old(broken) ==> broken
      ensures !broken && chunk == [] ==> old(incoming) == []
    {
      var fails: bool := *;
      if fails || |incoming| == 0 {
        broken := broken || fails;
        return [];
      }
      var n :| 1 <= n <= |incoming| && n <= max;
      chunk := incoming[..n];
      incoming := incoming[n..];
    }

    method ReadExact(size: nat) returns (r: Option<seq<byte>>)
      modifies this`incoming, this`broken
      ensures old(broken) ==> broken
      ensures r.Some? ==> |r.value| == size && r.value + incoming == old(incoming)
      ensures r.None? && !broken ==> !valid || |old(incoming)| < size
    {
      var buffer: seq<byte> := [];
      while |buffer| < size
        invariant |buffer| <= size && buffer + incoming == old(incoming)
        invariant old(broken) ==> broken
      {
        if !valid {
          return None;
        }
        ghost var before := incoming;
        var chunk := Recv(size - |buffer|);
        if chunk == [] {
          return None;
        }
        assert buffer + (chunk + incoming) == (buffer + chunk) + incoming;
        buffer := buffer + chunk;
      }
      return Some(buffer);
    }

    /** Whatever the chunking: unless recv failed, the next frame of the stream, or none. */
    method ReadFrame() returns (r: Option<Payload>)
      modifies this`incoming, this`broken
      ensures r.Some? ==> ReadOne(old(incoming)) == Some((r.value, incoming))
      ensures r.None? && valid && !broken ==> ReadOne(old(incoming)) == None
    {
      if !valid {
        return None;
      }
      var head := ReadExact(4);
      if head.None? {
        return None;
      }
      var b := head.value;
      var size := Get32(b[0], b[1], b[2], b[3]);
      assert old(incoming)[0] == b[0] && old(incoming)[1] == b[1] && old(incoming)[2] == b[2] && old(incoming)[3] == b[3];
      assert incoming == old(incoming)[4..];
      if size > MAX_INBOUND {
        return None;
      }
      ghost var behind := incoming;
      var payload := ReadExact(size);
      if payload.None? {
        return None;
      }
      assert behind[..size] == payload.value && behind[size..] == incoming;
      assert old(incoming)[4..4 + size] == behind[..size] && old(incoming)[4 + size..] == behind[size..];
      return Some(payload.value);
    }

    /** The reader thread's loop: it goes on until no frame comes or a stop is requested. */
    method ReadFrames() returns (frames: seq<Payload>, stopped: bool)
      modifies this`incoming, this`broken
      ensures frames <= ReadMany(old(incoming))
      ensures !stopped && valid && !broken ==> frames == ReadMany(old(incoming))
    {
      frames := [];
      stopped := *;
      while !stopped
        invariant frames + ReadMany(incoming) == ReadMany(old(incoming))
        decreases |incoming|
      {
        ghost var before := ReadMany(incoming);
        var frame := ReadFrame();
        if frame.None? { return; }
        assert before == [frame.value] + ReadMany(incoming);
        frames := frames + [frame.value];
        stopped := *;
      }
    }
  }

  // ----- The writing end: one SendFrame under the send mutex -----

  datatype Socket = Socket(wire: seq<byte>, valid: bool, shut: bool)

  /** What may become of a socket while its owner is in SendFrame: interrupted or closed, not mended. */
  predicate Worn(before: Socket, after: Socket) {
    (before.shut ==> after.shut) && (after.valid ==> before.valid) && (before.valid ==> after.valid || after.shut)
  }

  /** All of the frame, or a proper prefix of it on a socket that will take nothing more; and nothing on
      a socket that was shut down before. */
  predicate SendOutcome(before: Socket, after: Socket, data: Payload, timeoutMs: int, ok: bool, sent: nat) {
    && sent <= |Frame(data)| && after.wire == before.wire + Frame(data)[..sent]
    && (ok <==> sent == |Frame(data)|)
    && (!before.valid || timeoutMs <= 0 ==> !ok && after == before)
    && (!ok && before.valid && timeoutMs > 0 ==> after.shut || !after.valid)
    && (before.shut ==> sent == 0)
    && Worn(before, after)
  }

  /** `wire` holds the bytes the socket has accepted.  Other threads cannot write while the mutex
      is held, but they can interrupt or close the socket at any moment, and time passes: Interfere. */
  class Sender {
    var wire: seq<byte>
    var valid: bool
    var shut: bool
    var now: nat   // milliseconds

    constructor ()
      ensures Now() == Socket([], true, false)
    {
      wire, valid, shut, now := [], true, false, 0;
    }

    function Now(): Socket
      reads this
    {
      Socket(wire, valid, shut)
    }

    method Interrupt()
      modifies this`shut
      ensures shut == (old(shut) || valid)
    {
      if valid {
        shut := true;
      }
    }

    method Close()
      modifies this`valid, this`shut
      ensures !valid && shut == (old(shut) || old(valid))
    {
      if valid {
        shut := true;
      }
      valid := false;
    }

    /** What other threads may have done meanwhile. */
    method Interfere()
      modifies this`valid, this`shut, this`now
      ensures Worn(old(Now()), Now()) && now >= old(now)
    {
      var interrupted, closed: bool, passed: nat := *, *, *;
      now := now + passed;
      if interrupted {
        Interrupt();
      }
      if closed {
        Close();
      }
    }

    /** One send: a part of the bytes, or an error; never anything after a shutdown. */
    method Send(data: seq<byte>) returns (n: int)
      requires data != []
      modifies this`wire
      ensures n <= |data|
      ensures wire == old(wire) + if n > 0 then data[..n] else []
      ensures shut || !valid ==> n <= 0
    {
      var accepted: int := *;
      if shut || !valid || accepted <= 0 || accepted > |data| {
        return -1;
      }
      n := accepted;
      wire := wire + data[..n];
    }

    /** The deadline is looked at before every send: once it has passed, nothing more is written. */
    method WriteExactUntil(data: seq<byte>, deadline: nat) returns (ok: bool, ghost sent: nat)
      modifies this
      ensures sent <= |data| && wire == old(wire) + data[..sent]
      ensures ok <==> sent == |data|
      ensures old(now) >= deadline || old(shut) || !old(valid) ==> sent == 0
      ensures Worn(old(Now()), Now()) && now >= old(now)
    {
      sent := 0;
      var total := 0;
      assert wire == old(wire) + data[..0];
      while total < |data|
        invariant total == sent <= |data|
        invariant wire == old(wire) + data[..sent]
        invariant old(now) >= deadline || old(shut) || !old(valid) ==> sent == 0
        invariant Worn(old(Now()), Now()) && now >= old(now)
        decreases |data| - total
      {
        Interfere();
        if !valid || now >= deadline {
          return false, sent;
        }
        var timeoutSet: bool := *;
        if !timeoutSet {
          return false, sent;
        }
        var n := Send(data[total..]);
        if n <= 0 {
          return false, sent;
        }
        assert data[..total] + data[total..][..n] == data[..total + n];
        total := total + n;
        sent := total;
      }
      return true, sent;
    }

    method SendFrame(data: Payload, timeoutMs: int) returns (ok: bool, ghost sent: nat)
      modifies this
      ensures SendOutcome(old(Now()), Now(), data, timeoutMs, ok, sent)
    {
      sent := 0;
      var frame := Frame(data);
      assert frame[..0] == [];
      if !valid || timeoutMs <= 0 {
        ok := false;
        return;
      }
      var deadline := now + timeoutMs;
      var header := Put32(|data|);
      assert frame[..4] == header && frame[4..] == data;
      ghost var part: nat;
      ok, part := WriteExactUntil(header, deadline);
      sent := part;
      assert header[..part] == frame[..part];
      if !ok {
        Interrupt();
        return;
      }
      if |data| > 0 {
        ok, part := WriteExactUntil(data, deadline);
        sent := 4 + part;
        assert frame[..4] + data[..part] == frame[..sent];
        if !ok {
          Interrupt();
        }
      }
    }
  }
}
