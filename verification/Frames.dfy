/** The length-prefixed frame codec of the Discord connection: `Connection::send` writes frames,
    `take_frame` consumes them from the bytes received so far. Whether a body is well-formed JSON is
    the parameter `valid`; a frame carries its body's bytes. */
module Frames {
  import opened Wrappers

  type byte = x: int | 0 <= x < 256
  type u32 = x: int | 0 <= x < 0x1_0000_0000

  const MAX_FRAME_BYTES: nat := 1024 * 1024

  datatype Frame = Frame(opcode: u32, body: seq<byte>)

  datatype Taken = Incomplete | Corrupt | Taken(frame: Frame, rest: seq<byte>)

  function ToLittleEndian(n: u32): (b: seq<byte>)
    ensures |b| == 4
  {
    [n % 256, n / 0x100 % 256, n / 0x1_0000 % 256, n / 0x100_0000]
  }

  function FromLittleEndian(b: seq<byte>): u32
    requires |b| == 4
  {
    var b0: int, b1: int, b2: int, b3: int := b[0], b[1], b[2], b[3];
    b0 + 0x100 * b1 + 0x1_0000 * b2 + 0x100_0000 * b3
  }

  lemma LittleEndianRoundTrip(n: u32)
    ensures FromLittleEndian(ToLittleEndian(n)) == n
  {
    var a := n / 0x100;
    var b := a / 0x100;
    assert n / 0x1_0000 == b && n / 0x100_0000 == b / 0x100;
  }

  // The length field is the body's length cast to 32 bits.
  function Encode(f: Frame): seq<byte> {
    ToLittleEndian(f.opcode) + ToLittleEndian(|f.body| % 0x1_0000_0000) + f.body
  }

  // What `take_frame` does to a buffer.
  function Take(buffer: seq<byte>, valid: seq<byte> -> bool): Taken {
    if |buffer| < 8 then Incomplete
    else
      var length := FromLittleEndian(buffer[4..8]);
      if length > MAX_FRAME_BYTES then Corrupt
      else if |buffer| < 8 + length then Incomplete
      else if !valid(buffer[8..8 + length]) then Corrupt
      else Taken(Frame(FromLittleEndian(buffer[..4]), buffer[8..8 + length]), buffer[8 + length..])
  }

  predicate Sendable(f: Frame, valid: seq<byte> -> bool) {
    |f.body| <= MAX_FRAME_BYTES && valid(f.body)
  }

  class Connection {
    var buffered: seq<byte>

    constructor ()
      ensures buffered == []
    {
      buffered := [];
    }

    method Receive(chunk: seq<byte>)
      modifies this
      ensures buffered == old(buffered) + chunk
    {
      buffered := buffered + chunk;
    }

    method TakeFrame(valid: seq<byte> -> bool) returns (r: Result<Option<Frame>, string>)
      modifies this
      ensures
        match Take(old(buffered), valid)
        case Incomplete => r == Ok(None) && buffered == old(buffered)
        case Corrupt => r.Err? && buffered == old(buffered)
        case Taken(frame, rest) => r == Ok(Some(frame)) && buffered == rest
      // Byte by byte: four bytes of opcode, four of length, lowest first, and the body.
      ensures
        var b := old(buffered);
        |b| < 8 ==> r == Ok(None) && buffered == b
      ensures
        var b := old(buffered);
        |b| >= 8 ==>
          var o0: int, o1: int, o2: int, o3: int := b[0], b[1], b[2], b[3];
          var l0: int, l1: int, l2: int, l3: int := b[4], b[5], b[6], b[7];
          var length := l0 + 256 * l1 + 65_536 * l2 + 16_777_216 * l3;
          && (r.Err? <==> length > 1_048_576 || (|b| >= 8 + length && !valid(b[8..8 + length])))
          && (r == Ok(None) <==> length <= 1_048_576 && |b| < 8 + length)
          && (r.Ok? && r.value.Some? ==>
                && r.value.value.opcode == o0 + 256 * o1 + 65_536 * o2 + 16_777_216 * o3
                && r.value.value.body == b[8..8 + length] && buffered == b[8 + length..])
    {
      if |buffered| < 8 {
        return Ok(None);
      }
      var opcode := FromLittleEndian(buffered[..4]);
      var length := FromLittleEndian(buffered[4..8]);
      if length > MAX_FRAME_BYTES {
        return Err("Discord RPC response is too large");
      }
      if |buffered| < 8 + length {
        return Ok(None);
      }
      var body := buffered[8..8 + length];
      if !valid(body) {
        return Err("Invalid Discord RPC response");
      }
      buffered := buffered[8 + length..];
      return Ok(Some(Frame(opcode, body)));
    }

    method Send(opcode: u32, body: seq<byte>) returns (r: Result<seq<byte>, string>)
      ensures r.Ok? <==> |body| <= MAX_FRAME_BYTES
      ensures r.Ok? ==> r.value == Encode(Frame(opcode, body))
    {
      if |body| > MAX_FRAME_BYTES {
        return Err("Discord RPC frame is too large");
      }
      var frame := ToLittleEndian(opcode);
      frame := frame + ToLittleEndian(|body|);
      frame := frame + body;
      return Ok(frame);
    }
  }

  // Bytes that follow do not move those before them.
  lemma SliceOfLonger(a: seq<byte>, b: seq<byte>, i: nat, j: nat)
    requires i <= j <= |a|
    ensures (a + b)[i..j] == a[i..j]
    ensures (a + b)[j..] == a[j..] + b
  {
  }

  /** A whole frame at the front is taken exactly, whatever follows it. */
  lemma TakeEncoded(f: Frame, tail: seq<byte>, valid: seq<byte> -> bool)
    requires Sendable(f, valid)
    ensures Take(Encode(f) + tail, valid) == Taken(f, tail)
  {
    hide ToLittleEndian, FromLittleEndian, Encode, Take;
    var opcode, length := ToLittleEndian(f.opcode), ToLittleEndian(|f.body|);
    EncodedParts(f);
    LittleEndianRoundTrip(f.opcode);
    LittleEndianRoundTrip(|f.body|);
    LayoutOf(opcode, length, f.body, tail);
    TakeWhole(opcode + length + f.body + tail, f, tail, valid);
  }

  lemma EncodedParts(f: Frame)
    requires |f.body| <= MAX_FRAME_BYTES
    ensures Encode(f) == ToLittleEndian(f.opcode) + ToLittleEndian(|f.body|) + f.body
  {
    hide ToLittleEndian;
  }

  lemma TakeWhole(b: seq<byte>, f: Frame, tail: seq<byte>, valid: seq<byte> -> bool)
    requires Sendable(f, valid) && |b| >= 8 + |f.body|
    requires FromLittleEndian(b[..4]) == f.opcode && FromLittleEndian(b[4..8]) == |f.body|
    requires b[8..8 + |f.body|] == f.body && b[8 + |f.body|..] == tail
    ensures Take(b, valid) == Taken(f, tail)
  {
    hide FromLittleEndian;
  }

  lemma LayoutOf(opcode: seq<byte>, length: seq<byte>, body: seq<byte>, tail: seq<byte>)
    requires |opcode| == 4 && |length| == 4
    ensures
      var b := opcode + length + body + tail;
      b[..4] == opcode && b[4..8] == length && b[8..8 + |body|] == body && b[8 + |body|..] == tail
  {
  }

  /** A verdict other than "incomplete" does not depend on bytes that arrive later. */
  lemma TakeIsStable(buffer: seq<byte>, more: seq<byte>, valid: seq<byte> -> bool)
    ensures Take(buffer, valid).Corrupt? ==> Take(buffer + more, valid).Corrupt?
    ensures Take(buffer, valid).Taken? ==>
              Take(buffer + more, valid) == Taken(Take(buffer, valid).frame, Take(buffer, valid).rest + more)
  {
    hide FromLittleEndian;
    if |buffer| >= 8 {
      SliceOfLonger(buffer, more, 0, 4);
      SliceOfLonger(buffer, more, 4, 8);
      var length := FromLittleEndian(buffer[4..8]);
      if length <= MAX_FRAME_BYTES && |buffer| >= 8 + length {
        SliceOfLonger(buffer, more, 8, 8 + length);
      }
    }
  }

  lemma NotEmptyAfter(t: Taken, more: seq<byte>)
    requires more != []
    ensures t.Taken? ==> t.rest + more != []
  {
    if t.Taken? {
      assert |t.rest + more| > 0;
    }
  }

  /** Anything short of a whole frame is taken for incomplete, never for corrupt. */
  lemma PrefixIsIncomplete(f: Frame, n: nat, valid: seq<byte> -> bool)
    requires Sendable(f, valid) && n < |Encode(f)|
    ensures Take(Encode(f)[..n], valid) == Incomplete
  {
    var b := Encode(f);
    assert b[..n] + b[n..] == b;
    TakeIsStable(b[..n], b[n..], valid);
    assert b + [] == b;
    TakeEncoded(f, [], valid);
    NotEmptyAfter(Take(b[..n], valid), b[n..]);
  }

  // ---- Whole streams ----

  datatype Drained = Drained(frames: seq<Frame>, rest: seq<byte>, corrupt: bool)

  // Everything a reader that has the whole stream at once would take from it.
  function Drain(stream: seq<byte>, valid: seq<byte> -> bool): Drained
    decreases |stream|
  {
    match Take(stream, valid)
    case Incomplete => Drained([], stream, false)
    case Corrupt => Drained([], stream, true)
    case Taken(f, rest) => var d := Drain(rest, valid); d.(frames := [f] + d.frames)
  }

  // One step of a connection's life: a chunk arrives, or `take_frame` is called.
  datatype Event = Arrive(chunk: seq<byte>) | Poll

  datatype Reader = Reader(buffer: seq<byte>, taken: seq<Frame>, failed: bool)

  // A reader that met a corrupt frame is dropped with its connection.
  function Advance(r: Reader, e: Event, valid: seq<byte> -> bool): Reader {
    if r.failed then r
    else match e
      case Arrive(chunk) => r.(buffer := r.buffer + chunk)
      case Poll =>
        match Take(r.buffer, valid)
        case Incomplete => r
        case Corrupt => r.(failed := true)
        case Taken(f, rest) => Reader(rest, r.taken + [f], false)
  }

  function Run(r: Reader, events: seq<Event>, valid: seq<byte> -> bool): Reader
    decreases |events|
  {
    if events == [] then r else Run(Advance(r, events[0], valid), events[1..], valid)
  }

  function Arrived(events: seq<Event>): seq<byte>
    decreases |events|
  {
    if events == [] then []
    else (if events[0].Arrive? then events[0].chunk else []) + Arrived(events[1..])
  }

  // Frames taken so far followed by what is still to come: a quantity no event changes.
  function Outcome(r: Reader, pending: seq<byte>, valid: seq<byte> -> bool): Drained {
    var d := Drain(r.buffer + pending, valid);
    d.(frames := r.taken + d.frames)
  }

  lemma AdvanceKeepsOutcome(r: Reader, e: Event, pending: seq<byte>, valid: seq<byte> -> bool)
    requires !r.failed
    ensures
      var r' := Advance(r, e, valid);
      if r'.failed then r'.taken == r.taken && Take(r.buffer, valid).Corrupt?
      else Outcome(r', pending, valid) == Outcome(r, Arrived([e]) + pending, valid)
  {
    match e
    case Arrive(chunk) =>
      assert r.buffer + chunk + pending == r.buffer + (Arrived([e]) + pending);
    case Poll =>
      assert Arrived([e]) + pending == pending;
      TakeIsStable(r.buffer, pending, valid);
      if Take(r.buffer, valid).Taken? {
        var d := Drain(Take(r.buffer, valid).rest + pending, valid);
        assert r.taken + [Take(r.buffer, valid).frame] + d.frames == r.taken + ([Take(r.buffer, valid).frame] + d.frames);
      }
  }

  /** Fragmentation does not matter: for any byte stream, split and polled in any way, the frames
      taken are a prefix of what the whole stream holds; a reader with nothing left to take has
      exactly those frames and that remainder; and a failed reader met genuine corruption. */
  lemma {:induction false} FragmentationIsInvisible(r: Reader, events: seq<Event>, valid: seq<byte> -> bool)
    requires !r.failed
    ensures
      var end := Run(r, events, valid);
      var whole := Outcome(r, Arrived(events), valid);
      && end.taken <= whole.frames
      && (end.failed ==> whole.corrupt && end.taken == whole.frames)
      && (!end.failed && Take(end.buffer, valid).Incomplete? ==> end.taken == whole.frames && end.buffer == whole.rest)
      && (!end.failed ==> whole == Outcome(end, [], valid))
    decreases |events|
  {
    if events == [] {
      assert r.buffer + [] == r.buffer;
    } else {
      var e, tail := events[0], events[1..];
      assert Arrived([e]) + Arrived(tail) == Arrived(events);
      AdvanceKeepsOutcome(r, e, Arrived(tail), valid);
      var r' := Advance(r, e, valid);
      if r'.failed {
        StaysFailed(r', tail, valid);
        TakeIsStable(r.buffer, Arrived(events), valid);
      } else {
        FragmentationIsInvisible(r', tail, valid);
      }
    }
  }

  lemma {:induction false} StaysFailed(r: Reader, events: seq<Event>, valid: seq<byte> -> bool)
    requires r.failed
    ensures Run(r, events, valid) == r
    decreases |events|
  {
    if events != [] {
      StaysFailed(r, events[1..], valid);
    }
  }

  function EncodeAll(frames: seq<Frame>): seq<byte>
  {
    if frames == [] then [] else Encode(frames[0]) + EncodeAll(frames[1..])
  }

  lemma {:induction false} DrainEncoded(frames: seq<Frame>, valid: seq<byte> -> bool)
    requires forall i | 0 <= i < |frames| :: Sendable(frames[i], valid)
    ensures Drain(EncodeAll(frames), valid) == Drained(frames, [], false)
  {
    if frames != [] {
      TakeEncoded(frames[0], EncodeAll(frames[1..]), valid);
      DrainEncoded(frames[1..], valid);
    }
  }

  // Draining unfolded once.
  lemma DrainStep(stream: seq<byte>, valid: seq<byte> -> bool)
    ensures
      match Take(stream, valid)
      case Incomplete => Drain(stream, valid) == Drained([], stream, false)
      case Corrupt => Drain(stream, valid) == Drained([], stream, true)
      case Taken(f, rest) =>
        && |rest| < |stream|
        && Drain(stream, valid) == Drained([f] + Drain(rest, valid).frames, Drain(rest, valid).rest, Drain(rest, valid).corrupt)
  {
  }

  // Splitting a stream does not change what it holds, so a partly read stream is never corrupt.
  lemma {:induction false} DrainPrefix(stream: seq<byte>, more: seq<byte>, valid: seq<byte> -> bool)
    requires !Drain(stream + more, valid).corrupt
    ensures !Drain(stream, valid).corrupt
    ensures Drain(stream + more, valid).frames ==
              Drain(stream, valid).frames + Drain(Drain(stream, valid).rest + more, valid).frames
    ensures Drain(stream + more, valid).rest == Drain(Drain(stream, valid).rest + more, valid).rest
    decreases |stream|
  {
    hide Take, Drain;
    TakeIsStable(stream, more, valid);
    DrainStep(stream, valid);
    DrainStep(stream + more, valid);
    if Take(stream, valid).Taken? {
      DrainPrefix(Take(stream, valid).rest, more, valid);
    }
  }

  /** Every frame that was sent comes out, in order and unaltered: while bytes are still missing the
      frames taken are a prefix of those sent and nothing looks corrupt; once all bytes have arrived
      and nothing more can be taken, all frames are out and the buffer is empty. */
  lemma SentFramesSurviveFragmentation(
      frames: seq<Frame>, events: seq<Event>, missing: seq<byte>, valid: seq<byte> -> bool)
    requires forall i | 0 <= i < |frames| :: Sendable(frames[i], valid)
    requires Arrived(events) + missing == EncodeAll(frames)
    ensures
      var end := Run(Reader([], [], false), events, valid);
      && !end.failed
      && end.taken <= frames
      && (missing == [] && Take(end.buffer, valid).Incomplete? ==> end.taken == frames && end.buffer == [])
  {
    hide Take, Drain, Encode, EncodeAll, Run, Arrived;
    var start := Reader([], [], false);
    DrainEncoded(frames, valid);
    DrainPrefix(Arrived(events), missing, valid);
    FragmentationIsInvisible(start, events, valid);
    assert start.buffer + Arrived(events) == Arrived(events);
    if missing == [] {
      assert Arrived(events) + missing == Arrived(events);
    }
  }
}
