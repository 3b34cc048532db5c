/** The CDP client's WebSocket framing (sections 5.2 and 5.3 of RFC 6455) over a byte stream that
    `recv` may split anywhere. */
module WebSocket {
  import opened Prelude
  import opened Bytes

  type Mask = m: seq<Byte> | |m| == 4 witness [0, 0, 0, 0]

  datatype Frame = Frame(opcode: nat, mask: Option<Mask>, payload: seq<Byte>)

  predicate WellFormed(f: Frame) { f.opcode < 16 && |f.payload| < U64_LIMIT }

  function Masked(payload: seq<Byte>, mask: Mask): (r: seq<Byte>)
    ensures |r| == |payload|
  {
    seq(|payload|, i requires 0 <= i < |payload| => Xor(payload[i], mask[i % 4]))
  }

  lemma {:induction false} MaskUndoes(payload: seq<Byte>, mask: Mask)
    ensures Masked(Masked(payload, mask), mask) == payload
  {
    var twice := Masked(Masked(payload, mask), mask);
    forall i | 0 <= i < |payload| ensures twice[i] == payload[i] {
      XorUndoes(payload[i], mask[i % 4], 8);
    }
  }

  /** The header up to the mask: FIN and opcode, mask bit and length in its shortest form. */
  function Header(f: Frame): seq<Byte>
    requires WellFormed(f)
  {
    var n := |f.payload|;
    var bit := if f.mask.Some? then 128 else 0;
    [128 + f.opcode] +
    if n < 126 then [bit + n]
    else if n < 65536 then [bit + 126] + ToBig(n, 2)
    else [bit + 127] + ToBig(n, 8)
  }

  function Body(f: Frame): seq<Byte> {
    match f.mask
    case None => f.payload
    case Some(mask) => mask + Masked(f.payload, mask)
  }

  function Encode(f: Frame): seq<Byte>
    requires WellFormed(f)
  {
    Header(f) + Body(f)
  }

  /** The length field at the front of a stream: its value and the bytes it takes after the first two. */
  function LengthField(s: seq<Byte>): (r: Option<(nat, nat)>)
    requires |s| >= 2
    ensures r.Some? ==> r.value.0 < U64_LIMIT && 2 + r.value.1 <= |s|
  {
    var n: nat := s[1] % 128;
    if n == 126 then if |s| < 4 then None else Some((ShortField(s[2..4]), 2))
    else if n == 127 then if |s| < 10 then None else Some((ShortField(s[2..10]), 8))
    else Some((n, 0))
  }

  /** A big-endian field of two or eight bytes. */
  function ShortField(s: seq<Byte>): (n: nat)
    requires |s| in {2, 8}
    ensures n == FromBig(s) < U64_LIMIT
  {
    Widths();
    BigIsUnique(s);
    FromBig(s)
  }

  /** The first frame of a stream and the rest, if the stream holds it completely. Any length form is
      accepted, shortest or not. */
  function Decode(s: seq<Byte>): (r: Option<(Frame, seq<Byte>)>)
    ensures r.Some? ==> |r.value.1| < |s| && WellFormed(r.value.0)
  {
    if |s| < 2 then None
    else
      match LengthField(s)
      case None => None
      case Some((n, width)) =>
        match SplitBody(s[2 + width..], s[1] >= 128, n)
        case None => None
        case Some((mask, raw, rest)) =>
          Some((Frame(s[0] % 16, mask, if mask.Some? then Masked(raw, mask.value) else raw), rest))
  }

  /** What follows the length: the masking key, if any, the payload on the wire, and the rest. */
  function SplitBody(s: seq<Byte>, masked: bool, n: nat): (r: Option<(Option<Mask>, seq<Byte>, seq<Byte>)>)
    ensures r.Some? ==> |r.value.1| == n && |r.value.2| <= |s|
  {
    var at := if masked then 4 else 0;
    if |s| < at + n then None
    else Some((if masked then Some(s[..4]) else None, s[at..][..n], s[at..][n..]))
  }

  /** What one call of `_recv_frame` delivers from a stream: the payload of the next text or
      continuation frame, other frames being skipped; `None` when the peer closes first. */
  function Receive(s: seq<Byte>): Option<(seq<Byte>, seq<Byte>)>
    decreases |s|
  {
    match Decode(s)
    case None => None
    case Some((f, rest)) =>
      if f.opcode == 8 then None
      else if f.opcode == 0 || f.opcode == 1 then Some((f.payload, rest))
      else Receive(rest)
  }

  /** The payloads of the pings skipped on the way. */
  function Pings(s: seq<Byte>): seq<seq<Byte>>
    decreases |s|
  {
    match Decode(s)
    case None => []
    case Some((f, rest)) =>
      if f.opcode == 8 || f.opcode == 0 || f.opcode == 1 then []
      else (if f.opcode == 9 then [f.payload] else []) + Pings(rest)
  }

  // ---------------------------------------------------------------- the connection

  /** One end of the socket: `inbox` is what the peer has sent and has not been received yet. */
  class CdpConnection {
    var inbox: seq<Byte>
    var outbox: seq<Byte>

    constructor (inbox: seq<Byte>)
      ensures this.inbox == inbox && outbox == []
    {
      this.inbox, outbox := inbox, [];
    }

    /** `socket.recv`: some non-empty front part, as long as there is one. */
    method Recv(limit: nat) returns (chunk: seq<Byte>)
      requires limit > 0
      modifies this`inbox
      ensures chunk + inbox == old(inbox) && |chunk| <= limit && (chunk == [] ==> old(inbox) == [])
    {
      if inbox == [] { return []; }
      assert 1 <= 1 <= limit && 1 <= |inbox|;
      var k :| 1 <= k <= limit && k <= |inbox|;
      chunk := inbox[..k];
      inbox := inbox[k..];
    }

    /** `_read_exact`: exactly the next `length` bytes, however the stream is split. */
    method ReadExact(length: nat) returns (r: Result<seq<Byte>>)
      modifies this`inbox
      ensures r.Ok? <==> length <= |old(inbox)|
      ensures r.Ok? ==> r.value == old(inbox)[..length] && inbox == old(inbox)[length..]
      ensures r.Err? ==> inbox == []
    {
      var chunks := [];
      while |chunks| < length
        invariant |chunks| <= length && chunks + inbox == old(inbox)
        decreases length - |chunks|
      {
        var chunk := Recv(length - |chunks|);
        if chunk == [] { return Err; }
        assert chunks + chunk + inbox == chunks + (chunk + inbox);
        chunks := chunks + chunk;
      }
      r := Ok(chunks);
    }

    /** `_send_frame`; `mask` is what `os.urandom(4)` returned. */
    method SendFrame(payload: seq<Byte>, opcode: nat, mask: Mask) returns (r: Result<()>)
      requires opcode < 16
      modifies this`outbox
      ensures r.Ok? <==> |payload| < U64_LIMIT
      ensures outbox == old(outbox) + if r.Ok? then Encode(Frame(opcode, Some(mask), payload)) else []
    {
      var first, length := 128 + opcode, |payload|;
      var header: seq<Byte>;
      if length < 126 {
        header := [first, 128 + length];
      } else if length < 65536 {
        header := [first, 128 + 126] + ToBig(length, 2);
      } else if length < U64_LIMIT {
        header := [first, 128 + 127] + ToBig(length, 8);
      } else {
        return Err;
      }
      var masked := Masked(payload, mask);
      assert header == Header(Frame(opcode, Some(mask), payload));
      assert header + mask + masked == header + (mask + masked);
      outbox := outbox + (header + mask + masked);
      r := Ok(());
    }

    /** The two fixed bytes and the length field of a frame. */
    method ReadLength() returns (r: Result<(Byte, Byte, nat)>, ghost width: nat)
      modifies this`inbox
      ensures r.Ok? <==> |old(inbox)| >= 2 && LengthField(old(inbox)).Some?
      ensures r.Ok? ==>
                r.value.0 == old(inbox)[0] && r.value.1 == old(inbox)[1] &&
                LengthField(old(inbox)) == Some((r.value.2, width)) && 2 + width <= |old(inbox)| &&
                inbox == old(inbox)[2 + width..]
    {
      ghost var s := inbox;
      width := 0;
      var firstTwo := ReadExact(2);
      if firstTwo.Err? { return Err, 0; }
      var first, second := firstTwo.value[0], firstTwo.value[1];
      var length: nat := second % 128;
      if length == 126 {
        var field := ReadExact(2);
        if field.Err? { return Err, 0; }
        assert field.value == s[2..][..2] == s[2..4] && s[2..][2..] == s[4..];
        length, width := FromBig(field.value), 2;
      } else if length == 127 {
        var field := ReadExact(8);
        if field.Err? { return Err, 0; }
        assert field.value == s[2..][..8] == s[2..10] && s[2..][8..] == s[10..];
        length, width := FromBig(field.value), 8;
      }
      r := Ok((first, second, length));
    }

    /** The part of `_recv_frame` that takes one frame off the stream. */
    method ReadFrame() returns (r: Result<Frame>)
      modifies this`inbox
      ensures r.Ok? <==> Decode(old(inbox)).Some?
      ensures r.Ok? ==> (r.value, inbox) == Decode(old(inbox)).value
    {
      var lengthField, width := ReadLength();
      if lengthField.Err? { return Err; }
      var (first, second, length) := lengthField.value;
      var body := ReadBody(second >= 128, length);
      if body.Err? { return Err; }
      var (mask, payload) := body.value;
      r := Ok(Frame(first % 16, mask, if mask.Some? then Masked(payload, mask.value) else payload));
    }

    /** The masking key, if any, and the payload as it is on the wire. */
    method ReadBody(masked: bool, length: nat) returns (r: Result<(Option<Mask>, seq<Byte>)>)
      modifies this`inbox
      ensures r.Ok? <==> SplitBody(old(inbox), masked, length).Some?
      ensures r.Ok? ==> (r.value.0, r.value.1, inbox) == SplitBody(old(inbox), masked, length).value
    {
      ghost var s := inbox;
      var mask: Option<Mask> := None;
      ghost var at := 0;
      if masked {
        var m := ReadExact(4);
        if m.Err? { return Err; }
        mask, at := Some(m.value), 4;
      }
      assert inbox == s[at..];
      var payload := [];
      if length > 0 {
        var p := ReadExact(length);
        if p.Err? { return Err; }
        payload := p.value;
      }
      assert payload == s[at..][..length] && inbox == s[at..][length..];
      r := Ok((mask, payload));
    }

    /** `_recv_frame`: every ping is answered by a pong with its own payload and skipped. */
    method RecvFrame() returns (r: Result<seq<Byte>>, ghost pongs: seq<Frame>)
      modifies this
      ensures r.Ok? <==> Receive(old(inbox)).Some?
      ensures r.Ok? ==> (r.value, inbox) == Receive(old(inbox)).value
      ensures AllWellFormed(pongs) && outbox == old(outbox) + EncodeAll(pongs)
      ensures Answers(pongs, Pings(old(inbox)))
      decreases |inbox|
    {
      var frame := ReadFrame();
      if frame.Err? || frame.value.opcode == 8 { return Err, []; }
      var opcode, payload := frame.value.opcode, frame.value.payload;
      if opcode == 0 || opcode == 1 { return Ok(payload), []; }
      ghost var s, rest := old(inbox), inbox;
      if opcode == 9 {
        var mask: Mask :| true;
        var _ := SendFrame(payload, 10, mask);
        ghost var more;
        r, more := RecvFrame();
        pongs := PongFirst(old(outbox), payload, mask, more, Pings(rest));
        assert Pings(s) == [payload] + Pings(rest);
      } else {
        r, pongs := RecvFrame();
      }
    }
  }

  lemma {:induction false} PongFirst(before: seq<Byte>, payload: seq<Byte>, mask: Mask, more: seq<Frame>,
                                     pings: seq<seq<Byte>>)
    returns (pongs: seq<Frame>)
    requires |payload| < U64_LIMIT && AllWellFormed(more) && Answers(more, pings)
    ensures AllWellFormed(pongs) && Answers(pongs, [payload] + pings)
    ensures before + Encode(Frame(10, Some(mask), payload)) + EncodeAll(more) == before + EncodeAll(pongs)
  {
    var pong := Frame(10, Some(mask), payload);
    pongs := [pong] + more;
    assert pongs[1..] == more;
    Regroup(before, Encode(pong), EncodeAll(more));
  }

  ghost predicate AllWellFormed(frames: seq<Frame>) {
    forall i :: 0 <= i < |frames| ==> WellFormed(frames[i])
  }

  /** One pong per ping, in order, with the same payload. */
  ghost predicate Answers(pongs: seq<Frame>, pings: seq<seq<Byte>>) {
    |pongs| == |pings| && forall i :: 0 <= i < |pongs| ==> pongs[i].opcode == 10 && pongs[i].payload == pings[i]
  }

  function EncodeAll(frames: seq<Frame>): seq<Byte>
    requires AllWellFormed(frames)
  {
    if frames == [] then [] else Encode(frames[0]) + EncodeAll(frames[1..])
  }

  // ---------------------------------------------------------------- round trip

  lemma {:induction false} LengthRoundTrip(f: Frame, rest: seq<Byte>)
    requires WellFormed(f)
    ensures var s := Header(f) + rest;
            |s| >= 2 && s[0] == 128 + f.opcode && (s[1] >= 128 <==> f.mask.Some?) &&
            LengthField(s) == Some((|f.payload|, |Header(f)| - 2))
  {
    Widths();
    var s, n := Header(f) + rest, |f.payload|;
    if 126 <= n < 65536 {
      BigRoundTrip(n, 2);
      assert s[2..4] == ToBig(n, 2);
    } else if n >= 65536 {
      BigRoundTrip(n, 8);
      assert s[2..10] == ToBig(n, 8);
    }
  }

  /** One frame, masked or not, of any length, in front of any bytes, is read back. */
  lemma {:induction false} FrameRoundTrip(f: Frame, rest: seq<Byte>)
    requires WellFormed(f)
    ensures Decode(Encode(f) + rest) == Some((f, rest))
  {
    var s, h := Encode(f) + rest, Header(f);
    Regroup(h, Body(f), rest);
    LengthRoundTrip(f, Body(f) + rest);
    AfterPrefix(h, Body(f) + rest);
    BodyRoundTrip(f, rest);
    DecodeParts(s, f, |h| - 2, Body(f) + rest, rest);
  }

  lemma {:induction false} AfterPrefix(a: seq<Byte>, b: seq<Byte>)
    ensures (a + b)[|a|..] == b
  {
  }

  lemma {:induction false} DecodeParts(s: seq<Byte>, f: Frame, width: nat, body: seq<Byte>, rest: seq<Byte>)
    requires |s| >= 2 + width && s[0] == 128 + f.opcode && f.opcode < 16 && (s[1] >= 128 <==> f.mask.Some?)
    requires LengthField(s) == Some((|f.payload|, width)) && s[2 + width..] == body
    requires var raw := if f.mask.Some? then Masked(f.payload, f.mask.value) else f.payload;
             SplitBody(body, f.mask.Some?, |f.payload|) == Some((f.mask, raw, rest))
    requires f.mask.Some? ==> Masked(Masked(f.payload, f.mask.value), f.mask.value) == f.payload
    ensures Decode(s) == Some((f, rest))
  {
  }

  lemma {:induction false} BodyRoundTrip(f: Frame, rest: seq<Byte>)
    ensures var raw := if f.mask.Some? then Masked(f.payload, f.mask.value) else f.payload;
            SplitBody(Body(f) + rest, f.mask.Some?, |f.payload|) == Some((f.mask, raw, rest))
    ensures f.mask.Some? ==> Masked(Masked(f.payload, f.mask.value), f.mask.value) == f.payload
  {
    var s, n := Body(f) + rest, |f.payload|;
    match f.mask
    case None =>
      assert s[0..][..n] == f.payload && s[0..][n..] == rest;
    case Some(mask) =>
      var raw := Masked(f.payload, mask);
      Regroup(mask, raw, rest);
      assert s[..4] == mask && s[4..] == raw + rest;
      assert (raw + rest)[..n] == raw && (raw + rest)[n..] == rest;
      MaskUndoes(f.payload, mask);
  }

  predicate IsMessage(f: Frame) { f.opcode == 0 || f.opcode == 1 }

  /** The message payloads of a frame sequence, in order. */
  function Messages(frames: seq<Frame>): seq<seq<Byte>> {
    if frames == [] then []
    else (if IsMessage(frames[0]) then [frames[0].payload] else []) + Messages(frames[1..])
  }

  /** What `count` successive calls of `_recv_frame` deliver. */
  function ReceiveMany(s: seq<Byte>, count: nat): Option<(seq<seq<Byte>>, seq<Byte>)>
    decreases count
  {
    if count == 0 then Some(([], s))
    else
      match Receive(s)
      case None => None
      case Some((payload, rest)) =>
        match ReceiveMany(rest, count - 1)
        case None => None
        case Some((more, rest')) => Some(([payload] + more, rest'))
  }

  /** Frames followed by one last message and anything else. */
  function Stream(frames: seq<Frame>, last: Frame, tail: seq<Byte>): seq<Byte>
    requires AllWellFormed(frames) && WellFormed(last)
  {
    if frames == [] then Encode(last) + tail else Encode(frames[0]) + Stream(frames[1..], last, tail)
  }

  /** Whatever frames the peer sends, short of a close, with whatever masks: receiving as many times
      as there are messages returns all of them in order, and skips everything else. */
  lemma {:induction false} StreamRoundTrip(frames: seq<Frame>, last: Frame, tail: seq<Byte>)
    requires AllWellFormed(frames) && (forall i :: 0 <= i < |frames| ==> frames[i].opcode != 8)
    requires WellFormed(last) && IsMessage(last)
    ensures ReceiveMany(Stream(frames, last, tail), |Messages(frames)| + 1) ==
            Some((Messages(frames) + [last.payload], tail))
  {
    if frames == [] {
      LastMessage(last, tail);
      assert Messages(frames) + [last.payload] == [last.payload];
    } else {
      var f, more := frames[0], frames[1..];
      FrameRoundTrip(f, Stream(more, last, tail));
      StreamRoundTrip(more, last, tail);
      StreamStep(f, Stream(more, last, tail), Messages(more), last.payload, tail);
      if !IsMessage(f) { assert Messages(frames) == Messages(more); }
    }
  }

  lemma {:induction false} LastMessage(last: Frame, tail: seq<Byte>)
    requires WellFormed(last) && IsMessage(last)
    ensures ReceiveMany(Encode(last) + tail, 1) == Some(([last.payload], tail))
  {
    FrameRoundTrip(last, tail);
    assert ReceiveMany(tail, 0) == Some(([], tail));
    MessageFrame(last, tail, 0);
    assert [last.payload] + [] == [last.payload];
  }

  lemma {:induction false} StreamStep(f: Frame, rest: seq<Byte>, messages: seq<seq<Byte>>, payload: seq<Byte>,
                                      tail: seq<Byte>)
    requires WellFormed(f) && f.opcode != 8 && Decode(Encode(f) + rest) == Some((f, rest))
    requires ReceiveMany(rest, |messages| + 1) == Some((messages + [payload], tail))
    ensures var all := if IsMessage(f) then [f.payload] + messages else messages;
            ReceiveMany(Encode(f) + rest, |all| + 1) == Some((all + [payload], tail))
  {
    if IsMessage(f) {
      MessageFrame(f, rest, |messages| + 1);
      assert [f.payload] + messages + [payload] == [f.payload] + (messages + [payload]);
    } else {
      SkippedFrame(f, rest, |messages| + 1);
    }
  }

  lemma {:induction false} MessageFrame(f: Frame, rest: seq<Byte>, count: nat)
    requires WellFormed(f) && IsMessage(f) && Decode(Encode(f) + rest) == Some((f, rest))
    requires ReceiveMany(rest, count).Some?
    ensures var (more, rest') := ReceiveMany(rest, count).value;
            ReceiveMany(Encode(f) + rest, count + 1) == Some(([f.payload] + more, rest'))
  {
  }

  lemma {:induction false} SkippedFrame(f: Frame, rest: seq<Byte>, count: nat)
    requires WellFormed(f) && !IsMessage(f) && f.opcode != 8 && count > 0
    requires Decode(Encode(f) + rest) == Some((f, rest))
    ensures ReceiveMany(Encode(f) + rest, count) == ReceiveMany(rest, count)
  {
  }
}
