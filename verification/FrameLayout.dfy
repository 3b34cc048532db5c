/** WebSocket frames byte by byte (sections 5.2 and 5.3 of RFC 6455): which bytes a frame is, and what a reader takes
    from any stream. */
module FrameLayout {
  import opened Prelude
  import opened Bytes
  import opened WebSocket

  // ---------------------------------------------------------------- the parts of a frame

  /** The seven low bits of the second byte. */
  function LowLength(s: seq<Byte>): nat
    requires |s| >= 2
  {
    s[1] % 128
  }

  /** The bytes of an extended length. */
  function Extra(s: seq<Byte>): nat
    requires |s| >= 2
  {
    if LowLength(s) == 126 then 2 else if LowLength(s) == 127 then 8 else 0
  }

  function KeyLength(s: seq<Byte>): nat
    requires |s| >= 2
  {
    if s[1] >= 128 then 4 else 0
  }

  function PayloadLength(s: seq<Byte>): nat
    requires |s| >= 2 && |s| >= 2 + Extra(s)
  {
    if LowLength(s) < 126 then LowLength(s) else BigEndian(s[2..2 + Extra(s)])
  }

  function PayloadAt(s: seq<Byte>): nat
    requires |s| >= 2
  {
    2 + Extra(s) + KeyLength(s)
  }

  /** The stream holds its first frame to the end. */
  predicate Complete(s: seq<Byte>) {
    |s| >= 2 && |s| >= 2 + Extra(s) && |s| >= PayloadAt(s) + PayloadLength(s)
  }

  /** Each bit of the first byte is flipped where the key has one. */
  ghost predicate Unmasked(wire: Byte, key: Byte, plain: Byte) {
    forall k: nat :: k < 8 ==> BitOf(plain, k) == (if BitOf(wire, k) != BitOf(key, k) then 1 else 0)
  }

  // ---------------------------------------------------------------- reading

  lemma {:induction false} LengthMeaning(s: seq<Byte>)
    requires |s| >= 2
    ensures LengthField(s) == if |s| < 2 + Extra(s) then None else Some((PayloadLength(s), Extra(s)))
  {
    if |s| >= 2 + Extra(s) { BigWeights(s[2..2 + Extra(s)]); }
  }

  /** A frame is read exactly when the stream holds it to the end; opcode, key, payload and rest are these bytes. */
  lemma {:induction false} DecodeMeaning(s: seq<Byte>)
    ensures Decode(s).Some? <==> Complete(s)
    ensures Complete(s) ==>
              var (f, rest) := Decode(s).value; var at, n := PayloadAt(s), PayloadLength(s);
              f.opcode == s[0] % 16 && |f.payload| == n && rest == s[at + n..] &&
              f.mask == if s[1] >= 128 then Some(s[at - 4..at]) else None
    ensures Complete(s) ==> IsPayload(s, Decode(s).value.0.payload)
  {
    if |s| >= 2 {
      LengthMeaning(s);
      if |s| >= 2 + Extra(s) {
        var b, n := s[2 + Extra(s)..], PayloadLength(s);
        BodyMeaning(b, s[1] >= 128, n);
        if Complete(s) {
          assert b[KeyLength(s) + n..] == s[PayloadAt(s) + n..];
          if s[1] >= 128 { assert b[..4] == s[PayloadAt(s) - 4..PayloadAt(s)]; }
          PayloadMeaning(s);
        }
      }
    }
  }

  lemma {:induction false} BodyMeaning(b: seq<Byte>, masked: bool, n: nat)
    ensures var at := if masked then 4 else 0;
            if |b| < at + n then SplitBody(b, masked, n) == None
            else SplitBody(b, masked, n) == Some((if masked then Some(b[..4]) else None, b[at..at + n], b[at + n..]))
  {
    var at := if masked then 4 else 0;
    if |b| >= at + n { assert b[at..][..n] == b[at..at + n] && b[at..][n..] == b[at + n..]; }
  }

  ghost predicate IsPayload(s: seq<Byte>, payload: seq<Byte>)
    requires Complete(s)
  {
    |payload| == PayloadLength(s) &&
    forall i :: 0 <= i < |payload| ==>
      if s[1] < 128 then payload[i] == s[PayloadAt(s) + i]
      else Unmasked(s[PayloadAt(s) + i], s[PayloadAt(s) - 4 + i % 4], payload[i])
  }

  lemma {:induction false} PayloadMeaning(s: seq<Byte>)
    requires Complete(s) && Decode(s).Some?
    ensures IsPayload(s, Decode(s).value.0.payload)
  {
    LengthMeaning(s);
    var b, n := s[2 + Extra(s)..], PayloadLength(s);
    BodyMeaning(b, s[1] >= 128, n);
    if s[1] >= 128 {
      forall i | 0 <= i < n
        ensures Unmasked(s[PayloadAt(s) + i], s[PayloadAt(s) - 4 + i % 4], Masked(b[4..4 + n], b[..4])[i])
      {
        MaskedMeaning(b[4..4 + n][i], b[..4][i % 4]);
      }
    }
  }

  lemma {:induction false} MaskedMeaning(wire: Byte, key: Byte)
    ensures Unmasked(wire, key, Xor(wire, key))
  {
    forall k: nat | k < 8 ensures BitOf(Xor(wire, key), k) == (if BitOf(wire, k) != BitOf(key, k) then 1 else 0) {
      XorMeaning(wire, key, k);
    }
  }

  // ---------------------------------------------------------------- writing

  /** A frame on the wire is final, in the shortest length form, and made of its own opcode, key and payload. */
  lemma {:induction false} EncodeMeaning(f: Frame)
    requires WellFormed(f)
    ensures var s, n := Encode(f), |f.payload|;
            Complete(s) && s[0] == 128 + f.opcode && (s[1] >= 128 <==> f.mask.Some?) &&
            LowLength(s) == (if n < 126 then n else if n < 65536 then 126 else 127) &&
            PayloadLength(s) == n && |s| == PayloadAt(s) + n &&
            (f.mask.Some? ==> s[PayloadAt(s) - 4..PayloadAt(s)] == f.mask.value)
    ensures Complete(Encode(f)) && IsPayload(Encode(f), f.payload)
  {
    var s := Encode(f);
    FrameRoundTrip(f, []);
    assert s + [] == s;
    DecodeMeaning(s);
    HeaderMeaning(f);
    assert s[PayloadAt(s) + PayloadLength(s)..] == [];
  }

  lemma {:induction false} HeaderMeaning(f: Frame)
    requires WellFormed(f)
    ensures var s, n := Encode(f), |f.payload|;
            |s| >= 2 && s[0] == 128 + f.opcode && (s[1] >= 128 <==> f.mask.Some?) &&
            LowLength(s) == (if n < 126 then n else if n < 65536 then 126 else 127)
  {
    var s, h := Encode(f), Header(f);
    assert s[0] == h[0] && s[1] == h[1];
  }

  // ---------------------------------------------------------------- what is skipped

  ghost predicate IsSkipped(f: Frame) { f.opcode != 0 && f.opcode != 1 && f.opcode != 8 }

  /** The payloads of the pings among some frames. */
  function PingsAmong(frames: seq<Frame>): seq<seq<Byte>> {
    if frames == [] then []
    else (if frames[0].opcode == 9 then [frames[0].payload] else []) + PingsAmong(frames[1..])
  }

  /** Frames that are no messages and no close are skipped, and the pings among them noted in order. */
  lemma {:induction false} FramesAreSkipped(frames: seq<Frame>, rest: seq<Byte>)
    requires AllWellFormed(frames) && forall i :: 0 <= i < |frames| ==> IsSkipped(frames[i])
    ensures Receive(EncodeAll(frames) + rest) == Receive(rest)
    ensures Pings(EncodeAll(frames) + rest) == PingsAmong(frames) + Pings(rest)
  {
    if frames == [] {
      assert EncodeAll(frames) + rest == rest;
    } else {
      var tail := EncodeAll(frames[1..]) + rest;
      FramesAreSkipped(frames[1..], rest);
      Regroup(Encode(frames[0]), EncodeAll(frames[1..]), rest);
      FrameRoundTrip(frames[0], tail);
      assert IsSkipped(frames[0]);
      Regroup(if frames[0].opcode == 9 then [frames[0].payload] else [], PingsAmong(frames[1..]), Pings(rest));
    }
  }

  /** A message is delivered; a close, or a stream that stops before the end of a frame, ends the reading; all other
      frames are passed by, and the pings among them noted. */
  lemma {:induction false} ReadingMeaning(s: seq<Byte>)
    ensures !Complete(s) || s[0] % 16 == 8 ==> Receive(s) == None && Pings(s) == []
    ensures Complete(s) && s[0] % 16 <= 1 ==>
              Decode(s).Some? && Receive(s) == Some((Decode(s).value.0.payload, Decode(s).value.1)) && Pings(s) == []
    ensures Complete(s) && s[0] % 16 > 1 && s[0] % 16 != 8 ==>
              Decode(s).Some? &&
              var (f, rest) := Decode(s).value;
              Receive(s) == Receive(rest) && Pings(s) == (if s[0] % 16 == 9 then [f.payload] else []) + Pings(rest)
  {
    DecodeMeaning(s);
  }
}
