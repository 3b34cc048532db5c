/** The EVPN probe's ClientHello patch: offering one more compression method inside an existing TLS
    record, with the three enclosing length fields kept in step. */
module TlsHello {
  import opened Prelude
  import opened Bytes

  const EVPN_Z_METHOD: Byte := 0xEC

  /** A ClientHello in its record (sections 6.2.1 and 7.4.1.2 of RFC 5246), field by field;
      `extensions` is whatever follows the compression methods. */
  datatype ClientHello = ClientHello(
    recordVersion: seq<Byte>, helloVersion: seq<Byte>, random: seq<Byte>, session: seq<Byte>,
    ciphers: seq<Byte>, methods: seq<Byte>, extensions: seq<Byte>)

  function BodyLength(h: ClientHello): nat {
    38 + |h.session| + |h.ciphers| + |h.methods| + |h.extensions|
  }

  predicate WellFormed(h: ClientHello) {
    |h.recordVersion| == 2 && |h.helloVersion| == 2 && |h.random| == 32 && |h.session| < 0x100 &&
    |h.ciphers| < 0x1_0000 && |h.methods| < 0x100 && BodyLength(h) + 4 < 0x1_0000
  }

  /** Everything before the compression methods' length. */
  function Front(h: ClientHello): seq<Byte> {
    [0x16] + h.recordVersion + ToBig(BodyLength(h) + 4, 2) + [0x01] + ToBig(BodyLength(h), 3) +
    h.helloVersion + h.random + ToBig(|h.session|, 1) + h.session + ToBig(|h.ciphers|, 2) + h.ciphers
  }

  function Encode(h: ClientHello): seq<Byte> {
    Front(h) + ToBig(|h.methods|, 1) + h.methods + h.extensions
  }

  function CipherAt(s: seq<Byte>): nat
    requires |s| >= 44
  {
    var sessionLength: int := s[43];
    44 + sessionLength
  }

  function MethodsAt(s: seq<Byte>): nat
    requires |s| >= 44 && CipherAt(s) + 2 <= |s|
  {
    CipherAt(s) + 2 + FromBig(s[CipherAt(s)..CipherAt(s) + 2])
  }

  /** The hello whose cipher suites' length is at `c`, whose methods' length is at `m`, with `k`
      methods, in a record that ends at `end`. */
  function Fields(s: seq<Byte>, c: nat, m: nat, k: nat, end: nat): ClientHello
    requires 44 <= c && c + 2 <= m && m + 1 + k <= end <= |s|
  {
    ClientHello(s[1..3], s[9..11], s[11..43], s[44..c], s[c + 2..m], s[m + 1..m + 1 + k], s[m + 1 + k..end])
  }

  predicate LaidOut(s: seq<Byte>, c: nat, m: nat, k: nat, end: nat) {
    |s| >= 44 && s[0] == 0x16 && s[5] == 0x01 && end <= |s| &&
    end == FromBig(s[3..5]) + 5 == FromBig(s[6..9]) + 9 &&
    c == CipherAt(s) && c + 2 <= |s| && m == MethodsAt(s) && m < |s| && k == s[m] && m + 1 + k <= end
  }

  /** The first record of a stream as a ClientHello, and the bytes after it. */
  function Parse(s: seq<Byte>): Option<(ClientHello, seq<Byte>)> {
    if |s| < 44 || CipherAt(s) + 2 > |s| || MethodsAt(s) >= |s| then None
    else
      var c, m, end := CipherAt(s), MethodsAt(s), FromBig(s[3..5]) + 5;
      var k: int := s[m];
      if LaidOut(s, c, m, k, end) then Some((Fields(s, c, m, k, end), s[end..])) else None
  }

  lemma {:induction false} ParseLaidOut(s: seq<Byte>, c: nat, m: nat, k: nat, end: nat)
    requires LaidOut(s, c, m, k, end)
    ensures Parse(s) == Some((Fields(s, c, m, k, end), s[end..]))
  {
  }

  lemma {:induction false} ParsedLayout(s: seq<Byte>) returns (c: nat, m: nat, k: nat, end: nat)
    requires Parse(s).Some?
    ensures LaidOut(s, c, m, k, end)
  {
    c, m, end := CipherAt(s), MethodsAt(s), FromBig(s[3..5]) + 5;
    k := s[m];
  }

  function Patched(h: ClientHello): ClientHello {
    if EVPN_Z_METHOD in h.methods then h else h.(methods := [EVPN_Z_METHOD] + h.methods)
  }

  /** Whether the patched hello still fits its length fields. */
  predicate HasRoom(h: ClientHello) { WellFormed(Patched(h)) }

  // ---------------------------------------------------------------- the patch

  /** Python slicing clamps its bounds. */
  function ClampedSlice(s: seq<Byte>, from: nat, to: nat): seq<Byte> {
    var hi := if to <= |s| then to else |s|;
    if from <= hi then s[from..hi] else []
  }

  /** `inject_evpn_z`. Every exception of the script is `Err`. The result is told apart by what a
      parser sees: the same hello and trailing bytes, with the method offered exactly as required. */
  method InjectEvpnZ(record: seq<Byte>) returns (r: Result<seq<Byte>>)
    ensures r.Ok? <==> Parse(record).Some? && HasRoom(Parse(record).value.0)
    ensures r.Ok? ==> Parse(r.value) == Some((Patched(Parse(record).value.0), Parse(record).value.1))
    ensures r.Ok? && EVPN_Z_METHOD in Parse(record).value.0.methods ==> r.value == record
  {
    var layout := Locate(record);
    if layout.None? { return Err; }
    var (c, m, k, end) := layout.value;
    ParseLaidOut(record, c, m, k, end);
    r := Patch(record, c, m, k, end);
  }

  /** The patch of a located hello. */
  method Patch(record: seq<Byte>, c: nat, m: nat, k: nat, end: nat) returns (r: Result<seq<Byte>>)
    requires LaidOut(record, c, m, k, end)
    ensures var h := Fields(record, c, m, k, end);
            (r.Ok? <==> HasRoom(h)) && (r.Ok? ==> Parse(r.value) == Some((Patched(h), record[end..]))) &&
            (r.Ok? && EVPN_Z_METHOD in h.methods ==> r.value == record)
  {
    ParseLaidOut(record, c, m, k, end);
    RoomMeaning(record, c, m, k, end);
    if EVPN_Z_METHOD in record[m + 1..m + 1 + k] { return Ok(record); }
    if k + 1 >= 0x100 || end - 4 >= 0x1_0000 { return Err; }
    var data := Rewrite(record, m, k, end - 5, end - 9);
    PatchParses(record, data, c, m, k, end);
    r := Ok(data);
  }

  /** The checks and offset computations: where the cipher suites' length and the methods' length
      are, how many methods there are, and where the record ends. */
  method Locate(record: seq<Byte>) returns (layout: Option<(nat, nat, nat, nat)>)
    ensures layout.None? ==> Parse(record).None?
    ensures layout.Some? ==> LaidOut(record, layout.value.0, layout.value.1, layout.value.2, layout.value.3)
  {
    if |record| < 44 || record[0] != 0x16 || record[5] != 0x01 { return None; }
    var recordLen := FromBig(record[3..5]);
    if recordLen + 5 > |record| { return None; }
    var handshakeLen := FromBig(record[6..9]);
    if handshakeLen + 4 != recordLen { return None; }
    var sessionLen: int := record[43];
    var cipherLenOffset := 44 + sessionLen;
    var cipherLen := FromBig(ClampedSlice(record, cipherLenOffset, cipherLenOffset + 2));
    var compressionLenOffset := cipherLenOffset + 2 + cipherLen;
    if compressionLenOffset >= |record| { return None; }
    var compressionLen: int := record[compressionLenOffset];
    var end := compressionLenOffset + 1 + compressionLen;
    if end > recordLen + 5 { return None; }
    layout := Some((cipherLenOffset, compressionLenOffset, compressionLen, recordLen + 5));
  }

  lemma {:induction false} RoomMeaning(s: seq<Byte>, c: nat, m: nat, k: nat, end: nat)
    requires LaidOut(s, c, m, k, end)
    ensures var h := Fields(s, c, m, k, end);
            HasRoom(h) <==> EVPN_Z_METHOD in h.methods || (k + 1 < 0x100 && end - 4 < 0x1_0000)
  {
    LayoutIsWellFormed(s, c, m, k, end);
  }

  /** The insertion and the three overwritten length fields. */
  method Rewrite(record: seq<Byte>, m: nat, k: nat, recordLen: nat, handshakeLen: nat) returns (data: seq<Byte>)
    requires 46 <= m < |record| && k + 1 < 0x100
    ensures IsPatchOf(record, data, m, k, recordLen, handshakeLen)
  {
    data := record[..m + 1] + [EVPN_Z_METHOD] + record[m + 1..];
    data := data[m := k + 1];
    ghost var inserted := data;
    assert inserted[9..m] == record[9..m] && inserted[m + 2..] == record[m + 1..];
    data := data[..3] + ToBig(recordLen + 1, 2) + data[5..];
    ghost var widened := data;
    Overwritten(inserted, 3, ToBig(recordLen + 1, 2));
    data := data[..6] + ToBig(handshakeLen + 1, 3) + data[9..];
    Overwritten(widened, 6, ToBig(handshakeLen + 1, 3));
    assert data[..3] == data[..6][..3] == widened[..6][..3] == inserted[..3] == record[..3];
    assert data[3..5] == data[..6][3..5] == widened[3..5];
    assert data[9..][..m - 9] == widened[9..][..m - 9] == widened[5..][4..m - 5] == inserted[9..m];
    assert data[m..] == data[9..][m - 9..] == widened[5..][m - 5..] == inserted[m..];
  }

  lemma {:induction false} Overwritten(s: seq<Byte>, at: nat, w: seq<Byte>)
    requires at + |w| <= |s|
    ensures var y := s[..at] + w + s[at + |w|..];
            |y| == |s| && y[..at] == s[..at] && y[at..at + |w|] == w && y[at + |w|..] == s[at + |w|..]
  {
  }

  /** What the patched buffer looks like next to the original. */
  ghost predicate IsPatchOf(s: seq<Byte>, y: seq<Byte>, m: nat, k: nat, recordLen: nat, handshakeLen: nat) {
    46 <= m < |s| && |y| == |s| + 1 && y[..3] == s[..3] && y[5] == s[5] && y[9..m] == s[9..m] &&
    y[3..5] == ToBig(recordLen + 1, 2) && y[6..9] == ToBig(handshakeLen + 1, 3) &&
    y[m] == k + 1 && y[m + 1] == EVPN_Z_METHOD && y[m + 2..] == s[m + 1..]
  }

  lemma {:induction false} LayoutIsWellFormed(s: seq<Byte>, c: nat, m: nat, k: nat, end: nat)
    requires LaidOut(s, c, m, k, end)
    ensures WellFormed(Fields(s, c, m, k, end)) && BodyLength(Fields(s, c, m, k, end)) + 9 == end
  {
    Widths();
    BigIsUnique(s[3..5]);
    BigIsUnique(s[c..c + 2]);
  }

  lemma {:induction false} SameSlice(s: seq<Byte>, y: seq<Byte>, lo: nat, hi: nat, a: nat, b: nat)
    requires lo <= a <= b <= hi <= |s| && hi <= |y| && y[lo..hi] == s[lo..hi]
    ensures y[a..b] == s[a..b]
  {
    forall i | 0 <= i < b - a ensures y[a..b][i] == s[a..b][i] {
      assert y[lo..hi][a - lo + i] == s[lo..hi][a - lo + i];
    }
  }

  lemma {:induction false} ShiftedSlice(s: seq<Byte>, y: seq<Byte>, lo: nat, a: nat, b: nat)
    requires lo <= a <= b <= |s| && |y| == |s| + 1 && y[lo + 1..] == s[lo..]
    ensures y[a + 1..b + 1] == s[a..b]
  {
    forall i | 0 <= i < b - a ensures y[a + 1..b + 1][i] == s[a..b][i] {
      assert y[lo + 1..][a - lo + i] == s[lo..][a - lo + i];
    }
  }

  lemma {:induction false} PatchLaidOut(s: seq<Byte>, y: seq<Byte>, c: nat, m: nat, k: nat, end: nat)
    requires LaidOut(s, c, m, k, end) && IsPatchOf(s, y, m, k, end - 5, end - 9)
    requires k + 1 < 0x100 && end - 4 < 0x1_0000
    ensures LaidOut(y, c, m, k + 1, end + 1)
  {
    Widths();
    BigRoundTrip(end - 4, 2);
    BigRoundTrip(end - 8, 3);
    SameSlice(s, y, 9, m, 43, 44);
    assert y[43] == y[43..44][0] && s[43] == s[43..44][0];
    SameSlice(s, y, 9, m, c, c + 2);
    assert y[0] == y[..3][0] && s[0] == s[..3][0];
  }

  lemma {:induction false} PatchFields(s: seq<Byte>, y: seq<Byte>, c: nat, m: nat, k: nat, end: nat)
    requires 44 <= c && c + 2 <= m && m + 1 + k <= end <= |s| && IsPatchOf(s, y, m, k, end - 5, end - 9)
    ensures var h := Fields(s, c, m, k, end);
            Fields(y, c, m, k + 1, end + 1) == h.(methods := [EVPN_Z_METHOD] + h.methods) && y[end + 1..] == s[end..]
  {
    SameSlice(s, y, 0, 3, 1, 3);
    SameSlice(s, y, 9, m, 9, 11);
    SameSlice(s, y, 9, m, 11, 43);
    SameSlice(s, y, 9, m, 44, c);
    SameSlice(s, y, 9, m, c + 2, m);
    ShiftedSlice(s, y, m + 1, m + 1, m + 1 + k);
    ShiftedSlice(s, y, m + 1, m + 1 + k, end);
    ShiftedSlice(s, y, m + 1, end, |s|);
    assert y[m + 1..m + 2 + k] == [y[m + 1]] + y[m + 2..m + 2 + k];
  }

  lemma {:induction false} PatchParses(s: seq<Byte>, y: seq<Byte>, c: nat, m: nat, k: nat, end: nat)
    requires LaidOut(s, c, m, k, end) && IsPatchOf(s, y, m, k, end - 5, end - 9) && k + 1 < 0x100 && end - 4 < 0x1_0000
    ensures var h := Fields(s, c, m, k, end);
            Parse(y) == Some((h.(methods := [EVPN_Z_METHOD] + h.methods), s[end..]))
  {
    PatchLaidOut(s, y, c, m, k, end);
    PatchFields(s, y, c, m, k, end);
    ParseLaidOut(y, c, m, k + 1, end + 1);
  }

  // ---------------------------------------------------------------- parsing and encoding agree

  lemma {:induction false} Extend(s: seq<Byte>, k: nat, m: nat)
    requires k <= m <= |s|
    ensures s[..k] + s[k..m] == s[..m]
  {
  }

  lemma {:induction false} ByteField(b: Byte)
    ensures ToBig(b, 1) == [b]
  {
    assert ToBig(b / 256, 0) == [];
  }

  /** A buffer that parses is exactly the encoding of what was parsed. */
  lemma {:induction false} ParseIsExact(s: seq<Byte>)
    requires Parse(s).Some?
    ensures s == Encode(Parse(s).value.0) + Parse(s).value.1
  {
    var c, m, k, end := ParsedLayout(s);
    ParseLaidOut(s, c, m, k, end);
    EncodeIsExact(s, c, m, k, end);
    Extend(s, end, |s|);
  }

  lemma {:induction false} EncodeIsExact(s: seq<Byte>, c: nat, m: nat, k: nat, end: nat)
    requires LaidOut(s, c, m, k, end)
    ensures Encode(Fields(s, c, m, k, end)) == s[..end]
  {
    FrontIsExact(s, c, m, k, end);
    ByteField(s[m]);
    assert [s[m]] == s[m..m + 1];
    BackSlices(s, m, k, end);
  }

  lemma {:induction false} BackSlices(s: seq<Byte>, m: nat, k: nat, end: nat)
    requires m + 1 + k <= end <= |s|
    ensures s[..m] + s[m..m + 1] + s[m + 1..m + 1 + k] + s[m + 1 + k..end] == s[..end]
  {
    Extend(s, m, m + 1);
    Extend(s, m + 1, m + 1 + k);
    Extend(s, m + 1 + k, end);
  }

  lemma {:induction false} FrontSlices(s: seq<Byte>, c: nat, m: nat)
    requires 44 <= c && c + 2 <= m <= |s|
    ensures s[..1] + s[1..3] + s[3..5] + s[5..6] + s[6..9] + s[9..11] + s[11..43] + s[43..44] + s[44..c] +
            s[c..c + 2] + s[c + 2..m] ==
            s[..m]
  {
    Extend(s, 1, 3);
    Extend(s, 3, 5);
    Extend(s, 5, 6);
    Extend(s, 6, 9);
    Extend(s, 9, 11);
    Extend(s, 11, 43);
    Extend(s, 43, 44);
    Extend(s, 44, c);
    Extend(s, c, c + 2);
    Extend(s, c + 2, m);
  }

  lemma {:induction false} FrontIsExact(s: seq<Byte>, c: nat, m: nat, k: nat, end: nat)
    requires LaidOut(s, c, m, k, end)
    ensures Front(Fields(s, c, m, k, end)) == s[..m]
  {
    ParsedLengths(s, c, m, k, end);
    FrontSlices(s, c, m);
  }

  /** The length fields hold the lengths of what was parsed. */
  lemma {:induction false} ParsedLengths(s: seq<Byte>, c: nat, m: nat, k: nat, end: nat)
    requires LaidOut(s, c, m, k, end)
    ensures var h := Fields(s, c, m, k, end);
            s[..1] == [0x16] && s[3..5] == ToBig(BodyLength(h) + 4, 2) && s[5..6] == [0x01] &&
            s[6..9] == ToBig(BodyLength(h), 3) &&
            s[43..44] == ToBig(|h.session|, 1) && s[c..c + 2] == ToBig(|h.ciphers|, 2)
  {
    LayoutIsWellFormed(s, c, m, k, end);
    BigIsUnique(s[3..5]);
    BigIsUnique(s[6..9]);
    BigIsUnique(s[c..c + 2]);
    ByteField(s[43]);
  }

  lemma {:induction false} Peel(s: seq<Byte>, q: seq<Byte>, w: seq<Byte>)
    requires |q| + |w| <= |s| && s[..|q| + |w|] == q + w
    ensures s[..|q|] == q && s[|q|..|q| + |w|] == w
  {
    assert s[..|q|] == s[..|q| + |w|][..|q|] == q;
    assert s[|q|..|q| + |w|] == s[..|q| + |w|][|q|..] == w;
  }

  lemma {:induction false} FrontParts(h: ClientHello, s: seq<Byte>)
    requires WellFormed(h) && |Front(h)| <= |s| && s[..|Front(h)|] == Front(h)
    ensures var c := 44 + |h.session|;
            |Front(h)| == c + 2 + |h.ciphers| && s[0] == 0x16 && s[1..3] == h.recordVersion &&
            s[3..5] == ToBig(BodyLength(h) + 4, 2) && s[5] == 0x01 && s[6..9] == ToBig(BodyLength(h), 3) &&
            s[9..11] == h.helloVersion && s[11..43] == h.random && s[43..44] == ToBig(|h.session|, 1) &&
            s[44..c] == h.session && s[c..c + 2] == ToBig(|h.ciphers|, 2) && s[c + 2..|Front(h)|] == h.ciphers
  {
    var q1 := [0x16] + h.recordVersion;
    var q2 := q1 + ToBig(BodyLength(h) + 4, 2);
    var q3 := q2 + [0x01];
    var q4 := q3 + ToBig(BodyLength(h), 3);
    var q5 := q4 + h.helloVersion;
    var q6 := q5 + h.random;
    var q7 := q6 + ToBig(|h.session|, 1);
    var q8 := q7 + h.session;
    var q9 := q8 + ToBig(|h.ciphers|, 2);
    Peel(s, q9, h.ciphers);
    Peel(s, q8, ToBig(|h.ciphers|, 2));
    Peel(s, q7, h.session);
    Peel(s, q6, ToBig(|h.session|, 1));
    Peel(s, q5, h.random);
    Peel(s, q4, h.helloVersion);
    Peel(s, q3, ToBig(BodyLength(h), 3));
    Peel(s, q2, [0x01]);
    Peel(s, q1, ToBig(BodyLength(h) + 4, 2));
    Peel(s, [0x16], h.recordVersion);
    assert s[5..6][0] == 0x01 && s[..1][0] == 0x16;
  }

  lemma {:induction false} RearParts(h: ClientHello, trailing: seq<Byte>, s: seq<Byte>)
    requires WellFormed(h) && s == Encode(h) + trailing
    ensures var m, k := |Front(h)|, |h.methods|;
            var end := m + 1 + k + |h.extensions|;
            end <= |s| && s[..m] == Front(h) && s[m] == k && s[m + 1..m + 1 + k] == h.methods &&
            s[m + 1 + k..end] == h.extensions && s[end..] == trailing
  {
    var q, k := Front(h), |h.methods|;
    ByteField(k);
    assert s[..|Encode(h)|] == Encode(h) && s[|Encode(h)|..] == trailing;
    Peel(s, q + ToBig(k, 1) + h.methods, h.extensions);
    Peel(s, q + ToBig(k, 1), h.methods);
    Peel(s, q, ToBig(k, 1));
    assert s[|q|..|q| + 1][0] == k;
  }

  lemma {:induction false} EncodedLaidOut(h: ClientHello, s: seq<Byte>, m: nat, end: nat)
    requires WellFormed(h) && m == |Front(h)| && end == m + 1 + |h.methods| + |h.extensions| <= |s|
    requires s[..m] == Front(h) && s[m] == |h.methods|
    ensures end == BodyLength(h) + 9 && LaidOut(s, 44 + |h.session|, m, |h.methods|, end)
  {
    FrontParts(h, s);
    LengthFields(h);
    assert s[43] == s[43..44][0] == |h.session|;
    assert CipherAt(s) == 44 + |h.session|;
  }

  lemma {:induction false} LengthFields(h: ClientHello)
    requires WellFormed(h)
    ensures FromBig(ToBig(BodyLength(h) + 4, 2)) == BodyLength(h) + 4 &&
            FromBig(ToBig(BodyLength(h), 3)) == BodyLength(h)
    ensures FromBig(ToBig(|h.ciphers|, 2)) == |h.ciphers| && ToBig(|h.session|, 1) == [|h.session|]
  {
    Widths();
    BigRoundTrip(BodyLength(h) + 4, 2);
    BigRoundTrip(BodyLength(h), 3);
    BigRoundTrip(|h.ciphers|, 2);
    ByteField(|h.session|);
  }

  /** Every well-formed hello in front of any bytes is parsed back. */
  lemma {:induction false} EncodeParses(h: ClientHello, trailing: seq<Byte>)
    requires WellFormed(h)
    ensures Parse(Encode(h) + trailing) == Some((h, trailing))
  {
    var s, m := Encode(h) + trailing, |Front(h)|;
    var end := m + 1 + |h.methods| + |h.extensions|;
    RearParts(h, trailing, s);
    EncodedLaidOut(h, s, m, end);
    FrontParts(h, s);
    ParseLaidOut(s, 44 + |h.session|, m, |h.methods|, end);
  }

  /** Patching is idempotent: a patched hello has room and is its own patch, so by the contract of
      `InjectEvpnZ` a second injection returns the buffer unchanged. */
  method InjectTwice(record: seq<Byte>) returns (once: Result<seq<Byte>>, twice: Result<seq<Byte>>)
    ensures once.Ok? ==> twice == once
    ensures once.Ok? ==>
              Parse(record).Some? && record == Encode(Parse(record).value.0) + Parse(record).value.1 &&
              once.value == Encode(Patched(Parse(record).value.0)) + Parse(record).value.1
  {
    once := InjectEvpnZ(record);
    if once.Err? { return once, Err; }
    ParseIsExact(record);
    ParseIsExact(once.value);
    twice := InjectEvpnZ(once.value);
  }
}
