/** The ClientHello record byte by byte (sections 6.2.1 and 7.4.1.2 of RFC 5246): where a parser finds each field, and
    what the patch makes of them. */
module HelloLayout {
  import opened Prelude
  import opened Bytes
  import opened TlsHello

  function Two(s: seq<Byte>, at: nat): nat
    requires at + 2 <= |s|
  {
    var high: int, low: int := s[at], s[at + 1];
    256 * high + low
  }

  function Three(s: seq<Byte>, at: nat): nat
    requires at + 3 <= |s|
  {
    var high: int, mid: int, low: int := s[at], s[at + 1], s[at + 2];
    65536 * high + 256 * mid + low
  }

  lemma {:induction false} TwoMeaning(s: seq<Byte>, at: nat)
    requires at + 2 <= |s|
    ensures FromBig(s[at..at + 2]) == Two(s, at)
  {
    BigWeights(s[at..at + 2]);
  }

  lemma {:induction false} ThreeMeaning(s: seq<Byte>, at: nat)
    requires at + 3 <= |s|
    ensures FromBig(s[at..at + 3]) == Three(s, at)
  {
    BigWeights(s[at..at + 3]);
  }

  /** A handshake record whose first message is a ClientHello filling it, with `i` bytes of session id, `n` bytes of
      cipher suites and `k` compression methods; `end` is where the record ends. */
  ghost predicate HoldsHello(s: seq<Byte>, i: nat, n: nat, k: nat, end: nat) {
    |s| >= 44 && s[0] == 22 && s[5] == 1 && end <= |s| && Two(s, 3) + 5 == end && Three(s, 6) + 9 == end &&
    s[43] == i && 46 + i <= |s| && Two(s, 44 + i) == n && 47 + i + n <= |s| && s[46 + i + n] == k &&
    47 + i + n + k <= end
  }

  lemma {:induction false} LayoutMeaning(s: seq<Byte>, c: nat, m: nat, k: nat, end: nat)
    ensures LaidOut(s, c, m, k, end) <==>
            44 <= c && c + 2 <= m && HoldsHello(s, c - 44, m - c - 2, k, end)
  {
    if |s| >= 44 {
      TwoMeaning(s, 3);
      ThreeMeaning(s, 6);
      if CipherAt(s) + 2 <= |s| { TwoMeaning(s, CipherAt(s)); }
    }
  }

  /** A buffer is parsed exactly when it holds a hello, and then into these bytes. */
  lemma {:induction false} ParseMeaning(s: seq<Byte>, i: nat, n: nat, k: nat, end: nat)
    requires HoldsHello(s, i, n, k, end)
    ensures Parse(s).Some?
    ensures var (h, rest) := Parse(s).value;
            h.recordVersion == s[1..3] && h.helloVersion == s[9..11] && h.random == s[11..43] &&
            h.session == s[44..44 + i] && h.ciphers == s[46 + i..46 + i + n] &&
            h.methods == s[47 + i + n..47 + i + n + k] && h.extensions == s[47 + i + n + k..end] && rest == s[end..]
  {
    LayoutMeaning(s, 44 + i, 46 + i + n, k, end);
    ParseLaidOut(s, 44 + i, 46 + i + n, k, end);
  }

  lemma {:induction false} ParsableIff(s: seq<Byte>)
    ensures Parse(s).Some? <==> exists i: nat, n: nat, k: nat, end: nat :: HoldsHello(s, i, n, k, end)
  {
    if Parse(s).Some? {
      var c, m, k, end := ParsedLayout(s);
      LayoutMeaning(s, c, m, k, end);
      assert HoldsHello(s, c - 44, m - c - 2, k, end);
    }
    if i: nat, n: nat, k: nat, end: nat :| HoldsHello(s, i, n, k, end) { ParseMeaning(s, i, n, k, end); }
  }

  /** The patch offers method 236 first, unless it is offered already, and keeps everything else; it has room exactly
      when both the number of methods and the record's length can still be counted. */
  lemma {:induction false} PatchMeaning(s: seq<Byte>, i: nat, n: nat, k: nat, end: nat)
    requires HoldsHello(s, i, n, k, end)
    ensures Parse(s).Some?
    ensures var h := Parse(s).value.0; var p := Patched(h);
            p.recordVersion == h.recordVersion && p.helloVersion == h.helloVersion && p.random == h.random &&
            p.session == h.session && p.ciphers == h.ciphers && p.extensions == h.extensions &&
            p.methods == (if 236 in h.methods then h.methods else [236] + h.methods) &&
            (HasRoom(h) <==> 236 in h.methods || (k < 255 && end <= 65539))
  {
    LayoutMeaning(s, 44 + i, 46 + i + n, k, end);
    ParseLaidOut(s, 44 + i, 46 + i + n, k, end);
    RoomMeaning(s, 44 + i, 46 + i + n, k, end);
  }

  /** The patched bytes: one more in front of the methods, and one counted in each of the three lengths. */
  lemma {:induction false} PatchedBytes(s: seq<Byte>, i: nat, n: nat, k: nat, end: nat)
    requires HoldsHello(s, i, n, k, end)
    requires 236 !in s[47 + i + n..47 + i + n + k] && k < 255 && end <= 65539
    ensures Parse(s).Some?
    ensures IsPatched(s, Encode(Patched(Parse(s).value.0)) + Parse(s).value.1, 46 + i + n)
  {
    var m := 46 + i + n;
    var y := PatchOf(s, m, k, end);
    PatchEncodes(s, y, i, n, k, end);
    PatchedLengths(s, y, m, k, end);
    UnpatchedBytes(s, y, m, k, end);
  }

  ghost predicate IsPatched(s: seq<Byte>, y: seq<Byte>, m: nat)
    requires 46 <= m < |s|
  {
    |y| == |s| + 1 && Two(y, 3) == Two(s, 3) + 1 && Three(y, 6) == Three(s, 6) + 1 && y[m] as int == s[m] as int + 1 &&
    y[m + 1] == 236 && y[m + 2..] == s[m + 1..] &&
    forall j :: 0 <= j < m && j != 3 && j != 4 && !(6 <= j < 9) ==> y[j] == s[j]
  }

  lemma {:induction false} PatchEncodes(s: seq<Byte>, y: seq<Byte>, i: nat, n: nat, k: nat, end: nat)
    requires HoldsHello(s, i, n, k, end) && 236 !in s[47 + i + n..47 + i + n + k]
    requires IsPatchOf(s, y, 46 + i + n, k, end - 5, end - 9) && k < 255 && end <= 65539
    ensures Parse(s).Some? && y == Encode(Patched(Parse(s).value.0)) + Parse(s).value.1
  {
    var m := 46 + i + n;
    LayoutMeaning(s, 44 + i, m, k, end);
    ParseLaidOut(s, 44 + i, m, k, end);
    LaidOutPatch(s, y, 44 + i, m, k, end);
  }

  lemma {:induction false} LaidOutPatch(s: seq<Byte>, y: seq<Byte>, c: nat, m: nat, k: nat, end: nat)
    requires LaidOut(s, c, m, k, end) && EVPN_Z_METHOD !in s[m + 1..m + 1 + k]
    requires IsPatchOf(s, y, m, k, end - 5, end - 9) && k < 255 && end <= 65539
    ensures y == Encode(Patched(Fields(s, c, m, k, end))) + s[end..]
  {
    PatchParses(s, y, c, m, k, end);
    ParseIsExact(y);
  }

  /** The patched buffer. */
  lemma {:induction false} PatchOf(s: seq<Byte>, m: nat, k: nat, end: nat) returns (y: seq<Byte>)
    requires 46 <= m < |s| && k + 1 < 256 && 9 <= end
    ensures IsPatchOf(s, y, m, k, end - 5, end - 9)
  {
    y := s[..3] + ToBig(end - 4, 2) + [s[5]] + ToBig(end - 8, 3) + s[9..m] + [k + 1, 236] + s[m + 1..];
  }

  lemma {:induction false} PatchedLengths(s: seq<Byte>, y: seq<Byte>, m: nat, k: nat, end: nat)
    requires 9 <= end <= 65539 && IsPatchOf(s, y, m, k, end - 5, end - 9)
    ensures Two(y, 3) == end - 4 && Three(y, 6) == end - 8
  {
    Widths();
    BigRoundTrip(end - 4, 2);
    BigRoundTrip(end - 8, 3);
    TwoMeaning(y, 3);
    ThreeMeaning(y, 6);
  }

  lemma {:induction false} UnpatchedBytes(s: seq<Byte>, y: seq<Byte>, m: nat, k: nat, end: nat)
    requires 9 <= end && IsPatchOf(s, y, m, k, end - 5, end - 9)
    ensures forall j :: 0 <= j < m && j != 3 && j != 4 && !(6 <= j < 9) ==> y[j] == s[j]
  {
    forall j | 0 <= j < m && j != 3 && j != 4 && !(6 <= j < 9) ensures y[j] == s[j] {
      if j < 3 { assert y[..3][j] == s[..3][j]; }
      if j >= 9 { assert y[9..m][j - 9] == s[9..m][j - 9]; }
    }
  }
}
