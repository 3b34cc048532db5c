/** IPv4 blocks: reading and printing them, and the overlap test on their networks. */
module Cidr {
  import opened Prelude

  datatype Address = Address(a: bv8, b: bv8, c: bv8, d: bv8)
  type Prefix = p: bv6 | p <= 32
  datatype Ipv4Cidr = Ipv4Cidr(network: Address, prefix: Prefix)

  // ---------------------------------------------------------------- bits

  /** `u32::from(address)`. */
  function Bits(x: Address): bv32 {
    (x.a as bv32 << 24 as bv6) | (x.b as bv32 << 16 as bv6) | (x.c as bv32 << 8 as bv6) | x.d as bv32
  }

  function ByteAt(n: bv32, k: bv6): bv8
    requires k <= 24
  {
    ((n >> k) & 0xFF) as bv8
  }

  function FromBits(n: bv32): Address {
    Address(ByteAt(n, 24), ByteAt(n, 16), ByteAt(n, 8), ByteAt(n, 0))
  }

  lemma {:induction false} BitsRoundTrip(n: bv32)
    ensures Bits(FromBits(n)) == n
  {
  }

  function PrefixMask(p: Prefix): bv32 {
    if p == 0 then 0 else 0xFFFF_FFFF << (32 - p)
  }

  lemma {:induction false} MasksNest(p: Prefix, q: Prefix, x: bv32)
    requires p <= q
    ensures (x & PrefixMask(q)) & PrefixMask(p) == x & PrefixMask(p)
  {
  }

  /** What `parse` establishes: no bit of the network is set beyond the prefix. */
  predicate Canonical(c: Ipv4Cidr) {
    Bits(c.network) & PrefixMask(c.prefix) == Bits(c.network)
  }

  /** The block holds the addresses that agree with its network on the prefix (section 3.1 of RFC 4632). */
  predicate Contains(c: Ipv4Cidr, x: bv32) {
    x & PrefixMask(c.prefix) == Bits(c.network)
  }

  predicate Overlaps(a: Ipv4Cidr, b: Ipv4Cidr) {
    var p := if a.prefix <= b.prefix then a.prefix else b.prefix;
    Bits(a.network) & PrefixMask(p) == Bits(b.network) & PrefixMask(p)
  }

  ghost predicate Within(inner: Ipv4Cidr, outer: Ipv4Cidr) {
    forall x :: Contains(inner, x) ==> Contains(outer, x)
  }

  lemma {:induction false} NarrowerIsWithin(outer: Ipv4Cidr, inner: Ipv4Cidr)
    requires Canonical(outer) && Canonical(inner) && outer.prefix <= inner.prefix && Overlaps(outer, inner)
    ensures Within(inner, outer) && Contains(inner, Bits(inner.network)) && Contains(outer, Bits(inner.network))
  {
    forall x | Contains(inner, x) ensures Contains(outer, x) {
      MasksNest(outer.prefix, inner.prefix, x);
    }
  }

  lemma {:induction false} SharedMeansOverlap(a: Ipv4Cidr, b: Ipv4Cidr, x: bv32)
    requires Canonical(a) && Canonical(b) && Contains(a, x) && Contains(b, x)
    ensures Overlaps(a, b)
  {
    if a.prefix <= b.prefix { MasksNest(a.prefix, b.prefix, x); } else { MasksNest(b.prefix, a.prefix, x); }
  }

  /** An address that overlapping blocks share: the network of the narrower one. */
  function SharedAddress(a: Ipv4Cidr, b: Ipv4Cidr): bv32 {
    Bits(if a.prefix <= b.prefix then b.network else a.network)
  }

  lemma {:induction false} OverlapMeansShared(a: Ipv4Cidr, b: Ipv4Cidr)
    requires Canonical(a) && Canonical(b) && Overlaps(a, b)
    ensures Contains(a, SharedAddress(a, b)) && Contains(b, SharedAddress(a, b))
  {
    if a.prefix <= b.prefix {
      NarrowerIsWithin(a, b);
    } else {
      OverlapCommutes(a, b);
      NarrowerIsWithin(b, a);
    }
  }

  /** The overlap test is exact: some address lies in both blocks. */
  lemma {:induction false} OverlapIsExact(a: Ipv4Cidr, b: Ipv4Cidr)
    requires Canonical(a) && Canonical(b)
    ensures Overlaps(a, b) <==> exists x :: Contains(a, x) && Contains(b, x)
  {
    if Overlaps(a, b) { OverlapMeansShared(a, b); }
    if x :| Contains(a, x) && Contains(b, x) { SharedMeansOverlap(a, b, x); }
  }

  lemma {:induction false} WithinMeansOverlap(inner: Ipv4Cidr, outer: Ipv4Cidr)
    requires Canonical(inner) && Canonical(outer) && Within(inner, outer)
    ensures Overlaps(inner, outer)
  {
    assert Contains(inner, Bits(inner.network));
    SharedMeansOverlap(inner, outer, Bits(inner.network));
  }

  /** Blocks overlap exactly when one holds the other. */
  lemma {:induction false} OverlapIsNesting(a: Ipv4Cidr, b: Ipv4Cidr)
    requires Canonical(a) && Canonical(b)
    ensures Overlaps(a, b) <==> Within(a, b) || Within(b, a)
  {
    OverlapCommutes(a, b);
    if Overlaps(a, b) {
      if a.prefix <= b.prefix { NarrowerIsWithin(a, b); } else { NarrowerIsWithin(b, a); }
    } else if Within(a, b) {
      WithinMeansOverlap(a, b);
    } else if Within(b, a) {
      WithinMeansOverlap(b, a);
    }
  }

  lemma {:induction false} OverlapCommutes(a: Ipv4Cidr, b: Ipv4Cidr)
    ensures Overlaps(a, b) == Overlaps(b, a)
  {
  }

  // ---------------------------------------------------------------- numbers

  predicate IsDigit(c: char) { '0' <= c <= '9' }

  predicate AllDigits(s: string) { forall i :: 0 <= i < |s| ==> IsDigit(s[i]) }

  function Digit(n: nat): (c: char)
    requires n < 10
    ensures IsDigit(c)
  {
    '0' + n as char
  }

  function DigitValue(c: char): (n: nat)
    requires IsDigit(c)
    ensures n < 10
  {
    (c - '0') as nat
  }

  function Decimal(n: nat): string {
    if n < 10 then [Digit(n)] else Decimal(n / 10) + [Digit(n % 10)]
  }

  function NumberIn(s: string): nat
    requires AllDigits(s)
  {
    if s == [] then 0 else NumberIn(s[..|s| - 1]) * 10 + DigitValue(s[|s| - 1])
  }

  lemma {:induction false} DecimalReads(n: nat)
    ensures AllDigits(Decimal(n)) && NumberIn(Decimal(n)) == n && Decimal(n) != []
    ensures |Decimal(n)| > 1 ==> Decimal(n)[0] != '0'
    ensures n < 1000 ==> |Decimal(n)| <= 3
  {
    if n >= 10 {
      DecimalReads(n / 10);
      var d := Decimal(n);
      assert d[..|d| - 1] == Decimal(n / 10);
      if n < 100 {
        assert |Decimal(n / 10)| == 1;
      } else if n < 1000 {
        DecimalReads(n / 100);
        assert n / 10 / 10 == n / 100;
        assert |Decimal(n / 100)| == 1 && |Decimal(n / 10)| == 2;
      }
    }
  }

  /** `str::parse::<u32>`. */
  function ParseU32(s: string): Option<nat> {
    var t := if s != [] && s[0] == '+' then s[1..] else s;
    if t == [] || !AllDigits(t) || NumberIn(t) >= 0x1_0000_0000 then None else Some(NumberIn(t))
  }

  /** One part of a dotted quad: at most three digits, no leading zero, at most 255. */
  function ParseOctet(s: string): Option<bv8> {
    if !(1 <= |s| <= 3) || !AllDigits(s) || (|s| > 1 && s[0] == '0') || NumberIn(s) > 255 then None
    else Some(NumberIn(s) as bv8)
  }

  lemma {:induction false} OctetReads(b: bv8)
    ensures ParseOctet(Decimal(b as nat)) == Some(b)
    ensures '.' !in Decimal(b as nat) && '/' !in Decimal(b as nat)
  {
    DecimalReads(b as nat);
  }

  // ---------------------------------------------------------------- text

  /** `str::split_once`. */
  function SplitOnce(s: string, c: char): Option<(string, string)> {
    if s == [] then None
    else if s[0] == c then Some(("", s[1..]))
    else
      match SplitOnce(s[1..], c)
      case Some((x, y)) => Some(([s[0]] + x, y))
      case None => None
  }

  lemma {:induction false} SplitOnceFinds(x: string, c: char, y: string)
    requires c !in x
    ensures SplitOnce(x + ([c] + y), c) == Some((x, y))
  {
    var s := x + ([c] + y);
    if x == [] {
      assert s == [c] + y;
    } else {
      SplitOnceFinds(x[1..], c, y);
      assert s[1..] == x[1..] + ([c] + y);
      assert [x[0]] + x[1..] == x;
    }
  }

  function ParseAddress(s: string): Option<Address> {
    match SplitOnce(s, '.')
    case None => None
    case Some((a, s1)) =>
      match SplitOnce(s1, '.')
      case None => None
      case Some((b, s2)) =>
        match SplitOnce(s2, '.')
        case None => None
        case Some((c, d)) =>
          match (ParseOctet(a), ParseOctet(b), ParseOctet(c), ParseOctet(d))
          case (Some(a'), Some(b'), Some(c'), Some(d')) => Some(Address(a', b', c', d'))
          case _ => None
  }

  function ShowOctet(b: bv8): string { Decimal(b as nat) }

  function ShowAddress(x: Address): string {
    ShowOctet(x.a) + ("." + (ShowOctet(x.b) + ("." + (ShowOctet(x.c) + ("." + ShowOctet(x.d))))))
  }

  lemma {:induction false} AddressReads(x: Address)
    ensures ParseAddress(ShowAddress(x)) == Some(x) && '/' !in ShowAddress(x)
  {
    var d := ShowOctet(x.d);
    var c := ShowOctet(x.c) + ("." + d);
    var b := ShowOctet(x.b) + ("." + c);
    OctetReads(x.d);
    Dotted(x.c, d);
    Dotted(x.b, c);
    Dotted(x.a, b);
  }

  lemma {:induction false} Dotted(octet: bv8, rest: string)
    requires '/' !in rest
    ensures ParseOctet(ShowOctet(octet)) == Some(octet)
    ensures SplitOnce(ShowOctet(octet) + ("." + rest), '.') == Some((ShowOctet(octet), rest))
    ensures '/' !in ShowOctet(octet) + ("." + rest)
  {
    OctetReads(octet);
    SplitOnceFinds(ShowOctet(octet), '.', rest);
  }

  /** `Ipv4Cidr::parse`. */
  function Parse(s: string): Option<Ipv4Cidr> {
    match SplitOnce(s, '/')
    case None => None
    case Some((ip, length)) =>
      match (ParseAddress(ip), ParseU32(length))
      case (Some(address), Some(p)) =>
        if p > 32 then None else Some(Block(address, PrefixLength(p)))
      case _ => None
  }

  function PrefixLength(n: nat): Prefix
    requires n <= 32
  {
    n as bv6
  }

  function Block(address: Address, prefix: Prefix): Ipv4Cidr {
    Ipv4Cidr(FromBits(Bits(address) & PrefixMask(prefix)), prefix)
  }

  lemma {:induction false} BlockIsCanonical(address: Address, prefix: Prefix)
    ensures Canonical(Block(address, prefix))
  {
    BitsRoundTrip(Bits(address) & PrefixMask(prefix));
    MasksNest(prefix, prefix, Bits(address));
  }

  lemma {:induction false} BlockOfNetwork(c: Ipv4Cidr)
    requires Canonical(c)
    ensures Block(c.network, c.prefix) == c
  {
    NetworkIsItsBits(c.network);
  }

  lemma {:induction false} ParseIsCanonical(s: string)
    ensures Parse(s).Some? ==> Canonical(Parse(s).value)
  {
    match SplitOnce(s, '/')
    case Some((ip, length)) =>
      match (ParseAddress(ip), ParseU32(length)) {
        case (Some(address), Some(p)) => if p <= 32 { BlockIsCanonical(address, PrefixLength(p)); }
        case _ =>
      }
    case None =>
  }

  function Show(c: Ipv4Cidr): string {
    ShowAddress(c.network) + ("/" + Decimal(c.prefix as nat))
  }

  lemma {:induction false} NetworkIsItsBits(x: Address)
    ensures FromBits(Bits(x)) == x
  {
  }

  lemma {:induction false} PrefixReads(p: Prefix)
    ensures ParseU32(Decimal(p as nat)) == Some(p as nat) && p as nat <= 32 && PrefixLength(p as nat) == p
  {
    DecimalReads(p as nat);
  }

  lemma {:induction false} ParseParts(s: string, ip: string, length: string, address: Address, p: nat)
    requires SplitOnce(s, '/') == Some((ip, length)) && ParseAddress(ip) == Some(address)
    requires ParseU32(length) == Some(p) && p <= 32
    ensures Parse(s) == Some(Block(address, PrefixLength(p)))
  {
  }

  /** Printing a block and reading it back gives the block. */
  lemma {:induction false} ShowParses(c: Ipv4Cidr)
    requires Canonical(c)
    ensures Parse(Show(c)) == Some(c)
  {
    var ip, length := ShowAddress(c.network), Decimal(c.prefix as nat);
    AddressReads(c.network);
    PrefixReads(c.prefix);
    SplitOnceFinds(ip, '/', length);
    ParseParts(Show(c), ip, length, c.network, c.prefix as nat);
    BlockOfNetwork(c);
  }

  // ---------------------------------------------------------------- lists

  /** The blocks a list of texts names, each once, in order of first appearance. */
  function Normalized(values: seq<string>): Option<seq<Ipv4Cidr>> {
    if values == [] then Some([])
    else
      match (Normalized(values[..|values| - 1]), Parse(values[|values| - 1]))
      case (Some(front), Some(c)) => Some(if c in front then front else front + [c])
      case _ => None
  }

  lemma {:induction false} NormalizedIsCanonical(values: seq<string>)
    requires Normalized(values).Some?
    ensures forall i :: 0 <= i < |Normalized(values).value| ==> Canonical(Normalized(values).value[i])
  {
    if values != [] {
      NormalizedIsCanonical(values[..|values| - 1]);
      ParseIsCanonical(values[|values| - 1]);
    }
  }

  lemma {:induction false} NormalizedFails(values: seq<string>, n: nat)
    requires n <= |values| && Normalized(values[..n]).None?
    ensures Normalized(values).None?
    decreases |values|
  {
    if n < |values| {
      assert values[..|values| - 1][..n] == values[..n];
      NormalizedFails(values[..|values| - 1], n);
    } else {
      assert values[..n] == values;
    }
  }

  /** Printed forms tell canonical blocks apart, so a set of them keeps each block once. */
  method NormalizeIpv4Cidrs(values: seq<string>) returns (r: Option<seq<Ipv4Cidr>>)
    ensures r == Normalized(values)
  {
    var seen: set<string>, cidrs: seq<Ipv4Cidr> := {}, [];
    var i := 0;
    while i < |values|
      invariant 0 <= i <= |values|
      invariant Normalized(values[..i]) == Some(cidrs)
      invariant forall c :: c in cidrs ==> Show(c) in seen
      invariant forall s :: s in seen ==> Parse(s).Some? && Parse(s).value in cidrs
    {
      ghost var before := values[..i + 1];
      assert before[..|before| - 1] == values[..i] && before[|before| - 1] == values[i];
      var parsed := Parse(values[i]);
      if parsed.None? {
        NormalizedFails(values, i + 1);
        return None;
      }
      var c := parsed.value;
      ParseIsCanonical(values[i]);
      ShowParses(c);
      if Show(c) !in seen {
        seen := seen + {Show(c)};
        cidrs := cidrs + [c];
      }
      i := i + 1;
    }
    assert values[..i] == values;
    r := Some(cidrs);
  }

  // ---------------------------------------------------------------- by value

  function DigitOf(n: nat): char
    requires n < 10
  {
    (48 + n) as char
  }

  /** Up to three decimal digits, without leading zeros. */
  lemma {:induction false} DecimalMeaning(n: nat)
    requires n < 1000
    ensures Decimal(n) ==
            if n < 10 then [DigitOf(n)]
            else if n < 100 then [DigitOf(n / 10), DigitOf(n % 10)]
            else [DigitOf(n / 100), DigitOf(n / 10 % 10), DigitOf(n % 10)]
  {
    if n >= 10 {
      assert Decimal(n) == Decimal(n / 10) + [Digit(n % 10)];
      if n >= 100 { assert n / 10 / 10 == n / 100 && Decimal(n / 10) == Decimal(n / 100) + [Digit(n / 10 % 10)]; }
    }
  }

  lemma {:induction false} ShortNumber(s: string)
    requires 1 <= |s| <= 3 && AllDigits(s) && (|s| > 1 ==> s[0] != '0')
    ensures NumberIn(s) < 1000 && Decimal(NumberIn(s)) == s
  {
    var n := |s| - 1;
    var front := s[..n];
    assert s == front + [s[n]];
    assert NumberIn(s) == NumberIn(front) * 10 + DigitValue(s[n]) && Digit(DigitValue(s[n])) == s[n];
    if n == 0 {
      assert front == [] && NumberIn(s) == DigitValue(s[0]);
    } else {
      assert front[0] == s[0];
      ShortNumber(front);
      if n == 1 { assert front == [s[0]] && NumberIn(front) == NumberIn([]) * 10 + DigitValue(s[0]); }
      if n == 2 { NotZero(front); }
      NotZero(front);
      assert NumberIn(s) / 10 == NumberIn(front) && NumberIn(s) % 10 == DigitValue(s[n]);
    }
  }

  lemma {:induction false} NotZero(s: string)
    requires 1 <= |s| <= 2 && AllDigits(s) && s[0] != '0'
    ensures 0 < NumberIn(s) < if |s| == 1 then 10 else 100
  {
    var front := s[..|s| - 1];
    if |s| == 2 {
      assert front == [s[0]] && front[..0] == [];
      assert NumberIn(front) == NumberIn(front[..0]) * 10 + DigitValue(s[0]);
    } else {
      assert front == [];
    }
  }

  /** Only the numbers up to 255 in plain decimal are read as octets. */
  lemma {:induction false} OctetMeaning(s: string)
    ensures ParseOctet(s).Some? <==>
            1 <= |s| <= 3 && AllDigits(s) && (|s| > 1 ==> s[0] != '0') && NumberIn(s) <= 255
    ensures ParseOctet(s).Some? ==> s == Decimal(NumberIn(s)) && ParseOctet(s) == Some(NumberIn(s) as bv8)
  {
    if ParseOctet(s).Some? { ShortNumber(s); }
  }

  lemma {:induction false} SplitFirst(first: char, rest: string, c: char)
    requires first != c
    requires match SplitOnce(rest, c) case Some((x, y)) => rest == x + ([c] + y) && c !in x case None => c !in rest
    ensures match SplitOnce([first] + rest, c)
            case Some((x, y)) => [first] + rest == x + ([c] + y) && c !in x
            case None => c !in [first] + rest
  {
    assert ([first] + rest)[1..] == rest;
    match SplitOnce(rest, c)
    case Some((x, y)) => Regroup([first], x, [c] + y);
    case None =>
  }

  lemma {:induction false} SplitMeaning(s: string, c: char)
    ensures match SplitOnce(s, c)
            case Some((x, y)) => s == x + ([c] + y) && c !in x
            case None => c !in s
  {
    if s != [] && s[0] != c {
      SplitMeaning(s[1..], c);
      SplitFirst(s[0], s[1..], c);
      assert s == [s[0]] + s[1..];
    }
  }

  /** Only four such octets with dots between them are read as an address, and each address is so read. */
  lemma {:induction false} AddressMeaning(s: string, x: Address)
    requires ParseAddress(s) == Some(x)
    ensures exists a: nat, b: nat, c: nat, d: nat ::
              a <= 255 && b <= 255 && c <= 255 && d <= 255 && x == Address(a as bv8, b as bv8, c as bv8, d as bv8) &&
              s == Decimal(a) + ("." + (Decimal(b) + ("." + (Decimal(c) + ("." + Decimal(d))))))
  {
    SplitMeaning(s, '.');
    var (a, s1) := SplitOnce(s, '.').value;
    SplitMeaning(s1, '.');
    var (b, s2) := SplitOnce(s1, '.').value;
    SplitMeaning(s2, '.');
    var (c, d) := SplitOnce(s2, '.').value;
    OctetMeaning(a);
    OctetMeaning(b);
    OctetMeaning(c);
    OctetMeaning(d);
    assert s == Decimal(NumberIn(a)) + ("." + (Decimal(NumberIn(b)) + ("." + (Decimal(NumberIn(c)) + ("." +
                Decimal(NumberIn(d)))))));
  }

  /** The first octet is the leading one. */
  lemma {:induction false} BitsMeaning(x: Address)
    ensures (Bits(x) >> 24 as bv6) & 0xFF == x.a as bv32 && (Bits(x) >> 16 as bv6) & 0xFF == x.b as bv32
    ensures (Bits(x) >> 8 as bv6) & 0xFF == x.c as bv32 && Bits(x) & 0xFF == x.d as bv32
  {
  }

  /** The leading bits agree, as many as the prefix says. */
  predicate SameLead(p: Prefix, x: bv32, n: bv32) { p == 0 || x >> (32 - p) == n >> (32 - p) }

  /** Masking keeps the leading bits ... */
  lemma {:induction false} MaskKeepsLead(p: Prefix, x: bv32)
    ensures SameLead(p, x, x & PrefixMask(p))
  {
  }

  /** ... and no others: a canonical block holds every address that agrees with its network on them. */
  lemma {:induction false} LeadIsEnough(p: Prefix, x: bv32, n: bv32)
    requires n & PrefixMask(p) == n && SameLead(p, x, n)
    ensures x & PrefixMask(p) == n
  {
    if p > 0 {
      MaskIsShift(p, x);
      MaskIsShift(p, n);
    }
  }

  lemma {:induction false} MaskIsShift(p: Prefix, x: bv32)
    requires p > 0
    ensures x & PrefixMask(p) == (x >> (32 - p)) << (32 - p)
  {
  }

  /** A text is read as the block of an address and a length up to 32: the address without the bits beyond it. */
  lemma {:induction false} BlockMeaning(s: string, c: Ipv4Cidr)
    requires Parse(s) == Some(c)
    ensures exists ip, length, x ::
              s == ip + ("/" + length) && ParseAddress(ip) == Some(x) && ParseU32(length) == Some(c.prefix as nat) &&
              Contains(c, Bits(x)) && Canonical(c)
  {
    ParseIsCanonical(s);
    SplitMeaning(s, '/');
    var (ip, length) := SplitOnce(s, '/').value;
    var x := ParseAddress(ip).value;
    var n := ParseU32(length).value;
    LengthReads(n);
    assert c == Block(x, PrefixLength(n));
    BlockContains(x, PrefixLength(n));
    assert s == ip + ("/" + length);
  }

  lemma {:induction false} BlockContains(x: Address, p: Prefix)
    ensures Block(x, p).prefix == p && Contains(Block(x, p), Bits(x))
  {
    BitsRoundTrip(Bits(x) & PrefixMask(p));
  }

  lemma {:induction false} LengthReads(n: nat)
    requires n <= 32
    ensures PrefixLength(n) as nat == n
  {
  }

  /** Each block a text names is there once, unless some text names none. */
  lemma {:induction false} NormalizedMeaning(values: seq<string>)
    ensures Normalized(values).Some? <==> forall v :: v in values ==> Parse(v).Some?
    ensures Normalized(values).Some? ==>
              (forall c :: c in Normalized(values).value <==> exists v :: v in values && Parse(v) == Some(c)) &&
              forall i, j :: 0 <= i < j < |Normalized(values).value| ==>
                Normalized(values).value[i] != Normalized(values).value[j]
  {
    if values != [] {
      var n := |values| - 1;
      NormalizedMeaning(values[..n]);
      SplitLast(values);
      assert values[n] in values;
    }
  }
}
