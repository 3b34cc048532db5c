/** Domain lists as Private Access normalises them: cleaned, lower case, sorted, without repeats. */
module Domains {
  import opened Prelude
  import Cidr

  // ---------------------------------------------------------------- order

  /** The byte order of strings, which on Unicode text is the order of its code points. */
  predicate Less(a: string, b: string) {
    b != [] && (a == [] || a[0] < b[0] || (a[0] == b[0] && Less(a[1..], b[1..])))
  }

  lemma {:induction false} LessIsStrict(a: string, b: string)
    ensures !(Less(a, b) && Less(b, a)) && !Less(a, a)
    ensures Less(a, b) || Less(b, a) || a == b
  {
    if a != [] && b != [] {
      LessIsStrict(a[1..], b[1..]);
      assert a == [a[0]] + a[1..] && b == [b[0]] + b[1..];
    }
    if a != [] { LessIsStrict(a[1..], a[1..]); }
  }

  lemma {:induction false} LessIsTransitive(a: string, b: string, c: string)
    requires Less(a, b) && Less(b, c)
    ensures Less(a, c)
  {
    if a != [] && a[0] == b[0] && b[0] == c[0] { LessIsTransitive(a[1..], b[1..], c[1..]); }
  }

  ghost predicate Ascending(s: seq<string>) {
    forall i, j :: 0 <= i < j < |s| ==> Less(s[i], s[j])
  }

  /** `sort` and then `dedup`, one string at a time. */
  function SortDedup(s: seq<string>): seq<string> {
    if s == [] then [] else Place(s[0], SortDedup(s[1..]))
  }

  function Place(x: string, s: seq<string>): seq<string> {
    if s == [] || Less(x, s[0]) then [x] + s
    else if x == s[0] then s
    else [s[0]] + Place(x, s[1..])
  }

  lemma {:induction false} PlaceMembers(x: string, s: seq<string>, y: string)
    ensures y in Place(x, s) <==> y == x || y in s
  {
    if s != [] && !Less(x, s[0]) && x != s[0] { PlaceMembers(x, s[1..], y); }
  }

  lemma {:induction false} PlaceAscends(x: string, s: seq<string>)
    requires Ascending(s)
    ensures Ascending(Place(x, s))
  {
    if s == [] {
    } else if Less(x, s[0]) {
      forall j | 0 < j < |s| ensures Less(x, s[j]) { LessIsTransitive(x, s[0], s[j]); }
    } else if x != s[0] {
      LessIsStrict(x, s[0]);
      var rest := Place(x, s[1..]);
      PlaceAscends(x, s[1..]);
      forall j | 0 <= j < |rest| ensures Less(s[0], rest[j]) {
        PlaceMembers(x, s[1..], rest[j]);
        assert rest[j] == x || rest[j] in s[1..];
      }
    }
  }

  lemma {:induction false} SortDedupSorts(s: seq<string>)
    ensures Ascending(SortDedup(s)) && forall x :: x in SortDedup(s) <==> x in s
  {
    if s != [] {
      SortDedupSorts(s[1..]);
      PlaceAscends(s[0], SortDedup(s[1..]));
      forall x ensures x in SortDedup(s) <==> x in s { PlaceMembers(s[0], SortDedup(s[1..]), x); }
    }
  }

  lemma {:induction false} FirstIsLeast(s: seq<string>, x: string)
    requires Ascending(s) && x in s
    ensures x == s[0] || Less(s[0], x)
  {
  }

  /** An ascending list is determined by its members. */
  lemma {:induction false} AscendingIsUnique(a: seq<string>, b: seq<string>)
    requires Ascending(a) && Ascending(b) && forall x :: x in a <==> x in b
    ensures a == b
  {
    assert a != [] ==> a[0] in b;
    assert b != [] ==> b[0] in a;
    if a != [] {
      FirstIsLeast(a, b[0]);
      FirstIsLeast(b, a[0]);
      LessIsStrict(a[0], b[0]);
      forall x ensures x in a[1..] <==> x in b[1..] {
        LessIsStrict(x, x);
        assert x in a <==> x == a[0] || x in a[1..];
        assert x in b <==> x == b[0] || x in b[1..];
      }
      AscendingIsUnique(a[1..], b[1..]);
    }
  }

  /** What is sorted already stays as it is, also when strings it has are added again. */
  lemma {:induction false} SortDedupAbsorbs(s: seq<string>, more: seq<string>)
    requires Ascending(s) && forall x :: x in more ==> x in s
    ensures SortDedup(s + more) == s
  {
    SortDedupSorts(s + more);
    AscendingIsUnique(SortDedup(s + more), s);
  }

  // ---------------------------------------------------------------- cleaning

  predicate IsDot(c: char) { c == '.' }

  function TrimStart(s: string, p: char -> bool): string {
    if s != [] && p(s[0]) then TrimStart(s[1..], p) else s
  }

  function TrimEnd(s: string, p: char -> bool): string {
    if s != [] && p(s[|s| - 1]) then TrimEnd(s[..|s| - 1], p) else s
  }

  function TrimWildcards(s: string): string {
    if |s| >= 2 && s[0] == '*' && s[1] == '.' then TrimWildcards(s[2..]) else s
  }

  function Trimmed(s: string): string {
    LowerAscii(TrimEnd(TrimStart(TrimWildcards(TrimEnd(TrimStart(s, IsSpace), IsSpace)), IsDot), IsDot))
  }

  predicate IsLabelChar(c: char) { 'a' <= c <= 'z' || 'A' <= c <= 'Z' || '0' <= c <= '9' || c == '-' }

  predicate IsLabel(s: string) {
    0 < |s| <= 63 && s[0] != '-' && s[|s| - 1] != '-' && forall i :: 0 <= i < |s| ==> IsLabelChar(s[i])
  }

  /** Every piece between dots is a label. */
  predicate AllLabels(s: string)
    decreases |s|
  {
    match Cidr.SplitOnce(s, '.')
    case None => IsLabel(s)
    case Some((first, rest)) => SplitShrinks(s); IsLabel(first) && AllLabels(rest)
  }

  lemma {:induction false} SplitShrinks(s: string)
    ensures match Cidr.SplitOnce(s, '.')
            case Some((x, y)) => s == x + ("." + y) && |y| < |s|
            case None => '.' !in s
  {
    if s != [] && s[0] != '.' {
      SplitShrinks(s[1..]);
      assert s == [s[0]] + s[1..];
    }
  }

  predicate IsDomain(s: string) {
    s != [] && |s| <= 253 && Cidr.ParseAddress(s).None? && AllLabels(s)
  }

  function Clean(s: string): Option<string> {
    if IsDomain(Trimmed(s)) then Some(Trimmed(s)) else None
  }

  function Cleaned(values: seq<string>): seq<string> {
    if values == [] then []
    else (match Clean(values[0]) case Some(v) => [v] case None => []) + Cleaned(values[1..])
  }

  /** `normalize_private_access_domains`. */
  function NormalizeDomains(values: seq<string>): seq<string> {
    SortDedup(Cleaned(values))
  }

  lemma {:induction false} LabelEnds(s: string)
    requires AllLabels(s)
    ensures s != [] && IsLabelChar(s[0]) && IsLabelChar(s[|s| - 1])
    decreases |s|
  {
    SplitShrinks(s);
    match Cidr.SplitOnce(s, '.')
    case Some((first, rest)) => LabelEnds(rest);
    case None =>
  }

  lemma {:induction false} LowerIsStable(s: string)
    ensures LowerAscii(LowerAscii(s)) == LowerAscii(s)
  {
  }

  lemma {:induction false} CleanIsStable(s: string)
    requires Clean(s).Some?
    ensures Clean(Clean(s).value) == Clean(s) && LowerAscii(Clean(s).value) == Clean(s).value
  {
    LabelEnds(Trimmed(s));
    LowerIsStable(TrimEnd(TrimStart(TrimWildcards(TrimEnd(TrimStart(s, IsSpace), IsSpace)), IsDot), IsDot));
    NothingToTrim(Trimmed(s));
  }

  lemma {:induction false} NothingToTrim(v: string)
    requires v != [] && IsLabelChar(v[0]) && IsLabelChar(v[|v| - 1])
    ensures Trimmed(v) == LowerAscii(v)
  {
    assert !IsSpace(v[0]) && !IsDot(v[0]) && v[0] != '*' && !IsSpace(v[|v| - 1]) && !IsDot(v[|v| - 1]);
    assert TrimStart(v, IsSpace) == v && TrimEnd(v, IsSpace) == v;
    assert TrimWildcards(v) == v && TrimStart(v, IsDot) == v && TrimEnd(v, IsDot) == v;
  }

  lemma {:induction false} CleanedMembers(values: seq<string>, x: string)
    requires x in Cleaned(values)
    ensures Clean(x) == Some(x) && LowerAscii(x) == x
  {
    if Clean(values[0]).Some? { CleanIsStable(values[0]); }
    if x in Cleaned(values[1..]) { CleanedMembers(values[1..], x); }
  }

  lemma {:induction false} CleanedKeepsClean(values: seq<string>)
    requires forall x :: x in values ==> Clean(x) == Some(x)
    ensures Cleaned(values) == values
  {
    if values != [] { CleanedKeepsClean(values[1..]); }
  }

  /** Lower-case, ascending lists: what normalisation gives. */
  ghost predicate Normal(domains: seq<string>) {
    Ascending(domains) && forall x :: x in domains ==> LowerAscii(x) == x
  }

  /** Normalising gives a normal list, and normalising again changes nothing. */
  lemma {:induction false} NormalizeIsIdempotent(values: seq<string>)
    ensures Normal(NormalizeDomains(values))
    ensures NormalizeDomains(NormalizeDomains(values)) == NormalizeDomains(values)
  {
    var r := NormalizeDomains(values);
    SortDedupSorts(Cleaned(values));
    forall x | x in r ensures Clean(x) == Some(x) && LowerAscii(x) == x { CleanedMembers(values, x); }
    CleanedKeepsClean(r);
    assert r + [] == r;
    SortDedupAbsorbs(r, []);
  }

  // ---------------------------------------------------------------- by value

  /** Upper-case ASCII letters become the lower-case ones 32 code points on; nothing else changes. */
  lemma {:induction false} LowerMeaning(s: string)
    ensures |LowerAscii(s)| == |s|
    ensures forall i :: 0 <= i < |s| ==>
              LowerAscii(s)[i] as int == s[i] as int + if 65 <= s[i] as int <= 90 then 32 else 0
  {
  }

  lemma {:induction false} TrimStartMeaning(front: string, s: string, p: char -> bool)
    requires (forall c :: c in front ==> p(c)) && (s != [] ==> !p(s[0]))
    ensures TrimStart(front + s, p) == s
  {
    if front == [] {
      assert front + s == s;
    } else {
      assert front[0] in front && (front + s)[1..] == front[1..] + s;
      TrimStartMeaning(front[1..], s, p);
    }
  }

  lemma {:induction false} TrimEndMeaning(s: string, end: string, p: char -> bool)
    requires (forall c :: c in end ==> p(c)) && (s != [] ==> !p(s[|s| - 1]))
    ensures TrimEnd(s + end, p) == s
  {
    if end == [] {
      assert s + end == s;
    } else {
      var n := |end| - 1;
      assert end[n] in end && (s + end)[..|s + end| - 1] == s + end[..n];
      TrimEndMeaning(s, end[..n], p);
    }
  }

  function Stars(n: nat): string { if n == 0 then "" else "*." + Stars(n - 1) }

  lemma {:induction false} StarsGo(n: nat, s: string)
    requires !(|s| >= 2 && s[0] == '*' && s[1] == '.')
    ensures TrimWildcards(Stars(n) + s) == s
  {
    if n == 0 {
      assert Stars(0) + s == s;
    } else {
      StarsGo(n - 1, s);
      assert Stars(n) + s == "*." + (Stars(n - 1) + s);
      assert (Stars(n) + s)[2..] == Stars(n - 1) + s;
    }
  }

  /** Labels with dots between them. */
  function Dotted(labels: seq<string>): string
    requires labels != []
  {
    if |labels| == 1 then labels[0] else labels[0] + ("." + Dotted(labels[1..]))
  }

  /** A name is all labels exactly when it is labels with dots between them. */
  lemma {:induction false} LabelsMeaning(labels: seq<string>)
    requires labels != [] && forall l :: l in labels ==> IsLabel(l)
    ensures AllLabels(Dotted(labels)) && Dotted(labels) != []
    ensures IsLabelChar(Dotted(labels)[0]) && IsLabelChar(Dotted(labels)[|Dotted(labels)| - 1])
  {
    var first := labels[0];
    assert first in labels && IsLabelChar(first[0]);
    assert '.' !in first;
    if |labels| == 1 {
      NoSplit(first);
    } else {
      LabelsMeaning(labels[1..]);
      Cidr.SplitOnceFinds(first, '.', Dotted(labels[1..]));
    }
  }

  lemma {:induction false} NoSplit(s: string)
    requires '.' !in s
    ensures Cidr.SplitOnce(s, '.') == None
  {
    SplitShrinks(s);
  }

  /** Between one and 63 letters, digits and inner hyphens. */
  lemma {:induction false} LabelMeaning(s: string)
    ensures IsLabel(s) <==>
            1 <= |s| <= 63 && s[0] != '-' && s[|s| - 1] != '-' &&
            forall c :: c in s ==> 'a' <= c <= 'z' || 'A' <= c <= 'Z' || '0' <= c <= '9' || c == '-'
  {
    assert forall i :: 0 <= i < |s| ==> s[i] in s;
  }

  lemma {:induction false} LowerKeepsLabels(s: string)
    ensures AllLabels(LowerAscii(s)) <==> AllLabels(s)
    decreases |s|
  {
    SplitShrinks(s);
    LowerSplit(s);
    match Cidr.SplitOnce(s, '.')
    case Some((x, y)) =>
      LowerLabel(x);
      LowerKeepsLabels(y);
    case None => LowerLabel(s);
  }

  lemma {:induction false} LowerLabel(s: string)
    ensures IsLabel(LowerAscii(s)) <==> IsLabel(s)
  {
    assert forall i :: 0 <= i < |s| ==> (IsLabelChar(LowerAscii(s)[i]) <==> IsLabelChar(s[i]));
  }

  lemma {:induction false} LowerSplit(s: string)
    ensures Cidr.SplitOnce(LowerAscii(s), '.') ==
            match Cidr.SplitOnce(s, '.')
            case Some((x, y)) => Some((LowerAscii(x), LowerAscii(y)))
            case None => None
  {
    if s != [] && s[0] != '.' {
      LowerSplit(s[1..]);
      assert LowerAscii(s)[1..] == LowerAscii(s[1..]);
      match Cidr.SplitOnce(s[1..], '.')
      case Some((x, y)) => assert LowerAscii([s[0]] + x) == [LowerAscii(s)[0]] + LowerAscii(x);
      case None =>
    } else if s != [] {
      assert LowerAscii(s)[1..] == LowerAscii(s[1..]) && LowerAscii("") == "";
    }
  }

  /** An ordinary domain, with white space around it, wildcards and dots before it and dots after it, is kept as
      itself in lower case. */
  lemma {:induction false} OrdinaryDomainIsKept(front: string, stars: nat, dots: string, labels: seq<string>,
                                                moreDots: string, end: string)
    requires labels != [] && (forall l :: l in labels ==> IsLabel(l)) && |Dotted(labels)| <= 253
    requires (forall c :: c in front || c in end ==> IsSpace(c)) && forall c :: c in dots || c in moreDots ==> c == '.'
    requires Cidr.ParseAddress(LowerAscii(Dotted(labels))).None?
    ensures Clean(front + ((Stars(stars) + (dots + (Dotted(labels) + moreDots))) + end)) ==
            Some(LowerAscii(Dotted(labels)))
  {
    var v := Dotted(labels);
    LabelsMeaning(labels);
    assert v[0] != '*' && !IsDot(v[0]) && !IsSpace(v[0]) && !IsSpace(v[|v| - 1]) && !IsDot(v[|v| - 1]);
    var dotted := dots + (v + moreDots);
    var starred := Stars(stars) + dotted;
    Core(stars, dots, v, moreDots);
    TrimStartMeaning(front, starred + end, IsSpace);
    TrimEndMeaning(starred, end, IsSpace);
    StarsGo(stars, dotted);
    TrimStartMeaning(dots, v + moreDots, IsDot);
    TrimEndMeaning(v, moreDots, IsDot);
    LowerKeepsLabels(v);
  }

  lemma {:induction false} Core(stars: nat, dots: string, v: string, moreDots: string)
    requires v != [] && (forall c :: c in dots || c in moreDots ==> c == '.') && v[0] != '*' && v[0] != '.'
    requires IsLabelChar(v[0]) && IsLabelChar(v[|v| - 1])
    ensures var dotted := dots + (v + moreDots);
            var starred := Stars(stars) + dotted;
            dotted != [] && dotted[0] != '*' && starred != [] && !IsSpace(starred[0]) &&
            !IsSpace(starred[|starred| - 1])
  {
    var dotted := dots + (v + moreDots);
    assert dots != [] ==> dotted[0] == dots[0] && dots[0] in dots;
    assert moreDots != [] ==> dotted[|dotted| - 1] == moreDots[|moreDots| - 1] && moreDots[|moreDots| - 1] in moreDots;
    assert moreDots == [] ==> dotted[|dotted| - 1] == v[|v| - 1];
    assert stars > 0 ==> Stars(stars)[0] == '*';
    assert (Stars(stars) + dotted)[|Stars(stars) + dotted| - 1] == dotted[|dotted| - 1];
  }

  /** The normalised list holds exactly the cleaned forms of the values that have one. */
  lemma {:induction false} NormalizeMeaning(values: seq<string>, x: string)
    ensures x in NormalizeDomains(values) <==> exists v :: v in values && Clean(v) == Some(x)
    ensures Ascending(NormalizeDomains(values))
  {
    SortDedupSorts(Cleaned(values));
    CleanedMeaning(values, x);
  }

  lemma {:induction false} CleanedMeaning(values: seq<string>, x: string)
    ensures x in Cleaned(values) <==> exists v :: v in values && Clean(v) == Some(x)
  {
    if values != [] { CleanedMeaning(values[1..], x); }
  }
}
