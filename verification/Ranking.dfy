/** Node ranking: `compare_node_quality` and its ingredients, and the winner `evaluate` picks. */
module Ranking {
  import opened Prelude

  datatype Ordering = Less | Equal | Greater {
    function Then(next: Ordering): Ordering { if this == Equal then next else this }
    function Flip(): Ordering {
      match this case Less => Greater case Equal => Equal case Greater => Less
    }
  }

  datatype RankingPolicy = Balanced | LowLatency | Throughput

  datatype ReachabilityTier = Unreachable | Degraded | Reachable | StableReachable {
    function Rank(): nat {
      match this case Unreachable => 0 case Degraded => 1 case Reachable => 2 case StableReachable => 3
    }
    predicate Eligible() { Rank() >= Reachable.Rank() }
  }

  datatype Facts = Facts(
    node: string,
    reachability: Option<ReachabilityTier>,
    recentQuickSuccesses: U64,
    recentQuickRounds: U64,
    warmMedianMs: Option<U64>,
    p95Ms: Option<U64>,
    coldStartMs: Option<U64>,
    sustainedSuccesses: U64,
    sustainedAttempts: U64,
    throughput: Option<U64>,
    configOrder: U64)
  {
    predicate IsEligible(policy: RankingPolicy) {
      reachability.Some? && reachability.value.Eligible() &&
      (policy != Throughput || throughput.Some?)
    }
  }

  function CompareInt(a: int, b: int): Ordering {
    if a < b then Less else if a == b then Equal else Greater
  }

  function CompareBool(a: bool, b: bool): Ordering {
    if a == b then Equal else if b then Less else Greater
  }

  /** `Option::cmp`: an absent value is below every present one. */
  function CompareOption(a: Option<int>, b: Option<int>): Ordering {
    match (a, b)
    case (Some(x), Some(y)) => CompareInt(x, y)
    case (Some(_), None) => Greater
    case (None, Some(_)) => Less
    case (None, None) => Equal
  }

  /** A smaller present value is better; an absent value is worst. */
  function CompareOptionalLower(a: Option<U64>, b: Option<U64>): Ordering {
    match (a, b)
    case (Some(x), Some(y)) => CompareInt(y, x)
    case (Some(_), None) => Greater
    case (None, Some(_)) => Less
    case (None, None) => Equal
  }

  function AtLeastOne(n: U64): (r: U64)
    ensures r > 0
  {
    if n == 0 then 1 else n
  }

  /** Success ratios compared by cross multiplication, zero attempts counting as one. */
  function CompareRatioHigher(ls: U64, la: U64, rs: U64, ra: U64): Ordering {
    CompareInt(ls * AtLeastOne(ra), rs * AtLeastOne(la))
  }

  function TierRank(t: Option<ReachabilityTier>): Option<int> {
    match t case None => None case Some(tier) => Some(tier.Rank())
  }

  /** How two nodes compare on every criterion some policy uses. */
  datatype Comparison = Comparison(
    tier: Ordering, quickRatio: Ordering, sustainedRatio: Ordering, warmMedian: Ordering, p95: Ordering,
    coldStart: Ordering, hasThroughput: Ordering, throughput: Ordering, order: Ordering)

  function CompareFacts(l: Facts, r: Facts): Comparison {
    Comparison(
      CompareOption(TierRank(l.reachability), TierRank(r.reachability)),
      CompareRatioHigher(l.recentQuickSuccesses, l.recentQuickRounds,
                         r.recentQuickSuccesses, r.recentQuickRounds),
      CompareRatioHigher(l.sustainedSuccesses, l.sustainedAttempts,
                         r.sustainedSuccesses, r.sustainedAttempts),
      CompareOptionalLower(l.warmMedianMs, r.warmMedianMs),
      CompareOptionalLower(l.p95Ms, r.p95Ms),
      CompareOptionalLower(l.coldStartMs, r.coldStartMs),
      CompareBool(l.throughput.Some?, r.throughput.Some?),
      CompareOption(l.throughput, r.throughput),
      CompareInt(r.configOrder, l.configOrder))
  }

  /** The criteria in decreasing weight: the reachability tier first, then the policy's own, and
      the lower configuration order as the last tie-break. */
  function Criteria(policy: RankingPolicy, c: Comparison): seq<Ordering> {
    match policy
    case Balanced => [c.tier, c.quickRatio, c.warmMedian, c.p95, c.hasThroughput, c.throughput, c.order]
    case LowLatency => [c.tier, c.warmMedian, c.p95, c.coldStart, c.quickRatio, c.order]
    case Throughput => [c.tier, c.throughput, c.sustainedRatio, c.p95, c.coldStart, c.order]
  }

  /** A chain of `then_with`: the first criterion that is not a tie decides. */
  function FirstDecisive(c: seq<Ordering>): Ordering {
    if c == [] then Equal else c[0].Then(FirstDecisive(c[1..]))
  }

  function CompareNodeQuality(policy: RankingPolicy, l: Facts, r: Facts): Ordering {
    FirstDecisive(Criteria(policy, CompareFacts(l, r)))
  }

  /** What a comparison must say about x,z when it says `xy` about x,y and `yz` about y,z. */
  predicate Chain(xy: Ordering, yz: Ordering, xz: Ordering) {
    xy != Greater && yz != Greater ==> xz != Greater && (xz == Equal <==> xy == Equal && yz == Equal)
  }

  lemma {:induction false} FirstDecisiveChain(xy: seq<Ordering>, yz: seq<Ordering>, xz: seq<Ordering>)
    requires |xy| == |yz| == |xz|
    requires forall i :: 0 <= i < |xy| ==> Chain(xy[i], yz[i], xz[i])
    ensures Chain(FirstDecisive(xy), FirstDecisive(yz), FirstDecisive(xz))
  {
    if xy != [] { FirstDecisiveChain(xy[1..], yz[1..], xz[1..]); }
  }

  lemma {:induction false} FirstDecisiveFlip(c: seq<Ordering>, d: seq<Ordering>)
    requires |c| == |d|
    requires forall i :: 0 <= i < |c| ==> d[i] == c[i].Flip()
    ensures FirstDecisive(d) == FirstDecisive(c).Flip()
    ensures FirstDecisive(c) == Equal ==> forall i :: 0 <= i < |c| ==> c[i] == Equal
  {
    if c != [] { FirstDecisiveFlip(c[1..], d[1..]); }
  }

  /** Multiplying both sides of an inequality by a non-negative factor keeps it. */
  lemma {:induction false} ScaleLe(a: int, b: int, k: int)
    requires a <= b && 0 <= k
    ensures a * k <= b * k
  {
  }

  lemma {:induction false} ScaleLt(a: int, b: int, k: int)
    requires a < b && 0 < k
    ensures a * k < b * k
  {
  }

  /** Cross-multiplied ratios are transitive because every denominator is positive. */
  lemma {:induction false} RatioChain(a: int, b: int, c: int, d: int, e: int, f: int)
    requires b > 0 && d > 0 && f > 0
    ensures Chain(CompareInt(a * d, c * b), CompareInt(c * f, e * d), CompareInt(a * f, e * b))
  {
    if a * d <= c * b && c * f <= e * d {
      ScaleLe(a * d, c * b, f);
      ScaleLe(c * f, e * d, b);
      assert (a * d) * f == (a * f) * d;
      assert (c * b) * f == (c * f) * b;
      assert (e * d) * b == (e * b) * d;
      if a * f > e * b { ScaleLt(e * b, a * f, d); }
      if a * d < c * b { ScaleLt(a * d, c * b, f); }
      if c * f < e * d { ScaleLt(c * f, e * d, b); }
    }
  }

  predicate ComparisonChain(a: Comparison, b: Comparison, c: Comparison) {
    Chain(a.tier, b.tier, c.tier) && Chain(a.quickRatio, b.quickRatio, c.quickRatio) &&
    Chain(a.sustainedRatio, b.sustainedRatio, c.sustainedRatio) &&
    Chain(a.warmMedian, b.warmMedian, c.warmMedian) && Chain(a.p95, b.p95, c.p95) &&
    Chain(a.coldStart, b.coldStart, c.coldStart) && Chain(a.hasThroughput, b.hasThroughput, c.hasThroughput) &&
    Chain(a.throughput, b.throughput, c.throughput) && Chain(a.order, b.order, c.order)
  }

  lemma {:induction false} CompareFactsChain(x: Facts, y: Facts, z: Facts)
    ensures ComparisonChain(CompareFacts(x, y), CompareFacts(y, z), CompareFacts(x, z))
  {
    RatioChain(x.recentQuickSuccesses, AtLeastOne(x.recentQuickRounds),
               y.recentQuickSuccesses, AtLeastOne(y.recentQuickRounds),
               z.recentQuickSuccesses, AtLeastOne(z.recentQuickRounds));
    RatioChain(x.sustainedSuccesses, AtLeastOne(x.sustainedAttempts),
               y.sustainedSuccesses, AtLeastOne(y.sustainedAttempts),
               z.sustainedSuccesses, AtLeastOne(z.sustainedAttempts));
  }

  lemma {:induction false} CompareFactsFlip(x: Facts, y: Facts)
    ensures CompareFacts(y, x) == FlipAll(CompareFacts(x, y))
    ensures CompareFacts(x, y).order == Equal ==> x.configOrder == y.configOrder
  {
  }

  lemma {:induction false} CriteriaChain(policy: RankingPolicy, xy: Comparison, yz: Comparison, xz: Comparison)
    requires ComparisonChain(xy, yz, xz)
    ensures Chain(FirstDecisive(Criteria(policy, xy)), FirstDecisive(Criteria(policy, yz)),
                  FirstDecisive(Criteria(policy, xz)))
  {
    FirstDecisiveChain(Criteria(policy, xy), Criteria(policy, yz), Criteria(policy, xz));
  }

  function FlipAll(c: Comparison): Comparison {
    Comparison(c.tier.Flip(), c.quickRatio.Flip(), c.sustainedRatio.Flip(), c.warmMedian.Flip(), c.p95.Flip(),
               c.coldStart.Flip(), c.hasThroughput.Flip(), c.throughput.Flip(), c.order.Flip())
  }

  lemma {:induction false} CriteriaFlip(policy: RankingPolicy, xy: Comparison)
    ensures FirstDecisive(Criteria(policy, FlipAll(xy))) == FirstDecisive(Criteria(policy, xy)).Flip()
    ensures FirstDecisive(Criteria(policy, xy)) == Equal ==> xy.order == Equal
  {
    var c := Criteria(policy, xy);
    FirstDecisiveFlip(c, Criteria(policy, FlipAll(xy)));
    assert c[|c| - 1] == xy.order;
  }

  /** The comparison is a total preorder whose only ties are between equal config orders. */
  lemma {:induction false} CompareIsTotalPreorder(policy: RankingPolicy, x: Facts, y: Facts, z: Facts)
    ensures CompareNodeQuality(policy, y, x) == CompareNodeQuality(policy, x, y).Flip()
    ensures CompareNodeQuality(policy, x, y) == Equal ==> x.configOrder == y.configOrder
    ensures Chain(CompareNodeQuality(policy, x, y), CompareNodeQuality(policy, y, z),
                  CompareNodeQuality(policy, x, z))
  {
    CompareFactsChain(x, y, z);
    CriteriaChain(policy, CompareFacts(x, y), CompareFacts(y, z), CompareFacts(x, z));
    CompareFactsFlip(x, y);
    CriteriaFlip(policy, CompareFacts(x, y));
  }

  /** No product of the ranking or of the 20% gate leaves `u128`. */
  lemma {:induction false} ProductsFitU128(a: U64, b: U64)
    ensures a * b < U128_LIMIT && a * 6 < U128_LIMIT
  {
    ScaleLe(a, U64_LIMIT - 1, b);
    ScaleLe(b, U64_LIMIT - 1, U64_LIMIT - 1);
  }

  /** The workflow's own ratio order, better first, in saturating machine words. */
  function CompareRatioDesc(ls: U64, la: U64, rs: U64, ra: U64): Ordering {
    CompareInt(Saturated(rs * AtLeastOne(la)), Saturated(ls * AtLeastOne(ra)))
  }

  function Saturated(n: int): int { if n >= U64_LIMIT then U64_LIMIT - 1 else n }

  /** The saturating order is the exact one, reversed, unless both products reach the word limit and differ. */
  lemma {:induction false} SaturationAgreesIff(ls: U64, la: U64, rs: U64, ra: U64)
    ensures CompareRatioDesc(ls, la, rs, ra) == CompareRatioHigher(ls, la, rs, ra).Flip() <==>
            !(ls * AtLeastOne(ra) != rs * AtLeastOne(la) &&
              ls * AtLeastOne(ra) >= U64_LIMIT - 1 && rs * AtLeastOne(la) >= U64_LIMIT - 1)
  {
    var l, r := ls * AtLeastOne(ra), rs * AtLeastOne(la);
    SaturatedCompare(l, r);
  }

  lemma {:induction false} SaturatedCompare(l: int, r: int)
    ensures CompareInt(Saturated(r), Saturated(l)) == CompareInt(l, r).Flip() <==>
            !(l != r && l >= U64_LIMIT - 1 && r >= U64_LIMIT - 1)
  {
  }

  /** Beyond that limit ties stop being transitive: `y` ties with both, yet `x` is above `z`. */
  lemma {:induction false} SaturatedTiesBreak()
    ensures exists x: (U64, U64), y: (U64, U64), z: (U64, U64) ::
              CompareRatioDesc(x.0, x.1, y.0, y.1) == Equal && CompareRatioDesc(y.0, y.1, z.0, z.1) == Equal &&
              CompareRatioDesc(x.0, x.1, z.0, z.1) == Less
  {
    var x, y, z := (2, 1), (U64_LIMIT - 1, U64_LIMIT - 1), (1, 1);
    assert CompareRatioDesc(x.0, x.1, z.0, z.1) == Less;
    assert CompareRatioDesc(y.0, y.1, z.0, z.1) == Equal;
    assert CompareRatioDesc(x.0, x.1, y.0, y.1) == Equal;
  }

  /** `Iterator::max_by`: the last of several greatest elements wins. */
  function MaxOf<T>(rows: seq<T>, compare: (T, T) -> Ordering): (best: Option<T>)
    ensures rows == [] <==> best.None?
    ensures best.Some? ==> best.value in rows
  {
    if rows == [] then None
    else
      var n := |rows| - 1;
      match MaxOf(rows[..n], compare)
      case None => Some(rows[n])
      case Some(b) => if compare(b, rows[n]) == Greater then Some(b) else Some(rows[n])
  }

  ghost predicate Preorder<T(!new)>(compare: (T, T) -> Ordering) {
    (forall x, y :: compare(y, x) == compare(x, y).Flip()) &&
    (forall x, y, z :: Chain(compare(x, y), compare(y, z), compare(x, z)))
  }

  lemma {:induction false} MaxDominates<T(!new)>(rows: seq<T>, compare: (T, T) -> Ordering, r: T)
    requires Preorder(compare) && r in rows
    ensures compare(r, MaxOf(rows, compare).value) != Greater
  {
    var n := |rows| - 1;
    assert compare(rows[n], rows[n]) == compare(rows[n], rows[n]).Flip();
    if n > 0 {
      var b := MaxOf(rows[..n], compare).value;
      assert compare(rows[n], b) == compare(b, rows[n]).Flip();
      if r != rows[n] {
        assert r in rows[..n];
        MaxDominates(rows[..n], compare, r);
        assert Chain(compare(r, b), compare(b, rows[n]), compare(r, rows[n]));
      }
    }
  }

  /** ... and of equally good elements the last one wins. */
  lemma {:induction false} MaxIsLast<T(!new)>(rows: seq<T>, compare: (T, T) -> Ordering) returns (k: nat)
    requires Preorder(compare) && rows != []
    ensures k < |rows| && MaxOf(rows, compare) == Some(rows[k])
    ensures forall j :: k < j < |rows| ==> compare(rows[k], rows[j]) == Greater
  {
    var n := |rows| - 1;
    if n == 0 || compare(MaxOf(rows[..n], compare).value, rows[n]) != Greater {
      k := n;
    } else {
      k := MaxIsLast(rows[..n], compare);
    }
  }

  function Comparator(policy: RankingPolicy): (Facts, Facts) -> Ordering { (l, r) => CompareNodeQuality(policy, l, r) }

  function MaxBy(policy: RankingPolicy, rows: seq<Facts>): (best: Option<Facts>)
    ensures rows == [] <==> best.None?
    ensures best.Some? ==> best.value in rows
  {
    MaxOf(rows, Comparator(policy))
  }

  lemma {:induction false} WinnerDominates(policy: RankingPolicy, rows: seq<Facts>, r: Facts)
    requires r in rows
    ensures CompareNodeQuality(policy, r, MaxBy(policy, rows).value) != Greater
  {
    forall x, y, z
      ensures CompareNodeQuality(policy, y, x) == CompareNodeQuality(policy, x, y).Flip()
      ensures Chain(CompareNodeQuality(policy, x, y), CompareNodeQuality(policy, y, z),
                    CompareNodeQuality(policy, x, z))
    {
      CompareIsTotalPreorder(policy, x, y, z);
    }
    MaxDominates(rows, Comparator(policy), r);
  }

  predicate DistinctOrders(rows: seq<Facts>) {
    forall i, j :: 0 <= i < j < |rows| ==> rows[i].configOrder != rows[j].configOrder
  }

  /** With distinct config orders the winner depends only on which facts there are. */
  lemma {:induction false} WinnerIgnoresOrder(policy: RankingPolicy, rows: seq<Facts>, shuffled: seq<Facts>)
    requires DistinctOrders(rows)
    requires forall r :: r in rows <==> r in shuffled
    ensures MaxBy(policy, rows) == MaxBy(policy, shuffled)
  {
    if rows == [] {
      assert forall i :: 0 <= i < |shuffled| ==> shuffled[i] in rows;
    } else {
      assert rows[0] in shuffled;
      var a, b := MaxBy(policy, rows).value, MaxBy(policy, shuffled).value;
      WinnerDominates(policy, rows, b);
      WinnerDominates(policy, shuffled, a);
      CompareIsTotalPreorder(policy, a, b, a);
    }
  }

  // ---------------------------------------------------------------- which of two nodes is better

  /** The tiers from the best to none at all. */
  predicate TierAbove(a: Option<ReachabilityTier>, b: Option<ReachabilityTier>) {
    match a
    case Some(StableReachable) => b != Some(StableReachable)
    case Some(Reachable) => b in {Some(Degraded), Some(Unreachable), None}
    case Some(Degraded) => b in {Some(Unreachable), None}
    case Some(Unreachable) => b == None
    case None => false
  }

  /** A measured time beats a missing one, and a shorter one a longer one. */
  predicate Faster(a: Option<U64>, b: Option<U64>) { a.Some? && (b.None? || a.value < b.value) }

  /** A measured throughput beats a missing one, and a larger one a smaller one. */
  predicate Stronger(a: Option<U64>, b: Option<U64>) { a.Some? && (b.None? || a.value > b.value) }

  /** The share of successes; none of no attempts. */
  ghost function Share(successes: U64, attempts: U64): real {
    successes as real / (if attempts == 0 then 1 else attempts) as real
  }

  ghost function QuickShare(f: Facts): real { Share(f.recentQuickSuccesses, f.recentQuickRounds) }

  ghost function SustainedShare(f: Facts): real { Share(f.sustainedSuccesses, f.sustainedAttempts) }

  /** `l` is the better node: by tier, then by the policy's measures in their order, then by config order. */
  ghost predicate Better(policy: RankingPolicy, l: Facts, r: Facts) {
    TierAbove(l.reachability, r.reachability) ||
    (l.reachability == r.reachability &&
     match policy
     case LowLatency => BetterLatency(l, r)
     case Balanced => BetterBalance(l, r)
     case Throughput => BetterThroughput(l, r))
  }

  ghost predicate BetterLatency(l: Facts, r: Facts) {
    Faster(l.warmMedianMs, r.warmMedianMs) || (l.warmMedianMs == r.warmMedianMs &&
    (Faster(l.p95Ms, r.p95Ms) || (l.p95Ms == r.p95Ms &&
    (Faster(l.coldStartMs, r.coldStartMs) || (l.coldStartMs == r.coldStartMs &&
    (QuickShare(l) > QuickShare(r) || (QuickShare(l) == QuickShare(r) && l.configOrder < r.configOrder)))))))
  }

  ghost predicate BetterBalance(l: Facts, r: Facts) {
    QuickShare(l) > QuickShare(r) || (QuickShare(l) == QuickShare(r) &&
    (Faster(l.warmMedianMs, r.warmMedianMs) || (l.warmMedianMs == r.warmMedianMs &&
    (Faster(l.p95Ms, r.p95Ms) || (l.p95Ms == r.p95Ms &&
    (Stronger(l.throughput, r.throughput) || (l.throughput == r.throughput && l.configOrder < r.configOrder)))))))
  }

  ghost predicate BetterThroughput(l: Facts, r: Facts) {
    Stronger(l.throughput, r.throughput) || (l.throughput == r.throughput &&
    (SustainedShare(l) > SustainedShare(r) || (SustainedShare(l) == SustainedShare(r) &&
    (Faster(l.p95Ms, r.p95Ms) || (l.p95Ms == r.p95Ms &&
    (Faster(l.coldStartMs, r.coldStartMs) || (l.coldStartMs == r.coldStartMs && l.configOrder < r.configOrder)))))))
  }

  lemma {:induction false} QuotientsCompare(a: int, b: int, c: int, d: int)
    requires b > 0 && d > 0
    ensures a * d > c * b <==> a as real / b as real > c as real / d as real
    ensures a * d == c * b <==> a as real / b as real == c as real / d as real
  {
    var x, y := a as real / b as real, c as real / d as real;
    assert x * b as real == a as real && y * d as real == c as real;
    var k := b as real * d as real;
    assert k > 0.0;
    assert x * k == a as real * d as real && y * k == c as real * b as real;
    assert (a * d) as real == a as real * d as real && (c * b) as real == c as real * b as real;
    if x > y { assert x * k > y * k; }
    if x < y { assert x * k < y * k; }
  }

  lemma {:induction false} RatioIsShare(ls: U64, la: U64, rs: U64, ra: U64)
    ensures CompareRatioHigher(ls, la, rs, ra) == Greater <==> Share(ls, la) > Share(rs, ra)
    ensures CompareRatioHigher(ls, la, rs, ra) == Equal <==> Share(ls, la) == Share(rs, ra)
  {
    QuotientsCompare(ls, if la == 0 then 1 else la, rs, if ra == 0 then 1 else ra);
  }

  /** What each criterion says, in terms of the two measurements. */
  lemma {:induction false} CriteriaMeaning(l: Facts, r: Facts)
    ensures var c := CompareFacts(l, r);
      (c.tier == Greater <==> TierAbove(l.reachability, r.reachability)) &&
      (c.tier == Equal <==> l.reachability == r.reachability) &&
      (c.warmMedian == Greater <==> Faster(l.warmMedianMs, r.warmMedianMs)) &&
      (c.warmMedian == Equal <==> l.warmMedianMs == r.warmMedianMs) &&
      (c.p95 == Greater <==> Faster(l.p95Ms, r.p95Ms)) && (c.p95 == Equal <==> l.p95Ms == r.p95Ms) &&
      (c.coldStart == Greater <==> Faster(l.coldStartMs, r.coldStartMs)) &&
      (c.coldStart == Equal <==> l.coldStartMs == r.coldStartMs) &&
      (c.throughput == Greater <==> Stronger(l.throughput, r.throughput)) &&
      (c.throughput == Equal <==> l.throughput == r.throughput) &&
      (c.hasThroughput == Greater ==> c.throughput == Greater) &&
      (c.hasThroughput == Less ==> c.throughput == Less) &&
      (c.order == Greater <==> l.configOrder < r.configOrder)
  {
  }

  lemma {:induction false} SharesMeaning(l: Facts, r: Facts)
    ensures var c := CompareFacts(l, r);
      (c.quickRatio == Greater <==> QuickShare(l) > QuickShare(r)) &&
      (c.quickRatio == Equal <==> QuickShare(l) == QuickShare(r)) &&
      (c.sustainedRatio == Greater <==> SustainedShare(l) > SustainedShare(r)) &&
      (c.sustainedRatio == Equal <==> SustainedShare(l) == SustainedShare(r))
  {
    RatioIsShare(l.recentQuickSuccesses, l.recentQuickRounds, r.recentQuickSuccesses, r.recentQuickRounds);
    RatioIsShare(l.sustainedSuccesses, l.sustainedAttempts, r.sustainedSuccesses, r.sustainedAttempts);
  }

  lemma {:induction false} CriteriaInOrder(policy: RankingPolicy, c: Comparison)
    requires c.hasThroughput == Greater ==> c.throughput == Greater
    requires c.hasThroughput == Less ==> c.throughput == Less
    ensures FirstDecisive(Criteria(policy, c)) ==
            c.tier.Then(
              match policy
              case LowLatency => c.warmMedian.Then(c.p95.Then(c.coldStart.Then(c.quickRatio.Then(c.order))))
              case Balanced => c.quickRatio.Then(c.warmMedian.Then(c.p95.Then(c.throughput.Then(c.order))))
              case Throughput => c.throughput.Then(c.sustainedRatio.Then(c.p95.Then(c.coldStart.Then(c.order)))))
  {
    match policy
    case LowLatency => SixCriteria(c.tier, c.warmMedian, c.p95, c.coldStart, c.quickRatio, c.order);
    case Throughput => SixCriteria(c.tier, c.throughput, c.sustainedRatio, c.p95, c.coldStart, c.order);
    case Balanced =>
      SixCriteria(c.quickRatio, c.warmMedian, c.p95, c.hasThroughput, c.throughput, c.order);
      OneCriterion(c.tier, [c.quickRatio, c.warmMedian, c.p95, c.hasThroughput, c.throughput, c.order]);
      assert c.hasThroughput.Then(c.throughput.Then(c.order)) == c.throughput.Then(c.order);
  }

  lemma {:induction false} SixCriteria(a: Ordering, b: Ordering, c: Ordering, d: Ordering, e: Ordering, f: Ordering)
    ensures FirstDecisive([a, b, c, d, e, f]) == a.Then(b.Then(c.Then(d.Then(e.Then(f)))))
  {
    assert [f] + [] == [f];
    OneCriterion(e, [f]);
    OneCriterion(d, [e, f]);
    OneCriterion(c, [d, e, f]);
    OneCriterion(b, [c, d, e, f]);
    OneCriterion(a, [b, c, d, e, f]);
    OneCriterion(f, []);
  }

  lemma {:induction false} OneCriterion(first: Ordering, rest: seq<Ordering>)
    ensures FirstDecisive([first] + rest) == first.Then(FirstDecisive(rest))
  {
    assert ([first] + rest)[1..] == rest;
  }

  /** The comparison finds exactly the better node greater. */
  lemma {:induction false} GreaterIsBetter(policy: RankingPolicy, l: Facts, r: Facts)
    ensures CompareNodeQuality(policy, l, r) == Greater <==> Better(policy, l, r)
  {
    CriteriaMeaning(l, r);
    SharesMeaning(l, r);
    CriteriaInOrder(policy, CompareFacts(l, r));
  }

  /** No candidate is better than the chosen one. */
  lemma {:induction false} NoneIsBetter(policy: RankingPolicy, rows: seq<Facts>, r: Facts)
    requires r in rows
    ensures !Better(policy, r, MaxBy(policy, rows).value)
  {
    WinnerDominates(policy, rows, r);
    GreaterIsBetter(policy, r, MaxBy(policy, rows).value);
  }
}
