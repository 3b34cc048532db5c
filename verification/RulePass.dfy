/** One Private Access pass over a rule list (carrier rule, private-address rule, managed block) and
    why a second pass changes nothing. Rules are known only through the questions the pass asks of them. */
module RulePass {
  import opened Prelude
  import opened Json
  import opened Placement

  datatype Edit<!T(!new)> = Edit(
    carrier: Option<Shape<T>>,    // absent without carrier domains
    baseline: bool,               // also keep private addresses direct
    isPrivate: T -> bool, clash: T -> bool, privateRule: T,
    keep: T -> bool,              // not of the managed shape
    front: T -> bool, action: T -> bool,
    managed: seq<T>)              // the managed block; empty without targets
  {
    /** What the steps say about their own rules. */
    ghost predicate Basic() {
      isPrivate(privateRule) && (forall x :: x in managed ==> !keep(x)) && (carrier.Some? ==> carrier.value.Sound())
    }

    /** And what they may rely on about one another's rules. */
    ghost predicate Sound() {
      Basic() && (forall v :: isPrivate(v) ==> keep(v)) &&
      (carrier.Some? ==>
         var sh := carrier.value;
         sh.Inert(privateRule) && (forall x :: x in managed ==> sh.Inert(x)) &&
         (forall v :: sh.carrier(v) ==> !clash(v)) &&
         (|managed| > 0 ==> forall v :: sh.carrier(v) && sh.merge(v) == v ==> keep(v)) &&
         (forall v :: sh.bypass(v) || sh.hijack(v) ==> keep(v)))
    }

    /** Two kept rules that a carrier rule goes between and the private-address rule before. */
    ghost predicate Between(sh: Shape<T>, k: T, y: T) {
      clash(k) && keep(k) && !sh.carrier(k) && !sh.bypass(k) && !isPrivate(k) &&
      sh.bypass(y) && keep(y) && !sh.carrier(y) && !isPrivate(y)
    }

    /** The rules that the first two steps add stay, and are no bypass rules. */
    ghost predicate AddedStay(sh: Shape<T>) {
      keep(privateRule) && front(privateRule) && !sh.bypass(privateRule) &&
      keep(sh.added) && !isPrivate(sh.added) && !sh.bypass(sh.added)
    }
  }

  /** `iter().rposition(...)`, one past it, or 0. */
  function AfterLast<T>(s: seq<T>, p: T -> bool): (i: nat)
    ensures i <= |s|
  {
    if s == [] then 0 else if p(s[|s| - 1]) then |s| else AfterLast(s[..|s| - 1], p)
  }

  function ManagedIndex<T(!new)>(rules: seq<T>, ed: Edit<T>): (i: nat)
    ensures i <= |rules|
  {
    PositionOr(rules, ed.front, AfterLast(rules, ed.action))
  }

  function CarrierStep<T(!new)>(rules: seq<T>, ed: Edit<T>): seq<T> {
    match ed.carrier case Some(sh) => PlaceCarrier(rules, sh) case None => rules
  }

  function PrivateStep<T(!new)>(rules: seq<T>, ed: Edit<T>): seq<T> {
    if !ed.baseline || Position(rules, ed.isPrivate).Some? then rules
    else InsertAll(rules, PositionOr(rules, ed.clash, |rules|), [ed.privateRule])
  }

  function ManagedStep<T(!new)>(rules: seq<T>, ed: Edit<T>): seq<T> {
    if ed.managed == [] then rules
    else var kept := Retain(rules, ed.keep); InsertAll(kept, ManagedIndex(kept, ed), ed.managed)
  }

  function Pass<T(!new)>(rules: seq<T>, ed: Edit<T>): seq<T> {
    ManagedStep(PrivateStep(CarrierStep(rules, ed), ed), ed)
  }

  // ---------------------------------------------------------------- the steps one by one

  /** Nothing left for the carrier step to do. */
  ghost predicate CarrierDone<T(!new)>(s: seq<T>, ed: Edit<T>) {
    ed.carrier.None? || exists pre, c, post :: s == Around(pre, c, post) && Placed(ed.carrier.value, pre, c, post)
  }

  ghost predicate PrivateDone<T(!new)>(s: seq<T>, ed: Edit<T>) {
    ed.baseline ==> Has(s, ed.isPrivate)
  }

  lemma {:induction false} CarrierStepDone<T(!new)>(rules: seq<T>, ed: Edit<T>)
    requires ed.Sound()
    ensures CarrierDone(CarrierStep(rules, ed), ed)
  {
    if ed.carrier.Some? {
      var pre, c, post := CarrierSettles(ed.carrier.value, rules);
    }
  }

  lemma {:induction false} CarrierDoneIsFixed<T(!new)>(s: seq<T>, ed: Edit<T>)
    requires ed.Sound() && CarrierDone(s, ed)
    ensures CarrierStep(s, ed) == s
  {
    if ed.carrier.Some? {
      var pre, c, post :| s == Around(pre, c, post) && Placed(ed.carrier.value, pre, c, post);
      PlacedIsFixed(ed.carrier.value, pre, c, post);
    }
  }

  lemma {:induction false} InsertBefore<T(!new)>(pre: seq<T>, c: T, post: seq<T>, i: nat, xs: seq<T>)
    requires i <= |pre|
    ensures InsertAll(Around(pre, c, post), i, xs) == Around(pre[..i] + (xs + pre[i..]), c, post)
  {
    var s := Around(pre, c, post);
    assert s[..i] == pre[..i] && s[i..] == pre[i..] + ([c] + post);
  }

  lemma {:induction false} InsertAfter<T(!new)>(pre: seq<T>, c: T, post: seq<T>, i: nat, xs: seq<T>)
    requires i <= |post|
    ensures InsertAll(Around(pre, c, post), |pre| + 1 + i, xs) == Around(pre, c, post[..i] + (xs + post[i..]))
  {
    var s, n := Around(pre, c, post), |pre| + 1 + i;
    assert s[..n] == pre + ([c] + post[..i]) && s[n..] == post[i..];
  }

  lemma {:induction false} PrivateStepDone<T(!new)>(s: seq<T>, ed: Edit<T>)
    requires ed.Sound() && CarrierDone(s, ed)
    ensures PrivateDone(PrivateStep(s, ed), ed) && CarrierDone(PrivateStep(s, ed), ed)
  {
    PositionHas(s, ed.isPrivate);
    if ed.baseline && Position(s, ed.isPrivate).None? {
      var i := PositionOr(s, ed.clash, |s|);
      assert ed.privateRule in PrivateStep(s, ed);
      if ed.carrier.Some? {
        var sh := ed.carrier.value;
        var pre, c, post :| s == Around(pre, c, post) && Placed(sh, pre, c, post);
        assert s[|pre|] == c;
        PlacedInsert(sh, pre, c, post, i, [ed.privateRule]);
      }
    }
  }

  lemma {:induction false} PlacedInsert<T(!new)>(sh: Shape<T>, pre: seq<T>, c: T, post: seq<T>, i: nat, xs: seq<T>)
    requires sh.Sound() && Placed(sh, pre, c, post) && (forall x :: x in xs ==> sh.Inert(x)) &&
             i <= |pre| + 1 + |post| && i != |pre|
    ensures exists pre', post' ::
              InsertAll(Around(pre, c, post), i, xs) == Around(pre', c, post') && Placed(sh, pre', c, post')
  {
    if i < |pre| {
      InsertBefore(pre, c, post, i, xs);
      PlacedAdded(sh, pre, c, post, i, xs);
    } else {
      InsertAfter(pre, c, post, i - |pre| - 1, xs);
      PlacedAddedAfter(sh, pre, c, post, i - |pre| - 1, xs);
    }
  }

  /** Dropping the managed shape undoes neither of the first two steps. */
  lemma {:induction false} KeptIsDone<T(!new)>(s: seq<T>, ed: Edit<T>)
    requires ed.Sound() && CarrierDone(s, ed) && PrivateDone(s, ed) && |ed.managed| > 0
    ensures var kept := Retain(s, ed.keep);
            CarrierDone(kept, ed) && PrivateDone(kept, ed) && Retain(kept, ed.keep) == kept
  {
    var kept := Retain(s, ed.keep);
    forall v ensures v in kept <==> v in s && ed.keep(v) { RetainMembers(s, ed.keep, v); }
    RetainAll(kept, ed.keep);
    if ed.carrier.Some? {
      var pre, c, post :| s == Around(pre, c, post) && Placed(ed.carrier.value, pre, c, post);
      RetainAround(pre, c, post, ed.keep);
      PlacedRetained(ed.carrier.value, pre, c, post, ed.keep);
    }
  }

  lemma {:induction false} InsertedGo<T(!new)>(kept: seq<T>, i: nat, xs: seq<T>, keep: T -> bool)
    requires i <= |kept| && Retain(kept, keep) == kept && forall x :: x in xs ==> !keep(x)
    ensures Retain(InsertAll(kept, i, xs), keep) == kept
  {
    Rejoin(kept, i);
    RetainNone(xs, keep);
    RetainMiddle(kept[..i], xs, kept[i..], keep);
  }

  /** The carrier step may step over the managed block; what is outside the block does not move. */
  lemma {:induction false} CarrierOverManaged<T(!new)>(kept: seq<T>, i: nat, ed: Edit<T>)
    requires ed.Sound() && CarrierDone(kept, ed) && Retain(kept, ed.keep) == kept && i <= |kept| &&
             |ed.managed| > 0
    ensures Retain(CarrierStep(InsertAll(kept, i, ed.managed), ed), ed.keep) == kept
  {
    InsertedGo(kept, i, ed.managed, ed.keep);
    if ed.carrier.Some? {
      var sh := ed.carrier.value;
      var pre, c, post :| kept == Around(pre, c, post) && Placed(sh, pre, c, post);
      if i != |pre| {
        PlacedInsert(sh, pre, c, post, i, ed.managed);
        CarrierDoneIsFixed(InsertAll(kept, i, ed.managed), ed);
      } else {
        InsertRight(pre, c, post, ed.managed);
        PlacedOverAdded(sh, pre, c, post, ed.managed, ed.keep);
      }
    }
  }

  lemma {:induction false} InsertRight<T(!new)>(pre: seq<T>, c: T, post: seq<T>, xs: seq<T>)
    ensures InsertAll(Around(pre, c, post), |pre|, xs) == Around(pre + xs, c, post)
  {
    InsertBefore(pre, c, post, |pre|, xs);
    assert pre[..|pre|] + (xs + pre[|pre|..]) == pre + xs;
  }

  // ---------------------------------------------------------------- whole passes

  lemma {:induction false} StillPrivate<T(!new)>(kept: seq<T>, s: seq<T>, ed: Edit<T>)
    requires PrivateDone(kept, ed) && Retain(s, ed.keep) == kept
    ensures PrivateStep(s, ed) == s
  {
    forall v ensures v in kept <==> v in s && ed.keep(v) { RetainMembers(s, ed.keep, v); }
    PositionHas(s, ed.isPrivate);
  }

  /** A second pass over the rules changes nothing. */
  lemma {:induction false} PassIsStable<T(!new)>(rules: seq<T>, ed: Edit<T>)
    requires ed.Sound()
    ensures Pass(Pass(rules, ed), ed) == Pass(rules, ed)
  {
    var s := PrivateStep(CarrierStep(rules, ed), ed);
    CarrierStepDone(rules, ed);
    PrivateStepDone(CarrierStep(rules, ed), ed);
    if ed.managed == [] {
      CarrierDoneIsFixed(s, ed);
      PositionHas(s, ed.isPrivate);
    } else {
      var kept := Retain(s, ed.keep);
      KeptIsDone(s, ed);
      CarrierOverManaged(kept, ManagedIndex(kept, ed), ed);
      StillPrivate(kept, CarrierStep(Pass(rules, ed), ed), ed);
    }
  }

  // ---------------------------------------------------------------- passes that are not stable

  /** If the carrier step of the second pass merges into a rule with only managed rules before it, and what it
      makes of it stays, that rule comes first afterwards. */
  lemma {:induction false} MergedComesFirst<T(!new)>(once: seq<T>, ed: Edit<T>, j: nat, p: T)
    requires ed.carrier.Some? && |ed.managed| > 0 && j < |once| && p in once
    requires var sh := ed.carrier.value;
             Position(once, sh.carrier) == Some(j) && j <= Desired(once, sh) && sh.merge(once[j]) != once[j] &&
             ed.keep(sh.merge(once[j])) && !ed.front(sh.merge(once[j]))
    requires ed.isPrivate(p) && ed.keep(p) && ed.front(p) && p != once[j]
    requires forall i :: 0 <= i < j ==> !ed.keep(once[i])
    ensures Pass(once, ed) != once
  {
    var c := ed.carrier.value.merge(once[j]);
    var s := once[j := c];
    var k :| 0 <= k < |once| && once[k] == p;
    assert s[k] == p && p in s;
    PositionHas(s, ed.isPrivate);
    assert PrivateStep(CarrierStep(once, ed), ed) == s;
    FirstKept(s, ed, j, p);
  }

  lemma {:induction false} FirstKept<T(!new)>(s: seq<T>, ed: Edit<T>, j: nat, p: T)
    requires |ed.managed| > 0 && j < |s| && ed.keep(s[j]) && !ed.front(s[j])
    requires p in s && ed.keep(p) && ed.front(p) && forall i :: 0 <= i < j ==> !ed.keep(s[i])
    ensures ManagedStep(s, ed) != [] && ManagedStep(s, ed)[0] == s[j]
  {
    assert s == s[..j] + ([s[j]] + s[j + 1..]);
    RetainNone(s[..j], ed.keep);
    RetainAppend(s[..j], [s[j]] + s[j + 1..], ed.keep);
    var kept := Retain(s, ed.keep);
    assert kept[0] == s[j];
    RetainMembers(s, ed.keep, p);
    PositionHas(kept, ed.front);
  }

  /** A settled carrier rule of the managed shape is merged into and then dropped; the second pass finds the
      other one. */
  lemma {:induction false} DroppedCarrierChanges<T(!new)>(ed: Edit<T>, f: T, x: T)
    requires ed.Basic() && ed.baseline && ed.carrier.Some? && |ed.managed| > 0
    requires ed.keep(ed.privateRule) && ed.front(ed.privateRule)
    requires var sh := ed.carrier.value;
             sh.carrier(f) && sh.merge(f) == f && !ed.keep(f) && sh.carrier(x) && sh.merge(x) != x &&
             !ed.front(sh.merge(x)) && ed.keep(sh.merge(x))
    requires forall v | v in {f, x} :: !ed.isPrivate(v) && !ed.clash(v) && !ed.front(v)
    requires ed.keep(x)
    ensures Pass(Pass([f, x], ed), ed) != Pass([f, x], ed)
  {
    var sh, rules, p := ed.carrier.value, [f, x], ed.privateRule;
    assert f in {f, x} && x in {f, x};
    PositionAt(rules, sh.carrier, 0);
    assert CarrierStep(rules, ed) == rules;
    PositionHas(rules, ed.isPrivate);
    PositionHas(rules, ed.clash);
    assert PrivateStep(rules, ed) == [f, x, p];
    var kept := [x, p];
    assert Retain([f, x, p], ed.keep) == kept by {
      assert [f, x, p] == [f] + kept;
      RetainNone([f], ed.keep);
      RetainAll(kept, ed.keep);
      RetainAppend([f], kept, ed.keep);
    }
    PositionAt(kept, ed.front, 1);
    var once := Pass(rules, ed);
    assert once == [x] + ed.managed + [p];
    PositionAt(once, sh.carrier, 0);
    MergedComesFirst(once, ed, 0, p);
  }

  lemma {:induction false} FirstPassOver<T(!new)>(ed: Edit<T>, k: T, y: T)
    requires ed.baseline && ed.carrier.Some? && |ed.managed| > 0
    requires ed.Between(ed.carrier.value, k, y) && ed.AddedStay(ed.carrier.value)
    ensures Pass([k, y], ed) == ed.managed + [ed.privateRule, k, ed.carrier.value.added, y]
  {
    CarrierBetween(ed.carrier.value, k, y);
    PrivateFirst(ed, k, ed.carrier.value.added, y);
    ManagedFirst(ed, k, ed.carrier.value.added, y);
  }

  lemma {:induction false} PrivateFirst<T(!new)>(ed: Edit<T>, k: T, c: T, y: T)
    requires ed.baseline && ed.clash(k) && !ed.isPrivate(k) && !ed.isPrivate(c) && !ed.isPrivate(y)
    ensures PrivateStep([k, c, y], ed) == [ed.privateRule, k, c, y]
  {
    PositionHas([k, c, y], ed.isPrivate);
    PositionAt([k, c, y], ed.clash, 0);
  }

  lemma {:induction false} ManagedFirst<T(!new)>(ed: Edit<T>, k: T, c: T, y: T)
    requires |ed.managed| > 0 && ed.keep(ed.privateRule) && ed.front(ed.privateRule)
    requires ed.keep(k) && ed.keep(c) && ed.keep(y)
    ensures ManagedStep([ed.privateRule, k, c, y], ed) == ed.managed + [ed.privateRule, k, c, y]
  {
    RetainAll([ed.privateRule, k, c, y], ed.keep);
    PositionAt([ed.privateRule, k, c, y], ed.front, 0);
  }

  lemma {:induction false} CarrierBetween<T(!new)>(sh: Shape<T>, k: T, y: T)
    requires !sh.carrier(k) && !sh.carrier(y) && !sh.bypass(k) && sh.bypass(y)
    ensures PlaceCarrier([k, y], sh) == [k, sh.added, y]
  {
    PositionHas([k, y], sh.carrier);
    PositionAt([k, y], sh.bypass, 1);
  }

  /** The block that comes before the carrier rule holds a rule that the second pass takes for it. */
  lemma {:induction false} StolenTargetChanges<T(!new)>(ed: Edit<T>, k: T, y: T, j: nat)
    requires ed.Basic() && ed.baseline && ed.carrier.Some? && j < |ed.managed|
    requires ed.Between(ed.carrier.value, k, y) && ed.AddedStay(ed.carrier.value)
    requires var sh, d := ed.carrier.value, ed.managed[j];
             Position(ed.managed, sh.carrier) == Some(j) && sh.merge(d) != d && ed.keep(sh.merge(d)) &&
             !ed.front(sh.merge(d))
    requires forall v :: v in ed.managed ==> !ed.carrier.value.bypass(v)
    ensures Pass(Pass([k, y], ed), ed) != Pass([k, y], ed)
  {
    var sh, p, m := ed.carrier.value, ed.privateRule, ed.managed;
    FirstPassOver(ed, k, y);
    var once := m + [p, k, sh.added, y];
    assert once[|m|] == p;
    PositionAt(once, sh.carrier, j);
    LastOnly(m, p, k, sh.added, y, sh.bypass);
    MergedComesFirst(once, ed, j, p);
  }

  lemma {:induction false} LastOnly<T>(m: seq<T>, p: T, k: T, c: T, y: T, q: T -> bool)
    requires (forall v :: v in m ==> !q(v)) && !q(p) && !q(k) && !q(c) && q(y)
    ensures Position(m + [p, k, c, y], q) == Some(|m| + 3)
  {
    PositionAt(m + [p, k, c, y], q, |m| + 3);
  }

  /** The managed block is all that is left of the managed shape. */
  lemma {:induction false} OnlyManagedRemain<T(!new)>(rules: seq<T>, ed: Edit<T>, drop: T -> bool)
    requires ed.Basic() && ed.managed != [] && forall v :: drop(v) <==> !ed.keep(v)
    ensures Retain(Pass(rules, ed), drop) == ed.managed
  {
    var s := PrivateStep(CarrierStep(rules, ed), ed);
    var kept := Retain(s, ed.keep);
    var i := ManagedIndex(kept, ed);
    forall v ensures v in kept <==> v in s && ed.keep(v) { RetainMembers(s, ed.keep, v); }
    OnlyMiddleRemains(kept[..i], ed.managed, kept[i..], drop);
  }

  lemma {:induction false} OnlyMiddleRemains<T(!new)>(a: seq<T>, xs: seq<T>, b: seq<T>, p: T -> bool)
    requires (forall v :: v in a || v in b ==> !p(v)) && forall v :: v in xs ==> p(v)
    ensures Retain(a + xs + b, p) == xs
  {
    RetainMiddle(a, xs, b, p);
    RetainNone(a, p);
    RetainNone(b, p);
    RetainAll(xs, p);
  }

  lemma {:induction false} InsertedUnseen<T(!new)>(s: seq<T>, i: nat, xs: seq<T>, other: T -> bool)
    requires i <= |s| && forall x :: x in xs ==> !other(x)
    ensures Retain(InsertAll(s, i, xs), other) == Retain(s, other)
  {
    Rejoin(s, i);
    RetainNone(xs, other);
    RetainMiddle(s[..i], xs, s[i..], other);
  }

  lemma {:induction false} RetainTwice<T(!new)>(s: seq<T>, keep: T -> bool, other: T -> bool)
    requires forall v :: other(v) ==> keep(v)
    ensures Retain(Retain(s, keep), other) == Retain(s, other)
  {
    if s != [] {
      RetainTwice(s[1..], keep, other);
      var first := if keep(s[0]) then [s[0]] else [];
      RetainAppend(first, Retain(s[1..], keep), other);
      assert first != [] ==> first[1..] == [];
      assert Retain(first, other) == if other(s[0]) then [s[0]] else [];
    }
  }

  lemma {:induction false} CarrierUnseen<T(!new)>(rules: seq<T>, sh: Shape<T>, other: T -> bool)
    requires sh.Sound() && forall v :: other(v) ==> !sh.carrier(v)
    ensures Retain(PlaceCarrier(rules, sh), other) == Retain(rules, other)
  {
    var pre, c, post := CarrierSettles(sh, rules);
    AroundUnseen(pre, c, post, other);
    if Position(rules, sh.carrier).Some? {
      var e := Position(rules, sh.carrier).value;
      assert rules == Around(rules[..e], rules[e], rules[e + 1..]);
      AroundUnseen(rules[..e], rules[e], rules[e + 1..], other);
    }
  }

  lemma {:induction false} AroundUnseen<T(!new)>(pre: seq<T>, c: T, post: seq<T>, other: T -> bool)
    requires !other(c)
    ensures Retain(Around(pre, c, post), other) == Retain(pre + post, other)
  {
    InsertedUnseen(pre + post, |pre|, [c], other);
    assert InsertAll(pre + post, |pre|, [c]) == Around(pre, c, post);
  }

  /** Rules that are none of the three kinds keep their order, and none is lost or added. */
  lemma {:induction false} BystandersKeepOrder<T(!new)>(rules: seq<T>, ed: Edit<T>, other: T -> bool)
    requires ed.Basic()
    requires forall v :: other(v) ==>
             ed.keep(v) && !ed.isPrivate(v) && (ed.carrier.Some? ==> !ed.carrier.value.carrier(v))
    ensures Retain(Pass(rules, ed), other) == Retain(rules, other)
  {
    if ed.carrier.Some? { CarrierUnseen(rules, ed.carrier.value, other); }
    var s1 := CarrierStep(rules, ed);
    var s2 := PrivateStep(s1, ed);
    InsertedUnseen(s1, PositionOr(s1, ed.clash, |s1|), [ed.privateRule], other);
    var kept := Retain(s2, ed.keep);
    RetainTwice(s2, ed.keep, other);
    InsertedUnseen(kept, ManagedIndex(kept, ed), ed.managed, other);
  }

  /** Where the rules of a pass come from. */
  lemma {:induction false} PassMembers<T(!new)>(rules: seq<T>, ed: Edit<T>, v: T)
    requires v in Pass(rules, ed)
    ensures v in rules || v == ed.privateRule || v in ed.managed ||
            (ed.carrier.Some? &&
             (v == ed.carrier.value.added || exists r :: r in rules && v == ed.carrier.value.merge(r)))
  {
    var s1 := CarrierStep(rules, ed);
    var s2 := PrivateStep(s1, ed);
    RetainMembers(s2, ed.keep, v);
    assert v in s1 || v == ed.privateRule || v in ed.managed;
    if v in s1 && ed.carrier.Some? { CarrierMembers(rules, ed.carrier.value, v); }
  }

  lemma {:induction false} CarrierMembers<T(!new)>(rules: seq<T>, sh: Shape<T>, v: T)
    requires v in PlaceCarrier(rules, sh)
    ensures v in rules || v == sh.added || exists r :: r in rules && v == sh.merge(r)
  {
  }

  /** With carrier domains, a pass leaves a carrier rule. */
  lemma {:induction false} CarrierAppears<T(!new)>(rules: seq<T>, ed: Edit<T>)
    requires ed.Sound() && ed.carrier.Some?
    ensures Has(Pass(rules, ed), ed.carrier.value.carrier)
  {
    var pre, c, post := CarrierSettles(ed.carrier.value, rules);
    var s1 := CarrierStep(rules, ed);
    var s2 := PrivateStep(s1, ed);
    assert c in s1 && c in s2;
    RetainMembers(s2, ed.keep, c);
    assert c in Pass(rules, ed);
  }

  /** What a pass leaves outside the managed block. */
  function Outside<T(!new)>(rules: seq<T>, ed: Edit<T>): seq<T> {
    if ed.managed == [] then rules else Retain(rules, ed.keep)
  }

  lemma {:induction false} OutsidePass<T(!new)>(rules: seq<T>, ed: Edit<T>)
    requires ed.Sound()
    ensures var out := Outside(Pass(rules, ed), ed);
            CarrierDone(out, ed) && PrivateDone(out, ed) && Outside(out, ed) == out &&
            (ed.managed != [] ==> Pass(rules, ed) == InsertAll(out, ManagedIndex(out, ed), ed.managed))
  {
    var s := PrivateStep(CarrierStep(rules, ed), ed);
    CarrierStepDone(rules, ed);
    PrivateStepDone(CarrierStep(rules, ed), ed);
    if ed.managed != [] {
      KeptIsDone(s, ed);
      var kept := Retain(s, ed.keep);
      InsertedGo(kept, ManagedIndex(kept, ed), ed.managed, ed.keep);
    }
  }

  lemma {:induction false} CarrierDoneIff<T(!new)>(s: seq<T>, ed: Edit<T>)
    requires ed.Sound()
    ensures CarrierDone(s, ed) <==> CarrierStep(s, ed) == s
  {
    if CarrierDone(s, ed) { CarrierDoneIsFixed(s, ed); }
    CarrierStepDone(s, ed);
  }

  /** A pass with another carrier outbound changes nothing if and only if its carrier step has nothing to do
      on the rules outside the managed block. */
  lemma {:induction false} OtherPassIff<T(!new)>(rules: seq<T>, ed: Edit<T>, next: Edit<T>)
    requires ed.Sound() && next.Sound() && next == ed.(carrier := next.carrier)
    ensures var once := Pass(rules, ed);
            Pass(once, next) == once <==> CarrierStep(Outside(once, ed), next) == Outside(once, ed)
  {
    var once := Pass(rules, ed);
    var out := Outside(once, ed);
    OutsidePass(rules, ed);
    OutsidePass(once, next);
    CarrierDoneIff(out, next);
    if Pass(once, next) == once {
      assert Outside(Pass(once, next), next) == out;
    }
    if CarrierDone(out, next) {
      if ed.managed == [] {
        PositionHas(out, ed.isPrivate);
      } else {
        CarrierOverManaged(out, ManagedIndex(out, next), next);
        StillPrivate(out, CarrierStep(once, next), next);
      }
    }
  }
}
