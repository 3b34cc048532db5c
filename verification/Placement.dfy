/** Where the Private Access carrier rule goes in a rule list, independent of what rules look like:
    before the bypass rule, else right after DNS hijacking, else first. */
module Placement {
  import opened Prelude
  import opened Json

  /** What the placement needs to know about rules. */
  datatype Shape<!T(!new)> = Shape(bypass: T -> bool, hijack: T -> bool, carrier: T -> bool, merge: T -> T, added: T)
  {
    /** The carrier rule is never a bypass or hijack rule, and merging into it settles at once. */
    ghost predicate Sound() {
      carrier(added) && merge(added) == added &&
      forall v :: carrier(v) ==> !bypass(v) && !hijack(v) && carrier(merge(v)) && merge(merge(v)) == merge(v)
    }

    ghost predicate Inert(v: T) { !bypass(v) && !hijack(v) && !carrier(v) }
  }

  function Desired<T(!new)>(rules: seq<T>, sh: Shape<T>): (d: nat)
    ensures d <= |rules|
  {
    match Position(rules, sh.bypass)
    case Some(i) => i
    case None => match Position(rules, sh.hijack) case Some(i) => i + 1 case None => 0
  }

  /** Merge into the first carrier rule and pull it up when it stands too late, or add a new one. */
  function PlaceCarrier<T(!new)>(rules: seq<T>, sh: Shape<T>): seq<T> {
    var d := Desired(rules, sh);
    match Position(rules, sh.carrier)
    case Some(e) =>
      if e > d then rules[..d] + ([sh.merge(rules[e])] + (rules[d..e] + rules[e + 1..]))
      else rules[e := sh.merge(rules[e])]
    case None => rules[..d] + ([sh.added] + rules[d..])
  }

  ghost predicate Has<T(!new)>(s: seq<T>, p: T -> bool) { exists v :: v in s && p(v) }

  /** `c` is the first carrier rule, settled, and stands early enough. */
  ghost predicate Placed<T(!new)>(sh: Shape<T>, pre: seq<T>, c: T, post: seq<T>) {
    sh.carrier(c) && sh.merge(c) == c && !Has(pre, sh.carrier) &&
    if Has(pre + post, sh.bypass) then !Has(pre, sh.bypass)
    else if Has(pre + post, sh.hijack) then forall i :: 0 <= i < |pre| - 1 ==> !sh.hijack(pre[i])
    else pre == []
  }

  function Around<T(!new)>(pre: seq<T>, c: T, post: seq<T>): seq<T> { pre + ([c] + post) }

  lemma {:induction false} AroundHas<T(!new)>(pre: seq<T>, c: T, post: seq<T>, p: T -> bool)
    requires !p(c)
    ensures Has(Around(pre, c, post), p) <==> Has(pre + post, p)
  {
    assert forall v :: v in Around(pre, c, post) <==> v == c || v in pre + post;
  }

  lemma {:induction false} PositionHas<T(!new)>(s: seq<T>, p: T -> bool)
    ensures Position(s, p).Some? <==> Has(s, p)
    ensures Position(s, p).Some? ==> !Has(s[..Position(s, p).value], p)
  {
    if Position(s, p).Some? { assert s[Position(s, p).value] in s; }
  }

  /** The index the source wants, seen from a carrier rule at `|pre|`. */
  lemma {:induction false} DesiredAround<T(!new)>(sh: Shape<T>, pre: seq<T>, c: T, post: seq<T>)
    requires sh.Sound() && sh.carrier(c) && sh.merge(c) == c && !Has(pre, sh.carrier)
    ensures Placed(sh, pre, c, post) <==> |pre| <= Desired(Around(pre, c, post), sh)
  {
    var s := Around(pre, c, post);
    PositionHas(s, sh.bypass);
    PositionHas(s, sh.hijack);
    AroundHas(pre, c, post, sh.bypass);
    AroundHas(pre, c, post, sh.hijack);
    assert forall i :: 0 <= i < |pre| ==> s[i] == pre[i];
    if Has(pre + post, sh.bypass) {
      FirstIn(pre, [c] + post, sh.bypass);
    } else if Has(pre + post, sh.hijack) {
      if pre != [] {
        var front := pre[..|pre| - 1];
        Regroup(front, [pre[|pre| - 1]], [c] + post);
        assert pre == front + [pre[|pre| - 1]];
        FirstIn(front, [pre[|pre| - 1]] + ([c] + post), sh.hijack);
        assert Has(front, sh.hijack) <==> exists i :: 0 <= i < |pre| - 1 && sh.hijack(pre[i]);
      }
    }
  }

  lemma {:induction false} FirstIn<T(!new)>(a: seq<T>, b: seq<T>, p: T -> bool)
    requires Has(a + b, p)
    ensures Position(a + b, p).Some? && (|a| <= Position(a + b, p).value <==> !Has(a, p))
  {
    PositionHas(a + b, p);
    var i := Position(a + b, p).value;
    assert forall k :: 0 <= k < |a| ==> a[k] == (a + b)[k];
    if i < |a| { assert a[i] in a; }
  }

  lemma {:induction false} CarrierAt<T(!new)>(sh: Shape<T>, pre: seq<T>, c: T, post: seq<T>)
    requires sh.carrier(c) && !Has(pre, sh.carrier)
    ensures Position(Around(pre, c, post), sh.carrier) == Some(|pre|)
  {
    PositionAt(Around(pre, c, post), sh.carrier, |pre|);
  }

  /** A placed carrier rule stays where it is. */
  lemma {:induction false} PlacedIsFixed<T(!new)>(sh: Shape<T>, pre: seq<T>, c: T, post: seq<T>)
    requires sh.Sound() && Placed(sh, pre, c, post)
    ensures PlaceCarrier(Around(pre, c, post), sh) == Around(pre, c, post)
  {
    CarrierAt(sh, pre, c, post);
    DesiredAround(sh, pre, c, post);
    var s := Around(pre, c, post);
    assert s[|pre| := c] == s;
  }

  /** After one pass the carrier rule is placed, and everything else is in its old order. */
  lemma {:induction false} CarrierSettles<T(!new)>(sh: Shape<T>, rules: seq<T>)
      returns (pre: seq<T>, c: T, post: seq<T>)
    requires sh.Sound()
    ensures PlaceCarrier(rules, sh) == Around(pre, c, post) && Placed(sh, pre, c, post)
    ensures Position(rules, sh.carrier).None? ==> pre + post == rules
    ensures Position(rules, sh.carrier).Some? ==>
              var e := Position(rules, sh.carrier).value; pre + post == rules[..e] + rules[e + 1..]
  {
    match Position(rules, sh.carrier)
    case None =>
      var d := Desired(rules, sh);
      pre, c, post := rules[..d], sh.added, rules[d..];
      AddedIsPlaced(sh, rules);
    case Some(e) =>
      var d := Desired(rules, sh);
      c := sh.merge(rules[e]);
      if e > d {
        pre, post := rules[..d], rules[d..e] + rules[e + 1..];
        PulledIsPlaced(sh, rules, e);
      } else {
        pre, post := rules[..e], rules[e + 1..];
        MergedIsPlaced(sh, rules, e);
      }
  }

  lemma {:induction false} AddedIsPlaced<T(!new)>(sh: Shape<T>, rules: seq<T>)
    requires sh.Sound() && Position(rules, sh.carrier).None?
    ensures var d := Desired(rules, sh);
            rules[..d] + rules[d..] == rules && Placed(sh, rules[..d], sh.added, rules[d..])
  {
    var d := Desired(rules, sh);
    PositionHas(rules, sh.carrier);
    Rejoin(rules, d);
    if Has(rules[..d], sh.carrier) { FrontHas(rules, d, sh.carrier); }
    EarlyEnough(sh, rules, d, rules[..d], rules[d..]);
  }

  lemma {:induction false} PulledIsPlaced<T(!new)>(sh: Shape<T>, rules: seq<T>, e: nat)
    requires sh.Sound() && Position(rules, sh.carrier) == Some(e) && e > Desired(rules, sh)
    ensures var d := Desired(rules, sh);
            var pre, post := rules[..d], rules[d..e] + rules[e + 1..];
            pre + post == rules[..e] + rules[e + 1..] && Placed(sh, pre, sh.merge(rules[e]), post)
  {
    var d := Desired(rules, sh);
    var pre, post := rules[..d], rules[d..e] + rules[e + 1..];
    assert rules[..e] == rules[..d] + rules[d..e];
    Regroup(rules[..d], rules[d..e], rules[e + 1..]);
    PositionHas(rules, sh.carrier);
    assert forall v :: v in pre ==> v in rules[..e];
    OthersHave(rules, e, sh.bypass);
    OthersHave(rules, e, sh.hijack);
    EarlyEnough(sh, rules, d, pre, post);
  }

  lemma {:induction false} MergedIsPlaced<T(!new)>(sh: Shape<T>, rules: seq<T>, e: nat)
    requires sh.Sound() && Position(rules, sh.carrier) == Some(e) && e <= Desired(rules, sh)
    ensures var pre, post := rules[..e], rules[e + 1..];
            rules[e := sh.merge(rules[e])] == Around(pre, sh.merge(rules[e]), post) &&
            Placed(sh, pre, sh.merge(rules[e]), post)
  {
    PositionHas(rules, sh.carrier);
    OthersHave(rules, e, sh.bypass);
    OthersHave(rules, e, sh.hijack);
    EarlyEnough(sh, rules, e, rules[..e], rules[e + 1..]);
  }

  lemma {:induction false} FrontHas<T(!new)>(s: seq<T>, n: nat, p: T -> bool)
    requires n <= |s| && Has(s[..n], p)
    ensures Has(s, p)
  {
    var v :| v in s[..n] && p(v);
    assert v in s;
  }

  lemma {:induction false} OthersHave<T(!new)>(rules: seq<T>, e: nat, p: T -> bool)
    requires e < |rules| && !p(rules[e])
    ensures Has(rules[..e] + rules[e + 1..], p) <==> Has(rules, p)
  {
    assert rules == Around(rules[..e], rules[e], rules[e + 1..]);
    AroundHas(rules[..e], rules[e], rules[e + 1..], p);
  }

  /** A front no longer than the desired index meets the placement conditions. */
  lemma {:induction false} EarlyEnough<T(!new)>(sh: Shape<T>, rules: seq<T>, n: nat, pre: seq<T>, post: seq<T>)
    requires n <= Desired(rules, sh) && pre == rules[..n]
    requires Has(pre + post, sh.bypass) <==> Has(rules, sh.bypass)
    requires Has(pre + post, sh.hijack) <==> Has(rules, sh.hijack)
    ensures if Has(pre + post, sh.bypass) then !Has(pre, sh.bypass)
            else if Has(pre + post, sh.hijack) then forall i :: 0 <= i < |pre| - 1 ==> !sh.hijack(pre[i])
            else pre == []
  {
    PositionHas(rules, sh.bypass);
    PositionHas(rules, sh.hijack);
    if Has(rules, sh.bypass) {
      forall v | v in pre ensures !sh.bypass(v) {
        var k :| 0 <= k < |pre| && pre[k] == v;
        assert v == rules[k];
      }
    }
  }

  // ---------------------------------------------------------------- other edits

  lemma {:induction false} RetainHas<T(!new)>(s: seq<T>, keep: T -> bool, p: T -> bool)
    requires forall v :: v in s && p(v) ==> keep(v)
    ensures Has(Retain(s, keep), p) <==> Has(s, p)
  {
    forall v ensures v in Retain(s, keep) <==> v in s && keep(v) { RetainMembers(s, keep, v); }
  }

  lemma {:induction false} RetainAround<T(!new)>(pre: seq<T>, c: T, post: seq<T>, keep: T -> bool)
    requires keep(c)
    ensures Retain(Around(pre, c, post), keep) == Around(Retain(pre, keep), c, Retain(post, keep))
  {
    RetainAppend(pre, [c] + post, keep);
    assert ([c] + post)[1..] == post;
  }

  /** Dropping rules that are neither the carrier rule nor what it is placed by keeps it placed. */
  lemma {:induction false} PlacedRetained<T(!new)>(sh: Shape<T>, pre: seq<T>, c: T, post: seq<T>, keep: T -> bool)
    requires sh.Sound() && Placed(sh, pre, c, post) && keep(c)
    requires forall v :: sh.bypass(v) || sh.hijack(v) ==> keep(v)
    ensures Placed(sh, Retain(pre, keep), c, Retain(post, keep))
  {
    RetainAppend(pre, post, keep);
    RetainHas(pre + post, keep, sh.bypass);
    RetainHas(pre + post, keep, sh.hijack);
    forall v ensures v in Retain(pre, keep) <==> v in pre && keep(v) { RetainMembers(pre, keep, v); }
    if forall i :: 0 <= i < |pre| - 1 ==> !sh.hijack(pre[i]) { FrontStaysFree(pre, keep, sh.hijack); }
  }

  lemma {:induction false} FrontStaysFree<T(!new)>(pre: seq<T>, keep: T -> bool, p: T -> bool)
    requires forall i :: 0 <= i < |pre| - 1 ==> !p(pre[i])
    ensures forall i :: 0 <= i < |Retain(pre, keep)| - 1 ==> !p(Retain(pre, keep)[i])
  {
    if pre != [] {
      var front, last := pre[..|pre| - 1], pre[|pre| - 1];
      SplitLast(pre);
      RetainAppend(front, [last], keep);
      assert [last][1..] == [];
      var r, f := Retain(pre, keep), Retain(front, keep);
      forall i | 0 <= i < |r| - 1 ensures !p(r[i]) {
        assert r[i] == f[i] && f[i] in f;
        RetainMembers(front, keep, r[i]);
      }
    }
  }

  lemma {:induction false} AddedHas<T(!new)>(a: seq<T>, b: seq<T>, xs: seq<T>, p: T -> bool)
    requires forall x :: x in xs ==> !p(x)
    ensures Has(a + (xs + b), p) <==> Has(a + b, p)
  {
    assert forall v :: v in a + (xs + b) <==> v in xs || v in a + b;
  }

  /** Rules of no concern to the placement, added anywhere but right before the carrier rule, keep it placed. */
  lemma {:induction false} PlacedAdded<T(!new)>(sh: Shape<T>, pre: seq<T>, c: T, post: seq<T>, i: nat, xs: seq<T>)
    requires sh.Sound() && Placed(sh, pre, c, post) && (forall x :: x in xs ==> sh.Inert(x)) && i < |pre|
    ensures Placed(sh, pre[..i] + (xs + pre[i..]), c, post)
  {
    var pre' := pre[..i] + (xs + pre[i..]);
    assert pre[..i] + pre[i..] == pre;
    AddedHas(pre[..i], pre[i..], xs, sh.carrier);
    AddedHas(pre[..i], pre[i..], xs, sh.bypass);
    AddedHas(pre[..i], pre[i..] + post, xs, sh.bypass);
    AddedHas(pre[..i], pre[i..] + post, xs, sh.hijack);
    assert pre' + post == pre[..i] + (xs + (pre[i..] + post));
    assert pre + post == pre[..i] + (pre[i..] + post);
    forall k | i <= k < i + |xs| ensures !sh.hijack(pre'[k]) { assert pre'[k] in xs; }
    forall k | 0 <= k < |pre'| - 1 && sh.hijack(pre'[k]) ensures exists j :: 0 <= j < |pre| - 1 && pre[j] == pre'[k] {
      if k < i { assert pre'[k] == pre[k]; }
      else { assert pre'[k] == pre[k - |xs|]; }
    }
  }

  lemma {:induction false} PlacedAddedAfter<T(!new)>(sh: Shape<T>, pre: seq<T>, c: T, post: seq<T>, i: nat, xs: seq<T>)
    requires sh.Sound() && Placed(sh, pre, c, post) && (forall x :: x in xs ==> sh.Inert(x)) && i <= |post|
    ensures Placed(sh, pre, c, post[..i] + (xs + post[i..]))
  {
    var post' := post[..i] + (xs + post[i..]);
    assert post[..i] + post[i..] == post;
    AddedHas(pre + post[..i], post[i..], xs, sh.bypass);
    AddedHas(pre + post[..i], post[i..], xs, sh.hijack);
    assert pre + post' == pre + post[..i] + (xs + post[i..]);
    assert pre + post == pre + post[..i] + post[i..];
  }

  /** Rules added right before a placed carrier rule are stepped over, not mixed up: without them the
      list is what it was. */
  lemma {:induction false} PlacedOverAdded<T(!new)>(sh: Shape<T>, pre: seq<T>, c: T, post: seq<T>, xs: seq<T>,
                                                    keep: T -> bool)
    requires sh.Sound() && Placed(sh, pre, c, post) && (forall x :: x in xs ==> sh.Inert(x) && !keep(x))
    requires Retain(Around(pre, c, post), keep) == Around(pre, c, post) && keep(c)
    ensures Retain(PlaceCarrier(Around(pre + xs, c, post), sh), keep) == Around(pre, c, post)
  {
    RetainSkips(pre, c, post, xs, keep);
    if Placed(sh, pre + xs, c, post) {
      PlacedIsFixed(sh, pre + xs, c, post);
    } else {
      CarrierMoves(sh, pre, c, post, xs);
    }
  }

  lemma {:induction false} RetainSkips<T(!new)>(pre: seq<T>, c: T, post: seq<T>, xs: seq<T>, keep: T -> bool)
    requires keep(c) && forall x :: x in xs ==> !keep(x)
    ensures Retain(Around(pre + xs, c, post), keep) == Retain(Around(pre, c, post), keep)
    ensures Retain(Around(pre, c, xs + post), keep) == Retain(Around(pre, c, post), keep)
  {
    RetainAround(pre, c, post, keep);
    RetainAround(pre + xs, c, post, keep);
    RetainAround(pre, c, xs + post, keep);
    RetainNone(xs, keep);
    RetainAppend(pre, xs, keep);
    RetainAppend(xs, post, keep);
    assert Retain(pre, keep) + [] == Retain(pre, keep);
    assert [] + Retain(post, keep) == Retain(post, keep);
  }

  lemma {:induction false} CarrierMoves<T(!new)>(sh: Shape<T>, pre: seq<T>, c: T, post: seq<T>, xs: seq<T>)
    requires sh.Sound() && Placed(sh, pre, c, post) && (forall x :: x in xs ==> sh.Inert(x))
    requires !Placed(sh, pre + xs, c, post)
    ensures PlaceCarrier(Around(pre + xs, c, post), sh) == Around(pre, c, xs + post)
  {
    var s := Around(pre + xs, c, post);
    StopsAtFront(sh, pre, c, post, xs);
    NoneAdded(pre, xs, sh.carrier);
    CarrierAt(sh, pre + xs, c, post);
    DesiredAround(sh, pre + xs, c, post);
    AroundSlices(pre, xs, c, post);
    PulledUp(sh, s, |pre + xs|);
  }

  lemma {:induction false} NoneAdded<T(!new)>(a: seq<T>, b: seq<T>, p: T -> bool)
    requires !Has(a, p) && forall x :: x in b ==> !p(x)
    ensures !Has(a + b, p)
  {
  }

  lemma {:induction false} PulledUp<T(!new)>(sh: Shape<T>, s: seq<T>, e: nat)
    requires Position(s, sh.carrier) == Some(e) && e > Desired(s, sh)
    ensures var d := Desired(s, sh);
            PlaceCarrier(s, sh) == Around(s[..d], sh.merge(s[e]), s[d..e] + s[e + 1..])
  {
  }

  lemma {:induction false} AroundSlices<T(!new)>(pre: seq<T>, xs: seq<T>, c: T, post: seq<T>)
    ensures var s := Around(pre + xs, c, post);
            s[..|pre|] == pre && s[|pre|..|pre + xs|] == xs && s[|pre + xs| + 1..] == post && s[|pre + xs|] == c
  {
  }

  lemma {:induction false} StopsAtFront<T(!new)>(sh: Shape<T>, pre: seq<T>, c: T, post: seq<T>, xs: seq<T>)
    requires sh.Sound() && Placed(sh, pre, c, post) && (forall x :: x in xs ==> sh.Inert(x))
    requires !Placed(sh, pre + xs, c, post)
    ensures Desired(Around(pre + xs, c, post), sh) == |pre|
  {
    var s := Around(pre + xs, c, post);
    AddedHas(pre, post, xs, sh.bypass);
    AddedHas(pre, post, xs, sh.hijack);
    Regroup(pre, xs, post);
    PositionHas(s, sh.bypass);
    PositionHas(s, sh.hijack);
    AroundHas(pre + xs, c, post, sh.bypass);
    AroundHas(pre + xs, c, post, sh.hijack);
    assert forall v :: v in pre + xs <==> v in pre || v in xs;
    assert xs == [] ==> pre + xs == pre;
    if !Has(pre + post, sh.bypass) && Has(pre + post, sh.hijack) {
      var n := |pre + xs|;
      forall k | |pre| <= k < n ensures !sh.hijack((pre + xs)[k]) { assert (pre + xs)[k] in xs; }
      var k :| 0 <= k < n - 1 && sh.hijack((pre + xs)[k]);
      assert pre[k] == (pre + xs)[k];
      assert k == |pre| - 1;
      forall j | 0 <= j < k ensures !sh.hijack(s[j]) { assert s[j] == pre[j]; }
      assert s[k] == pre[k];
      PositionAt(s, sh.hijack, k);
    }
  }
}
