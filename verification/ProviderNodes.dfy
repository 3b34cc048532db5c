/** Which outbounds a provider refresh keeps, which nodes it brings in, and what its root selector lists, told by the
    fields of the outbounds. */
module ProviderNodes {
  import opened Prelude
  import opened Json
  import opened Outbounds
  import opened PrivateRules
  import opened Provider
  import opened ProviderGraph
  import Merge

  // ---------------------------------------------------------------- what an outbound is

  /** The eight names of the special outbounds. */
  predicate IsSpecialName(tag: string) {
    tag == "手动选择" || tag == "select" || tag == "自动选择" || tag == "auto" ||
    tag == "国内直连" || tag == "direct" || tag == "屏蔽" || tag == "block"
  }

  /** A server: neither a group nor a direct, block or DNS outbound. */
  predicate IsNodeType(v: Value) {
    var kind := GetStr(v, "type");
    kind != Some("selector") && kind != Some("urltest") && kind != Some("direct") && kind != Some("block") &&
    kind != Some("dns")
  }

  ghost predicate IsAt(s: string, part: string, i: nat) { i + |part| <= |s| && s[i..i + |part|] == part }

  ghost predicate Contains(s: string, part: string) { exists i :: IsAt(s, part, i) }

  /** The tag under which a provider puts a notice instead of a server. */
  ghost predicate IsNotice(tag: string) {
    "剩余流量" <= tag || "距离下次重置剩余" <= tag || "套餐到期" <= tag || Contains(tag, "官网") ||
    Contains(tag, "刷新订阅") || Contains(tag, "如遇不可用请访问") || Contains(tag, "请更换客户端") ||
    Contains(tag, "直连地址") || Contains(tag, "TG群") || Contains(tag, "邀请好友")
  }

  lemma {:induction false} MentionsMeaning(s: string, p: string)
    requires p != ""
    ensures Mentions(s, p) <==> Contains(s, p)
  {
    if StartsWith(s, p) {
      assert IsAt(s, p, 0);
    } else if s != [] {
      MentionsMeaning(s[1..], p);
      if Contains(s[1..], p) {
        var i: nat :| IsAt(s[1..], p, i);
        FurtherOn(s, p, i);
      }
      if Contains(s, p) {
        var i: nat :| IsAt(s, p, i);
        FurtherOn(s, p, i - 1);
      }
    }
  }

  lemma {:induction false} FurtherOn(s: seq<char>, p: string, i: nat)
    requires s != []
    ensures IsAt(s[1..], p, i) <==> IsAt(s, p, i + 1)
  {
    if i + 1 + |p| <= |s| { assert s[1..][i..i + |p|] == s[i + 1..i + 1 + |p|]; }
  }

  lemma {:induction false} NoticeMeaning(tag: string)
    ensures IsMetadata(tag) <==> IsNotice(tag)
  {
    MentionsMeaning(tag, "官网");
    MentionsMeaning(tag, "刷新订阅");
    MentionsMeaning(tag, "如遇不可用请访问");
    MentionsMeaning(tag, "请更换客户端");
    MentionsMeaning(tag, "直连地址");
    MentionsMeaning(tag, "TG群");
    MentionsMeaning(tag, "邀请好友");
  }

  lemma {:induction false} SpecialMeaning(tag: string)
    ensures tag in SPECIALS <==> IsSpecialName(tag)
  {
  }

  /** Some outbound that bears a refreshed provider's name lists the tag. */
  ghost predicate WasListed(s: seq<Value>, sets: seq<NodeSet>, tag: string) {
    exists v, k :: v in s && 0 <= k < |sets| && GetStr(v, "tag") == Some(sets[k].name) && Lists(v, tag)
  }

  ghost predicate Lists(v: Value, tag: string) {
    match Get(v, "outbounds") case Some(Arr(items)) => Str(tag) in items case _ => false
  }

  lemma {:induction false} StringsMeaning(items: seq<Value>, x: string)
    ensures x in StringsIn(items) <==> Str(x) in items
  {
    if items != [] {
      StringsMeaning(items[1..], x);
      assert items == [items[0]] + items[1..];
    }
  }

  lemma {:induction false} StaleMeaning(s: seq<Value>, sets: seq<NodeSet>, tag: string)
    ensures IsStale(s, sets, tag) <==> WasListed(s, sets, tag)
  {
    forall v: Value ensures tag in Members(v) <==> Lists(v, tag) { StringsMeaning(Items(v, "outbounds"), tag); }
    if v :| v in s && Names(sets, v) && tag in Members(v) {
      var k :| 0 <= k < |sets| && Tagged(v, sets[k].name);
      assert GetStr(v, "tag") == Some(sets[k].name);
    }
    if WasListed(s, sets, tag) {
      var v, k :| v in s && 0 <= k < |sets| && GetStr(v, "tag") == Some(sets[k].name) && Lists(v, tag);
      assert Tagged(v, sets[k].name) && Names(sets, v);
    }
  }

  // ---------------------------------------------------------------- edits elsewhere

  /** No value with this tag has the property. */
  ghost predicate Elsewhere(p: Value -> bool, tag: string) { forall v :: Tagged(v, tag) ==> !p(v) }

  lemma {:induction false} ExchangeUnseen(s: seq<Value>, i: nat, v: Value, p: Value -> bool)
    requires i < |s| && !p(s[i]) && !p(v)
    ensures Retain(s[i := v], p) == Retain(s, p)
  {
    assert s == s[..i] + [s[i]] + s[i + 1..] && s[i := v] == s[..i] + [v] + s[i + 1..];
    RetainNone([s[i]], p);
    RetainNone([v], p);
    RetainMiddle(s[..i], [s[i]], s[i + 1..], p);
    RetainMiddle(s[..i], [v], s[i + 1..], p);
  }

  lemma {:induction false} AppendUnseen(s: seq<Value>, v: Value, p: Value -> bool)
    requires !p(v)
    ensures Retain(s + [v], p) == Retain(s, p)
  {
    RetainAppend(s, [v], p);
    RetainNone([v], p);
    assert Retain(s, p) + [] == Retain(s, p);
  }

  lemma {:induction false} UpsertUnseen(s: seq<Value>, tag: string, built: Value, update: Value -> Value,
                                        p: Value -> bool)
    requires Elsewhere(p, tag) && Tagged(built, tag) && Keeps(update)
    ensures Retain(Upsert(s, tag, built, update), p) == Retain(s, p)
  {
    match Position(s, v => Tagged(v, tag))
    case Some(i) =>
      assert Kept(s[i], update(s[i]));
      assert Tagged(s[i], tag) && Tagged(update(s[i]), tag);
      ExchangeUnseen(s, i, update(s[i]), p);
    case None => AppendUnseen(s, built, p);
  }

  lemma {:induction false} UpdateUnseen(s: seq<Value>, tag: string, update: Value -> Value, p: Value -> bool)
    requires Elsewhere(p, tag) && Keeps(update)
    ensures Retain(UpdateAt(s, tag, update), p) == Retain(s, p)
  {
    match Position(s, v => Tagged(v, tag))
    case Some(i) =>
      assert Kept(s[i], update(s[i]));
      assert Tagged(s[i], tag) && Tagged(update(s[i]), tag);
      ExchangeUnseen(s, i, update(s[i]), p);
    case None =>
  }

  lemma {:induction false} AddUnseen(s: seq<Value>, nodes: seq<Value>, p: Value -> bool)
    requires forall n, v :: n in nodes && TagOf(n).Some? && TagOf(v) == TagOf(n) ==> !p(v)
    ensures Retain(AddNodes(s, nodes), p) == Retain(s, p)
  {
    if nodes != [] {
      var front, last := nodes[..|nodes| - 1], nodes[|nodes| - 1];
      AddUnseen(s, front, p);
      assert last in nodes;
      NodeUnseen(AddNodes(s, front), last, p);
    }
  }

  lemma {:induction false} NodeUnseen(s: seq<Value>, node: Value, p: Value -> bool)
    requires TagOf(node).Some? ==> forall v :: TagOf(v) == TagOf(node) ==> !p(v)
    ensures Retain(UpsertNode(s, node), p) == Retain(s, p)
  {
    if TagOf(node).Some? {
      match Position(s, v => Tagged(v, TagOf(node).value))
      case Some(i) =>
        assert TagOf(s[i]) == TagOf(node);
        ExchangeUnseen(s, i, node, p);
      case None => AppendUnseen(s, node, p);
    }
  }

  /** Dropping what does not have the property anyway. */
  lemma {:induction false} DropUnseen(s: seq<Value>, keep: Value -> bool, p: Value -> bool)
    requires forall v :: v in s && p(v) ==> keep(v)
    ensures Retain(Retain(s, keep), p) == Retain(s, p)
  {
    if s != [] {
      DropUnseen(s[1..], keep, p);
      var first := if keep(s[0]) then [s[0]] else [];
      RetainAppend(first, Retain(s[1..], keep), p);
      assert s[0] in s;
      if keep(s[0]) { assert first[1..] == []; }
    }
  }

  // ---------------------------------------------------------------- what stays

  /** An outbound that a merge has nothing to do with: without a tag, or with one that is neither special nor
      imported; and no node if the nodes are replaced. */
  ghost predicate OutOfMerge(v: Value, nodes: seq<Value>, replace: bool) {
    (TagOf(v).Some? ==> !IsSpecialName(TagOf(v).value) && forall n :: n in nodes ==> TagOf(n) != TagOf(v)) &&
    (IsNodeType(v) ==> !replace)
  }

  ghost predicate OnlyOutOfMerge(p: Value -> bool, nodes: seq<Value>, replace: bool) {
    forall v :: p(v) ==> OutOfMerge(v, nodes, replace)
  }

  lemma {:induction false} SpecialsElsewhere(p: Value -> bool, nodes: seq<Value>, replace: bool, tag: string)
    requires OnlyOutOfMerge(p, nodes, replace) && tag in SPECIALS
    ensures Elsewhere(p, tag)
  {
    SpecialMeaning(tag);
  }

  /** A merge keeps all outbounds it has nothing to do with, in order. */
  lemma {:induction false} MergeKeepsOthers(s: seq<Value>, nodes: seq<Value>, replace: bool, p: Value -> bool)
    requires MergeOutbounds(s, nodes, replace).Some? && OnlyOutOfMerge(p, nodes, replace)
    ensures Retain(MergeOutbounds(s, nodes, replace).value, p) == Retain(s, p)
  {
    SpecialsUnseen(s, nodes, replace, p);
    AddUnseen(WithSpecials(s, CollectTags(nodes), replace), nodes, p);
  }

  lemma {:induction false} SpecialsUnseen(s: seq<Value>, nodes: seq<Value>, replace: bool, p: Value -> bool)
    requires OnlyOutOfMerge(p, nodes, replace)
    ensures Retain(WithSpecials(s, CollectTags(nodes), replace), p) == Retain(s, p)
  {
    forall t | t in SPECIALS ensures Elsewhere(p, t) { SpecialsElsewhere(p, nodes, replace, t); }
    SpecialsAside(s, CollectTags(nodes), replace, p);
    NodesUnseen(s, nodes, replace, p);
  }

  lemma {:induction false} NodesUnseen(s: seq<Value>, nodes: seq<Value>, replace: bool, p: Value -> bool)
    requires OnlyOutOfMerge(p, nodes, replace)
    ensures Retain(if replace then Retain(s, IsNotNode) else s, p) == Retain(s, p)
  {
    if replace {
      forall v | v in s && p(v) ensures IsNotNode(v) { assert OutOfMerge(v, nodes, replace); }
      DropUnseen(s, IsNotNode, p);
    }
  }

  /** The special outbounds of a merge are brought in without touching others; nodes go if they are replaced. */
  lemma {:induction false} SpecialsAside(s: seq<Value>, tags: seq<string>, replace: bool, p: Value -> bool)
    requires forall t :: t in SPECIALS ==> Elsewhere(p, t)
    ensures Retain(WithSpecials(s, tags, replace), p) == Retain(if replace then Retain(s, IsNotNode) else s, p)
  {
    var direct, block := Named(s, DIRECT_ALIASES), Named(s, BLOCK_ALIASES);
    SpecialNames(s, SPECIALS);
    var s1 := Upsert(Upsert(s, direct, DirectOutbound(direct), Unchanged), block, BlockOutbound(block), Unchanged);
    BaseUnseen(s, direct, block, p);
    if replace {
      var both := v => IsNotNode(v) && p(v);
      BaseUnseen(s, direct, block, both);
      RetainTwice(s1, IsNotNode, p, both);
      RetainTwice(s, IsNotNode, p, both);
    }
    RootsUnseen(if replace then Retain(s1, IsNotNode) else s1, SelectorOf(s), AutoOf(s), tags, replace, p);
  }

  lemma {:induction false} BaseUnseen(s: seq<Value>, direct: string, block: string, p: Value -> bool)
    requires Elsewhere(p, direct) && Elsewhere(p, block)
    ensures var s0 := Upsert(s, direct, DirectOutbound(direct), Unchanged);
            Retain(Upsert(s0, block, BlockOutbound(block), Unchanged), p) == Retain(s, p)
  {
    UpsertUnseen(s, direct, DirectOutbound(direct), Unchanged, p);
    var s0 := Upsert(s, direct, DirectOutbound(direct), Unchanged);
    UpsertUnseen(s0, block, BlockOutbound(block), Unchanged, p);
  }

  lemma {:induction false} RetainTwice(s: seq<Value>, a: Value -> bool, b: Value -> bool, both: Value -> bool)
    requires forall v :: v in s ==> (both(v) <==> a(v) && b(v))
    ensures Retain(Retain(s, a), b) == Retain(s, both)
  {
    if s != [] {
      RetainTwice(s[1..], a, b, both);
      assert s[0] in s;
      var first := if a(s[0]) then [s[0]] else [];
      RetainAppend(first, Retain(s[1..], a), b);
      if a(s[0]) { assert first[1..] == []; }
    }
  }

  lemma {:induction false} RootsUnseen(s2: seq<Value>, selector: string, auto: string, tags: seq<string>, replace: bool,
                                       p: Value -> bool)
    requires Elsewhere(p, selector) && Elsewhere(p, auto)
    ensures var members := Distinct([auto] + tags);
            var s3 := Upsert(s2, selector, BuiltSelector(selector, members, auto),
                             v => MergedSelector(v, members, replace, auto));
            Retain(Upsert(s3, auto, BuiltAuto(auto, tags), v => MergedAuto(v, tags, replace)), p) == Retain(s2, p)
  {
    var members := Distinct([auto] + tags);
    EditsKeep(members, replace, auto);
    EditsKeep(tags, replace, auto);
    BuiltSpecials(selector, auto, members, tags);
    UpsertUnseen(s2, selector, BuiltSelector(selector, members, auto),
                 v => MergedSelector(v, members, replace, auto), p);
    var s3 := Upsert(s2, selector, BuiltSelector(selector, members, auto),
                     v => MergedSelector(v, members, replace, auto));
    UpsertUnseen(s3, auto, BuiltAuto(auto, tags), v => MergedAuto(v, tags, replace), p);
  }

  /** An outbound that a refresh has nothing to do with: out of the merge, not named as a provider, and if it is a
      node, tagged, no notice, and not listed by a refreshed provider. */
  ghost predicate OutOfRefresh(v: Value, s: seq<Value>, sets: seq<NodeSet>, replace: bool) {
    OutOfMerge(v, Imported(sets), replace) &&
    (forall k :: 0 <= k < |sets| ==> TagOf(v) != Some(sets[k].name)) &&
    (IsNodeType(v) ==> TagOf(v).Some? && !IsNotice(TagOf(v).value) && !WasListed(s, sets, TagOf(v).value))
  }

  /** A refresh keeps all outbounds it has nothing to do with, in order; without replacement these are all nodes
      that are neither imported, nor notices, nor listed by a refreshed provider. */
  lemma {:induction false} RefreshKeepsOthers(s: seq<Value>, sets: seq<NodeSet>, replace: bool, p: Value -> bool)
    requires Refresh(s, sets, replace).Some? && forall v :: p(v) ==> OutOfRefresh(v, s, sets, replace)
    ensures Retain(Refresh(s, sets, replace).value, p) == Retain(s, p)
  {
    var nodes := Imported(sets);
    var s0 := if sets == [] then s else RemoveManaged(s, sets);
    if sets != [] { RemovedUnseen(s, sets, replace, p); }
    MergeKeepsOthers(s0, nodes, replace, p);
    GroupsUnseen(MergeOutbounds(s0, nodes, replace).value, s, sets, replace, p);
  }

  lemma {:induction false} RemovedUnseen(s: seq<Value>, sets: seq<NodeSet>, replace: bool, p: Value -> bool)
    requires forall v :: p(v) ==> OutOfRefresh(v, s, sets, replace)
    ensures Retain(RemoveManaged(s, sets), p) == Retain(s, p)
  {
    var keep := (v: Value) => !IsProviderSelector(v, sets) &&
        (!IsNode(v) || TagOf(v).None? || !IsStale(s, sets, TagOf(v).value));
    forall v | v in s && p(v) ensures keep(v) {
      assert OutOfRefresh(v, s, sets, replace);
      if TagOf(v).Some? { StaleMeaning(s, sets, TagOf(v).value); }
    }
    DropUnseen(s, keep, p);
  }

  lemma {:induction false} GroupsUnseen(m: seq<Value>, s: seq<Value>, sets: seq<NodeSet>, replace: bool,
                                        p: Value -> bool)
    requires forall v :: p(v) ==> OutOfRefresh(v, s, sets, replace)
    ensures Retain(AddGroups(m, sets), p) == Retain(m, p)
  {
    forall v | v in m && p(v) ensures IsNoNotice(v) {
      assert OutOfRefresh(v, s, sets, replace);
      if IsNode(v) { NoticeMeaning(TagOf(v).value); }
    }
    DropUnseen(m, IsNoNotice, p);
    var kept := Retain(m, IsNoNotice);
    forall k | 0 <= k < |sets| ensures Elsewhere(p, sets[k].name) {}
    forall t | IsSpecialName(t) ensures Elsewhere(p, t) {}
    GroupsAside(kept, sets, p);
  }

  lemma {:induction false} NamedUnseen(s: seq<Value>, sets: seq<NodeSet>, p: Value -> bool)
    requires forall k :: 0 <= k < |sets| ==> Elsewhere(p, sets[k].name)
    ensures Retain(WithGroups(s, sets), p) == Retain(s, p)
  {
    if sets != [] {
      var n := |sets| - 1;
      NamedUnseen(s, sets[..n], p);
      var tags := CollectTags(sets[n].nodes);
      if tags != [] {
        GroupEditKeeps(tags);
        GroupBuilt(sets[n].name, tags);
        UpsertUnseen(WithGroups(s, sets[..n]), sets[n].name, BuiltGroup(sets[n].name, tags), v => AsGroup(v, tags), p);
      }
    }
  }

  lemma {:induction false} FinishUnseen(s: seq<Value>, members: seq<string>, nodes: seq<string>, p: Value -> bool)
    requires Elsewhere(p, SelectorOf(s)) && Elsewhere(p, AutoOf(s))
    ensures Retain(Finish(s, members, nodes), p) == Retain(s, p)
  {
    RootEditKeeps(members, AutoOf(s));
    AutoEditKeeps(nodes);
    UpdateUnseen(s, SelectorOf(s), RootEdit(members, AutoOf(s)), p);
    UpdateUnseen(UpdateAt(s, SelectorOf(s), RootEdit(members, AutoOf(s))), AutoOf(s), AutoEdit(nodes), p);
  }

  // ---------------------------------------------------------------- tag by tag

  /** The last node imported under a tag. */
  function LastWith(nodes: seq<Value>, tag: string): Option<Value> {
    if nodes == [] then None
    else if Tagged(nodes[|nodes| - 1], tag) then Some(nodes[|nodes| - 1])
    else LastWith(nodes[..|nodes| - 1], tag)
  }

  /** The first outbound of a tag gives way to the node imported for it. */
  function Renewed(s: seq<Value>, node: Option<Value>): seq<Value> {
    match node
    case None => s
    case Some(n) => [n] + (if s == [] then [] else s[1..])
  }

  function OfTag(s: seq<Value>, tag: string): seq<Value> { Retain(s, v => Tagged(v, tag)) }

  lemma {:induction false} NodeOfTag(s: seq<Value>, node: Value, tag: string)
    ensures OfTag(UpsertNode(s, node), tag) == Renewed(OfTag(s, tag), if Tagged(node, tag) then Some(node) else None)
  {
    if Tagged(node, tag) {
      ExchangedOfTag(s, node, tag);
    } else if TagOf(node).Some? {
      NodeUnseen(s, node, v => Tagged(v, tag));
    }
  }

  lemma {:induction false} ExchangedOfTag(s: seq<Value>, node: Value, tag: string)
    requires Tagged(node, tag)
    ensures match Position(s, v => Tagged(v, tag))
            case Some(i) => OfTag(s[i := node], tag) == Renewed(OfTag(s, tag), Some(node))
            case None => OfTag(s + [node], tag) == Renewed(OfTag(s, tag), Some(node))
  {
    var p := (v: Value) => Tagged(v, tag);
    match Position(s, p)
    case Some(i) => FirstOfTag(s, tag, i, node);
    case None =>
      RetainNone(s, p);
      RetainAppend(s, [node], p);
  }

  /** The first outbound of a tag exchanged for another of that tag. */
  lemma {:induction false} FirstOfTag(s: seq<Value>, tag: string, i: nat, w: Value)
    requires Position(s, v => Tagged(v, tag)) == Some(i) && Tagged(w, tag)
    ensures OfTag(s, tag) == [s[i]] + OfTag(s[i + 1..], tag) && OfTag(s[i := w], tag) == [w] + OfTag(s[i + 1..], tag)
  {
    forall v | v in s[..i] ensures !Tagged(v, tag) { var k :| 0 <= k < i && s[k] == v; }
    AtFirst(s[..i], s[i], s[i + 1..], tag);
    AtFirst(s[..i], w, s[i + 1..], tag);
    Around(s, i, w);
  }

  lemma {:induction false} Around(s: seq<Value>, i: nat, w: Value)
    requires i < |s|
    ensures s[..i] + ([s[i]] + s[i + 1..]) == s && s[..i] + ([w] + s[i + 1..]) == s[i := w]
  {
  }

  lemma {:induction false} AtFirst(pre: seq<Value>, v: Value, post: seq<Value>, tag: string)
    requires Tagged(v, tag) && forall u :: u in pre ==> !Tagged(u, tag)
    ensures OfTag(pre + ([v] + post), tag) == [v] + OfTag(post, tag)
  {
    var p := (u: Value) => Tagged(u, tag);
    RetainNone(pre, p);
    RetainAppend(pre, [v] + post, p);
    assert ([v] + post)[1..] == post;
  }

  /** Importing nodes: under each tag the first outbound becomes the last node imported for it. */
  lemma {:induction false} AddedOfTag(s: seq<Value>, nodes: seq<Value>, tag: string)
    ensures OfTag(AddNodes(s, nodes), tag) == Renewed(OfTag(s, tag), LastWith(nodes, tag))
  {
    if nodes != [] {
      AddedOfTag(s, nodes[..|nodes| - 1], tag);
      NodeOfTag(AddNodes(s, nodes[..|nodes| - 1]), nodes[|nodes| - 1], tag);
    }
  }

  /** A merge, seen through one tag that is not special. */
  lemma {:induction false} MergedOfTag(s: seq<Value>, nodes: seq<Value>, replace: bool, tag: string)
    requires MergeOutbounds(s, nodes, replace).Some? && !IsSpecialName(tag)
    ensures OfTag(MergeOutbounds(s, nodes, replace).value, tag) ==
            Renewed(Retain(s, v => Tagged(v, tag) && !(IsNodeType(v) && replace)), LastWith(nodes, tag))
  {
    var p, q := (v: Value) => Tagged(v, tag), (v: Value) => Tagged(v, tag) && !(IsNodeType(v) && replace);
    forall t | t in SPECIALS ensures Elsewhere(p, t) { SpecialMeaning(t); }
    SpecialsAside(s, CollectTags(nodes), replace, p);
    AddedOfTag(WithSpecials(s, CollectTags(nodes), replace), nodes, tag);
    if replace { RetainTwice(s, IsNotNode, p, q); } else { RetainSame(s, p, q); }
  }

  lemma {:induction false} RetainSame(s: seq<Value>, a: Value -> bool, b: Value -> bool)
    requires forall v :: v in s ==> (a(v) <==> b(v))
    ensures Retain(s, a) == Retain(s, b)
  {
    if s != [] {
      assert s[0] in s;
      RetainSame(s[1..], a, b);
    }
  }

  /** What a refresh leaves of the old outbounds of a tag. */
  ghost function Left(s: seq<Value>, sets: seq<NodeSet>, replace: bool, tag: string): seq<Value> {
    Retain(s, v => Tagged(v, tag) && !(IsNodeType(v) && (replace || WasListed(s, sets, tag))))
  }

  /** A refresh, seen through one tag that is neither special nor a provider's name: nodes that are replaced or that
      a provider listed go, the last node imported takes the place of the first outbound left, and notices go. */
  lemma {:induction false} RefreshedOfTag(s: seq<Value>, sets: seq<NodeSet>, replace: bool, tag: string)
    requires Refresh(s, sets, replace).Some? && !IsSpecialName(tag)
    requires forall k :: 0 <= k < |sets| ==> sets[k].name != tag
    ensures OfTag(Refresh(s, sets, replace).value, tag) ==
            Retain(Renewed(Left(s, sets, replace, tag), LastWith(Imported(sets), tag)),
                   v => !(IsNodeType(v) && IsNotice(tag)))
  {
    var s0 := if sets == [] then s else RemoveManaged(s, sets);
    MergedOfTag(s0, Imported(sets), replace, tag);
    RemovedOfTag(s, sets, replace, tag);
    GroupsOfTag(MergeOutbounds(s0, Imported(sets), replace).value, sets, tag);
  }

  lemma {:induction false} RemovedOfTag(s: seq<Value>, sets: seq<NodeSet>, replace: bool, tag: string)
    requires forall k :: 0 <= k < |sets| ==> sets[k].name != tag
    ensures Retain(if sets == [] then s else RemoveManaged(s, sets), v => Tagged(v, tag) && !(IsNodeType(v) && replace))
            == Left(s, sets, replace, tag)
  {
    var keep := (v: Value) => !IsProviderSelector(v, sets) &&
        (!IsNode(v) || TagOf(v).None? || !IsStale(s, sets, TagOf(v).value));
    var p, q := (v: Value) => Tagged(v, tag) && !(IsNodeType(v) && replace),
                (v: Value) => Tagged(v, tag) && !(IsNodeType(v) && (replace || WasListed(s, sets, tag)));
    StaleMeaning(s, sets, tag);
    if sets == [] {
      RetainSame(s, p, q);
    } else {
      forall v | Tagged(v, tag) ensures !Names(sets, v) {}
      RetainTwice(s, keep, p, q);
    }
  }

  lemma {:induction false} NoticesOfTag(m: seq<Value>, tag: string)
    ensures OfTag(Retain(m, IsNoNotice), tag) == Retain(OfTag(m, tag), v => !(IsNodeType(v) && IsNotice(tag)))
  {
    var p, q, both := (v: Value) => Tagged(v, tag), (v: Value) => !(IsNodeType(v) && IsNotice(tag)),
                      (v: Value) => Tagged(v, tag) && !(IsNodeType(v) && IsNotice(tag));
    NoticeMeaning(tag);
    RetainTwice(m, IsNoNotice, p, both);
    RetainTwice(m, p, q, both);
  }

  lemma {:induction false} GroupsOfTag(m: seq<Value>, sets: seq<NodeSet>, tag: string)
    requires !IsSpecialName(tag) && forall k :: 0 <= k < |sets| ==> sets[k].name != tag
    ensures OfTag(AddGroups(m, sets), tag) == Retain(OfTag(m, tag), v => !(IsNodeType(v) && IsNotice(tag)))
  {
    var p, kept := (v: Value) => Tagged(v, tag), Retain(m, IsNoNotice);
    NoticesOfTag(m, tag);
    forall k | 0 <= k < |sets| ensures Elsewhere(p, sets[k].name) {}
    GroupsAside(kept, sets, p);
  }

  lemma {:induction false} GroupsAside(kept: seq<Value>, sets: seq<NodeSet>, p: Value -> bool)
    requires forall k :: 0 <= k < |sets| ==> Elsewhere(p, sets[k].name)
    requires forall t :: IsSpecialName(t) ==> Elsewhere(p, t)
    ensures var r := WithGroups(kept, sets);
            Retain(if sets == [] then r else Finish(r, RootMembers(r, sets), NodeTags(r)), p) == Retain(kept, p)
  {
    NamedUnseen(kept, sets, p);
    var r := WithGroups(kept, sets);
    if sets != [] {
      SpecialNames(r, SPECIALS);
      SpecialMeaning(SelectorOf(r));
      SpecialMeaning(AutoOf(r));
      FinishUnseen(r, RootMembers(r, sets), NodeTags(r), p);
    }
  }

  // ---------------------------------------------------------------- the nodes

  /** With replacement, the nodes of the result are the imported ones, each as it was imported last. */
  lemma {:induction false} ReplacedNodes(s: seq<Value>, sets: seq<NodeSet>, tag: string, v: Value)
    requires Refresh(s, sets, true).Some? && !IsSpecialName(tag) && Tagged(v, tag) && IsNodeType(v)
    requires forall k :: 0 <= k < |sets| ==> sets[k].name != tag
    ensures v in Refresh(s, sets, true).value <==> LastWith(Imported(sets), tag) == Some(v) && !IsNotice(tag)
  {
    var rest, node := Left(s, sets, true, tag), LastWith(Imported(sets), tag);
    RefreshedOfTag(s, sets, true, tag);
    RetainMembers(Refresh(s, sets, true).value, (w: Value) => Tagged(w, tag), v);
    RetainMembers(Renewed(rest, node), (w: Value) => !(IsNodeType(w) && IsNotice(tag)), v);
    RetainMembers(s, (w: Value) => Tagged(w, tag) && !(IsNodeType(w) && (true || WasListed(s, sets, tag))), v);
    assert v in Renewed(rest, node) ==> node == Some(v) || v in rest;
  }

  /** Without it, they are the imported ones and, where nothing is imported, the old ones that no refreshed provider
      listed. */
  lemma {:induction false} MergedNodes(s: seq<Value>, sets: seq<NodeSet>, tag: string, v: Value)
    requires Refresh(s, sets, false).Some? && !IsSpecialName(tag) && Tagged(v, tag) && IsNodeType(v)
    requires forall k :: 0 <= k < |sets| ==> sets[k].name != tag
    ensures LastWith(Imported(sets), tag) == None ==>
            (v in Refresh(s, sets, false).value <==> v in s && !WasListed(s, sets, tag) && !IsNotice(tag))
    ensures LastWith(Imported(sets), tag) == Some(v) ==> (v in Refresh(s, sets, false).value <==> !IsNotice(tag))
  {
    var rest, node := Left(s, sets, false, tag), LastWith(Imported(sets), tag);
    RefreshedOfTag(s, sets, false, tag);
    RetainMembers(Refresh(s, sets, false).value, (w: Value) => Tagged(w, tag), v);
    RetainMembers(Renewed(rest, node), (w: Value) => !(IsNodeType(w) && IsNotice(tag)), v);
    RetainMembers(s, (w: Value) => Tagged(w, tag) && !(IsNodeType(w) && (false || WasListed(s, sets, tag))), v);
  }

  /** An outbound without a tag stays only if it is no node. */
  lemma {:induction false} UntaggedOutbounds(s: seq<Value>, sets: seq<NodeSet>, replace: bool)
    requires Refresh(s, sets, replace).Some?
    ensures Retain(Refresh(s, sets, replace).value, v => TagOf(v).None?) ==
            Retain(s, v => TagOf(v).None? && !IsNodeType(v))
  {
    var none, p := (v: Value) => TagOf(v).None?, (v: Value) => TagOf(v).None? && !IsNodeType(v);
    var s0 := if sets == [] then s else RemoveManaged(s, sets);
    var m := MergeOutbounds(s0, Imported(sets), replace).value;
    GroupsAside(Retain(m, IsNoNotice), sets, none);
    RetainTwice(m, IsNoNotice, none, p);
    MergeKeepsOthers(s0, Imported(sets), replace, p);
    if sets != [] { RemovedUnseen(s, sets, replace, p); }
  }

  // ---------------------------------------------------------------- whole configs

  lemma {:induction false} MergedConfigOfTag(config: Value, nodes: seq<Value>, replace: bool, linux: bool, tag: string)
    requires Merge.MergeNodes(config, nodes, replace, linux).Ok? && !IsSpecialName(tag)
    ensures OfTag(Items(Merge.MergeNodes(config, nodes, replace, linux).value, "outbounds"), tag) ==
            Renewed(Retain(Items(config, "outbounds"), v => Tagged(v, tag) && !(IsNodeType(v) && replace)),
                    LastWith(nodes, tag))
  {
    Merge.MergedOutbounds(config, nodes, replace, linux);
    MergedOfTag(Items(config, "outbounds"), nodes, replace, tag);
  }

  /** All this holds of the outbounds of a config that is refreshed. */
  lemma {:induction false} RefreshedConfigOfTag(config: Value, sets: seq<NodeSet>, replace: bool, linux: bool,
                                                tag: string)
    requires Merge.RefreshProviders(config, sets, replace, linux).Ok? && !IsSpecialName(tag)
    requires forall k :: 0 <= k < |sets| ==> sets[k].name != tag
    ensures OfTag(Items(Merge.RefreshProviders(config, sets, replace, linux).value, "outbounds"), tag) ==
            Retain(Renewed(Left(Items(config, "outbounds"), sets, replace, tag), LastWith(Imported(sets), tag)),
                   v => !(IsNodeType(v) && IsNotice(tag)))
  {
    Merge.RefreshedOutbounds(config, sets, replace, linux);
    RefreshedOfTag(Items(config, "outbounds"), sets, replace, tag);
  }

  lemma {:induction false} RefreshedConfigKeepsOthers(config: Value, sets: seq<NodeSet>, replace: bool, linux: bool,
                                                      p: Value -> bool)
    requires Merge.RefreshProviders(config, sets, replace, linux).Ok?
    requires forall v :: p(v) ==> OutOfRefresh(v, Items(config, "outbounds"), sets, replace)
    ensures Retain(Items(Merge.RefreshProviders(config, sets, replace, linux).value, "outbounds"), p) ==
            Retain(Items(config, "outbounds"), p)
  {
    Merge.RefreshedOutbounds(config, sets, replace, linux);
    RefreshKeepsOthers(Items(config, "outbounds"), sets, replace, p);
  }

  /** The nodes of a refreshed config. */
  lemma {:induction false} RefreshedConfigNodes(config: Value, sets: seq<NodeSet>, replace: bool, linux: bool,
                                                tag: string, v: Value)
    requires Merge.RefreshProviders(config, sets, replace, linux).Ok?
    requires !IsSpecialName(tag) && Tagged(v, tag) && IsNodeType(v)
    requires forall k :: 0 <= k < |sets| ==> sets[k].name != tag
    ensures var s, f := Items(config, "outbounds"),
                        Items(Merge.RefreshProviders(config, sets, replace, linux).value, "outbounds");
            (LastWith(Imported(sets), tag) == Some(v) ==> (v in f <==> !IsNotice(tag))) &&
            (LastWith(Imported(sets), tag) == None ==>
               (v in f <==> !replace && v in s && !WasListed(s, sets, tag) && !IsNotice(tag))) &&
            (replace && LastWith(Imported(sets), tag) != Some(v) ==> v !in f)
  {
    Merge.RefreshedOutbounds(config, sets, replace, linux);
    var s := Items(config, "outbounds");
    if replace { ReplacedNodes(s, sets, tag, v); } else { MergedNodes(s, sets, tag, v); }
  }
}
