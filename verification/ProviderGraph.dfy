/** What a provider refresh leaves: an outbound graph without dangling, unreachable or stale nodes. */
module ProviderGraph {
  import opened Prelude
  import opened Json
  import opened Outbounds
  import opened PrivateRules
  import opened Provider

  // ---------------------------------------------------------------- lists

  lemma {:induction false} RetainUnique(s: seq<Value>, keep: Value -> bool)
    requires Unique(s)
    ensures Unique(Retain(s, keep))
  {
    if s != [] {
      RetainUnique(s[1..], keep);
      var rest := Retain(s[1..], keep);
      forall j | 0 <= j < |rest| && TagOf(s[0]).Some? ensures TagOf(s[0]) != TagOf(rest[j]) {
        RetainMembers(s[1..], keep, rest[j]);
        assert rest[j] in s[1..];
      }
      assert keep(s[0]) ==> Retain(s, keep) == [s[0]] + rest;
      assert !keep(s[0]) ==> Retain(s, keep) == rest;
    }
  }

  lemma {:induction false} RetainKeeps(s: seq<Value>, keep: Value -> bool, reserved: seq<string>)
    requires Unique(s) && Plain(s, reserved)
    ensures Unique(Retain(s, keep)) && Plain(Retain(s, keep), reserved)
  {
    RetainUnique(s, keep);
    forall v ensures v in Retain(s, keep) <==> v in s && keep(v) { RetainMembers(s, keep, v); }
  }

  lemma {:induction false} RetainLookup(s: seq<Value>, keep: Value -> bool, t: string)
    requires Unique(s) && Lookup(s, t).Some? && keep(Lookup(s, t).value)
    ensures Lookup(Retain(s, keep), t) == Lookup(s, t)
  {
    LookupMember(s, t);
    RetainMembers(s, keep, Lookup(s, t).value);
    RetainUnique(s, keep);
    UniqueLookup(Retain(s, keep), Lookup(s, t).value);
  }

  lemma {:induction false} CollectAppend(a: seq<Value>, b: seq<Value>)
    ensures CollectTags(a + b) == CollectTags(a) + CollectTags(b)
  {
    if a == [] {
      assert a + b == b;
    } else {
      CollectAppend(a[1..], b);
      assert (a + b)[1..] == a[1..] + b;
      Regroup(match TagOf(a[0]) case Some(t) => [t] case None => [], CollectTags(a[1..]), CollectTags(b));
    }
  }

  // ---------------------------------------------------------------- edits of one entry

  lemma {:induction false} EnsureKept(v: Value, key: string, value: string)
    requires key != "tag"
    ensures Kept(v, EnsureStr(v, key, value))
  {
  }

  lemma {:induction false} ListedKept(v: Value, members: seq<string>, replace: bool)
    ensures Kept(v, Listed(v, members, replace)) && Kept(v, SetMembers(v, members))
    ensures Kept(v, SetBool(v, "interrupt_exist_connections", false))
  {
  }

  lemma {:induction false} SelectorKept(v: Value, auto: string)
    ensures Kept(v, AsSelector(v, auto)) && Kept(v, AsAuto(v))
  {
    EnsureKept(v, "type", "selector");
    EnsureKept(EnsureStr(v, "type", "selector"), "default", auto);
    EnsureKept(v, "type", "urltest");
    var w := EnsureStr(v, "type", "urltest");
    EnsureKept(w, "url", DELAY_TEST_URL);
    EnsureKept(EnsureStr(w, "url", DELAY_TEST_URL), "interval", "10m");
  }

  lemma {:induction false} MergedKept(v: Value, members: seq<string>, replace: bool, auto: string)
    ensures Kept(v, MergedSelector(v, members, replace, auto)) && Kept(v, MergedAuto(v, members, replace))
    ensures Kept(v, RootSelector(v, members, auto)) && Kept(v, RootAuto(v, members))
  {
    ListedKept(v, members, replace);
    var w := Listed(v, members, replace);
    SelectorKept(w, auto);
    SelectorKept(SetMembers(v, members), auto);
    ListedKept(AsSelector(w, auto), members, replace);
    ListedKept(AsAuto(w), members, replace);
  }

  lemma {:induction false} EditsKeep(members: seq<string>, replace: bool, auto: string)
    ensures Keeps(v => MergedSelector(v, members, replace, auto)) && Keeps(v => MergedAuto(v, members, replace))
  {
    forall v ensures Kept(v, MergedSelector(v, members, replace, auto)) && Kept(v, MergedAuto(v, members, replace)) {
      MergedKept(v, members, replace, auto);
    }
  }

  lemma {:induction false} GroupEditKeeps(tags: seq<string>)
    requires tags != []
    ensures Keeps(v => AsGroup(v, tags))
  {
  }

  lemma {:induction false} MembersSet(v: Value, members: seq<string>, auto: string)
    requires v.Obj?
    ensures Members(RootSelector(v, members, auto)) == members && Members(RootAuto(v, members)) == members
    ensures members != [] ==> Members(AsGroup(v, members)) == members
  {
    StringsInStrs(members);
  }

  lemma {:induction false} GroupBuilt(name: string, tags: seq<string>)
    requires tags != []
    ensures Tagged(BuiltGroup(name, tags), name) && !IsNode(BuiltGroup(name, tags)) &&
            Members(BuiltGroup(name, tags)) == tags
  {
    StringsInStrs(tags);
  }

  /** A special outbound updated or added neither adds nor removes a node. */
  lemma {:induction false} UpsertNodes(s: seq<Value>, tag: string, built: Value, update: Value -> Value,
                                       reserved: seq<string>)
    requires Plain(s, reserved) && tag in reserved && Keeps(update) && !IsNode(built)
    ensures forall v :: IsNode(v) ==> (v in Upsert(s, tag, built, update) <==> v in s)
  {
    match Position(s, v => Tagged(v, tag))
    case Some(i) =>
      assert s[i] in s;
      UpdateStaysPlain(s[i], update);
      var r := s[i := update(s[i])];
      forall v | IsNode(v) ensures v in r <==> v in s {
        if v in s { var k :| 0 <= k < |s| && s[k] == v; assert r[k] == v; }
        if v in r { var k :| 0 <= k < |r| && r[k] == v; assert s[k] == v; }
      }
    case None =>
  }

  // ---------------------------------------------------------------- merging

  predicate Within(a: seq<string>, b: seq<string>) { forall x :: x in a ==> x in b }

  lemma {:induction false} NamedIsAlias(s: seq<Value>, aliases: seq<string>)
    requires |aliases| == 2
    ensures Named(s, aliases) in aliases
  {
    PreferredExists(s, aliases, if SelectorOf(s) == "select" then aliases[1] else aliases[0]);
  }

  lemma {:induction false} SpecialNames(s: seq<Value>, reserved: seq<string>)
    requires Within(SPECIALS, reserved)
    ensures SelectorOf(s) in reserved && AutoOf(s) in reserved && SelectorOf(s) in SELECTOR_ALIASES &&
            AutoOf(s) in AUTO_ALIASES
    ensures Named(s, DIRECT_ALIASES) in reserved && Named(s, BLOCK_ALIASES) in reserved && SelectorOf(s) != AutoOf(s)
  {
    PreferredExists(s, SELECTOR_ALIASES, SELECTOR_TAG);
    NamedIsAlias(s, AUTO_ALIASES);
    NamedIsAlias(s, DIRECT_ALIASES);
    NamedIsAlias(s, BLOCK_ALIASES);
    SpecialsHold();
  }

  lemma {:induction false} SpecialsHold()
    ensures Within(SELECTOR_ALIASES, SPECIALS) && Within(AUTO_ALIASES, SPECIALS)
    ensures Within(DIRECT_ALIASES, SPECIALS) && Within(BLOCK_ALIASES, SPECIALS)
    ensures forall x :: x in SELECTOR_ALIASES ==> x !in AUTO_ALIASES
  {
  }

  lemma {:induction false} BaseKeeps(s: seq<Value>, direct: string, block: string, replace: bool, reserved: seq<string>)
    requires Unique(s) && Plain(s, reserved) && direct in reserved && block in reserved
    ensures var s1 := Upsert(Upsert(s, direct, DirectOutbound(direct), Unchanged), block, BlockOutbound(block),
                             Unchanged);
            var s2 := if replace then Retain(s1, IsNotNode) else s1;
            Unique(s2) && Plain(s2, reserved)
  {
    UpsertKeeps(s, direct, DirectOutbound(direct), Unchanged, reserved);
    var s0 := Upsert(s, direct, DirectOutbound(direct), Unchanged);
    UpsertKeeps(s0, block, BlockOutbound(block), Unchanged, reserved);
    RetainKeeps(Upsert(s0, block, BlockOutbound(block), Unchanged), IsNotNode, reserved);
  }

  lemma {:induction false} SpecialsKeep(s: seq<Value>, tags: seq<string>, replace: bool, reserved: seq<string>)
    requires Unique(s) && Plain(s, reserved) && Within(SPECIALS, reserved)
    ensures var r := WithSpecials(s, tags, replace);
            Unique(r) && Plain(r, reserved) && Lookup(r, SelectorOf(s)).Some? && Lookup(r, AutoOf(s)).Some?
  {
    var selector, auto := SelectorOf(s), AutoOf(s);
    var direct, block := Named(s, DIRECT_ALIASES), Named(s, BLOCK_ALIASES);
    SpecialNames(s, reserved);
    BaseKeeps(s, direct, block, replace, reserved);
    var s1 := Upsert(Upsert(s, direct, DirectOutbound(direct), Unchanged), block, BlockOutbound(block), Unchanged);
    var s2 := if replace then Retain(s1, IsNotNode) else s1;
    var members := Distinct([auto] + tags);
    EditsKeep(members, replace, auto);
    EditsKeep(tags, replace, auto);
    BuiltSpecials(selector, auto, members, tags);
    TwoUpserts(s2, selector, BuiltSelector(selector, members, auto), v => MergedSelector(v, members, replace, auto),
               auto, BuiltAuto(auto, tags), v => MergedAuto(v, tags, replace), reserved);
  }

  lemma {:induction false} TwoUpserts(s: seq<Value>, a: string, builtA: Value, toA: Value -> Value, b: string,
                                      builtB: Value, toB: Value -> Value,
                   reserved: seq<string>)
    requires Unique(s) && Plain(s, reserved) && a in reserved && b in reserved
    requires Keeps(toA) && Tagged(builtA, a) && !IsNode(builtA) && Keeps(toB) && Tagged(builtB, b) && !IsNode(builtB)
    ensures var r := Upsert(Upsert(s, a, builtA, toA), b, builtB, toB);
            Unique(r) && Plain(r, reserved) && Lookup(r, a).Some? && Lookup(r, b).Some?
  {
    UpsertHolds(s, a, builtA, toA, reserved, a);
    UpsertHolds(Upsert(s, a, builtA, toA), b, builtB, toB, reserved, a);
  }

  lemma {:induction false} BuiltSpecials(selector: string, auto: string, members: seq<string>, tags: seq<string>)
    ensures Tagged(BuiltSelector(selector, members, auto), selector) && !IsNode(BuiltSelector(selector, members, auto))
    ensures Tagged(BuiltAuto(auto, tags), auto) && !IsNode(BuiltAuto(auto, tags))
  {
  }

  lemma {:induction false} UpsertHolds(s: seq<Value>, tag: string, built: Value, update: Value -> Value,
                                       reserved: seq<string>, t: string)
    requires Unique(s) && Plain(s, reserved) && tag in reserved && Keeps(update) && Tagged(built, tag) && !IsNode(built)
    ensures var r := Upsert(s, tag, built, update);
            Unique(r) && Plain(r, reserved) && Lookup(r, tag).Some? && (Lookup(s, t).Some? ==> Lookup(r, t).Some?)
  {
    UpsertKeeps(s, tag, built, update, reserved);
    UpsertLookup(s, tag, built, update, tag);
    UpsertLookup(s, tag, built, update, t);
  }

  /** Imports the refresh can rely on. */
  ghost predicate Importable(nodes: seq<Value>, reserved: seq<string>) {
    forall n :: n in nodes ==> IsServer(n) && !HasAlias(n, reserved)
  }

  lemma {:induction false} UpsertNodeKeeps(s: seq<Value>, node: Value, reserved: seq<string>, t: string)
    requires Unique(s) && Plain(s, reserved) && IsServer(node) && !HasAlias(node, reserved)
    ensures var r := UpsertNode(s, node);
            Unique(r) && Plain(r, reserved) && Lookup(r, t) == if Tagged(node, t) then Some(node) else Lookup(s, t)
  {
    var tag := TagOf(node).value;
    match Position(s, v => Tagged(v, tag))
    case Some(i) =>
      ExchangeKeeps(s, i, node, reserved);
      ExchangeLookup(s, i, node, t);
    case None =>
      AppendKeeps(s, node, reserved);
      AppendLookup(s, node, t);
  }

  lemma {:induction false} NodesKeep(s: seq<Value>, nodes: seq<Value>, reserved: seq<string>, t: string)
    requires Unique(s) && Plain(s, reserved) && Importable(nodes, reserved)
    ensures var r := AddNodes(s, nodes);
            Unique(r) && Plain(r, reserved) &&
            if t in CollectTags(nodes) then Lookup(r, t).Some? && Lookup(r, t).value in nodes
            else Lookup(r, t) == Lookup(s, t)
  {
    if nodes != [] {
      var front, last := nodes[..|nodes| - 1], nodes[|nodes| - 1];
      NodesKeep(s, front, reserved, t);
      UpsertNodeKeeps(AddNodes(s, front), last, reserved, t);
      CollectAppend(front, [last]);
      assert nodes == front + [last];
      assert CollectTags([last]) == [TagOf(last).value] + CollectTags([last][1..]);
    }
  }

  lemma {:induction false} ReservedIsNotImported(nodes: seq<Value>, reserved: seq<string>, t: string)
    requires Importable(nodes, reserved) && t in reserved
    ensures t !in CollectTags(nodes)
  {
    CollectMembers(nodes, t);
  }

  lemma {:induction false} MergeKeeps(s: seq<Value>, nodes: seq<Value>, replace: bool, reserved: seq<string>, t: string)
    requires Unique(s) && Plain(s, reserved) && Within(SPECIALS, reserved) && Importable(nodes, reserved)
    ensures MergeOutbounds(s, nodes, replace).Some?
    ensures var r := MergeOutbounds(s, nodes, replace).value;
            Unique(r) && Plain(r, reserved) && Lookup(r, SelectorOf(s)).Some? && Lookup(r, AutoOf(s)).Some? &&
            (t in CollectTags(nodes) ==> Lookup(r, t).Some? && Lookup(r, t).value in nodes)
  {
    var s' := WithSpecials(s, CollectTags(nodes), replace);
    SpecialsKeep(s, CollectTags(nodes), replace, reserved);
    SpecialNames(s, reserved);
    ReservedIsNotImported(nodes, reserved, SelectorOf(s));
    ReservedIsNotImported(nodes, reserved, AutoOf(s));
    NodesKeep(s', nodes, reserved, SelectorOf(s));
    NodesKeep(s', nodes, reserved, AutoOf(s));
    NodesKeep(s', nodes, reserved, t);
  }

  // ---------------------------------------------------------------- groups

  lemma {:induction false} GroupKeeps(s: seq<Value>, provider: NodeSet, reserved: seq<string>, t: string)
    requires Unique(s) && Plain(s, reserved) && provider.name in reserved
    ensures var r := AddGroup(s, provider);
            Unique(r) && Plain(r, reserved) && (forall v :: IsNode(v) ==> (v in r <==> v in s)) &&
            (t != provider.name ==> Lookup(r, t) == Lookup(s, t)) &&
            (t == provider.name && CollectTags(provider.nodes) != [] ==>
               Lookup(r, t).Some? && Members(Lookup(r, t).value) == CollectTags(provider.nodes))
  {
    var name, tags := provider.name, CollectTags(provider.nodes);
    if tags != [] {
      var update := (v: Value) => AsGroup(v, tags);
      GroupEditKeeps(tags);
      GroupBuilt(name, tags);
      UpsertKeeps(s, name, BuiltGroup(name, tags), update, reserved);
      UpsertNodes(s, name, BuiltGroup(name, tags), update, reserved);
      UpsertLookup(s, name, BuiltGroup(name, tags), update, t);
      LookupMember(s, name);
      if Lookup(s, name).Some? { MembersSet(Lookup(s, name).value, tags, ""); }
    }
  }

  ghost predicate NamesReserved(sets: seq<NodeSet>, reserved: seq<string>) {
    forall k :: 0 <= k < |sets| ==> sets[k].name in reserved
  }

  ghost predicate NamesDiffer(sets: seq<NodeSet>) {
    forall i, j :: 0 <= i < j < |sets| ==> sets[i].name != sets[j].name
  }

  lemma {:induction false} GroupsKeep(s: seq<Value>, sets: seq<NodeSet>, reserved: seq<string>, t: string)
    requires Unique(s) && Plain(s, reserved) && NamesReserved(sets, reserved)
    ensures var r := WithGroups(s, sets);
            Unique(r) && Plain(r, reserved) && (forall v :: IsNode(v) ==> (v in r <==> v in s)) &&
            ((forall k :: 0 <= k < |sets| ==> sets[k].name != t) ==> Lookup(r, t) == Lookup(s, t))
  {
    if sets != [] {
      var front := sets[..|sets| - 1];
      GroupsKeep(s, front, reserved, t);
      GroupKeeps(WithGroups(s, front), sets[|sets| - 1], reserved, t);
    }
  }

  lemma {:induction false} GroupIsThere(s: seq<Value>, sets: seq<NodeSet>, reserved: seq<string>, k: nat)
    requires Unique(s) && Plain(s, reserved) && NamesReserved(sets, reserved) && NamesDiffer(sets)
    requires k < |sets| && CollectTags(sets[k].nodes) != []
    ensures GroupReady(WithGroups(s, sets), sets[k])
  {
    var front := sets[..|sets| - 1];
    FrontNames(sets, reserved);
    if k < |front| { GroupIsThere(s, front, reserved, k); }
    GroupsKeep(s, front, reserved, "");
    LastGroup(WithGroups(s, front), sets[|sets| - 1], sets[k], reserved);
  }

  lemma {:induction false} FrontNames(sets: seq<NodeSet>, reserved: seq<string>)
    requires sets != [] && NamesReserved(sets, reserved) && NamesDiffer(sets)
    ensures var front := sets[..|sets| - 1]; NamesReserved(front, reserved) && NamesDiffer(front)
  {
  }

  lemma {:induction false} LastGroup(s: seq<Value>, last: NodeSet, provider: NodeSet, reserved: seq<string>)
    requires Unique(s) && Plain(s, reserved) && last.name in reserved
    requires provider == last || (provider.name != last.name && GroupReady(s, provider))
    requires CollectTags(provider.nodes) != []
    ensures GroupReady(AddGroup(s, last), provider)
  {
    GroupKeeps(s, last, reserved, provider.name);
  }

  lemma {:induction false} GroupNamesMembers(sets: seq<NodeSet>, t: string)
    ensures t in GroupNames(sets) <==>
            exists k :: 0 <= k < |sets| && CollectTags(sets[k].nodes) != [] && sets[k].name == t
    ensures t in Grouped(sets) <==> exists k :: 0 <= k < |sets| && t in CollectTags(sets[k].nodes)
  {
    if sets != [] {
      var front, last := sets[..|sets| - 1], sets[|sets| - 1];
      GroupNamesMembers(front, t);
      assert forall k :: 0 <= k < |sets| ==> sets[k] == if k < |front| then front[k] else last;
    }
  }

  // ---------------------------------------------------------------- finishing

  lemma {:induction false} ExchangeNodeTags(s: seq<Value>, i: nat, v: Value)
    requires i < |s| && !IsNode(s[i]) && !IsNode(v)
    ensures NodeTags(s[i := v]) == NodeTags(s)
  {
    assert s == s[..i] + ([s[i]] + s[i + 1..]) && s[i := v] == s[..i] + ([v] + s[i + 1..]);
    RetainAppend(s[..i], [s[i]] + s[i + 1..], IsServer);
    RetainAppend(s[..i], [v] + s[i + 1..], IsServer);
    assert ([s[i]] + s[i + 1..])[1..] == ([v] + s[i + 1..])[1..];
  }

  lemma {:induction false} ExchangePreferred(s: seq<Value>, i: nat, v: Value, aliases: seq<string>, preferred: string)
    requires i < |s| && TagOf(v) == TagOf(s[i]) && preferred in aliases
    ensures PreferredTag(s[i := v], aliases, preferred) == PreferredTag(s, aliases, preferred)
  {
    SamePreferred(s, s[i := v], aliases, preferred);
  }

  /** Updating a special outbound that is there. */
  lemma {:induction false} UpdateSpecial(s: seq<Value>, tag: string, update: Value -> Value, reserved: seq<string>,
                                         t: string)
    requires Unique(s) && Plain(s, reserved) && tag in reserved && Keeps(update) && Lookup(s, tag).Some?
    ensures var r := UpdateAt(s, tag, update);
            Unique(r) && Plain(r, reserved) && (forall v :: IsNode(v) ==> (v in r <==> v in s)) &&
            NodeTags(r) == NodeTags(s) && SelectorOf(r) == SelectorOf(s) && AutoOf(r) == AutoOf(s) &&
            Lookup(r, t) == if t == tag then Some(update(Lookup(s, tag).value)) else Lookup(s, t)
  {
    var i := Position(s, v => Tagged(v, tag)).value;
    assert s[i] in s;
    UpdateStaysPlain(s[i], update);
    var built := BlockOutbound(tag);
    assert UpdateAt(s, tag, update) == Upsert(s, tag, built, update);
    UpsertKeeps(s, tag, built, update, reserved);
    UpsertNodes(s, tag, built, update, reserved);
    UpsertLookup(s, tag, built, update, t);
    ExchangeNodeTags(s, i, update(s[i]));
    ExchangePreferred(s, i, update(s[i]), SELECTOR_ALIASES, SELECTOR_TAG);
    ExchangePreferred(s, i, update(s[i]), AUTO_ALIASES, if SelectorOf(s) == "select" then "auto" else AUTO_TAG);
  }

  /** `f` is `s` with the member lists of its selector and auto group set. */
  ghost predicate Finished(s: seq<Value>, f: seq<Value>, members: seq<string>, nodes: seq<string>) {
    var selector, auto := SelectorOf(s), AutoOf(s);
    Unique(f) && (forall v :: IsNode(v) ==> (v in f <==> v in s)) && NodeTags(f) == NodeTags(s) &&
    SelectorOf(f) == selector && AutoOf(f) == auto &&
    Lookup(f, selector).Some? && Members(Lookup(f, selector).value) == members &&
    Lookup(f, auto).Some? && Members(Lookup(f, auto).value) == nodes &&
    forall t :: t != selector && t != auto ==> Lookup(f, t) == Lookup(s, t)
  }

  lemma {:induction false} TwoUpdates(s: seq<Value>, a: string, toA: Value -> Value, b: string, toB: Value -> Value,
                                      reserved: seq<string>, t: string)
    requires Unique(s) && Plain(s, reserved) && a in reserved && b in reserved && a != b && Keeps(toA) && Keeps(toB)
    requires Lookup(s, a).Some? && Lookup(s, b).Some?
    ensures var r := UpdateAt(UpdateAt(s, a, toA), b, toB);
            Unique(r) && Plain(r, reserved) && (forall v :: IsNode(v) ==> (v in r <==> v in s)) &&
            NodeTags(r) == NodeTags(s) && SelectorOf(r) == SelectorOf(s) && AutoOf(r) == AutoOf(s) &&
            Lookup(r, t) == if t == a then Some(toA(Lookup(s, a).value))
                            else if t == b then Some(toB(Lookup(s, b).value))
                            else Lookup(s, t)
  {
    UpdateSpecial(s, a, toA, reserved, t);
    UpdateSpecial(s, a, toA, reserved, b);
    UpdateSpecial(UpdateAt(s, a, toA), b, toB, reserved, t);
  }

  lemma {:induction false} UpdatesFinish(s: seq<Value>, toA: Value -> Value, toB: Value -> Value,
                                         members: seq<string>, nodes: seq<string>, reserved: seq<string>)
    requires Unique(s) && Plain(s, reserved) && Within(SPECIALS, reserved) && Keeps(toA) && Keeps(toB)
    requires Lookup(s, SelectorOf(s)).Some? && Members(toA(Lookup(s, SelectorOf(s)).value)) == members
    requires Lookup(s, AutoOf(s)).Some? && Members(toB(Lookup(s, AutoOf(s)).value)) == nodes
    ensures Finished(s, UpdateAt(UpdateAt(s, SelectorOf(s), toA), AutoOf(s), toB), members, nodes)
  {
    var a, b := SelectorOf(s), AutoOf(s);
    SpecialNames(s, reserved);
    forall t ensures Lookup(UpdateAt(UpdateAt(s, a, toA), b, toB), t) ==
                     if t == a then Some(toA(Lookup(s, a).value))
                     else if t == b then Some(toB(Lookup(s, b).value))
                     else Lookup(s, t)
    {
      TwoUpdates(s, a, toA, b, toB, reserved, t);
    }
    TwoUpdates(s, a, toA, b, toB, reserved, a);
  }

  lemma {:induction false} FinishFinishes(s: seq<Value>, members: seq<string>, nodes: seq<string>,
                                          reserved: seq<string>)
    requires Unique(s) && Plain(s, reserved) && Within(SPECIALS, reserved)
    requires Lookup(s, SelectorOf(s)).Some? && Lookup(s, AutoOf(s)).Some?
    ensures Finished(s, Finish(s, members, nodes), members, nodes)
  {
    var selector, auto := SelectorOf(s), AutoOf(s);
    LookupMember(s, selector);
    LookupMember(s, auto);
    FinishEdits(members, nodes, auto, Lookup(s, selector).value, Lookup(s, auto).value);
    UpdatesFinish(s, RootEdit(members, auto), AutoEdit(nodes), members, nodes, reserved);
  }

  lemma {:induction false} FinishEdits(members: seq<string>, nodes: seq<string>, auto: string, v: Value, w: Value)
    requires v.Obj? && w.Obj?
    ensures Keeps(RootEdit(members, auto)) && Members(RootEdit(members, auto)(v)) == members
    ensures Keeps(AutoEdit(nodes)) && Members(AutoEdit(nodes)(w)) == nodes
  {
    RootEditKeeps(members, auto);
    AutoEditKeeps(nodes);
    MembersSet(v, members, auto);
    MembersSet(w, nodes, auto);
  }

  lemma {:induction false} RootEditKeeps(members: seq<string>, auto: string)
    ensures Keeps(RootEdit(members, auto))
  {
    forall v ensures Kept(v, RootSelector(v, members, auto)) { MergedKept(v, members, true, auto); }
  }

  lemma {:induction false} AutoEditKeeps(nodes: seq<string>)
    ensures Keeps(AutoEdit(nodes))
  {
    forall v ensures Kept(v, RootAuto(v, nodes)) { MergedKept(v, nodes, true, ""); }
  }

  // ---------------------------------------------------------------- the graph

  /** A node's tag is listed by the selector, or by a provider group that the selector lists. */
  ghost predicate Reaches(f: seq<Value>, selector: Value, sets: seq<NodeSet>, tag: string) {
    tag in Members(selector) ||
    exists k :: 0 <= k < |sets| && sets[k].name in Members(selector) && Lookup(f, sets[k].name).Some? &&
                tag in Members(Lookup(f, sets[k].name).value)
  }

  ghost predicate GroupHolds(f: seq<Value>, selector: Value, provider: NodeSet) {
    var g := Lookup(f, provider.name);
    provider.name in Members(selector) && g.Some? && Members(g.value) == CollectTags(provider.nodes) &&
    forall t :: t in Members(g.value) ==> t in NodeTags(f)
  }

  /** The outbound graph is whole. */
  ghost predicate Whole(f: seq<Value>, sets: seq<NodeSet>) {
    var selector, auto := Lookup(f, SelectorOf(f)), Lookup(f, AutoOf(f));
    Unique(f) && (forall v :: v in f && IsNode(v) ==> IsServer(v)) && selector.Some? && auto.Some? &&
    Members(auto.value) == NodeTags(f) &&
    (forall m :: m in Members(selector.value) ==> HasTag(f, m)) &&
    (forall t :: t in NodeTags(f) ==> Reaches(f, selector.value, sets, t)) &&
    (forall k :: 0 <= k < |sets| && CollectTags(sets[k].nodes) != [] ==> GroupHolds(f, selector.value, sets[k]))
  }

  function Reserved(sets: seq<NodeSet>): seq<string> {
    if sets == [] then SPECIALS else Reserved(sets[..|sets| - 1]) + [sets[|sets| - 1].name]
  }

  /** What a refresh may rely on: unique tags; imports that are servers; and no name used twice among nodes,
      providers and special outbounds. */
  ghost predicate Fit(s: seq<Value>, sets: seq<NodeSet>) {
    sets != [] && Unique(s) && Plain(s, Reserved(sets)) && Importable(Imported(sets), Reserved(sets)) &&
    NamesDiffer(sets) &&
    forall k :: 0 <= k < |sets| ==> sets[k].name !in SPECIALS
  }

  lemma {:induction false} ReservedMembers(sets: seq<NodeSet>)
    ensures Within(SPECIALS, Reserved(sets)) && NamesReserved(sets, Reserved(sets))
  {
    if sets != [] { ReservedMembers(sets[..|sets| - 1]); }
  }

  lemma {:induction false} ImportedTags(sets: seq<NodeSet>, t: string)
    ensures t in Grouped(sets) <==> t in CollectTags(Imported(sets))
  {
    if sets != [] {
      ImportedTags(sets[..|sets| - 1], t);
      CollectAppend(Imported(sets[..|sets| - 1]), sets[|sets| - 1].nodes);
    }
  }

  /** The list the groups are finished on: everything the graph needs but the two member lists. */
  ghost predicate Ready(s: seq<Value>, sets: seq<NodeSet>, reserved: seq<string>) {
    Unique(s) && Plain(s, reserved) && (forall v :: v in s && IsNode(v) ==> IsServer(v)) &&
    Lookup(s, SelectorOf(s)).Some? && Lookup(s, AutoOf(s)).Some? &&
    (forall k :: 0 <= k < |sets| && CollectTags(sets[k].nodes) != [] ==> GroupReady(s, sets[k])) &&
    (forall t :: t in Grouped(sets) ==> t in NodeTags(s))
  }

  /** The list is ready once notices are gone and groups are added. */
  ghost predicate GroupsReady(m: seq<Value>, sets: seq<NodeSet>, reserved: seq<string>) {
    exists r :: WithGroups(Retain(m, IsNoNotice), sets) == r && Ready(r, sets, reserved)
  }

  ghost predicate GroupReady(s: seq<Value>, provider: NodeSet) {
    var g := Lookup(s, provider.name); g.Some? && Members(g.value) == CollectTags(provider.nodes)
  }

  lemma {:induction false} RootMembersMean(s: seq<Value>, sets: seq<NodeSet>, m: string)
    ensures m in RootMembers(s, sets) <==>
            m == AutoOf(s) || m in GroupNames(sets) || (m in NodeTags(s) && m !in Grouped(sets))
  {
    var grouped := Grouped(sets);
    DistinctMembers([AutoOf(s)] + GroupNames(sets) + Retain(NodeTags(s), t => t !in grouped));
    RetainMembers(NodeTags(s), t => t !in grouped, m);
  }

  lemma {:induction false} RootMembersExist(s: seq<Value>, sets: seq<NodeSet>, reserved: seq<string>, m: string)
    requires Ready(s, sets, reserved) && m in RootMembers(s, sets)
    ensures Lookup(s, m).Some?
  {
    RootMembersMean(s, sets, m);
    GroupNamesMembers(sets, m);
    NodeTagsMembers(s, m);
    LookupMember(s, m);
  }

  lemma {:induction false} NodesReach(s: seq<Value>, sets: seq<NodeSet>, reserved: seq<string>, t: string)
      returns (k: nat)
    requires Ready(s, sets, reserved) && t in NodeTags(s) && t !in RootMembers(s, sets)
    ensures k < |sets| && t in CollectTags(sets[k].nodes) && sets[k].name in RootMembers(s, sets)
  {
    RootMembersMean(s, sets, t);
    GroupNamesMembers(sets, t);
    k :| 0 <= k < |sets| && t in CollectTags(sets[k].nodes);
    RootMembersMean(s, sets, sets[k].name);
    GroupNamesMembers(sets, sets[k].name);
  }

  lemma {:induction false} ListedGroup(s: seq<Value>, sets: seq<NodeSet>, k: nat)
    requires k < |sets| && CollectTags(sets[k].nodes) != []
    ensures sets[k].name in RootMembers(s, sets)
  {
    RootMembersMean(s, sets, sets[k].name);
    GroupNamesMembers(sets, sets[k].name);
  }

  lemma {:induction false} NotSpecial(s: seq<Value>, name: string)
    requires name !in SPECIALS
    ensures name != SelectorOf(s) && name != AutoOf(s)
  {
    SpecialNames(s, SPECIALS);
  }

  lemma {:induction false} FinishedIsWhole(s: seq<Value>, f: seq<Value>, sets: seq<NodeSet>, reserved: seq<string>)
    requires Ready(s, sets, reserved) && Finished(s, f, RootMembers(s, sets), NodeTags(s))
    requires forall k :: 0 <= k < |sets| ==> sets[k].name !in SPECIALS
    ensures Whole(f, sets)
  {
    var members, selector := RootMembers(s, sets), Lookup(f, SelectorOf(f)).value;
    forall m | m in members ensures HasTag(f, m) {
      RootMembersExist(s, sets, reserved, m);
      LookupMember(f, m);
    }
    forall k | 0 <= k < |sets| && CollectTags(sets[k].nodes) != [] ensures GroupHolds(f, selector, sets[k]) {
      ListedGroup(s, sets, k);
      NotSpecial(s, sets[k].name);
      assert GroupReady(s, sets[k]);
      forall t | t in CollectTags(sets[k].nodes) ensures t in NodeTags(f) { GroupNamesMembers(sets, t); }
    }
    forall t | t in NodeTags(f) ensures Reaches(f, selector, sets, t) {
      if t !in members {
        var k := NodesReach(s, sets, reserved, t);
        assert GroupHolds(f, selector, sets[k]);
      }
    }
  }

  // ---------------------------------------------------------------- the whole refresh

  lemma {:induction false} HasSpecials(s: seq<Value>)
    requires (exists t :: t in SELECTOR_ALIASES && HasTag(s, t)) && (exists t :: t in AUTO_ALIASES && HasTag(s, t))
    ensures Lookup(s, SelectorOf(s)).Some? && Lookup(s, AutoOf(s)).Some?
  {
    PreferredExists(s, SELECTOR_ALIASES, SELECTOR_TAG);
    PreferredExists(s, AUTO_ALIASES, if SelectorOf(s) == "select" then "auto" else AUTO_TAG);
    LookupMember(s, SelectorOf(s));
    LookupMember(s, AutoOf(s));
  }

  /** Dropping notices and untagged nodes. */
  lemma {:induction false} NoticesGo(m: seq<Value>, reserved: seq<string>, t: string)
    requires Unique(m) && Plain(m, reserved)
    ensures var s := Retain(m, IsNoNotice);
            Unique(s) && Plain(s, reserved) && (forall v :: v in s && IsNode(v) ==> IsServer(v)) &&
            (Lookup(m, t).Some? && IsNoNotice(Lookup(m, t).value) ==> Lookup(s, t) == Lookup(m, t))
  {
    RetainKeeps(m, IsNoNotice, reserved);
    forall v ensures v in Retain(m, IsNoNotice) <==> v in m && IsNoNotice(v) { RetainMembers(m, IsNoNotice, v); }
    if Lookup(m, t).Some? && IsNoNotice(Lookup(m, t).value) { RetainLookup(m, IsNoNotice, t); }
  }

  /** Through notices and groups, a special outbound stays. */
  lemma {:induction false} SpecialStays(m: seq<Value>, sets: seq<NodeSet>, reserved: seq<string>, t: string)
    requires Unique(m) && Plain(m, reserved) && NamesReserved(sets, reserved) && t in reserved && Lookup(m, t).Some?
    requires forall k :: 0 <= k < |sets| ==> sets[k].name != t
    ensures HasTag(WithGroups(Retain(m, IsNoNotice), sets), t)
  {
    LookupMember(m, t);
    NoticesGo(m, reserved, t);
    var s := Retain(m, IsNoNotice);
    GroupsKeep(s, sets, reserved, t);
    LookupMember(WithGroups(s, sets), t);
  }

  /** Through notices and groups, an imported node stays. */
  lemma {:induction false} ImportStays(m: seq<Value>, nodes: seq<Value>, sets: seq<NodeSet>, reserved: seq<string>,
                                       t: string)
    requires Unique(m) && Plain(m, reserved) && NamesReserved(sets, reserved) && Importable(nodes, reserved)
    requires Lookup(m, t).Some? && Lookup(m, t).value in nodes
    ensures t in NodeTags(WithGroups(Retain(m, IsNoNotice), sets))
  {
    var n := Lookup(m, t).value;
    LookupMember(m, t);
    NoticesGo(m, reserved, t);
    var s := Retain(m, IsNoNotice);
    RetainMembers(m, IsNoNotice, n);
    GroupsKeep(s, sets, reserved, t);
    NodeTagsMembers(WithGroups(s, sets), t);
  }

  lemma {:induction false} MergedIsReady(s: seq<Value>, sets: seq<NodeSet>, replace: bool, reserved: seq<string>)
    requires Unique(s) && Plain(s, reserved) && Importable(Imported(sets), reserved) && NamesDiffer(sets)
    requires Within(SPECIALS, reserved) && NamesReserved(sets, reserved)
    requires forall k :: 0 <= k < |sets| ==> sets[k].name !in SPECIALS
    ensures MergeOutbounds(s, Imported(sets), replace).Some?
    ensures GroupsReady(MergeOutbounds(s, Imported(sets), replace).value, sets, reserved)
  {
    var nodes := Imported(sets);
    MergeKeeps(s, nodes, replace, reserved, "");
    var m := MergeOutbounds(s, nodes, replace).value;
    forall t | t in Grouped(sets) ensures Lookup(m, t).Some? && Lookup(m, t).value in nodes {
      ImportedTags(sets, t);
      MergeKeeps(s, nodes, replace, reserved, t);
    }
    SpecialNames(s, reserved);
    GroupsMakeReady(m, sets, reserved, SelectorOf(s), AutoOf(s));
  }

  /** What the groups need of a merged list: its special outbounds and the imported nodes. */
  lemma {:induction false} GroupsMakeReady(m: seq<Value>, sets: seq<NodeSet>, reserved: seq<string>, selector: string,
                                           auto: string)
    requires Unique(m) && Plain(m, reserved) && Importable(Imported(sets), reserved) && NamesDiffer(sets) &&
             NamesReserved(sets, reserved)
    requires forall k :: 0 <= k < |sets| ==> sets[k].name !in SPECIALS
    requires selector in SELECTOR_ALIASES && selector in reserved && Lookup(m, selector).Some?
    requires auto in AUTO_ALIASES && auto in reserved && Lookup(m, auto).Some?
    requires forall t :: t in Grouped(sets) ==> Lookup(m, t).Some? && Lookup(m, t).value in Imported(sets)
    ensures GroupsReady(m, sets, reserved)
  {
    var kept := Retain(m, IsNoNotice);
    var r := WithGroups(kept, sets);
    NoticesGo(m, reserved, "");
    GroupsKeep(kept, sets, reserved, "");
    SpecialsThere(m, sets, reserved, selector, auto);
    forall k | 0 <= k < |sets| && CollectTags(sets[k].nodes) != [] ensures GroupReady(r, sets[k]) {
      GroupIsThere(kept, sets, reserved, k);
    }
    forall t | t in Grouped(sets) ensures t in NodeTags(r) { ImportStays(m, Imported(sets), sets, reserved, t); }
    assert Ready(r, sets, reserved);
  }

  lemma {:induction false} SpecialsThere(m: seq<Value>, sets: seq<NodeSet>, reserved: seq<string>, selector: string,
                                         auto: string)
    requires Unique(m) && Plain(m, reserved) && NamesReserved(sets, reserved)
    requires forall k :: 0 <= k < |sets| ==> sets[k].name !in SPECIALS
    requires selector in SELECTOR_ALIASES && selector in reserved && Lookup(m, selector).Some?
    requires auto in AUTO_ALIASES && auto in reserved && Lookup(m, auto).Some?
    ensures var r := WithGroups(Retain(m, IsNoNotice), sets);
            Lookup(r, SelectorOf(r)).Some? && Lookup(r, AutoOf(r)).Some?
  {
    SpecialsHold();
    SpecialStays(m, sets, reserved, selector);
    SpecialStays(m, sets, reserved, auto);
    HasSpecials(WithGroups(Retain(m, IsNoNotice), sets));
  }

  lemma {:induction false} RemovedKeeps(s: seq<Value>, sets: seq<NodeSet>, reserved: seq<string>)
    requires Unique(s) && Plain(s, reserved)
    ensures Unique(RemoveManaged(s, sets)) && Plain(RemoveManaged(s, sets), reserved)
  {
    RetainKeeps(s, v => !IsProviderSelector(v, sets) &&
                (!IsNode(v) || TagOf(v).None? || !IsStale(s, sets, TagOf(v).value)), reserved);
  }

  /** A refresh leaves a whole graph. */
  lemma {:induction false} RefreshIsWhole(s: seq<Value>, sets: seq<NodeSet>, replace: bool)
    requires Fit(s, sets)
    ensures exists f :: Refresh(s, sets, replace) == Some(f) && Whole(f, sets)
  {
    var reserved, s0 := Reserved(sets), RemoveManaged(s, sets);
    ReservedMembers(sets);
    RemovedKeeps(s, sets, reserved);
    MergedIsReady(s0, sets, replace, reserved);
    GroupedIsWhole(MergeOutbounds(s0, Imported(sets), replace).value, sets, reserved);
  }

  lemma {:induction false} GroupedIsWhole(m: seq<Value>, sets: seq<NodeSet>, reserved: seq<string>)
    requires sets != [] && GroupsReady(m, sets, reserved) && Within(SPECIALS, reserved)
    requires forall k :: 0 <= k < |sets| ==> sets[k].name !in SPECIALS
    ensures exists f :: AddGroups(m, sets) == f && Whole(f, sets)
  {
    var r := WithGroups(Retain(m, IsNoNotice), sets);
    FinishFinishes(r, RootMembers(r, sets), NodeTags(r), reserved);
    FinishedIsWhole(r, Finish(r, RootMembers(r, sets), NodeTags(r)), sets, reserved);
  }

  // ---------------------------------------------------------------- stale nodes

  /** No edit of one entry makes a node out of something else, or renames it. */
  lemma {:induction false} KeptIsPlain(v: Value, w: Value, names: seq<string>)
    requires Kept(v, w) && (IsNode(v) ==> !HasAlias(v, names))
    ensures IsNode(w) ==> !HasAlias(w, names)
  {
  }

  lemma {:induction false} UpdateAtPlain(s: seq<Value>, tag: string, update: Value -> Value, names: seq<string>)
    requires Plain(s, names) && Keeps(update)
    ensures Plain(UpdateAt(s, tag, update), names)
  {
    match Position(s, v => Tagged(v, tag))
    case Some(i) =>
      assert s[i] in s;
      KeptIsPlain(s[i], update(s[i]), names);
      forall w | w in s[i := update(s[i])] ensures w == update(s[i]) || w in s {
        var k :| 0 <= k < |s| && s[i := update(s[i])][k] == w;
      }
    case None =>
  }

  lemma {:induction false} UpsertPlain(s: seq<Value>, tag: string, built: Value, update: Value -> Value,
                                       names: seq<string>)
    requires Plain(s, names) && Keeps(update) && !IsNode(built)
    ensures Plain(Upsert(s, tag, built, update), names)
  {
    if Position(s, v => Tagged(v, tag)).Some? {
      assert Upsert(s, tag, built, update) == UpdateAt(s, tag, update);
      UpdateAtPlain(s, tag, update, names);
    }
  }

  lemma {:induction false} RetainPlain(s: seq<Value>, keep: Value -> bool, names: seq<string>)
    requires Plain(s, names)
    ensures Plain(Retain(s, keep), names)
  {
    forall v ensures v in Retain(s, keep) <==> v in s && keep(v) { RetainMembers(s, keep, v); }
  }

  lemma {:induction false} BasePlain(s: seq<Value>, direct: string, block: string, replace: bool, names: seq<string>)
    requires Plain(s, names)
    ensures var s1 := Upsert(Upsert(s, direct, DirectOutbound(direct), Unchanged), block, BlockOutbound(block),
                             Unchanged);
            Plain(if replace then Retain(s1, IsNotNode) else s1, names)
  {
    UpsertPlain(s, direct, DirectOutbound(direct), Unchanged, names);
    var s0 := Upsert(s, direct, DirectOutbound(direct), Unchanged);
    UpsertPlain(s0, block, BlockOutbound(block), Unchanged, names);
    RetainPlain(Upsert(s0, block, BlockOutbound(block), Unchanged), IsNotNode, names);
  }

  lemma {:induction false} TwoUpsertsPlain(s: seq<Value>, a: string, builtA: Value, toA: Value -> Value, b: string,
                                           builtB: Value,
                                           toB: Value -> Value, names: seq<string>)
    requires Plain(s, names) && Keeps(toA) && !IsNode(builtA) && Keeps(toB) && !IsNode(builtB)
    ensures Plain(Upsert(Upsert(s, a, builtA, toA), b, builtB, toB), names)
  {
    UpsertPlain(s, a, builtA, toA, names);
    UpsertPlain(Upsert(s, a, builtA, toA), b, builtB, toB, names);
  }

  lemma {:induction false} SpecialsPlain(s: seq<Value>, tags: seq<string>, replace: bool, names: seq<string>)
    requires Plain(s, names)
    ensures Plain(WithSpecials(s, tags, replace), names)
  {
    var selector, auto := SelectorOf(s), AutoOf(s);
    var direct, block := Named(s, DIRECT_ALIASES), Named(s, BLOCK_ALIASES);
    BasePlain(s, direct, block, replace, names);
    var s1 := Upsert(Upsert(s, direct, DirectOutbound(direct), Unchanged), block, BlockOutbound(block), Unchanged);
    var s2 := if replace then Retain(s1, IsNotNode) else s1;
    var members := Distinct([auto] + tags);
    EditsKeep(members, replace, auto);
    EditsKeep(tags, replace, auto);
    BuiltSpecials(selector, auto, members, tags);
    TwoUpsertsPlain(s2, selector, BuiltSelector(selector, members, auto),
                    v => MergedSelector(v, members, replace, auto),
                    auto, BuiltAuto(auto, tags), v => MergedAuto(v, tags, replace), names);
  }

  lemma {:induction false} UpsertNodePlain(s: seq<Value>, node: Value, names: seq<string>)
    requires Plain(s, names) && !HasAlias(node, names)
    ensures Plain(UpsertNode(s, node), names)
  {
    if TagOf(node).Some? {
      match Position(s, v => Tagged(v, TagOf(node).value))
      case Some(i) =>
        forall w | w in s[i := node] ensures w == node || w in s {
          var k :| 0 <= k < |s| && s[i := node][k] == w;
        }
      case None =>
    }
  }

  lemma {:induction false} AddNodesPlain(s: seq<Value>, nodes: seq<Value>, names: seq<string>)
    requires Plain(s, names) && forall n :: n in nodes ==> !HasAlias(n, names)
    ensures Plain(AddNodes(s, nodes), names)
  {
    if nodes != [] {
      AddNodesPlain(s, nodes[..|nodes| - 1], names);
      UpsertNodePlain(AddNodes(s, nodes[..|nodes| - 1]), nodes[|nodes| - 1], names);
    }
  }

  lemma {:induction false} AddGroupPlain(s: seq<Value>, provider: NodeSet, names: seq<string>)
    requires Plain(s, names)
    ensures Plain(AddGroup(s, provider), names)
  {
    var tags := CollectTags(provider.nodes);
    if tags != [] {
      GroupEditKeeps(tags);
      GroupBuilt(provider.name, tags);
      UpsertPlain(s, provider.name, BuiltGroup(provider.name, tags), v => AsGroup(v, tags), names);
    }
  }

  lemma {:induction false} WithGroupsPlain(s: seq<Value>, sets: seq<NodeSet>, names: seq<string>)
    requires Plain(s, names)
    ensures Plain(WithGroups(s, sets), names)
  {
    if sets != [] {
      WithGroupsPlain(s, sets[..|sets| - 1], names);
      AddGroupPlain(WithGroups(s, sets[..|sets| - 1]), sets[|sets| - 1], names);
    }
  }

  lemma {:induction false} FinishPlain(s: seq<Value>, members: seq<string>, nodes: seq<string>, names: seq<string>)
    requires Plain(s, names)
    ensures Plain(Finish(s, members, nodes), names)
  {
    RootEditKeeps(members, AutoOf(s));
    AutoEditKeeps(nodes);
    UpdateAtPlain(s, SelectorOf(s), RootEdit(members, AutoOf(s)), names);
    UpdateAtPlain(UpdateAt(s, SelectorOf(s), RootEdit(members, AutoOf(s))), AutoOf(s), AutoEdit(nodes), names);
  }

  lemma {:induction false} AddGroupsPlain(m: seq<Value>, sets: seq<NodeSet>, names: seq<string>)
    requires Plain(m, names)
    ensures Plain(AddGroups(m, sets), names)
  {
    RetainPlain(m, IsNoNotice, names);
    var s := WithGroups(Retain(m, IsNoNotice), sets);
    WithGroupsPlain(Retain(m, IsNoNotice), sets, names);
    if sets != [] { FinishPlain(s, RootMembers(s, sets), NodeTags(s), names); }
  }

  lemma {:induction false} StaleAreRemoved(s: seq<Value>, sets: seq<NodeSet>, tag: string)
    requires IsStale(s, sets, tag)
    ensures Plain(RemoveManaged(s, sets), [tag])
  {
    var keep := (v: Value) => !IsProviderSelector(v, sets) &&
        (!IsNode(v) || TagOf(v).None? || !IsStale(s, sets, TagOf(v).value));
    forall v | v in RemoveManaged(s, sets) && IsNode(v) ensures !HasAlias(v, [tag]) {
      RetainMembers(s, keep, v);
    }
  }

  /** In any outbound list, nodes that refreshed providers listed are gone unless they were imported again. */
  lemma {:induction false} StaleNodesAreGone(s: seq<Value>, sets: seq<NodeSet>, replace: bool, tag: string)
    requires Refresh(s, sets, replace).Some? && IsStale(s, sets, tag) && tag !in CollectTags(Imported(sets))
    ensures tag !in NodeTags(Refresh(s, sets, replace).value)
  {
    StaleAreRemoved(s, sets, tag);
    MergePlain(RemoveManaged(s, sets), Imported(sets), replace, tag);
    var m := MergeOutbounds(RemoveManaged(s, sets), Imported(sets), replace).value;
    AddGroupsPlain(m, sets, [tag]);
    PlainHasNo(AddGroups(m, sets), tag);
  }

  lemma {:induction false} MergePlain(s: seq<Value>, nodes: seq<Value>, replace: bool, tag: string)
    requires MergeOutbounds(s, nodes, replace).Some? && Plain(s, [tag]) && tag !in CollectTags(nodes)
    ensures Plain(MergeOutbounds(s, nodes, replace).value, [tag])
  {
    SpecialsPlain(s, CollectTags(nodes), replace, [tag]);
    forall n | n in nodes ensures !HasAlias(n, [tag]) { CollectMembers(nodes, tag); }
    AddNodesPlain(WithSpecials(s, CollectTags(nodes), replace), nodes, [tag]);
  }

  lemma {:induction false} PlainHasNo(s: seq<Value>, tag: string)
    requires Plain(s, [tag])
    ensures tag !in NodeTags(s)
  {
    NodeTagsMembers(s, tag);
  }
}
