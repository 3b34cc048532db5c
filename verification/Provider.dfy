/** Provider refresh on the outbound list: stale nodes out, imported nodes in, one group per provider,
    and the selector and auto group rebuilt over them. */
module Provider {
  import opened Prelude
  import opened Json
  import opened Outbounds
  import opened PrivateRules

  const SPECIALS := SELECTOR_ALIASES + AUTO_ALIASES + DIRECT_ALIASES + BLOCK_ALIASES
  const DELAY_TEST_URL := "https://www.gstatic.com/generate_204"

  /** One provider and the nodes imported for it. */
  datatype NodeSet = NodeSet(name: string, nodes: seq<Value>)

  // ---------------------------------------------------------------- tags

  function TagOf(v: Value): Option<string> { GetStr(v, "tag") }

  /** `collect_tags`. */
  function CollectTags(s: seq<Value>): seq<string> {
    if s == [] then []
    else (match TagOf(s[0]) case Some(t) => [t] case None => []) + CollectTags(s[1..])
  }

  function StartsWith(s: string, p: string): bool { |p| <= |s| && s[..|p|] == p }

  function Mentions(s: string, p: string): bool {
    StartsWith(s, p) || (s != [] && Mentions(s[1..], p))
  }

  /** `is_metadata_node_tag`. */
  predicate IsMetadata(tag: string) {
    StartsWith(tag, "剩余流量") || StartsWith(tag, "距离下次重置剩余") || StartsWith(tag, "套餐到期") ||
    Mentions(tag, "官网") || Mentions(tag, "刷新订阅") || Mentions(tag, "如遇不可用请访问") ||
    Mentions(tag, "请更换客户端") ||
    Mentions(tag, "直连地址") || Mentions(tag, "TG群") || Mentions(tag, "邀请好友")
  }

  /** A node outbound that stands for a server: tagged, and not a provider's notice. */
  predicate IsServer(v: Value) { IsNode(v) && TagOf(v).Some? && !IsMetadata(TagOf(v).value) }

  /** The tags of all server nodes, in order. */
  function NodeTags(s: seq<Value>): seq<string> { CollectTags(Retain(s, IsServer)) }

  /** First occurrences only. */
  function Distinct(s: seq<string>): seq<string> {
    if s == [] then []
    else
      var front := Distinct(s[..|s| - 1]);
      if s[|s| - 1] in front then front else front + [s[|s| - 1]]
  }

  // ---------------------------------------------------------------- entries

  function SetMembers(v: Value, members: seq<string>): Value {
    if v.Obj? then Obj(v.fields["outbounds" := Arr(Strs(members))]) else v
  }

  function StringsIn(items: seq<Value>): seq<string> {
    if items == [] then []
    else (match items[0] case Str(s) => [s] case _ => []) + StringsIn(items[1..])
  }

  /** The members an outbound lists. */
  function Members(v: Value): seq<string> { StringsIn(Items(v, "outbounds")) }

  function MergeMembers(v: Value, members: seq<string>): Value {
    if !v.Obj? || EntryArr(v.fields, "outbounds").None? then v
    else SetMembers(v, Distinct(StringsIn(EntryArr(v.fields, "outbounds").value) + members))
  }

  function SetBool(v: Value, key: string, b: bool): Value {
    if v.Obj? then Obj(v.fields[key := Bool(b)]) else v
  }

  function Listed(v: Value, members: seq<string>, replace: bool): Value {
    if replace then SetMembers(v, members) else MergeMembers(v, members)
  }

  function AsSelector(v: Value, auto: string): Value { EnsureStr(EnsureStr(v, "type", "selector"), "default", auto) }

  function AsAuto(v: Value): Value {
    EnsureStr(EnsureStr(EnsureStr(v, "type", "urltest"), "url", DELAY_TEST_URL), "interval", "10m")
  }

  /** The same tag, and the same type where there was one. */
  ghost predicate Kept(v: Value, w: Value) {
    TagOf(w) == TagOf(v) && (Get(v, "type").Some? ==> Get(w, "type") == Get(v, "type"))
  }

  /** An edit that leaves tags alone and does not retype what is typed. */
  ghost predicate Keeps(update: Value -> Value) {
    forall v: Value {:trigger update(v)} :: Kept(v, update(v))
  }

  // ---------------------------------------------------------------- looking up

  function Lookup(s: seq<Value>, tag: string): Option<Value> {
    match Position(s, v => Tagged(v, tag)) case Some(i) => Some(s[i]) case None => None
  }

  ghost predicate Unique(s: seq<Value>) {
    forall i, j :: 0 <= i < j < |s| && TagOf(s[i]).Some? ==> TagOf(s[i]) != TagOf(s[j])
  }

  /** No node bears a reserved name. */
  ghost predicate Plain(s: seq<Value>, reserved: seq<string>) {
    forall v :: v in s && IsNode(v) ==> !HasAlias(v, reserved)
  }

  lemma {:induction false} LookupMember(s: seq<Value>, tag: string)
    ensures Lookup(s, tag).Some? <==> HasTag(s, tag)
    ensures Lookup(s, tag).Some? ==> Lookup(s, tag).value in s && Tagged(Lookup(s, tag).value, tag)
  {
    var p := (v: Value) => Tagged(v, tag);
    match Position(s, p)
    case Some(i) => assert s[i] in s;
    case None =>
  }

  lemma {:induction false} UniqueLookup(s: seq<Value>, v: Value)
    requires Unique(s) && v in s && TagOf(v).Some?
    ensures Lookup(s, TagOf(v).value) == Some(v)
  {
    var i :| 0 <= i < |s| && s[i] == v;
    PositionAt(s, w => Tagged(w, TagOf(v).value), i);
  }

  lemma {:induction false} CollectMembers(s: seq<Value>, t: string)
    ensures t in CollectTags(s) <==> HasTag(s, t)
  {
    if s != [] {
      CollectMembers(s[1..], t);
      assert forall v :: v in s <==> v == s[0] || v in s[1..];
      assert HasTag(s, t) <==> Tagged(s[0], t) || HasTag(s[1..], t);
    }
  }

  lemma {:induction false} NodeTagsMembers(s: seq<Value>, t: string)
    ensures t in NodeTags(s) <==> exists v :: v in s && IsServer(v) && Tagged(v, t)
  {
    CollectMembers(Retain(s, IsServer), t);
    forall v ensures v in Retain(s, IsServer) <==> v in s && IsServer(v) { RetainMembers(s, IsServer, v); }
  }

  lemma {:induction false} DistinctMembers(s: seq<string>)
    ensures forall x :: x in Distinct(s) <==> x in s
  {
    if s != [] { DistinctMembers(s[..|s| - 1]); }
  }

  lemma {:induction false} StringsInStrs(ss: seq<string>)
    ensures StringsIn(Strs(ss)) == ss
  {
    if ss != [] { StringsInStrs(ss[1..]); }
  }

  // ---------------------------------------------------------------- replacing one entry

  /** An entry exchanged for one of the same tag that is a node only where the old one was. */
  lemma {:induction false} ExchangeKeeps(s: seq<Value>, i: nat, v: Value, reserved: seq<string>)
    requires i < |s| && TagOf(v) == TagOf(s[i]) && Unique(s) && Plain(s, reserved) &&
             (IsNode(v) ==> !HasAlias(v, reserved))
    ensures Unique(s[i := v]) && Plain(s[i := v], reserved)
  {
    forall w | w in s[i := v] ensures w == v || w in s {
      var k :| 0 <= k < |s| && s[i := v][k] == w;
    }
  }

  lemma {:induction false} AppendKeeps(s: seq<Value>, v: Value, reserved: seq<string>)
    requires TagOf(v).Some? && !HasTag(s, TagOf(v).value)
    requires Unique(s) && Plain(s, reserved) && (IsNode(v) ==> !HasAlias(v, reserved))
    ensures Unique(s + [v]) && Plain(s + [v], reserved)
  {
    forall i | 0 <= i < |s| ensures TagOf(s[i]) != TagOf(v) { assert s[i] in s; }
  }

  lemma {:induction false} UpdateStaysPlain(v: Value, update: Value -> Value)
    requires Keeps(update) && !IsNode(v)
    ensures !IsNode(update(v)) && TagOf(update(v)) == TagOf(v)
  {
  }

  /** A special outbound updated or added: tags stay unique and nodes plain. */
  lemma {:induction false} UpsertKeeps(s: seq<Value>, tag: string, built: Value, update: Value -> Value,
                                       reserved: seq<string>)
    requires Unique(s) && Plain(s, reserved) && tag in reserved && Keeps(update) && Tagged(built, tag) && !IsNode(built)
    ensures Unique(Upsert(s, tag, built, update)) && Plain(Upsert(s, tag, built, update), reserved)
  {
    match Position(s, v => Tagged(v, tag))
    case Some(i) =>
      assert s[i] in s;
      UpdateStaysPlain(s[i], update);
      ExchangeKeeps(s, i, update(s[i]), reserved);
    case None => AppendKeeps(s, built, reserved);
  }

  lemma {:induction false} UpsertLookup(s: seq<Value>, tag: string, built: Value, update: Value -> Value, t: string)
    requires Keeps(update) && Tagged(built, tag)
    ensures Lookup(Upsert(s, tag, built, update), t) ==
            if t != tag then Lookup(s, t)
            else Some(match Lookup(s, tag) case Some(v) => update(v) case None => built)
  {
    var r := Upsert(s, tag, built, update);
    var p, q := (v: Value) => Tagged(v, tag), (v: Value) => Tagged(v, t);
    match Position(s, p)
    case Some(i) =>
      assert TagOf(update(s[i])) == TagOf(s[i]);
      ExchangeLookup(s, i, update(s[i]), t);
    case None =>
      AppendLookup(s, built, t);
  }

  lemma {:induction false} ExchangeLookup(s: seq<Value>, i: nat, v: Value, t: string)
    requires i < |s| && TagOf(v) == TagOf(s[i])
    ensures Position(s[i := v], w => Tagged(w, t)) == Position(s, w => Tagged(w, t))
  {
    var q, r := (w: Value) => Tagged(w, t), s[i := v];
    match Position(s, q)
    case Some(k) => PositionAt(r, q, k);
    case None =>
      forall w | w in r ensures !q(w) {
        var k :| 0 <= k < |r| && r[k] == w;
        assert s[k] in s;
      }
  }

  lemma {:induction false} AppendLookup(s: seq<Value>, v: Value, t: string)
    ensures Lookup(s + [v], t) == if Lookup(s, t).None? && Tagged(v, t) then Some(v) else Lookup(s, t)
  {
    var q, r := (w: Value) => Tagged(w, t), s + [v];
    match Position(s, q)
    case Some(k) => PositionAt(r, q, k);
    case None =>
      forall k | 0 <= k < |s| ensures !q(r[k]) { assert r[k] in s; }
      if q(v) { PositionAt(r, q, |s|); }
  }

  // ---------------------------------------------------------------- the refresh

  function Imported(sets: seq<NodeSet>): seq<Value> {
    if sets == [] then [] else Imported(sets[..|sets| - 1]) + sets[|sets| - 1].nodes
  }

  predicate Names(sets: seq<NodeSet>, v: Value) {
    exists k :: 0 <= k < |sets| && Tagged(v, sets[k].name)
  }

  /** The members listed by outbounds that bear a refreshed provider's name. */
  predicate IsStale(s: seq<Value>, sets: seq<NodeSet>, tag: string) {
    exists v :: v in s && Names(sets, v) && tag in Members(v)
  }

  predicate IsProviderSelector(v: Value, sets: seq<NodeSet>) {
    var kind := GetStr(v, "type");
    kind.Some? && LowerAscii(kind.value) == "selector" && Names(sets, v)
  }

  /** `remove_provider_managed_nodes`. */
  function RemoveManaged(s: seq<Value>, sets: seq<NodeSet>): seq<Value> {
    Retain(s, v => !IsProviderSelector(v, sets) && (!IsNode(v) || TagOf(v).None? || !IsStale(s, sets, TagOf(v).value)))
  }

  function Unchanged(v: Value): Value { v }

  function BuiltSelector(tag: string, members: seq<string>, auto: string): Value {
    Obj(map["type" := Str("selector"), "tag" := Str(tag), "outbounds" := Arr(Strs(members)), "default" := Str(auto)])
  }

  function BuiltAuto(tag: string, members: seq<string>): Value {
    Obj(map["type" := Str("urltest"), "tag" := Str(tag), "outbounds" := Arr(Strs(members)),
            "url" := Str(DELAY_TEST_URL), "interval" := Str("10m")])
  }

  function BlockOutbound(tag: string): Value { Obj(map["type" := Str("block"), "tag" := Str(tag)]) }

  function MergedSelector(v: Value, members: seq<string>, replace: bool, auto: string): Value {
    SetBool(AsSelector(Listed(v, members, replace), auto), "interrupt_exist_connections", false)
  }

  function MergedAuto(v: Value, members: seq<string>, replace: bool): Value {
    SetBool(AsAuto(Listed(v, members, replace)), "interrupt_exist_connections", false)
  }

  predicate IsNotNode(v: Value) { !IsNode(v) }

  /** The special outbounds of a merge, before the nodes go in. */
  function WithSpecials(s: seq<Value>, tags: seq<string>, replace: bool): seq<Value> {
    var selector, auto := SelectorOf(s), AutoOf(s);
    var direct, block := Named(s, DIRECT_ALIASES), Named(s, BLOCK_ALIASES);
    var s1 := Upsert(Upsert(s, direct, DirectOutbound(direct), Unchanged), block, BlockOutbound(block), Unchanged);
    var s2 := if replace then Retain(s1, IsNotNode) else s1;
    var members := Distinct([auto] + tags);
    var s3 := Upsert(s2, selector, BuiltSelector(selector, members, auto),
                     v => MergedSelector(v, members, replace, auto));
    Upsert(s3, auto, BuiltAuto(auto, tags), v => MergedAuto(v, tags, replace))
  }

  /** `upsert_tagged_outbound`. */
  function UpsertNode(s: seq<Value>, node: Value): seq<Value> {
    var tag := TagOf(node);
    if tag.None? then s
    else match Position(s, v => Tagged(v, tag.value)) case Some(i) => s[i := node] case None => s + [node]
  }

  function AddNodes(s: seq<Value>, nodes: seq<Value>): seq<Value> {
    if nodes == [] then s else UpsertNode(AddNodes(s, nodes[..|nodes| - 1]), nodes[|nodes| - 1])
  }

  /** The outbounds of `merge_into_existing_config`, which refuses an untagged node. */
  function MergeOutbounds(s: seq<Value>, nodes: seq<Value>, replace: bool): Option<seq<Value>> {
    if exists n :: n in nodes && TagOf(n).None? then None
    else Some(AddNodes(WithSpecials(s, CollectTags(nodes), replace), nodes))
  }

  predicate IsNoNotice(v: Value) { !IsNode(v) || IsServer(v) }

  function AsGroup(v: Value, tags: seq<string>): Value
    requires tags != []
  {
    EnsureStr(EnsureStr(SetMembers(v, tags), "type", "selector"), "default", tags[0])
  }

  function BuiltGroup(name: string, tags: seq<string>): Value
    requires tags != []
  {
    Obj(map["type" := Str("selector"), "tag" := Str(name), "outbounds" := Arr(Strs(tags)), "default" := Str(tags[0]),
            "interrupt_exist_connections" := Bool(true)])
  }

  /** `upsert_provider_selector`, for a provider that has nodes. */
  function AddGroup(s: seq<Value>, provider: NodeSet): seq<Value> {
    var tags := CollectTags(provider.nodes);
    if tags == [] then s else Upsert(s, provider.name, BuiltGroup(provider.name, tags), v => AsGroup(v, tags))
  }

  function WithGroups(s: seq<Value>, sets: seq<NodeSet>): seq<Value> {
    if sets == [] then s else AddGroup(WithGroups(s, sets[..|sets| - 1]), sets[|sets| - 1])
  }

  /** The providers that have nodes, and the tags of all their nodes. */
  function GroupNames(sets: seq<NodeSet>): seq<string> {
    if sets == [] then []
    else
      var last := sets[|sets| - 1];
      GroupNames(sets[..|sets| - 1]) + if CollectTags(last.nodes) == [] then [] else [last.name]
  }

  function Grouped(sets: seq<NodeSet>): seq<string> {
    if sets == [] then [] else Grouped(sets[..|sets| - 1]) + CollectTags(sets[|sets| - 1].nodes)
  }

  function UpdateAt(s: seq<Value>, tag: string, update: Value -> Value): seq<Value> {
    match Position(s, v => Tagged(v, tag)) case Some(i) => s[i := update(s[i])] case None => s
  }

  function RootMembers(s: seq<Value>, sets: seq<NodeSet>): seq<string> {
    var grouped := Grouped(sets);
    Distinct([AutoOf(s)] + GroupNames(sets) + Retain(NodeTags(s), t => t !in grouped))
  }

  /** The selector over the auto group, the providers and the nodes no provider has; the auto group over all nodes. */
  function Finish(s: seq<Value>, members: seq<string>, nodes: seq<string>): seq<Value> {
    var selector, auto := SelectorOf(s), AutoOf(s);
    UpdateAt(UpdateAt(s, selector, RootEdit(members, auto)), auto, AutoEdit(nodes))
  }

  function RootEdit(members: seq<string>, auto: string): Value -> Value { v => RootSelector(v, members, auto) }

  function AutoEdit(nodes: seq<string>): Value -> Value { v => RootAuto(v, nodes) }

  function RootSelector(v: Value, members: seq<string>, auto: string): Value {
    AsSelector(SetMembers(v, members), auto)
  }

  function RootAuto(v: Value, nodes: seq<string>): Value { AsAuto(SetMembers(v, nodes)) }

  /** `add_multiple_provider_groups`. */
  function AddGroups(s: seq<Value>, sets: seq<NodeSet>): seq<Value> {
    var s2 := WithGroups(Retain(s, IsNoNotice), sets);
    if sets == [] then s2 else Finish(s2, RootMembers(s2, sets), NodeTags(s2))
  }

  /** The whole refresh, on the outbound list. */
  function Refresh(s: seq<Value>, sets: seq<NodeSet>, replace: bool): Option<seq<Value>> {
    match MergeOutbounds(if sets == [] then s else RemoveManaged(s, sets), Imported(sets), replace)
    case Some(m) => Some(AddGroups(m, sets))
    case None => None
  }

  // ---------------------------------------------------------------- the loops

  /** `with_leading_members`. */
  method WithLeadingMembers(first: seq<string>, tags: seq<string>) returns (members: seq<string>)
    ensures members == Distinct(first + tags)
  {
    var all := first + tags;
    var seen: set<string> := {};
    members := [];
    for i := 0 to |all|
      invariant members == Distinct(all[..i])
      invariant forall x :: x in seen <==> x in members
    {
      assert all[..i + 1][..i] == all[..i];
      if all[i] !in seen {
        seen := seen + {all[i]};
        members := members + [all[i]];
      }
    }
    assert all[..|all|] == all;
  }

  /** The leading members, and then the other nodes that are not there already. */
  method PushMissing(auto: string, names: seq<string>, rest: seq<string>) returns (members: seq<string>)
    ensures members == Distinct([auto] + names + rest)
  {
    members := WithLeadingMembers([auto], names);
    ghost var all, n := [auto] + names + rest, |names| + 1;
    assert all[..n] == [auto] + names;
    for k := 0 to |rest|
      invariant members == Distinct(all[..n + k])
    {
      assert all[..n + k + 1][..n + k] == all[..n + k] && all[n + k] == rest[k];
      if rest[k] !in members { members := members + [rest[k]]; }
    }
    assert all[..|all|] == all;
  }

  /** One group per provider that has nodes. */
  method GroupLoop(s: seq<Value>, sets: seq<NodeSet>) returns (r: seq<Value>, names: seq<string>, grouped: seq<string>)
    ensures r == WithGroups(s, sets) && names == GroupNames(sets) && grouped == Grouped(sets)
  {
    r, names, grouped := s, [], [];
    for i := 0 to |sets|
      invariant r == WithGroups(s, sets[..i]) && names == GroupNames(sets[..i]) && grouped == Grouped(sets[..i])
    {
      assert sets[..i + 1][..i] == sets[..i];
      var tags := CollectTags(sets[i].nodes);
      r := AddGroup(r, sets[i]);
      if tags != [] { names := names + [sets[i].name]; }
      grouped := grouped + tags;
    }
    assert sets[..|sets|] == sets;
  }

  /** `add_multiple_provider_groups`, as the source runs it. */
  method AddMultipleProviderGroups(s: seq<Value>, sets: seq<NodeSet>) returns (r: seq<Value>)
    ensures r == AddGroups(s, sets)
  {
    var names, grouped;
    r, names, grouped := GroupLoop(Retain(s, IsNoNotice), sets);
    if sets != [] {
      var rest := Retain(NodeTags(r), t => t !in grouped);
      var members := PushMissing(AutoOf(r), names, rest);
      r := Finish(r, members, NodeTags(r));
    }
  }
}
