/** What a merge and a refresh write into the root selector, the auto group, the direct and block outbounds and the
    provider groups, field by field. */
module ProviderSpecials {
  import opened Prelude
  import opened Json
  import opened Outbounds
  import opened PrivateRules
  import opened Provider
  import opened ProviderGraph
  import opened ProviderNodes
  import Merge

  // ---------------------------------------------------------------- lists of members

  /** The outbounds an entry lists are these, in order. */
  ghost predicate ListsAll(v: Value, members: seq<string>) {
    match Get(v, "outbounds")
    case Some(Arr(items)) => |items| == |members| && forall i :: 0 <= i < |items| ==> items[i] == Str(members[i])
    case _ => false
  }

  lemma {:induction false} StrsMeaning(ss: seq<string>)
    ensures |Strs(ss)| == |ss| && forall i :: 0 <= i < |ss| ==> Strs(ss)[i] == Str(ss[i])
  {
    if ss != [] { StrsMeaning(ss[1..]); }
  }

  /** The first occurrences, in order. */
  ghost predicate FirstsOf(r: seq<string>, s: seq<string>) {
    (forall x :: x in r <==> x in s) && (forall i, j :: 0 <= i < j < |r| ==> r[i] != r[j]) &&
    forall i, j :: 0 <= i < j < |r| ==> exists k :: 0 <= k < |s| && s[k] == r[i] && r[j] !in s[..k]
  }

  lemma {:induction false} DistinctMeaning(s: seq<string>)
    ensures FirstsOf(Distinct(s), s)
  {
    DistinctMembers(s);
    if s != [] {
      var front, last, r := s[..|s| - 1], s[|s| - 1], Distinct(s);
      DistinctMeaning(front);
      var f := Distinct(front);
      forall i, j | 0 <= i < j < |r| ensures exists k :: 0 <= k < |s| && s[k] == r[i] && r[j] !in s[..k] {
        if j < |f| {
          var k :| 0 <= k < |front| && front[k] == f[i] && f[j] !in front[..k];
          assert s[k] == r[i] && s[..k] == front[..k];
        } else {
          assert r[i] in front;
          var k :| 0 <= k < |front| && front[k] == r[i];
          assert s[k] == r[i] && forall x :: x in s[..k] ==> x in front;
        }
      }
    }
  }

  // ---------------------------------------------------------------- fields

  /** The entry has the field it had before, or else this one. */
  ghost predicate Defaulted(was: Option<Value>, v: Value, key: string, value: string) {
    Get(v, key) == if was.Some? && Get(was.value, key).Some? then Get(was.value, key) else Some(Str(value))
  }

  /** All fields but some are those there were before; a new entry has no others. */
  ghost predicate OnlyWritten(was: Option<Value>, v: Value, keys: set<string>) {
    v.Obj? && forall key :: key !in keys ==> Get(v, key) == if was.Some? then Get(was.value, key) else None
  }

  /** A selector as a merge or a refresh writes it. */
  ghost predicate SelectorFields(was: Option<Value>, v: Value, tag: string, auto: string) {
    OnlyWritten(was, v, {"type", "tag", "outbounds", "default", "interrupt_exist_connections"}) &&
    Get(v, "tag") == Some(Str(tag)) && Defaulted(was, v, "type", "selector") && Defaulted(was, v, "default", auto) &&
    (was.Some? ==> Get(v, "interrupt_exist_connections") == Some(Bool(false)))
  }

  ghost predicate AutoFields(was: Option<Value>, v: Value, tag: string) {
    OnlyWritten(was, v, {"type", "tag", "outbounds", "url", "interval", "interrupt_exist_connections"}) &&
    Get(v, "tag") == Some(Str(tag)) && Defaulted(was, v, "type", "urltest") &&
    Defaulted(was, v, "url", "https://www.gstatic.com/generate_204") && Defaulted(was, v, "interval", "10m") &&
    (was.Some? ==> Get(v, "interrupt_exist_connections") == Some(Bool(false)))
  }

  ghost predicate GroupFields(was: Option<Value>, v: Value, name: string, tags: seq<string>)
    requires tags != []
  {
    OnlyWritten(was, v, {"type", "tag", "outbounds", "default"} +
                        if was.None? then {"interrupt_exist_connections"} else {}) &&
    Get(v, "tag") == Some(Str(name)) && Defaulted(was, v, "type", "selector") &&
    Defaulted(was, v, "default", tags[0]) && ListsAll(v, tags) &&
    (was.None? ==> Get(v, "interrupt_exist_connections") == Some(Bool(true)))
  }

  /** The strings among the members listed before, when members can be listed at all. */
  ghost predicate ListsMerged(was: Value, v: Value, members: seq<string>) {
    match Get(was, "outbounds")
    case Some(Arr(items)) => exists all :: ListsAll(v, all) && FirstsOf(all, StringsIn(items) + members)
    case Some(other) => Get(v, "outbounds") == Some(other)
    case None => exists all :: ListsAll(v, all) && FirstsOf(all, members)
  }

  ghost predicate ListsNow(was: Option<Value>, v: Value, members: seq<string>, replace: bool) {
    if replace || was.None? then ListsAll(v, members) else ListsMerged(was.value, v, members)
  }

  lemma {:induction false} ListedMeaning(v: Value, members: seq<string>, replace: bool)
    requires v.Obj?
    ensures ListsNow(Some(v), Listed(v, members, replace), members, replace)
    ensures OnlyWritten(Some(v), Listed(v, members, replace), {"outbounds"})
  {
    if replace {
      StrsMeaning(members);
    } else if EntryArr(v.fields, "outbounds").Some? {
      var before := EntryArr(v.fields, "outbounds").value;
      var all := Distinct(StringsIn(before) + members);
      DistinctMeaning(StringsIn(before) + members);
      StrsMeaning(all);
      assert ListsAll(Listed(v, members, replace), all);
      assert [] + members == members;
    }
  }

  lemma {:induction false} SelectorMeaning(v: Value, tag: string, members: seq<string>, replace: bool, auto: string)
    requires Tagged(v, tag)
    ensures var w := MergedSelector(v, members, replace, auto);
            SelectorFields(Some(v), w, tag, auto) &&
            Get(w, "outbounds") == Get(Listed(v, members, replace), "outbounds")
  {
    ListedMeaning(v, members, replace);
  }

  lemma {:induction false} AutoMeaning(v: Value, tag: string, members: seq<string>, replace: bool)
    requires Tagged(v, tag)
    ensures var w := MergedAuto(v, members, replace);
            AutoFields(Some(v), w, tag) && Get(w, "outbounds") == Get(Listed(v, members, replace), "outbounds")
  {
    ListedMeaning(v, members, replace);
    TestedMeaning(v, Listed(v, members, replace), tag);
  }

  lemma {:induction false} TestedMeaning(v: Value, w: Value, tag: string)
    requires Tagged(v, tag) && OnlyWritten(Some(v), w, {"outbounds"})
    ensures AutoFields(Some(v), SetBool(AsAuto(w), "interrupt_exist_connections", false), tag) &&
            Get(SetBool(AsAuto(w), "interrupt_exist_connections", false), "outbounds") == Get(w, "outbounds")
  {
    assert Get(w, "type") == Get(v, "type") && Get(w, "url") == Get(v, "url") &&
           Get(w, "interval") == Get(v, "interval") && Get(w, "tag") == Get(v, "tag");
    EnsureMeaning(w, "type", "urltest");
    EnsureMeaning(EnsureStr(w, "type", "urltest"), "url", DELAY_TEST_URL);
    EnsureMeaning(EnsureStr(EnsureStr(w, "type", "urltest"), "url", DELAY_TEST_URL), "interval", "10m");
  }

  lemma {:induction false} EnsureMeaning(v: Value, key: string, value: string)
    requires v.Obj?
    ensures EnsureStr(v, key, value).Obj? && Defaulted(Some(v), EnsureStr(v, key, value), key, value)
    ensures forall k :: k != key ==> Get(EnsureStr(v, key, value), k) == Get(v, k)
  {
  }

  lemma {:induction false} SameList(was: Value, v: Value, w: Value, members: seq<string>, replace: bool)
    requires Get(v, "outbounds") == Get(w, "outbounds") && ListsNow(Some(was), v, members, replace)
    ensures ListsNow(Some(was), w, members, replace)
  {
    if !replace {
      match Get(was, "outbounds")
      case Some(Arr(items)) =>
        var all :| ListsAll(v, all) && FirstsOf(all, StringsIn(items) + members);
        assert ListsAll(w, all);
      case Some(_) =>
      case None =>
        var all :| ListsAll(v, all) && FirstsOf(all, members);
        assert ListsAll(w, all);
    }
  }

  lemma {:induction false} BuiltMeaning(tag: string, members: seq<string>, auto: string)
    ensures SelectorFields(None, BuiltSelector(tag, members, auto), tag, auto) &&
            ListsAll(BuiltSelector(tag, members, auto), members)
    ensures AutoFields(None, BuiltAuto(tag, members), tag) && ListsAll(BuiltAuto(tag, members), members)
    ensures Get(BuiltSelector(tag, members, auto), "interrupt_exist_connections") == None
  {
    StrsMeaning(members);
  }

  lemma {:induction false} GroupMeaning(was: Option<Value>, name: string, tags: seq<string>)
    requires tags != [] && (was.Some? ==> Tagged(was.value, name))
    ensures GroupFields(was, match was case None => BuiltGroup(name, tags) case Some(v) => AsGroup(v, tags), name, tags)
  {
    StrsMeaning(tags);
  }

  // ---------------------------------------------------------------- names

  /** The first of two names that an outbound bears, or else the usual one. */
  function FirstName(s: seq<Value>, name: string, short: string, usual: string): string {
    if s == [] then usual
    else if Get(s[0], "tag") == Some(Str(name)) then name
    else if Get(s[0], "tag") == Some(Str(short)) then short
    else FirstName(s[1..], name, short, usual)
  }

  lemma {:induction false} FirstNameMeaning(s: seq<Value>, name: string, short: string, usual: string)
    ensures PreferredTag(s, [name, short], usual) == FirstName(s, name, short, usual)
  {
    if s != [] {
      var p := (v: Value) => HasAlias(v, [name, short]);
      assert p(s[0]) <==> Get(s[0], "tag") == Some(Str(name)) || Get(s[0], "tag") == Some(Str(short));
      FirstNameMeaning(s[1..], name, short, usual);
    }
  }

  /** Each special outbound goes by the name it has; the short names come together with the short root name. */
  lemma {:induction false} NamesMeaning(s: seq<Value>)
    ensures SelectorOf(s) == FirstName(s, "手动选择", "select", "手动选择")
    ensures var short := SelectorOf(s) == "select";
            AutoOf(s) == FirstName(s, "自动选择", "auto", if short then "auto" else "自动选择") &&
            Named(s, DIRECT_ALIASES) == FirstName(s, "国内直连", "direct", if short then "direct" else "国内直连") &&
            Named(s, BLOCK_ALIASES) == FirstName(s, "屏蔽", "block", if short then "block" else "屏蔽")
  {
    var short := SelectorOf(s) == "select";
    FirstNameMeaning(s, "手动选择", "select", "手动选择");
    FirstNameMeaning(s, "自动选择", "auto", if short then "auto" else "自动选择");
    FirstNameMeaning(s, "国内直连", "direct", if short then "direct" else "国内直连");
    FirstNameMeaning(s, "屏蔽", "block", if short then "block" else "屏蔽");
  }

  // ---------------------------------------------------------------- edits of one tag

  /** The first outbound of a tag edited, or a new one. */
  function SwapFirst(s: seq<Value>, built: Value, update: Value -> Value): seq<Value> {
    if s == [] then [built] else [update(s[0])] + s[1..]
  }

  lemma {:induction false} ExchangeOfTag(s: seq<Value>, tag: string, update: Value -> Value)
    requires Keeps(update)
    ensures match Position(s, v => Tagged(v, tag))
            case Some(i) =>
              OfTag(s, tag) != [] && OfTag(s[i := update(s[i])], tag) == [update(OfTag(s, tag)[0])] + OfTag(s, tag)[1..]
            case None => OfTag(s, tag) == []
  {
    match Position(s, v => Tagged(v, tag))
    case Some(i) =>
      assert Kept(s[i], update(s[i]));
      FirstOfTag(s, tag, i, update(s[i]));
    case None => RetainNone(s, v => Tagged(v, tag));
  }

  lemma {:induction false} UpsertOfTag(s: seq<Value>, tag: string, built: Value, update: Value -> Value)
    requires Keeps(update) && Tagged(built, tag)
    ensures OfTag(Upsert(s, tag, built, update), tag) == SwapFirst(OfTag(s, tag), built, update)
  {
    ExchangeOfTag(s, tag, update);
    if Position(s, v => Tagged(v, tag)).None? { RetainAppend(s, [built], v => Tagged(v, tag)); }
  }

  // ---------------------------------------------------------------- a merge

  lemma {:induction false} NotTagged(tag: string, other: string)
    requires tag != other
    ensures Elsewhere(v => Tagged(v, tag), other)
  {
  }

  /** The outbounds of a tag that a merge starts from. */
  function Stays(s: seq<Value>, replace: bool, tag: string): seq<Value> {
    Retain(s, v => Tagged(v, tag) && !(IsNodeType(v) && replace))
  }

  lemma {:induction false} BaseOfTag(s: seq<Value>, replace: bool, tag: string)
    requires tag != Named(s, DIRECT_ALIASES) && tag != Named(s, BLOCK_ALIASES)
    ensures OfTag(Base(s, replace), tag) == Stays(s, replace, tag)
  {
    var direct, block := Named(s, DIRECT_ALIASES), Named(s, BLOCK_ALIASES);
    var p, q := (v: Value) => Tagged(v, tag), (v: Value) => Tagged(v, tag) && !(IsNodeType(v) && replace);
    var s1 := Upsert(Upsert(s, direct, DirectOutbound(direct), Unchanged), block, BlockOutbound(block), Unchanged);
    if replace {
      BaseUnseen(s, direct, block, q);
      RetainTwice(s1, IsNotNode, p, q);
    } else {
      BaseUnseen(s, direct, block, p);
      RetainSame(s, p, q);
    }
  }

  /** The list with the direct and block outbounds, before the groups come. */
  function Base(s: seq<Value>, replace: bool): seq<Value> {
    var direct, block := Named(s, DIRECT_ALIASES), Named(s, BLOCK_ALIASES);
    var s1 := Upsert(Upsert(s, direct, DirectOutbound(direct), Unchanged), block, BlockOutbound(block), Unchanged);
    if replace then Retain(s1, IsNotNode) else s1
  }

  lemma {:induction false} SelectorOfTag(s: seq<Value>, tags: seq<string>, replace: bool)
    ensures var selector, auto := SelectorOf(s), AutoOf(s); var members := Distinct([auto] + tags);
            OfTag(WithSpecials(s, tags, replace), selector) ==
            SwapFirst(Stays(s, replace, selector), BuiltSelector(selector, members, auto),
                      v => MergedSelector(v, members, replace, auto))
  {
    var selector, auto := SelectorOf(s), AutoOf(s);
    var members := Distinct([auto] + tags);
    SpecialNames(s, SPECIALS);
    NamesApart(s);
    EditsKeep(members, replace, auto);
    EditsKeep(tags, replace, auto);
    BuiltSpecials(selector, auto, members, tags);
    BaseOfTag(s, replace, selector);
    UpsertOfTag(Base(s, replace), selector, BuiltSelector(selector, members, auto),
                v => MergedSelector(v, members, replace, auto));
    NotTagged(selector, auto);
    var s3 := Upsert(Base(s, replace), selector, BuiltSelector(selector, members, auto),
                     v => MergedSelector(v, members, replace, auto));
    UpsertUnseen(s3, auto, BuiltAuto(auto, tags), v => MergedAuto(v, tags, replace), v => Tagged(v, selector));
  }

  lemma {:induction false} AutoOfTag(s: seq<Value>, tags: seq<string>, replace: bool)
    ensures var auto := AutoOf(s);
            OfTag(WithSpecials(s, tags, replace), auto) ==
            SwapFirst(Stays(s, replace, auto), BuiltAuto(auto, tags), v => MergedAuto(v, tags, replace))
  {
    var selector, auto := SelectorOf(s), AutoOf(s);
    var members := Distinct([auto] + tags);
    SpecialNames(s, SPECIALS);
    NamesApart(s);
    EditsKeep(members, replace, auto);
    EditsKeep(tags, replace, auto);
    BuiltSpecials(selector, auto, members, tags);
    BaseOfTag(s, replace, auto);
    NotTagged(auto, selector);
    UpsertUnseen(Base(s, replace), selector, BuiltSelector(selector, members, auto),
                 v => MergedSelector(v, members, replace, auto), v => Tagged(v, auto));
    var s3 := Upsert(Base(s, replace), selector, BuiltSelector(selector, members, auto),
                     v => MergedSelector(v, members, replace, auto));
    UpsertOfTag(s3, auto, BuiltAuto(auto, tags), v => MergedAuto(v, tags, replace));
  }

  lemma {:induction false} NamesApart(s: seq<Value>)
    ensures SelectorOf(s) != AutoOf(s)
    ensures Named(s, DIRECT_ALIASES) != SelectorOf(s) && Named(s, DIRECT_ALIASES) != AutoOf(s)
    ensures Named(s, BLOCK_ALIASES) != SelectorOf(s) && Named(s, BLOCK_ALIASES) != AutoOf(s)
    ensures Named(s, BLOCK_ALIASES) != Named(s, DIRECT_ALIASES)
  {
    PreferredExists(s, SELECTOR_ALIASES, SELECTOR_TAG);
    NamedIsAlias(s, AUTO_ALIASES);
    NamedIsAlias(s, DIRECT_ALIASES);
    NamedIsAlias(s, BLOCK_ALIASES);
  }

  lemma {:induction false} EndsBuilt(tag: string)
    ensures Tagged(DirectOutbound(tag), tag) && !IsNodeType(DirectOutbound(tag))
    ensures Tagged(BlockOutbound(tag), tag) && !IsNodeType(BlockOutbound(tag)) && Keeps(Unchanged)
  {
  }

  lemma {:induction false} DirectOfTag(s: seq<Value>, tags: seq<string>, replace: bool)
    ensures var direct := Named(s, DIRECT_ALIASES);
            OfTag(WithSpecials(s, tags, replace), direct) ==
            if OfTag(s, direct) == [] then [DirectOutbound(direct)] else Stays(s, replace, direct)
  {
    var direct, block := Named(s, DIRECT_ALIASES), Named(s, BLOCK_ALIASES);
    NamesApart(s);
    EndsBuilt(direct);
    EndsBuilt(block);
    var s0 := Upsert(s, direct, DirectOutbound(direct), Unchanged);
    NotTagged(direct, block);
    UpsertOfTag(s, direct, DirectOutbound(direct), Unchanged);
    UpsertUnseen(s0, block, BlockOutbound(block), Unchanged, v => Tagged(v, direct));
    DroppedOfTag(s, Upsert(s0, block, BlockOutbound(block), Unchanged), replace, direct, DirectOutbound(direct));
    RootsOfTag(s, tags, replace, direct);
  }

  lemma {:induction false} BlockOfTag(s: seq<Value>, tags: seq<string>, replace: bool)
    ensures var block := Named(s, BLOCK_ALIASES);
            OfTag(WithSpecials(s, tags, replace), block) ==
            if OfTag(s, block) == [] then [BlockOutbound(block)] else Stays(s, replace, block)
  {
    var direct, block := Named(s, DIRECT_ALIASES), Named(s, BLOCK_ALIASES);
    NamesApart(s);
    EndsBuilt(direct);
    EndsBuilt(block);
    var s0 := Upsert(s, direct, DirectOutbound(direct), Unchanged);
    NotTagged(block, direct);
    UpsertUnseen(s, direct, DirectOutbound(direct), Unchanged, v => Tagged(v, block));
    UpsertOfTag(s0, block, BlockOutbound(block), Unchanged);
    DroppedOfTag(s, Upsert(s0, block, BlockOutbound(block), Unchanged), replace, block, BlockOutbound(block));
    RootsOfTag(s, tags, replace, block);
  }

  lemma {:induction false} DroppedOfTag(s: seq<Value>, s1: seq<Value>, replace: bool, tag: string, built: Value)
    requires OfTag(s1, tag) == SwapFirst(OfTag(s, tag), built, Unchanged) && !IsNodeType(built)
    ensures OfTag(if replace then Retain(s1, IsNotNode) else s1, tag) ==
            if OfTag(s, tag) == [] then [built] else Stays(s, replace, tag)
  {
    var p, q := (v: Value) => Tagged(v, tag), (v: Value) => Tagged(v, tag) && !(IsNodeType(v) && replace);
    if replace {
      RetainTwice(s1, IsNotNode, p, q);
      RetainTwice(s1, p, IsNotNode, q);
      RetainTwice(s, p, IsNotNode, q);
    } else {
      RetainSame(s, p, q);
    }
  }

  lemma {:induction false} RootsOfTag(s: seq<Value>, tags: seq<string>, replace: bool, tag: string)
    requires tag != SelectorOf(s) && tag != AutoOf(s)
    ensures OfTag(WithSpecials(s, tags, replace), tag) == OfTag(Base(s, replace), tag)
  {
    NotTagged(tag, SelectorOf(s));
    NotTagged(tag, AutoOf(s));
    RootsUnseen(Base(s, replace), SelectorOf(s), AutoOf(s), tags, replace, v => Tagged(v, tag));
  }

  /** The first outbound of a tag, before and after. */
  function First(s: seq<Value>): Option<Value> { if s == [] then None else Some(s[0]) }

  /** A merge writes the root selector: the auto group and then the imported tags as its members, after the members it
      had if nodes are not replaced. */
  lemma {:induction false} MergedSelectorMeaning(s: seq<Value>, nodes: seq<Value>, replace: bool)
    requires MergeOutbounds(s, nodes, replace).Some? && LastWith(nodes, SelectorOf(s)) == None
    ensures var selector, auto, m := SelectorOf(s), AutoOf(s), MergeOutbounds(s, nodes, replace).value;
            var was := First(Stays(s, replace, selector));
            OfTag(m, selector) != [] && SelectorFields(was, OfTag(m, selector)[0], selector, auto) &&
            exists members :: FirstsOf(members, [auto] + CollectTags(nodes)) &&
                              ListsNow(was, OfTag(m, selector)[0], members, replace)
  {
    var selector, auto, tags := SelectorOf(s), AutoOf(s), CollectTags(nodes);
    var members, stays := Distinct([auto] + tags), Stays(s, replace, selector);
    SelectorOfTag(s, tags, replace);
    AddedOfTag(WithSpecials(s, tags, replace), nodes, selector);
    DistinctMeaning([auto] + tags);
    if stays == [] {
      BuiltMeaning(selector, members, auto);
    } else {
      StaysTagged(s, replace, selector);
      ListedMeaning(stays[0], members, replace);
      SelectorMeaning(stays[0], selector, members, replace, auto);
      SameList(stays[0], Listed(stays[0], members, replace), MergedSelector(stays[0], members, replace, auto), members,
               replace);
    }
  }

  lemma {:induction false} StaysTagged(s: seq<Value>, replace: bool, tag: string)
    requires Stays(s, replace, tag) != []
    ensures Tagged(Stays(s, replace, tag)[0], tag)
  {
    RetainMembers(s, v => Tagged(v, tag) && !(IsNodeType(v) && replace), Stays(s, replace, tag)[0]);
  }

  /** And the auto group: the imported tags, after the members it had if nodes are not replaced. */
  lemma {:induction false} MergedAutoMeaning(s: seq<Value>, nodes: seq<Value>, replace: bool)
    requires MergeOutbounds(s, nodes, replace).Some? && LastWith(nodes, AutoOf(s)) == None
    ensures var auto, m := AutoOf(s), MergeOutbounds(s, nodes, replace).value;
            var was := First(Stays(s, replace, auto));
            OfTag(m, auto) != [] && AutoFields(was, OfTag(m, auto)[0], auto) &&
            ListsNow(was, OfTag(m, auto)[0], CollectTags(nodes), replace)
  {
    var auto, tags := AutoOf(s), CollectTags(nodes);
    var stays := Stays(s, replace, auto);
    AutoOfTag(s, tags, replace);
    AddedOfTag(WithSpecials(s, tags, replace), nodes, auto);
    if stays == [] {
      BuiltMeaning(auto, tags, auto);
    } else {
      StaysTagged(s, replace, auto);
      ListedMeaning(stays[0], tags, replace);
      AutoMeaning(stays[0], auto, tags, replace);
      SameList(stays[0], Listed(stays[0], tags, replace), MergedAuto(stays[0], tags, replace), tags, replace);
    }
  }

  // ---------------------------------------------------------------- provider groups

  lemma {:induction false} GroupOfTag(s: seq<Value>, sets: seq<NodeSet>, k: nat)
    requires NamesDiffer(sets) && k < |sets| && CollectTags(sets[k].nodes) != []
    ensures var name, tags := sets[k].name, CollectTags(sets[k].nodes);
            OfTag(WithGroups(s, sets), name) ==
            SwapFirst(OfTag(s, name), BuiltGroup(name, tags), v => AsGroup(v, tags))
  {
    var front, last := sets[..|sets| - 1], sets[|sets| - 1];
    var name, tags := sets[k].name, CollectTags(sets[k].nodes);
    if k < |front| {
      GroupOfTag(s, front, k);
      NotTagged(name, last.name);
      LastUnseen(WithGroups(s, front), last, v => Tagged(v, name));
    } else {
      forall j | 0 <= j < |front| ensures Elsewhere(v => Tagged(v, name), front[j].name) {
        NotTagged(name, front[j].name);
      }
      NamedUnseen(s, front, v => Tagged(v, name));
      GroupEditKeeps(tags);
      GroupBuilt(name, tags);
      UpsertOfTag(WithGroups(s, front), name, BuiltGroup(name, tags), v => AsGroup(v, tags));
    }
  }

  lemma {:induction false} LastUnseen(s: seq<Value>, last: NodeSet, p: Value -> bool)
    requires Elsewhere(p, last.name)
    ensures Retain(AddGroup(s, last), p) == Retain(s, p)
  {
    var tags := CollectTags(last.nodes);
    if tags != [] {
      GroupEditKeeps(tags);
      GroupBuilt(last.name, tags);
      UpsertUnseen(s, last.name, BuiltGroup(last.name, tags), v => AsGroup(v, tags), p);
    }
  }

  /** What a refresh leaves of the outbounds that bear a provider's name: no selector, and nodes only as elsewhere. */
  ghost function GroupLeft(s: seq<Value>, sets: seq<NodeSet>, replace: bool, name: string): seq<Value> {
    var kept := Retain(s, v => Tagged(v, name) && !IsAnySelector(v) &&
                               !(IsNodeType(v) && (replace || WasListed(s, sets, name))));
    Retain(Renewed(kept, LastWith(Imported(sets), name)), v => !(IsNodeType(v) && IsNotice(name)))
  }

  predicate IsAnySelector(v: Value) {
    match GetStr(v, "type") case Some(kind) => LowerAscii(kind) == "selector" case None => false
  }

  /** A refresh writes a group for every provider with nodes: it lists their tags, in order, and is new unless an
      outbound of that name was left. */
  lemma {:induction false} RefreshedGroup(s: seq<Value>, sets: seq<NodeSet>, replace: bool, k: nat)
    requires Refresh(s, sets, replace).Some? && NamesDiffer(sets) && k < |sets| && !IsSpecialName(sets[k].name)
    requires CollectTags(sets[k].nodes) != []
    ensures var f, name := Refresh(s, sets, replace).value, sets[k].name;
            OfTag(f, name) != [] && OfTag(f, name)[1..] ==
              (if GroupLeft(s, sets, replace, name) == [] then [] else GroupLeft(s, sets, replace, name)[1..]) &&
            GroupFields(First(GroupLeft(s, sets, replace, name)), OfTag(f, name)[0], name, CollectTags(sets[k].nodes))
  {
    var name, tags := sets[k].name, CollectTags(sets[k].nodes);
    var s0 := RemoveManaged(s, sets);
    var m := MergeOutbounds(s0, Imported(sets), replace).value;
    var kept := Retain(m, IsNoNotice);
    LeftOfName(s, sets, replace, k);
    GroupOfTag(kept, sets, k);
    FinishOfTag(WithGroups(kept, sets), sets, name);
    LeftTagged(kept, name);
    SwappedGroup(GroupLeft(s, sets, replace, name), name, tags);
  }

  lemma {:induction false} LeftTagged(s: seq<Value>, tag: string)
    ensures OfTag(s, tag) != [] ==> Tagged(OfTag(s, tag)[0], tag)
  {
    if OfTag(s, tag) != [] { RetainMembers(s, v => Tagged(v, tag), OfTag(s, tag)[0]); }
  }

  lemma {:induction false} SwappedGroup(left: seq<Value>, name: string, tags: seq<string>)
    requires tags != [] && (left != [] ==> Tagged(left[0], name))
    ensures var r := SwapFirst(left, BuiltGroup(name, tags), v => AsGroup(v, tags));
            r[1..] == (if left == [] then [] else left[1..]) && GroupFields(First(left), r[0], name, tags)
  {
    GroupMeaning(First(left), name, tags);
  }

  lemma {:induction false} FinishOfTag(r: seq<Value>, sets: seq<NodeSet>, tag: string)
    requires !IsSpecialName(tag)
    ensures OfTag(Finish(r, RootMembers(r, sets), NodeTags(r)), tag) == OfTag(r, tag)
  {
    SpecialNames(r, SPECIALS);
    SpecialMeaning(SelectorOf(r));
    SpecialMeaning(AutoOf(r));
    NotTagged(tag, SelectorOf(r));
    NotTagged(tag, AutoOf(r));
    FinishUnseen(r, RootMembers(r, sets), NodeTags(r), v => Tagged(v, tag));
  }

  lemma {:induction false} LeftOfName(s: seq<Value>, sets: seq<NodeSet>, replace: bool, k: nat)
    requires Refresh(s, sets, replace).Some? && k < |sets| && !IsSpecialName(sets[k].name)
    ensures var m := MergeOutbounds(RemoveManaged(s, sets), Imported(sets), replace).value;
            OfTag(Retain(m, IsNoNotice), sets[k].name) == GroupLeft(s, sets, replace, sets[k].name)
  {
    var name, s0 := sets[k].name, RemoveManaged(s, sets);
    var m := MergeOutbounds(s0, Imported(sets), replace).value;
    MergedOfTag(s0, Imported(sets), replace, name);
    RemovedOfName(s, sets, replace, k);
    NoticesOfTag(m, name);
  }

  lemma {:induction false} RemovedOfName(s: seq<Value>, sets: seq<NodeSet>, replace: bool, k: nat)
    requires k < |sets|
    ensures var name := sets[k].name;
            Retain(RemoveManaged(s, sets), v => Tagged(v, name) && !(IsNodeType(v) && replace)) ==
            Retain(s, v => Tagged(v, name) && !IsAnySelector(v) &&
                           !(IsNodeType(v) && (replace || WasListed(s, sets, name))))
  {
    var name := sets[k].name;
    var keep := (v: Value) => !IsProviderSelector(v, sets) &&
        (!IsNode(v) || TagOf(v).None? || !IsStale(s, sets, TagOf(v).value));
    StaleMeaning(s, sets, name);
    forall v | Tagged(v, name) ensures Names(sets, v) {}
    RetainTwice(s, keep, v => Tagged(v, name) && !(IsNodeType(v) && replace),
                v => Tagged(v, name) && !IsAnySelector(v) &&
                     !(IsNodeType(v) && (replace || WasListed(s, sets, name))));
  }

  // ---------------------------------------------------------------- the roots of a refresh

  /** The preferred tag is that of the first outbound that has an alias. */
  lemma {:induction false} PreferredView(s: seq<Value>, aliases: seq<string>, preferred: string)
    ensures var view := Retain(s, v => HasAlias(v, aliases));
            PreferredTag(s, aliases, preferred) ==
            if view == [] then preferred else match TagOf(view[0]) case Some(t) => t case None => preferred
  {
    var p := (v: Value) => HasAlias(v, aliases);
    match Position(s, p)
    case Some(i) =>
      forall v | v in s[..i] ensures !p(v) { var k :| 0 <= k < i && s[k] == v; }
      RetainNone(s[..i], p);
      RetainAppend(s[..i], [s[i]] + s[i + 1..], p);
      assert s == s[..i] + ([s[i]] + s[i + 1..]);
    case None => RetainNone(s, p);
  }

  lemma {:induction false} SameView(a: seq<Value>, b: seq<Value>, aliases: seq<string>, preferred: string)
    requires Retain(a, v => HasAlias(v, aliases)) == Retain(b, v => HasAlias(v, aliases))
    ensures PreferredTag(a, aliases, preferred) == PreferredTag(b, aliases, preferred)
  {
    PreferredView(a, aliases, preferred);
    PreferredView(b, aliases, preferred);
  }

  /** An edit of the preferred outbound itself leaves it preferred. */
  lemma {:induction false} UpsertPreferred(s: seq<Value>, aliases: seq<string>, preferred: string, built: Value,
                                           update: Value -> Value)
    requires preferred in aliases && Keeps(update) && Tagged(built, PreferredTag(s, aliases, preferred))
    ensures var tag := PreferredTag(s, aliases, preferred);
            PreferredTag(Upsert(s, tag, built, update), aliases, preferred) == tag
  {
    var tag := PreferredTag(s, aliases, preferred);
    var r := Upsert(s, tag, built, update);
    match Position(s, v => Tagged(v, tag))
    case Some(i) =>
      assert Kept(s[i], update(s[i]));
      SamePreferred(s, r, aliases, preferred);
    case None =>
      PreferredExists(s, aliases, preferred);
      SamePreferred(s, r, aliases, preferred);
  }

  /** No node of the list bears a special name. */
  ghost predicate NodesPlain(s: seq<Value>) { Plain(s, SPECIALS) }

  lemma {:induction false} AliasElsewhere(aliases: seq<string>, tag: string)
    requires tag !in aliases
    ensures Elsewhere(v => HasAlias(v, aliases), tag)
  {
  }

  /** The selector and the auto group stay what they are while the special outbounds are written. */
  lemma {:induction false} SpecialsStay(s: seq<Value>, tags: seq<string>, replace: bool)
    requires NodesPlain(s)
    ensures var r := WithSpecials(s, tags, replace); SelectorOf(r) == SelectorOf(s) && AutoOf(r) == AutoOf(s)
  {
    var selector, auto := SelectorOf(s), AutoOf(s);
    var members := Distinct([auto] + tags);
    var base := Base(s, replace);
    BaseStays(s, replace, SELECTOR_ALIASES);
    BaseStays(s, replace, AUTO_ALIASES);
    SameView(s, base, SELECTOR_ALIASES, SELECTOR_TAG);
    var other := if selector == "select" then "auto" else AUTO_TAG;
    SameView(s, base, AUTO_ALIASES, other);
    SpecialNames(s, SPECIALS);
    EditsKeep(members, replace, auto);
    EditsKeep(tags, replace, auto);
    BuiltSpecials(selector, auto, members, tags);
    RootsStay(base, selector, auto, BuiltSelector(selector, members, auto),
              v => MergedSelector(v, members, replace, auto), BuiltAuto(auto, tags),
              v => MergedAuto(v, tags, replace));
  }

  lemma {:induction false} RootsStay(s: seq<Value>, selector: string, auto: string, builtS: Value,
                                     toS: Value -> Value, builtA: Value, toA: Value -> Value)
    requires selector == SelectorOf(s) && auto == AutoOf(s) && Keeps(toS) && Keeps(toA)
    requires Tagged(builtS, selector) && Tagged(builtA, auto)
    ensures var r := Upsert(Upsert(s, selector, builtS, toS), auto, builtA, toA);
            SelectorOf(r) == selector && AutoOf(r) == auto
  {
    SpecialNames(s, SPECIALS);
    SpecialsHold();
    var other := if selector == "select" then "auto" else AUTO_TAG;
    var s3 := Upsert(s, selector, builtS, toS);
    UpsertPreferred(s, SELECTOR_ALIASES, SELECTOR_TAG, builtS, toS);
    AliasElsewhere(SELECTOR_ALIASES, auto);
    AliasElsewhere(AUTO_ALIASES, selector);
    UpsertUnseen(s3, auto, builtA, toA, v => HasAlias(v, SELECTOR_ALIASES));
    SameView(s3, Upsert(s3, auto, builtA, toA), SELECTOR_ALIASES, SELECTOR_TAG);
    UpsertUnseen(s, selector, builtS, toS, v => HasAlias(v, AUTO_ALIASES));
    SameView(s, s3, AUTO_ALIASES, other);
    UpsertPreferred(s3, AUTO_ALIASES, other, builtA, toA);
  }

  lemma {:induction false} BaseStays(s: seq<Value>, replace: bool, aliases: seq<string>)
    requires NodesPlain(s) && (aliases == SELECTOR_ALIASES || aliases == AUTO_ALIASES)
    ensures Retain(Base(s, replace), v => HasAlias(v, aliases)) == Retain(s, v => HasAlias(v, aliases))
  {
    var direct, block := Named(s, DIRECT_ALIASES), Named(s, BLOCK_ALIASES);
    var p := (v: Value) => HasAlias(v, aliases);
    NamedIsAlias(s, DIRECT_ALIASES);
    NamedIsAlias(s, BLOCK_ALIASES);
    AliasElsewhere(aliases, direct);
    AliasElsewhere(aliases, block);
    BaseUnseen(s, direct, block, p);
    if replace {
      var both := v => IsNotNode(v) && p(v);
      BaseUnseen(s, direct, block, both);
      RetainTwice(Upsert(Upsert(s, direct, DirectOutbound(direct), Unchanged), block, BlockOutbound(block), Unchanged),
                  IsNotNode, p, both);
      RetainSame(s, p, both);
    }
  }

  /** What a refresh may take for granted here: no node, import or provider bears a special name. */
  ghost predicate NamesFree(s: seq<Value>, sets: seq<NodeSet>) {
    NodesPlain(s) && (forall n :: n in Imported(sets) ==> !HasAlias(n, SPECIALS)) &&
    forall k :: 0 <= k < |sets| ==> !IsSpecialName(sets[k].name)
  }

  /** Up to its end, a refresh leaves the special outbounds to the merge. */
  lemma {:induction false} MergeThenGroups(s: seq<Value>, sets: seq<NodeSet>, replace: bool, p: Value -> bool)
    requires Refresh(s, sets, replace).Some? && NamesFree(s, sets)
    requires forall v :: p(v) ==> HasAlias(v, SPECIALS)
    ensures var s0 := if sets == [] then s else RemoveManaged(s, sets);
            var m := MergeOutbounds(s0, Imported(sets), replace).value;
            Retain(s0, p) == Retain(s, p) && NodesPlain(s0) &&
            Retain(WithGroups(Retain(m, IsNoNotice), sets), p) ==
            Retain(WithSpecials(s0, CollectTags(Imported(sets)), replace), p)
  {
    var nodes := Imported(sets);
    var s0 := if sets == [] then s else RemoveManaged(s, sets);
    RemovalStays(s, sets, p);
    var w := WithSpecials(s0, CollectTags(nodes), replace);
    var m := MergeOutbounds(s0, nodes, replace).value;
    SpecialsPlain(s0, CollectTags(nodes), replace, SPECIALS);
    AddNodesPlain(w, nodes, SPECIALS);
    forall n, v | n in nodes && TagOf(n).Some? && TagOf(v) == TagOf(n) ensures !p(v) {}
    AddUnseen(w, nodes, p);
    DropUnseen(m, IsNoNotice, p);
    forall k | 0 <= k < |sets| ensures Elsewhere(p, sets[k].name) { SpecialMeaning(sets[k].name); }
    NamedUnseen(Retain(m, IsNoNotice), sets, p);
  }

  lemma {:induction false} RemovalStays(s: seq<Value>, sets: seq<NodeSet>, p: Value -> bool)
    requires NamesFree(s, sets) && forall v :: p(v) ==> HasAlias(v, SPECIALS)
    ensures var s0 := if sets == [] then s else RemoveManaged(s, sets);
            Retain(s0, p) == Retain(s, p) && NodesPlain(s0)
  {
    if sets != [] {
      var keep := (v: Value) => !IsProviderSelector(v, sets) &&
          (!IsNode(v) || TagOf(v).None? || !IsStale(s, sets, TagOf(v).value));
      forall v | v in s && p(v) ensures keep(v) {
        if Names(sets, v) {
          var k :| 0 <= k < |sets| && Tagged(v, sets[k].name);
          SpecialMeaning(sets[k].name);
        }
      }
      DropUnseen(s, keep, p);
      RetainPlain(s, keep, SPECIALS);
    }
  }

  lemma {:induction false} RootsBefore(s: seq<Value>, sets: seq<NodeSet>, replace: bool)
    requires sets != [] && Refresh(s, sets, replace).Some? && NamesFree(s, sets)
    ensures var s0 := RemoveManaged(s, sets); var m := MergeOutbounds(s0, Imported(sets), replace).value;
            var r := WithGroups(Retain(m, IsNoNotice), sets);
            SelectorOf(r) == SelectorOf(s0) == SelectorOf(s) && AutoOf(r) == AutoOf(s0) == AutoOf(s)
  {
    var p, q := (v: Value) => HasAlias(v, SELECTOR_ALIASES), (v: Value) => HasAlias(v, AUTO_ALIASES);
    var s0 := RemoveManaged(s, sets);
    var m := MergeOutbounds(s0, Imported(sets), replace).value;
    var r := WithGroups(Retain(m, IsNoNotice), sets);
    var w := WithSpecials(s0, CollectTags(Imported(sets)), replace);
    SpecialsHold();
    MergeThenGroups(s, sets, replace, p);
    MergeThenGroups(s, sets, replace, q);
    SpecialsStay(s0, CollectTags(Imported(sets)), replace);
    SameView(s, s0, SELECTOR_ALIASES, SELECTOR_TAG);
    SameView(w, r, SELECTOR_ALIASES, SELECTOR_TAG);
    var other := if SelectorOf(s) == "select" then "auto" else AUTO_TAG;
    SameView(s, s0, AUTO_ALIASES, other);
    SameView(w, r, AUTO_ALIASES, other);
  }

  lemma {:induction false} RootAgain(was: Option<Value>, v: Value, tag: string, members: seq<string>, auto: string)
    requires SelectorFields(was, v, tag, auto)
    ensures SelectorFields(was, RootSelector(v, members, auto), tag, auto) &&
            ListsAll(RootSelector(v, members, auto), members)
  {
    StrsMeaning(members);
  }

  lemma {:induction false} AutoAgain(was: Option<Value>, v: Value, tag: string, nodes: seq<string>)
    requires AutoFields(was, v, tag)
    ensures AutoFields(was, RootAuto(v, nodes), tag) && ListsAll(RootAuto(v, nodes), nodes)
  {
    StrsMeaning(nodes);
  }

  lemma {:induction false} UpdateNodeTags(s: seq<Value>, tag: string, update: Value -> Value)
    requires NodesPlain(s) && tag in SPECIALS && Keeps(update)
    ensures NodeTags(UpdateAt(s, tag, update)) == NodeTags(s) && NodesPlain(UpdateAt(s, tag, update))
  {
    UpdateAtPlain(s, tag, update, SPECIALS);
    match Position(s, v => Tagged(v, tag))
    case Some(i) =>
      assert s[i] in s;
      UpdateStaysPlain(s[i], update);
      ExchangeNodeTags(s, i, update(s[i]));
    case None =>
  }

  lemma {:induction false} FinishNodeTags(r: seq<Value>, members: seq<string>, nodes: seq<string>)
    requires NodesPlain(r)
    ensures NodeTags(Finish(r, members, nodes)) == NodeTags(r)
  {
    SpecialNames(r, SPECIALS);
    RootEditKeeps(members, AutoOf(r));
    AutoEditKeeps(nodes);
    UpdateNodeTags(r, SelectorOf(r), RootEdit(members, AutoOf(r)));
    UpdateNodeTags(UpdateAt(r, SelectorOf(r), RootEdit(members, AutoOf(r))), AutoOf(r), AutoEdit(nodes));
  }

  lemma {:induction false} FinishedRoots(r: seq<Value>, members: seq<string>, nodes: seq<string>)
    requires OfTag(r, SelectorOf(r)) != [] && OfTag(r, AutoOf(r)) != []
    ensures var f, selector, auto := Finish(r, members, nodes), OfTag(r, SelectorOf(r)), OfTag(r, AutoOf(r));
            OfTag(f, SelectorOf(r)) == [RootSelector(selector[0], members, AutoOf(r))] + selector[1..] &&
            OfTag(f, AutoOf(r)) == [RootAuto(auto[0], nodes)] + auto[1..]
  {
    var selector, auto := SelectorOf(r), AutoOf(r);
    SpecialNames(r, SPECIALS);
    RootEditKeeps(members, auto);
    AutoEditKeeps(nodes);
    NotTagged(selector, auto);
    NotTagged(auto, selector);
    var r1 := UpdateAt(r, selector, RootEdit(members, auto));
    ExchangeOfTag(r, selector, RootEdit(members, auto));
    UpdateUnseen(r, selector, RootEdit(members, auto), v => Tagged(v, auto));
    ExchangeOfTag(r1, auto, AutoEdit(nodes));
    UpdateUnseen(r1, auto, AutoEdit(nodes), v => Tagged(v, selector));
  }

  /** The list that a refresh finishes. */
  function BeforeFinish(s: seq<Value>, sets: seq<NodeSet>, replace: bool): seq<Value>
    requires Refresh(s, sets, replace).Some? && sets != []
  {
    WithGroups(Retain(MergeOutbounds(RemoveManaged(s, sets), Imported(sets), replace).value, IsNoNotice), sets)
  }

  lemma {:induction false} BeforeFinishPlain(s: seq<Value>, sets: seq<NodeSet>, replace: bool)
    requires sets != [] && Refresh(s, sets, replace).Some? && NamesFree(s, sets)
    ensures NodesPlain(BeforeFinish(s, sets, replace))
  {
    var nodes, s0 := Imported(sets), RemoveManaged(s, sets);
    RemovalStays(s, sets, v => false);
    SpecialsPlain(s0, CollectTags(nodes), replace, SPECIALS);
    AddNodesPlain(WithSpecials(s0, CollectTags(nodes), replace), nodes, SPECIALS);
    var m := MergeOutbounds(s0, nodes, replace).value;
    RetainPlain(m, IsNoNotice, SPECIALS);
    WithGroupsPlain(Retain(m, IsNoNotice), sets, SPECIALS);
  }

  lemma {:induction false} PlainStays(s: seq<Value>, replace: bool, tag: string)
    requires NodesPlain(s) && tag in SPECIALS
    ensures Stays(s, replace, tag) == OfTag(s, tag)
  {
    RetainSame(s, v => Tagged(v, tag), v => Tagged(v, tag) && !(IsNodeType(v) && replace));
  }

  /** The roots before a refresh is finished: as the merge wrote them. */
  lemma {:induction false} RootsWritten(s: seq<Value>, sets: seq<NodeSet>, replace: bool)
    requires sets != [] && Refresh(s, sets, replace).Some? && NamesFree(s, sets)
    ensures var r, selector, auto := BeforeFinish(s, sets, replace), SelectorOf(s), AutoOf(s);
            OfTag(r, selector) != [] && OfTag(r, auto) != [] &&
            SelectorFields(First(OfTag(s, selector)), OfTag(r, selector)[0], selector, auto) &&
            AutoFields(First(OfTag(s, auto)), OfTag(r, auto)[0], auto)
  {
    var selector, auto, s0 := SelectorOf(s), AutoOf(s), RemoveManaged(s, sets);
    var tags := CollectTags(Imported(sets));
    RootsBefore(s, sets, replace);
    SpecialNames(s, SPECIALS);
    MergeThenGroups(s, sets, replace, v => Tagged(v, selector));
    MergeThenGroups(s, sets, replace, v => Tagged(v, auto));
    SelectorOfTag(s0, tags, replace);
    AutoOfTag(s0, tags, replace);
    PlainStays(s0, replace, selector);
    PlainStays(s0, replace, auto);
    LeftTagged(s, selector);
    LeftTagged(s, auto);
    SwappedRoots(OfTag(s, selector), OfTag(s, auto), selector, auto, tags, replace);
  }

  lemma {:induction false} SwappedRoots(selectors: seq<Value>, autos: seq<Value>, selector: string, auto: string,
                                        tags: seq<string>, replace: bool)
    requires (selectors != [] ==> Tagged(selectors[0], selector)) && (autos != [] ==> Tagged(autos[0], auto))
    ensures var members := Distinct([auto] + tags);
            SelectorFields(First(selectors),
                           SwapFirst(selectors, BuiltSelector(selector, members, auto),
                                     v => MergedSelector(v, members, replace, auto))[0], selector, auto)
    ensures AutoFields(First(autos),
                       SwapFirst(autos, BuiltAuto(auto, tags), v => MergedAuto(v, tags, replace))[0], auto)
  {
    var members := Distinct([auto] + tags);
    BuiltMeaning(selector, members, auto);
    BuiltMeaning(auto, tags, auto);
    if selectors != [] { SelectorMeaning(selectors[0], selector, members, replace, auto); }
    if autos != [] { AutoMeaning(autos[0], auto, tags, replace); }
  }

  /** A refresh leaves a root selector over the auto group, the providers with nodes and the nodes of none, and an auto
      group over all nodes; their other fields are those they had, or the usual ones. */
  lemma {:induction false} RefreshedRoots(s: seq<Value>, sets: seq<NodeSet>, replace: bool)
    requires sets != [] && Refresh(s, sets, replace).Some? && NamesFree(s, sets)
    ensures var f, selector, auto := Refresh(s, sets, replace).value, SelectorOf(s), AutoOf(s);
            OfTag(f, selector) != [] && OfTag(f, auto) != [] &&
            SelectorFields(First(OfTag(s, selector)), OfTag(f, selector)[0], selector, auto) &&
            AutoFields(First(OfTag(s, auto)), OfTag(f, auto)[0], auto) && ListsAll(OfTag(f, auto)[0], NodeTags(f)) &&
            exists members :: ListsAll(OfTag(f, selector)[0], members) && IsRootList(members, auto, f, sets)
  {
    var r, selector, auto := BeforeFinish(s, sets, replace), SelectorOf(s), AutoOf(s);
    var members, grouped := RootMembers(r, sets), Grouped(sets);
    RootsWritten(s, sets, replace);
    RootsBefore(s, sets, replace);
    BeforeFinishPlain(s, sets, replace);
    FinishNodeTags(r, members, NodeTags(r));
    FinishedRoots(r, members, NodeTags(r));
    RootAgain(First(OfTag(s, selector)), OfTag(r, selector)[0], selector, members, auto);
    AutoAgain(First(OfTag(s, auto)), OfTag(r, auto)[0], auto, NodeTags(r));
    DistinctMeaning([auto] + GroupNames(sets) + Retain(NodeTags(r), t => t !in grouped));
    assert IsRootList(members, auto, Refresh(s, sets, replace).value, sets);
  }

  /** The members of the root selector, each once: the auto group, the providers with nodes, the nodes of none. */
  ghost predicate IsRootList(members: seq<string>, auto: string, f: seq<Value>, sets: seq<NodeSet>) {
    var grouped := Grouped(sets);
    FirstsOf(members, [auto] + GroupNames(sets) + Retain(NodeTags(f), t => t !in grouped))
  }
}
