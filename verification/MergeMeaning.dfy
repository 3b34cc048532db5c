/** What a merge does to a config besides its outbounds, told field by field: inbounds, DNS, routes and defaults. */
module MergeMeaning {
  import opened Prelude
  import opened Json
  import opened Outbounds
  import opened PrivateRules
  import opened Provider
  import opened Merge
  import ProviderSpecials
  import ChinaRouting
  import Tailscale
  import RulePass

  // ---------------------------------------------------------------- accepted configs

  ghost predicate ArrayOrNone(v: Option<Value>) { v.Some? ==> v.value.Arr? }

  ghost predicate ObjectOrNone(v: Option<Value>) { v.Some? ==> v.value.Obj? }

  /** A field of an object that may be missing. */
  function In(v: Option<Value>, key: string): Option<Value> { if v.Some? then Get(v.value, key) else None }

  /** Everything the merge touches has the kind it takes for granted. */
  ghost predicate Mergeable(config: Value) {
    config.Obj? && ArrayOrNone(Get(config, "inbounds")) && ArrayOrNone(Get(config, "outbounds")) &&
    ObjectOrNone(Get(config, "route")) && ArrayOrNone(In(Get(config, "route"), "rules")) &&
    ArrayOrNone(In(Get(config, "route"), "rule_set")) && ObjectOrNone(Get(config, "experimental")) &&
    ObjectOrNone(In(Get(config, "experimental"), "cache_file")) &&
    ObjectOrNone(In(Get(config, "experimental"), "clash_api"))
  }

  lemma {:induction false} InboundsAccepted(config: Value, linux: bool)
    requires config.Obj? && Mergeable(config)
    ensures MigrateInbounds(config.fields, linux).Some?
  {
  }

  lemma {:induction false} InboundsRefused(config: Value, linux: bool)
    requires config.Obj? && MigrateInbounds(config.fields, linux).Some?
    ensures ArrayOrNone(Get(config, "inbounds"))
    ensures var root := MigrateInbounds(config.fields, linux).value;
            forall key :: key != "inbounds" && key != "route" ==> Get(Obj(root), key) == Get(config, key)
    ensures var r := Get(Obj(MigrateInbounds(config.fields, linux).value), "route");
            r == Get(config, "route") ||
            (ObjectOrNone(Get(config, "route")) && ArrayOrNone(In(Get(config, "route"), "rules")) && r.Some? &&
             r.value.Obj? && ArrayOrNone(In(r, "rules")) &&
             forall key :: key != "rules" ==> In(r, key) == In(Get(config, "route"), key))
  {
  }

  lemma {:induction false} DnsAside(root: map<string, Value>)
    ensures forall key :: key != "dns" ==> Get(Obj(MigrateDns(root)), key) == Get(Obj(root), key)
  {
  }

  lemma {:induction false} MigratedKinds(config: Value, linux: bool)
    requires Migrated(config, linux).Some?
    ensures var root := Obj(Migrated(config, linux).value);
            (Mergeable(root) <==> Mergeable(config)) &&
            forall key :: key !in {"inbounds", "dns", "route"} ==> Get(root, key) == Get(config, key)
  {
    InboundsRefused(config, linux);
    DnsAside(MigrateInbounds(config.fields, linux).value);
    InboundsKind(config, linux);
  }

  lemma {:induction false} InboundsKind(config: Value, linux: bool)
    requires config.Obj? && MigrateInbounds(config.fields, linux).Some?
    ensures ArrayOrNone(Get(Obj(MigrateInbounds(config.fields, linux).value), "inbounds"))
  {
  }

  lemma {:induction false} RouteAccepted(route: map<string, Value>, selector: string, direct: string)
    ensures MergeRoute(route, selector, direct).Some? <==>
            ArrayOrNone(Get(Obj(route), "rules")) && ArrayOrNone(Get(Obj(route), "rule_set"))
  {
  }

  lemma {:induction false} ExperimentalAccepted(root: map<string, Value>)
    ensures MergeExperimental(root).Some? <==>
            var e := Get(Obj(root), "experimental");
            ObjectOrNone(e) && ObjectOrNone(In(e, "cache_file")) && ObjectOrNone(In(e, "clash_api"))
  {
  }

  lemma {:induction false} RootAccepted(root: map<string, Value>, merged: Option<seq<Value>>)
    requires ArrayOrNone(Get(Obj(root), "inbounds"))
    ensures MergeRoot(root, merged).Ok? <==> merged.Some? && Mergeable(Obj(root))
  {
    ExperimentalAccepted(root);
    if EntryArr(root, "outbounds").Some? && EntryObj(root, "route").Some? {
      var outbounds := EntryArr(root, "outbounds").value;
      RouteAccepted(EntryObj(root, "route").value, SelectorOf(outbounds), Named(outbounds, DIRECT_ALIASES));
    }
  }

  /** A merge is refused exactly when some part of the config has the wrong kind, or a node no tag. */
  lemma {:induction false} MergeAcceptedIff(config: Value, nodes: seq<Value>, replace: bool, linux: bool)
    ensures MergeNodes(config, nodes, replace, linux).Ok? <==>
            Mergeable(config) && forall n :: n in nodes ==> GetStr(n, "tag").Some?
  {
    if config.Obj? {
      if Mergeable(config) { InboundsAccepted(config, linux); }
      MergeabilityStays(config, linux);
      if Migrated(config, linux).Some? {
        var root := Migrated(config, linux).value;
        RootAccepted(root, MergeOutbounds(Items(Obj(root), "outbounds"), nodes, replace));
      }
    }
  }

  lemma {:induction false} MergeabilityStays(config: Value, linux: bool)
    requires config.Obj?
    ensures Migrated(config, linux).None? ==> !Mergeable(config)
    ensures Migrated(config, linux).Some? ==>
              ArrayOrNone(Get(Obj(Migrated(config, linux).value), "inbounds")) &&
              (Mergeable(Obj(Migrated(config, linux).value)) <==> Mergeable(config))
  {
    if Mergeable(config) { InboundsAccepted(config, linux); }
    if Migrated(config, linux).Some? {
      MigratedKinds(config, linux);
      InboundsKind(config, linux);
      DnsAside(MigrateInbounds(config.fields, linux).value);
    }
  }

  // ---------------------------------------------------------------- the parts of a merged config

  lemma {:induction false} Parts(config: Value, nodes: seq<Value>, replace: bool, linux: bool)
      returns (root: map<string, Value>, o: seq<Value>, route: map<string, Value>, e: map<string, Value>)
    requires MergeNodes(config, nodes, replace, linux).Ok?
    ensures Mergeable(config) && Migrated(config, linux) == Some(root) && EntryObj(root, "route").Some?
    ensures MergeNodes(config, nodes, replace, linux) == Ok(Obj(Rooted(root, o, route, e)))
    ensures MergeExperimental(root) == Some(e)
    ensures var outbounds := Items(config, "outbounds");
            MergeRoute(EntryObj(root, "route").value, SelectorOf(outbounds), Named(outbounds, DIRECT_ALIASES)) ==
            Some(route)
  {
    MergeAcceptedIff(config, nodes, replace, linux);
    root := Migrated(config, linux).value;
    MigratedKinds(config, linux);
    o := MergeOutbounds(Items(Obj(root), "outbounds"), nodes, replace).value;
    e := MergeExperimental(root).value;
    var outbounds := Items(config, "outbounds");
    assert EntryArr(root, "outbounds") == Some(outbounds);
    route := MergeRoute(EntryObj(root, "route").value, SelectorOf(outbounds), Named(outbounds, DIRECT_ALIASES)).value;
  }

  lemma {:induction false} RootedFields(root: map<string, Value>, o: seq<Value>, route: map<string, Value>,
                                        e: map<string, Value>)
    ensures var r := Obj(Rooted(root, o, route, e));
            Get(r, "route") == Some(Obj(route)) && Get(r, "experimental") == Some(Obj(e)) &&
            forall key :: key !in {"outbounds", "route", "experimental"} ==> Get(r, key) == Get(Obj(root), key)
  {
  }

  /** Keys a merge has no business with. */
  lemma {:induction false} OtherKeysStay(config: Value, nodes: seq<Value>, replace: bool, linux: bool, key: string)
    requires MergeNodes(config, nodes, replace, linux).Ok?
    requires key !in {"inbounds", "dns", "outbounds", "route", "experimental"}
    ensures Get(MergeNodes(config, nodes, replace, linux).value, key) == Get(config, key)
  {
    var root, o, route, e := Parts(config, nodes, replace, linux);
    MigratedKinds(config, linux);
    RootedFields(root, o, route, e);
  }

  // ---------------------------------------------------------------- inbounds

  /** The TUN that earlier versions wrote for Linux. */
  ghost predicate IsLinuxTun(v: Value) {
    Get(v, "type") == Some(Str("tun")) && Get(v, "stack") == Some(Str("mixed")) &&
    Get(v, "auto_redirect") == Some(Bool(true)) && Get(v, "auto_route") == Some(Bool(true)) &&
    Get(v, "strict_route") == Some(Bool(true))
  }

  /** The inbounds that stay. */
  ghost function StayingInbounds(config: Value, linux: bool): seq<Value> {
    if linux then Items(config, "inbounds") else Retain(Items(config, "inbounds"), v => !IsLinuxTun(v))
  }

  /** The same inbound without the fields that sing-box no longer reads there. */
  ghost predicate IsMigrated(v: Value, w: Value) {
    (v.Obj? <==> w.Obj?) && (!v.Obj? ==> w == v) &&
    forall key :: Get(w, key) ==
                  if key == "sniff" || key == "sniff_timeout" || key == "domain_strategy" ||
                     key == "sniff_override_destination" || key == "udp_disable_domain_unmapping" then None
                  else Get(v, key)
  }

  lemma {:induction false} WithoutLegacyMeaning(v: Value)
    ensures IsMigrated(v, WithoutLegacy(v))
  {
  }

  lemma {:induction false} SameStaying(s: seq<Value>)
    ensures Retain(s, v => !IsAutoRedirectTun(v)) == Retain(s, v => !IsLinuxTun(v))
  {
    if s != [] { SameStaying(s[1..]); }
  }

  lemma {:induction false} MigratedInbounds(config: Value, linux: bool)
    requires config.Obj? && MigrateInbounds(config.fields, linux).Some?
    ensures var root, kept := MigrateInbounds(config.fields, linux).value, StayingInbounds(config, linux);
            (Get(Obj(root), "inbounds").Some? <==> Get(config, "inbounds").Some?) &&
            Items(Obj(root), "inbounds") == AllWithoutLegacy(kept)
  {
    SameStaying(Items(config, "inbounds"));
  }

  /** Inbounds keep their order; only the old TUN goes, off Linux, and of the others only the legacy fields. */
  lemma {:induction false} InboundsMeaning(config: Value, nodes: seq<Value>, replace: bool, linux: bool)
    requires MergeNodes(config, nodes, replace, linux).Ok?
    ensures AreMigrated(config, linux, Get(MergeNodes(config, nodes, replace, linux).value, "inbounds"))
  {
    var root, o, route, e := Parts(config, nodes, replace, linux);
    RootedFields(root, o, route, e);
    InboundsOfParts(config, linux);
  }

  ghost predicate AreMigrated(config: Value, linux: bool, after: Option<Value>) {
    var kept := StayingInbounds(config, linux);
    match after
    case Some(Arr(items)) =>
      Get(config, "inbounds").Some? && |items| == |kept| &&
      forall i :: 0 <= i < |kept| ==> IsMigrated(kept[i], items[i])
    case Some(_) => false
    case None => Get(config, "inbounds").None?
  }

  lemma {:induction false} InboundsOfParts(config: Value, linux: bool)
    requires Migrated(config, linux).Some?
    ensures AreMigrated(config, linux, Get(Obj(Migrated(config, linux).value), "inbounds"))
  {
    MigratedInbounds(config, linux);
    InboundsKind(config, linux);
    DnsAside(MigrateInbounds(config.fields, linux).value);
    AllMigrated(StayingInbounds(config, linux));
  }

  lemma {:induction false} AllMigrated(s: seq<Value>)
    ensures forall i :: 0 <= i < |s| ==> IsMigrated(s[i], AllWithoutLegacy(s)[i])
  {
    forall i | 0 <= i < |s| ensures IsMigrated(s[i], AllWithoutLegacy(s)[i]) { WithoutLegacyMeaning(s[i]); }
  }

  // ---------------------------------------------------------------- actions for legacy fields

  lemma {:induction false} FirstTextMeaning(s: seq<Value>, key: string)
    ensures match FirstText(s, key)
            case Some(t) => t != [] && exists i :: 0 <= i < |s| && IsFirstText(s, key, i, t)
            case None => forall i :: 0 <= i < |s| ==> !IsText(s[i], key)
  {
    if s != [] {
      var front := s[..|s| - 1];
      FirstTextMeaning(front, key);
      match FirstText(front, key)
      case Some(t) =>
        var i :| 0 <= i < |front| && IsFirstText(front, key, i, t);
        assert IsFirstText(s, key, i, t);
      case None =>
        forall i | 0 <= i < |front| ensures !IsText(s[i], key) { assert front[i] == s[i]; }
        if IsText(s[|s| - 1], key) { assert IsFirstText(s, key, |s| - 1, GetStr(s[|s| - 1], key).value); }
    }
  }

  ghost predicate IsText(v: Value, key: string) { GetStr(v, key).Some? && GetStr(v, key).value != [] }

  ghost predicate IsFirstText(s: seq<Value>, key: string, i: nat, t: string)
    requires i < |s|
  {
    GetStr(s[i], key) == Some(t) && forall j :: 0 <= j < i ==> !IsText(s[j], key)
  }

  /** The rules that take the place of the legacy fields. */
  lemma {:induction false} ActionsMeaning(s: seq<Value>)
    ensures var resolve := FirstText(s, "domain_strategy");
            var sniff := exists v :: v in s && Get(v, "sniff") == Some(Bool(true));
            |Actions(s)| == (if resolve.Some? then 1 else 0) + (if sniff then 1 else 0) &&
            (resolve.Some? ==>
               Actions(s)[0] == Obj(map["action" := Str("resolve"), "strategy" := Str(resolve.value)])) &&
            (sniff ==> Actions(s)[|Actions(s)| - 1] ==
                       match FirstText(s, "sniff_timeout")
                       case None => Obj(map["action" := Str("sniff")])
                       case Some(t) => Obj(map["action" := Str("sniff"), "timeout" := Str(t)]))
  {
    forall v ensures Sniffs(v) <==> Get(v, "sniff") == Some(Bool(true)) {}
  }

  /** They go to the front of the rules, in order, unless they are there already. */
  lemma {:induction false} PrependMeaning(rules: seq<Value>, front: seq<Value>)
    requires forall i, j :: 0 <= i < j < |front| ==> front[i] != front[j]
    ensures PrependMissing(rules, front) == Retain(front, v => v !in rules) + rules
    decreases |front|
  {
    if front != [] {
      var last, rest := front[|front| - 1], front[..|front| - 1];
      var more := if last in rules then rules else [last] + rules;
      PrependMeaning(more, rest);
      SameRest(rest, rules, more, last);
      LastMissing(rest, last, rules, more);
      assert front == rest + [last];
    }
  }

  lemma {:induction false} LastMissing(rest: seq<Value>, last: Value, rules: seq<Value>, more: seq<Value>)
    requires more == if last in rules then rules else [last] + rules
    ensures Retain(rest + [last], v => v !in rules) + rules == Retain(rest, v => v !in rules) + more
  {
    RetainAppend(rest, [last], v => v !in rules);
    assert Retain([last], v => v !in rules) == if last in rules then [] else [last];
  }

  lemma {:induction false} SameRest(rest: seq<Value>, rules: seq<Value>, more: seq<Value>, last: Value)
    requires last !in rest && forall v :: v in more <==> v in rules || v == last
    ensures Retain(rest, v => v !in more) == Retain(rest, v => v !in rules)
  {
    if rest != [] { SameRest(rest[1..], rules, more, last); }
  }

  // ---------------------------------------------------------------- route rules

  /** The position after the last rule with an action. */
  ghost predicate AfterActions(rules: seq<Value>, i: nat) {
    i <= |rules| && (i > 0 ==> Get(rules[i - 1], "action").Some?) &&
    forall j :: i <= j < |rules| ==> Get(rules[j], "action").None?
  }

  lemma {:induction false} AfterLastMeaning(rules: seq<Value>)
    ensures AfterActions(rules, RulePass.AfterLast(rules, HasAction))
  {
    if rules != [] && !HasAction(rules[|rules| - 1]) {
      var front := rules[..|rules| - 1];
      AfterLastMeaning(front);
      var i := RulePass.AfterLast(front, HasAction);
      forall j | i <= j < |rules| ensures Get(rules[j], "action").None? {
        if j < |front| { assert front[j] == rules[j]; }
      }
    }
  }

  /** The rule that keeps subscription hosts direct. */
  ghost predicate IsSubscriptionRule(v: Value, direct: string) {
    v == Obj(map["domain_suffix" := Arr([Str("airtcp.me"), Str("airtcp.com"), Str("airapp.link"), Str("mailrelay.us")]),
                 "outbound" := Str(direct)])
  }

  /** It stands right after the last action, once, and all other rules stay. */
  lemma {:induction false} SubscriptionMeaning(rules: seq<Value>, direct: string)
    ensures var kept, r := Retain(rules, v => !IsSubscriptionRule(v, direct)), EnsureSubscription(rules, direct);
            exists i :: 0 <= i <= |kept| && AfterActions(kept, i) && |r| == |kept| + 1 &&
                        IsSubscriptionRule(r[i], direct) && r[..i] == kept[..i] && r[i + 1..] == kept[i..]
  {
    SameKept(rules, direct);
    var kept := Retain(rules, v => v != SubscriptionRule(direct));
    AfterLastMeaning(kept);
    var i := RulePass.AfterLast(kept, HasAction);
    assert IsSubscriptionRule(EnsureSubscription(rules, direct)[i], direct);
  }

  lemma {:induction false} SameKept(rules: seq<Value>, direct: string)
    ensures Retain(rules, v => v != SubscriptionRule(direct)) == Retain(rules, v => !IsSubscriptionRule(v, direct))
  {
    if rules != [] { SameKept(rules[1..], direct); }
  }

  /** A rule names a value in a field, alone or in a list. */
  ghost predicate Mentions(rule: Value, key: string, name: string) {
    Get(rule, key) == Some(Str(name)) ||
    match Get(rule, key) case Some(Arr(items)) => exists i :: 0 <= i < |items| && items[i] == Str(name) case _ => false
  }

  /** The first rule of a kind sent to an outbound, the others as they were. */
  ghost predicate FirstSentTo(rules: seq<Value>, r: seq<Value>, i: nat, direct: string) {
    |r| == |rules| && i < |rules| && (forall j :: 0 <= j < |rules| && j != i ==> r[j] == rules[j]) &&
    Get(r[i], "outbound") == Some(Str(direct)) &&
    forall key :: key != "outbound" ==> Get(r[i], key) == Get(rules[i], key)
  }

  /** One rule put in. */
  ghost predicate PutAt(rules: seq<Value>, r: seq<Value>, i: nat, rule: Value) {
    |r| == |rules| + 1 && i <= |rules| && r[..i] == rules[..i] && r[i] == rule && r[i + 1..] == rules[i..]
  }

  ghost predicate FirstThat(rules: seq<Value>, key: string, name: string, i: nat) {
    i < |rules| && Mentions(rules[i], key, name) && forall j :: 0 <= j < i ==> !Mentions(rules[j], key, name)
  }

  lemma {:induction false} BypassNamed(rule: Value)
    ensures IsBypass(rule) <==> Mentions(rule, "rule_set", "sing-box-tui-bypass")
    ensures IsCgnat(rule) <==> Mentions(rule, "ip_cidr", "100.64.0.0/10")
  {
  }

  lemma {:induction false} SentTo(rules: seq<Value>, i: nat, direct: string)
    requires i < |rules| && rules[i].Obj?
    ensures FirstSentTo(rules, rules[i := ToOutbound(rules[i], direct)], i, direct)
  {
  }

  /** The bypass rule: the first there is goes direct; without one, a new one is put first, or second after the
      rule that hijacks DNS. */
  lemma {:induction false} BypassMeaning(rules: seq<Value>, direct: string)
    ensures var r := EnsureBypass(rules, direct);
            var rule := Obj(map["rule_set" := Str("sing-box-tui-bypass"), "outbound" := Str(direct)]);
            (exists i :: FirstThat(rules, "rule_set", "sing-box-tui-bypass", i) && FirstSentTo(rules, r, i, direct)) ||
            ((forall i :: 0 <= i < |rules| ==> !Mentions(rules[i], "rule_set", "sing-box-tui-bypass")) &&
             PutAt(rules, r, if rules != [] && Get(rules[0], "action") == Some(Str("hijack-dns")) then 1 else 0, rule))
  {
    forall v ensures IsBypass(v) <==> Mentions(v, "rule_set", "sing-box-tui-bypass") { BypassNamed(v); }
    match Position(rules, IsBypass)
    case Some(i) =>
      SentTo(rules, i, direct);
      assert FirstThat(rules, "rule_set", "sing-box-tui-bypass", i);
    case None =>
      forall i | 0 <= i < |rules| ensures !Mentions(rules[i], "rule_set", "sing-box-tui-bypass") {
        assert rules[i] in rules;
      }
  }

  /** The overlay rule: the first there is goes direct; without one, a new one is put behind the first bypass rule, or
      after the last action. */
  lemma {:induction false} CgnatMeaning(rules: seq<Value>, direct: string)
    ensures var r := EnsureCgnat(rules, direct);
            var rule := Obj(map["ip_cidr" := Arr([Str("100.64.0.0/10")]), "outbound" := Str(direct)]);
            (exists i :: FirstThat(rules, "ip_cidr", "100.64.0.0/10", i) && FirstSentTo(rules, r, i, direct)) ||
            ((forall i :: 0 <= i < |rules| ==> !Mentions(rules[i], "ip_cidr", "100.64.0.0/10")) &&
             exists i :: PutAt(rules, r, i, rule) && IsOverlayPlace(rules, i))
  {
    forall v ensures (IsBypass(v) <==> Mentions(v, "rule_set", "sing-box-tui-bypass")) &&
                     (IsCgnat(v) <==> Mentions(v, "ip_cidr", "100.64.0.0/10")) { BypassNamed(v); }
    match Position(rules, IsCgnat)
    case Some(i) =>
      SentTo(rules, i, direct);
      assert FirstThat(rules, "ip_cidr", "100.64.0.0/10", i);
    case None =>
      forall i | 0 <= i < |rules| ensures !Mentions(rules[i], "ip_cidr", "100.64.0.0/10") { assert rules[i] in rules; }
      OverlayPlace(rules, direct);
  }

  ghost predicate IsOverlayPlace(rules: seq<Value>, i: nat) {
    (i > 0 && FirstThat(rules, "rule_set", "sing-box-tui-bypass", i - 1)) ||
    ((forall j :: 0 <= j < |rules| ==> !Mentions(rules[j], "rule_set", "sing-box-tui-bypass")) &&
     AfterActions(rules, i))
  }

  lemma {:induction false} OverlayPlace(rules: seq<Value>, direct: string)
    requires Position(rules, IsCgnat).None?
    ensures var rule := Obj(map["ip_cidr" := Arr([Str("100.64.0.0/10")]), "outbound" := Str(direct)]);
            exists i :: PutAt(rules, EnsureCgnat(rules, direct), i, rule) && IsOverlayPlace(rules, i)
  {
    var rule := Obj(map["ip_cidr" := Arr([Str("100.64.0.0/10")]), "outbound" := Str(direct)]);
    forall v ensures IsBypass(v) <==> Mentions(v, "rule_set", "sing-box-tui-bypass") { BypassNamed(v); }
    match Position(rules, IsBypass)
    case Some(i) =>
      assert FirstThat(rules, "rule_set", "sing-box-tui-bypass", i);
      assert PutAt(rules, EnsureCgnat(rules, direct), i + 1, rule);
    case None =>
      AfterLastMeaning(rules);
      forall j | 0 <= j < |rules| ensures !Mentions(rules[j], "rule_set", "sing-box-tui-bypass") {
        assert rules[j] in rules;
      }
      assert PutAt(rules, EnsureCgnat(rules, direct), RulePass.AfterLast(rules, HasAction), rule);
  }

  // ---------------------------------------------------------------- the merged route

  /** The route rules a merge starts from: those of the config, behind the actions that are missing. */
  ghost function StartingRules(config: Value, linux: bool): seq<Value> {
    var rules := match Get(config, "route") case Some(route) => Items(route, "rules") case None => [];
    PrependMissing(rules, Actions(StayingInbounds(config, linux)))
  }

  lemma {:induction false} MigratedRules(config: Value, linux: bool)
    requires Migrated(config, linux).Some? && Mergeable(config)
    ensures var route := Get(Obj(Migrated(config, linux).value), "route");
            ObjectOrNone(route) && ArrayOrNone(In(route, "rules")) &&
            (if route.Some? then Items(route.value, "rules") else []) == StartingRules(config, linux) &&
            forall key :: key != "rules" ==> In(route, key) == In(Get(config, "route"), key)
  {
    DnsAside(MigrateInbounds(config.fields, linux).value);
    InboundRules(config, linux);
  }

  lemma {:induction false} InboundRules(config: Value, linux: bool)
    requires config.Obj? && MigrateInbounds(config.fields, linux).Some? && Mergeable(config)
    ensures var route := Get(Obj(MigrateInbounds(config.fields, linux).value), "route");
            ObjectOrNone(route) && ArrayOrNone(In(route, "rules")) &&
            (if route.Some? then Items(route.value, "rules") else []) == StartingRules(config, linux) &&
            forall key :: key != "rules" ==> In(route, key) == In(Get(config, "route"), key)
  {
    SameStaying(Items(config, "inbounds"));
    if Actions(StayingInbounds(config, linux)) != [] {
      EditedRules(config.fields, rules => PrependMissing(rules, Actions(StayingInbounds(config, linux))));
    }
  }

  lemma {:induction false} EditedRules(root: map<string, Value>, edit: seq<Value> -> seq<Value>)
    requires ObjectOrNone(Get(Obj(root), "route")) && ArrayOrNone(In(Get(Obj(root), "route"), "rules"))
    ensures EditRules(root, edit).Some?
  {
  }

  /** The merged route: the final outbound is set if there was none, the three rules are seen to one after the other,
      and all other keys stay. */
  lemma {:induction false} RouteMeaning(config: Value, nodes: seq<Value>, replace: bool, linux: bool)
    requires MergeNodes(config, nodes, replace, linux).Ok?
    ensures IsMergedRoute(config, linux, Get(MergeNodes(config, nodes, replace, linux).value, "route"))
  {
    var root, o, route, e := Parts(config, nodes, replace, linux);
    RootedFields(root, o, route, e);
    RouteOfParts(config, linux, route);
  }

  ghost predicate IsMergedRoute(config: Value, linux: bool, route: Option<Value>) {
    var outbounds, before := Items(config, "outbounds"), Get(config, "route");
    var direct := Named(outbounds, DIRECT_ALIASES);
    var rules := EnsureSubscription(StartingRules(config, linux), direct);
    route.Some? && In(route, "rules") == Some(Arr(EnsureCgnat(EnsureBypass(rules, direct), direct))) &&
    In(route, "final") ==
    (if In(before, "final").Some? then In(before, "final") else Some(Str(SelectorOf(outbounds)))) &&
    forall key :: key !in {"rules", "rule_set", "final"} ==> In(route, key) == In(before, key)
  }

  lemma {:induction false} RouteOfParts(config: Value, linux: bool, route: map<string, Value>)
    requires Mergeable(config) && Migrated(config, linux).Some?
    requires var root, outbounds := Migrated(config, linux).value, Items(config, "outbounds");
             EntryObj(root, "route").Some? &&
             MergeRoute(EntryObj(root, "route").value, SelectorOf(outbounds), Named(outbounds, DIRECT_ALIASES)) ==
             Some(route)
    ensures IsMergedRoute(config, linux, Some(Obj(route)))
  {
    var root, outbounds := Migrated(config, linux).value, Items(config, "outbounds");
    StartMeaning(config, linux);
    RouteFields(EntryObj(root, "route").value, SelectorOf(outbounds), Named(outbounds, DIRECT_ALIASES));
    FieldsOfRoute(EntryObj(root, "route").value, Get(config, "route"), route, SelectorOf(outbounds));
  }

  lemma {:induction false} StartMeaning(config: Value, linux: bool)
    requires Mergeable(config) && Migrated(config, linux).Some?
    requires EntryObj(Migrated(config, linux).value, "route").Some?
    ensures var entry := EntryObj(Migrated(config, linux).value, "route").value;
            EntryArr(entry, "rules") == Some(StartingRules(config, linux)) && SameButRules(Get(config, "route"), entry)
  {
    MigratedRules(config, linux);
    SameAsEntry(Migrated(config, linux).value, Get(config, "route"));
  }

  ghost predicate SameButRules(before: Option<Value>, entry: map<string, Value>) {
    forall key :: key != "rules" ==> Get(Obj(entry), key) == In(before, key)
  }

  lemma {:induction false} SameAsEntry(root: map<string, Value>, before: Option<Value>)
    requires var route := Get(Obj(root), "route");
             ObjectOrNone(route) && ArrayOrNone(In(route, "rules")) &&
             forall key :: key != "rules" ==> In(route, key) == In(before, key)
    ensures EntryObj(root, "route").Some? && SameButRules(before, EntryObj(root, "route").value)
    ensures var route := Get(Obj(root), "route");
            EntryArr(EntryObj(root, "route").value, "rules") ==
            Some(if route.Some? then Items(route.value, "rules") else [])
  {
  }

  lemma {:induction false} FieldsOfRoute(entry: map<string, Value>, before: Option<Value>, route: map<string, Value>,
                                         selector: string)
    requires SameButRules(before, entry) && "final" in route
    requires route["final"] == if "final" in entry then entry["final"] else Str(selector)
    requires forall key :: key !in {"rules", "rule_set", "final"} ==> Get(Obj(route), key) == Get(Obj(entry), key)
    ensures In(Some(Obj(route)), "final") ==
            if In(before, "final").Some? then In(before, "final") else Some(Str(selector))
    ensures forall key :: key !in {"rules", "rule_set", "final"} ==> In(Some(Obj(route)), key) == In(before, key)
  {
    assert Get(Obj(entry), "final") == In(before, "final");
  }

  lemma {:induction false} RouteFields(before: map<string, Value>, selector: string, direct: string)
    requires MergeRoute(before, selector, direct).Some?
    ensures var route, rules, sets := MergeRoute(before, selector, direct).value, EntryArr(before, "rules"),
                                      EntryArr(before, "rule_set");
            rules.Some? && sets.Some? && "rules" in route && "final" in route && "rule_set" in route &&
            route["rules"] == Arr(EnsureCgnat(EnsureBypass(EnsureSubscription(rules.value, direct), direct), direct)) &&
            route["rule_set"] == Arr(EnsureBypassSet(sets.value)) &&
            route["final"] == (if "final" in before then before["final"] else Str(selector)) &&
            forall key :: key !in {"rules", "rule_set", "final"} ==> Get(Obj(route), key) == Get(Obj(before), key)
  {
  }

  /** The bypass rule set is a local source file: the first of that tag is made so, or a new one put first. */
  lemma {:induction false} BypassSetMeaning(sets: seq<Value>)
    ensures var r := EnsureBypassSet(sets);
            (exists i :: 0 <= i < |sets| && IsFirstTagged(sets, "sing-box-tui-bypass", i) && |r| == |sets| &&
                         (forall j :: 0 <= j < |sets| && j != i ==> r[j] == sets[j]) && IsBypassFile(r[i]) &&
                         forall key :: key !in {"type", "format", "path"} ==> Get(r[i], key) == Get(sets[i], key)) ||
            ((forall i :: 0 <= i < |sets| ==> Get(sets[i], "tag") != Some(Str("sing-box-tui-bypass"))) &&
             |r| == |sets| + 1 && r[1..] == sets && IsBypassFile(r[0]) &&
             r[0].fields.Keys == {"type", "format", "path", "tag"})
  {
    match Position(sets, v => Tagged(v, BYPASS_TAG))
    case Some(i) =>
      assert Get(sets[i], "tag") == Some(Str("sing-box-tui-bypass"));
      forall j | 0 <= j < i ensures Get(sets[j], "tag") != Some(Str("sing-box-tui-bypass")) {
        assert !Tagged(sets[j], BYPASS_TAG);
      }
      assert IsFirstTagged(sets, "sing-box-tui-bypass", i);
    case None =>
      forall j | 0 <= j < |sets| ensures Get(sets[j], "tag") != Some(Str("sing-box-tui-bypass")) {
        assert sets[j] in sets;
      }
  }

  ghost predicate IsFirstTagged(s: seq<Value>, tag: string, i: nat) {
    i < |s| && Get(s[i], "tag") == Some(Str(tag)) && forall j :: 0 <= j < i ==> Get(s[j], "tag") != Some(Str(tag))
  }

  ghost predicate IsBypassFile(v: Value) {
    v.Obj? && Get(v, "type") == Some(Str("local")) && Get(v, "format") == Some(Str("source")) &&
    Get(v, "path") == Some(Str("sing-box-tui-bypass.json")) && Get(v, "tag") == Some(Str("sing-box-tui-bypass"))
  }

  lemma {:induction false} RuleSetsMeaning(config: Value, nodes: seq<Value>, replace: bool, linux: bool)
    requires MergeNodes(config, nodes, replace, linux).Ok?
    ensures var before := In(Get(config, "route"), "rule_set");
            var sets := match before case Some(Arr(items)) => items case _ => [];
            In(Get(MergeNodes(config, nodes, replace, linux).value, "route"), "rule_set") ==
            Some(Arr(EnsureBypassSet(sets)))
  {
    var root, o, route, e := Parts(config, nodes, replace, linux);
    var outbounds := Items(config, "outbounds");
    RootedFields(root, o, route, e);
    MigratedRules(config, linux);
    RouteFields(EntryObj(root, "route").value, SelectorOf(outbounds), Named(outbounds, DIRECT_ALIASES));
  }

  // ---------------------------------------------------------------- defaults

  ghost predicate IsDefaulted(before: Option<Value>, after: Option<Value>, key: string, value: Value) {
    In(after, key) == if In(before, key).Some? then In(before, key) else Some(value)
  }

  ghost predicate AreDefaulted(before: Option<Value>, after: Option<Value>) {
    (forall key :: key !in {"cache_file", "clash_api"} ==> In(after, key) == In(before, key)) &&
    IsDefaulted(In(before, "cache_file"), In(after, "cache_file"), "enabled", Bool(true)) &&
    IsDefaulted(In(before, "clash_api"), In(after, "clash_api"), "external_controller",
                Str("127.0.0.1:9992")) &&
    IsDefaulted(In(before, "clash_api"), In(after, "clash_api"), "secret", Str("")) &&
    (forall key :: key != "enabled" ==>
                   In(In(after, "cache_file"), key) == In(In(before, "cache_file"), key)) &&
    forall key :: key !in {"external_controller", "secret"} ==>
                  In(In(after, "clash_api"), key) == In(In(before, "clash_api"), key)
  }

  /** The cache and the controller get defaults where nothing is set; all else stays. */
  lemma {:induction false} ExperimentalMeaning(config: Value, nodes: seq<Value>, replace: bool, linux: bool)
    requires MergeNodes(config, nodes, replace, linux).Ok?
    ensures var before := Get(config, "experimental");
            var after := Get(MergeNodes(config, nodes, replace, linux).value, "experimental");
            AreDefaulted(before, after)
  {
    var root, o, route, e := Parts(config, nodes, replace, linux);
    RootedFields(root, o, route, e);
    MigratedKinds(config, linux);
    DefaultsMeaning(root);
  }

  lemma {:induction false} DefaultsMeaning(root: map<string, Value>)
    requires MergeExperimental(root).Some?
    ensures AreDefaulted(Get(Obj(root), "experimental"), Some(Obj(MergeExperimental(root).value)))
  {
  }

  // ---------------------------------------------------------------- DNS

  /** A remote server as this program writes it, now or before. */
  ghost predicate IsOurRemote(v: Value) {
    Get(v, "type") == Some(Str("tls")) && Get(v, "server_port") == Some(Num(853)) &&
    (Get(v, "server") == Some(Str("223.6.6.6")) || Get(v, "server") == Some(Str("8.8.8.8")))
  }

  ghost predicate IsMigratedServer(v: Value, w: Value) {
    if IsOurRemote(v)
      then forall key :: Get(w, key) == if key == "server" then Some(Str("223.6.6.6"))
                                        else if key == "detour" then None
                                        else Get(v, key)
    else w == v
  }

  lemma {:induction false} RemoteMeaning(v: Value)
    ensures IsMigratedServer(v, ChinaRouting.MigrateRemote(v))
  {
  }

  ghost predicate IsMigratedDns(before: Option<Value>, after: Option<Value>) {
    (before.Some? <==> after.Some?) &&
    (forall key :: key != "servers" ==> In(after, key) == In(before, key)) &&
    match In(before, "servers")
    case Some(Arr(servers)) =>
      (match In(after, "servers")
       case Some(Arr(now)) =>
         |now| == |servers| &&
         forall i :: 0 <= i < |servers| ==>
                       if IsFirstTagged(servers, "remote", i) then IsMigratedServer(servers[i], now[i])
                       else now[i] == servers[i]
       case _ => false)
    case other => In(after, "servers") == other
  }

  /** Of the DNS configuration only the first remote server changes, and only if it is one of this program's own. */
  lemma {:induction false} DnsMeaning(config: Value, nodes: seq<Value>, replace: bool, linux: bool)
    requires MergeNodes(config, nodes, replace, linux).Ok?
    ensures var before, after := Get(config, "dns"), Get(MergeNodes(config, nodes, replace, linux).value, "dns");
            IsMigratedDns(before, after)
  {
    var root, o, route, e := Parts(config, nodes, replace, linux);
    RootedFields(root, o, route, e);
    DnsOfParts(config, linux);
  }

  lemma {:induction false} DnsOfParts(config: Value, linux: bool)
    requires Migrated(config, linux).Some?
    ensures IsMigratedDns(Get(config, "dns"), Get(Obj(Migrated(config, linux).value), "dns"))
  {
    InboundsRefused(config, linux);
    MigrateDnsMeaning(MigrateInbounds(config.fields, linux).value);
  }

  lemma {:induction false} MigrateDnsMeaning(root: map<string, Value>)
    ensures IsMigratedDns(Get(Obj(root), "dns"), Get(Obj(MigrateDns(root)), "dns"))
  {
    match In(Get(Obj(root), "dns"), "servers")
    case Some(Arr(servers)) =>
      match Position(servers, ChinaRouting.IsRemote) {
        case Some(i) =>
          RemoteMeaning(servers[i]);
          FirstRemote(servers, i);
        case None =>
          forall i | 0 <= i < |servers| ensures !IsFirstTagged(servers, "remote", i) { assert servers[i] in servers; }
      }
    case _ =>
  }

  lemma {:induction false} FirstRemote(servers: seq<Value>, k: nat)
    requires Position(servers, ChinaRouting.IsRemote) == Some(k)
    ensures forall i :: 0 <= i < |servers| ==> (IsFirstTagged(servers, "remote", i) <==> i == k)
  {
    assert ChinaRouting.IsRemote(servers[k]);
    forall j | 0 <= j < k ensures Get(servers[j], "tag") != Some(Str("remote")) {
      assert !ChinaRouting.IsRemote(servers[j]);
    }
  }

  // ---------------------------------------------------------------- refreshes

  /** A refresh is a merge but for the outbounds: all this holds of it, too. */
  lemma {:induction false} RefreshIsMerge(config: Value, sets: seq<NodeSet>, replace: bool, linux: bool, key: string)
    requires RefreshProviders(config, sets, replace, linux).Ok? && key != "outbounds"
    ensures var merged := MergeNodes(RemoveProviders(config, sets), Imported(sets), replace, linux);
            merged.Ok? && Get(RefreshProviders(config, sets, replace, linux).value, key) == Get(merged.value, key) &&
            Get(RemoveProviders(config, sets), key) == Get(config, key)
  {
    OutboundsAside(MergeNodes(RemoveProviders(config, sets), Imported(sets), replace, linux).value,
                   AddGroups(Items(MergeNodes(RemoveProviders(config, sets), Imported(sets), replace, linux).value,
                                   "outbounds"), sets), key);
    RemovalAside(config, sets, key);
  }

  lemma {:induction false} OutboundsAside(config: Value, outbounds: seq<Value>, key: string)
    requires key != "outbounds"
    ensures Get(WithOutbounds(config, outbounds), key) == Get(config, key)
  {
  }

  lemma {:induction false} RemovalAside(config: Value, sets: seq<NodeSet>, key: string)
    requires key != "outbounds"
    ensures Get(RemoveProviders(config, sets), key) == Get(config, key)
  {
  }
}
