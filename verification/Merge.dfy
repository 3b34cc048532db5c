/** Merging imported nodes into an existing config: legacy inbound fields, DNS, outbounds, routes and defaults. */
module Merge {
  import opened Prelude
  import opened Json
  import opened Outbounds
  import opened PrivateRules
  import opened Provider
  import ProviderGraph
  import RulePass
  import ChinaRouting
  import Tailscale

  const BYPASS_PATH := "sing-box-tui-bypass.json"
  const EXTERNAL_CONTROLLER := "127.0.0.1:9992"
  const LEGACY_FIELDS := {"sniff", "sniff_timeout", "domain_strategy", "sniff_override_destination",
                          "udp_disable_domain_unmapping"}

  // ---------------------------------------------------------------- inbounds

  /** `is_default_auto_redirect_tun_inbound`. */
  predicate IsAutoRedirectTun(v: Value) {
    GetStr(v, "type") == Some("tun") && GetBool(v, "auto_redirect") == Some(true) &&
    GetBool(v, "auto_route") == Some(true) &&
    GetBool(v, "strict_route") == Some(true) && GetStr(v, "stack") == Some("mixed")
  }

  function WithoutLegacy(v: Value): Value { if v.Obj? then Obj(v.fields - LEGACY_FIELDS) else v }

  function AllWithoutLegacy(s: seq<Value>): seq<Value> { seq(|s|, i requires 0 <= i < |s| => WithoutLegacy(s[i])) }

  predicate Sniffs(v: Value) { GetBool(v, "sniff") == Some(true) }

  /** The first non-empty string under a key. */
  function FirstText(s: seq<Value>, key: string): Option<string> {
    if s == [] then None
    else if FirstText(s[..|s| - 1], key).Some? then FirstText(s[..|s| - 1], key)
    else
      var text := GetStr(s[|s| - 1], key);
      if text.Some? && text.value != [] then text else None
  }

  /** The loop over the inbounds: fields taken out, and what they asked for. */
  method StripLegacyFields(s: seq<Value>)
      returns (out: seq<Value>, sniff: bool, timeout: Option<string>, strategy: Option<string>)
    ensures out == AllWithoutLegacy(s)
    ensures sniff <==> exists v :: v in s && Sniffs(v)
    ensures timeout == FirstText(s, "sniff_timeout") && strategy == FirstText(s, "domain_strategy")
  {
    out, sniff, timeout, strategy := [], false, None, None;
    for i := 0 to |s|
      invariant out == AllWithoutLegacy(s[..i])
      invariant sniff <==> exists v :: v in s[..i] && Sniffs(v)
      invariant timeout == FirstText(s[..i], "sniff_timeout") && strategy == FirstText(s[..i], "domain_strategy")
    {
      assert s[..i + 1][..i] == s[..i];
      assert forall v :: v in s[..i + 1] <==> v in s[..i] || v == s[i];
      var text, domains := GetStr(s[i], "sniff_timeout"), GetStr(s[i], "domain_strategy");
      if Sniffs(s[i]) { sniff := true; }
      if timeout.None? && text.Some? && text.value != [] { timeout := text; }
      if strategy.None? && domains.Some? && domains.value != [] { strategy := domains; }
      out := out + [WithoutLegacy(s[i])];
    }
    assert s[..|s|] == s;
  }

  function Actions(s: seq<Value>): seq<Value> {
    var strategy, timeout := FirstText(s, "domain_strategy"), FirstText(s, "sniff_timeout");
    (if strategy.None? then [] else [Obj(map["action" := Str("resolve"), "strategy" := Str(strategy.value)])]) +
    (if !(exists v :: v in s && Sniffs(v)) then []
     else if timeout.None? then [Obj(map["action" := Str("sniff")])]
     else [Obj(map["action" := Str("sniff"), "timeout" := Str(timeout.value)])])
  }

  /** Rules put in front, last first, unless they are there already. */
  function PrependMissing(rules: seq<Value>, front: seq<Value>): seq<Value>
    decreases |front|
  {
    if front == [] then rules
    else
      var last, rest := front[|front| - 1], front[..|front| - 1];
      PrependMissing(if last in rules then rules else [last] + rules, rest)
  }

  function EditRules(root: map<string, Value>, edit: seq<Value> -> seq<Value>): Option<map<string, Value>> {
    match EntryObj(root, "route")
    case None => None
    case Some(route) =>
      match EntryArr(route, "rules")
      case None => None
      case Some(rules) => Some(root["route" := Obj(route["rules" := Arr(edit(rules))])])
  }

  /** `migrate_legacy_inbound_fields`. */
  function MigrateInbounds(root: map<string, Value>, linux: bool): Option<map<string, Value>> {
    if "inbounds" !in root then Some(root)
    else
      match root["inbounds"]
      case Arr(items) =>
        var kept := if linux then items else Retain(items, v => !IsAutoRedirectTun(v));
        var r := root["inbounds" := Arr(AllWithoutLegacy(kept))];
        var front := Actions(kept);
        if front == [] then Some(r) else EditRules(r, rules => PrependMissing(rules, front))
      case _ => None
  }

  // ---------------------------------------------------------------- DNS and routes

  /** `migrate_existing_managed_remote_dns`. */
  function MigrateDns(root: map<string, Value>): map<string, Value> {
    match Get(Obj(root), "dns")
    case Some(Obj(dns)) =>
      (match Get(Obj(dns), "servers")
       case Some(Arr(servers)) =>
         (match Position(servers, ChinaRouting.IsRemote)
          case Some(i) =>
            var servers' := servers[i := ChinaRouting.MigrateRemote(servers[i])];
            root["dns" := Obj(dns["servers" := Arr(servers')])]
          case None => root)
       case _ => root)
    case _ => root
  }

  function SubscriptionRule(direct: string): Value {
    Obj(map["domain_suffix" := Arr([Str("airtcp.me"), Str("airtcp.com"), Str("airapp.link"), Str("mailrelay.us")]),
            "outbound" := Str(direct)])
  }

  function EnsureSubscription(rules: seq<Value>, direct: string): seq<Value> {
    var kept := Retain(rules, v => v != SubscriptionRule(direct));
    InsertAll(kept, RulePass.AfterLast(kept, HasAction), [SubscriptionRule(direct)])
  }

  function ToOutbound(rule: Value, tag: string): Value {
    if rule.Obj? then Obj(rule.fields["outbound" := Str(tag)]) else rule
  }

  function EnsureBypass(rules: seq<Value>, direct: string): seq<Value> {
    match Position(rules, IsBypass)
    case Some(i) => rules[i := ToOutbound(rules[i], direct)]
    case None =>
      InsertAll(rules, if rules != [] && IsHijack(rules[0]) then 1 else 0,
                [Obj(map["rule_set" := Str(BYPASS_TAG), "outbound" := Str(direct)])])
  }

  predicate IsCgnat(rule: Value) {
    match Get(rule, "ip_cidr")
    case Some(Str(s)) => s == Tailscale.CGNAT_CIDR
    case Some(Arr(items)) => Str(Tailscale.CGNAT_CIDR) in items
    case _ => false
  }

  function EnsureCgnat(rules: seq<Value>, direct: string): seq<Value> {
    match Position(rules, IsCgnat)
    case Some(i) => rules[i := ToOutbound(rules[i], direct)]
    case None =>
      var at := match Position(rules, IsBypass) case Some(i) => i + 1 case None => RulePass.AfterLast(rules, HasAction);
      InsertAll(rules, at, [Obj(map["ip_cidr" := Arr([Str(Tailscale.CGNAT_CIDR)]), "outbound" := Str(direct)])])
  }

  function EnsureBypassSet(sets: seq<Value>): seq<Value> {
    var local := map["type" := Str("local"), "format" := Str("source"), "path" := Str(BYPASS_PATH)];
    match Position(sets, v => Tagged(v, BYPASS_TAG))
    case Some(i) => sets[i := if sets[i].Obj? then Obj(sets[i].fields + local) else sets[i]]
    case None => [Obj(local["tag" := Str(BYPASS_TAG)])] + sets
  }

  function EntryOr(m: map<string, Value>, key: string, value: Value): map<string, Value> {
    if key in m then m else m[key := value]
  }

  function MergeRoute(route: map<string, Value>, selector: string, direct: string): Option<map<string, Value>> {
    match (EntryArr(route, "rules"), EntryArr(route, "rule_set"))
    case (Some(rules), Some(sets)) =>
      var rules' := EnsureCgnat(EnsureBypass(EnsureSubscription(rules, direct), direct), direct);
      Some(EntryOr(route, "final", Str(selector))["rules" := Arr(rules')]["rule_set" := Arr(EnsureBypassSet(sets))])
    case _ => None
  }

  function MergeExperimental(root: map<string, Value>): Option<map<string, Value>> {
    match EntryObj(root, "experimental")
    case None => None
    case Some(e) =>
      match (EntryObj(e, "cache_file"), EntryObj(e, "clash_api"))
      case (Some(cache), Some(api)) =>
        var api' := EntryOr(EntryOr(api, "external_controller", Str(EXTERNAL_CONTROLLER)), "secret", Str(""));
        Some(e["cache_file" := Obj(EntryOr(cache, "enabled", Bool(true)))]["clash_api" := Obj(api')])
      case _ => None
  }

  // ---------------------------------------------------------------- the merge

  /** Everything a merge does before it comes to the outbounds. */
  function Migrated(config: Value, linux: bool): Option<map<string, Value>> {
    if !config.Obj? then None
    else match MigrateInbounds(config.fields, linux) case None => None case Some(root) => Some(MigrateDns(root))
  }

  /** The rest of it, given the merged outbounds. */
  function MergeRoot(root: map<string, Value>, merged: Option<seq<Value>>): Result<Value> {
    match (EntryArr(root, "outbounds"), EntryObj(root, "route"), MergeExperimental(root))
    case (Some(outbounds), Some(route), Some(experimental)) =>
      (match (merged, MergeRoute(route, SelectorOf(outbounds), Named(outbounds, DIRECT_ALIASES)))
       case (Some(o), Some(r)) => Ok(Obj(Rooted(root, o, r, experimental)))
       case _ => Err)
    case _ => Err
  }

  function Rooted(root: map<string, Value>, o: seq<Value>, route: map<string, Value>, e: map<string, Value>)
      : map<string, Value> {
    root["outbounds" := Arr(o)]["route" := Obj(route)]["experimental" := Obj(e)]
  }

  /** `merge_into_existing_config`. */
  function MergeNodes(config: Value, nodes: seq<Value>, replace: bool, linux: bool): Result<Value> {
    match Migrated(config, linux)
    case None => Err
    case Some(root) => MergeRoot(root, MergeOutbounds(Items(Obj(root), "outbounds"), nodes, replace))
  }

  /** `remove_provider_managed_nodes` on a config, whose outbounds may be missing or no list. */
  function RemoveProviders(config: Value, sets: seq<NodeSet>): Value {
    if sets == [] || !Get(config, "outbounds").Some? || !Get(config, "outbounds").value.Arr? then config
    else Obj(config.fields["outbounds" := Arr(RemoveManaged(Items(config, "outbounds"), sets))])
  }

  /** `build_full_config_with_provider_node_sets_and_options`, for a config that exists. */
  function RefreshProviders(config: Value, sets: seq<NodeSet>, replace: bool, linux: bool): Result<Value> {
    match MergeNodes(RemoveProviders(config, sets), Imported(sets), replace, linux)
    case Err => Err
    case Ok(merged) => Ok(WithOutbounds(merged, AddGroups(Items(merged, "outbounds"), sets)))
  }

  function WithOutbounds(config: Value, outbounds: seq<Value>): Value {
    if config.Obj? then Obj(config.fields["outbounds" := Arr(outbounds)]) else config
  }

  // ---------------------------------------------------------------- what the merge leaves alone

  /** The outbounds a merge starts from are those of the config. */
  lemma {:induction false} MigrationKeepsOutbounds(config: Value, linux: bool)
    requires Migrated(config, linux).Some?
    ensures Get(Obj(Migrated(config, linux).value), "outbounds") == Get(config, "outbounds")
  {
    MigrationKeepsDns(MigrateInbounds(config.fields, linux).value);
  }

  lemma {:induction false} RootedEntries(root: map<string, Value>, o: seq<Value>, route: map<string, Value>,
                                         e: map<string, Value>)
    ensures Items(Obj(Rooted(root, o, route, e)), "outbounds") == o &&
            Get(Obj(Rooted(root, o, route, e)), "route") == Some(Obj(route))
    ensures Get(Obj(Rooted(root, o, route, e)), "inbounds") == Get(Obj(root), "inbounds")
  {
  }

  lemma {:induction false} RootOutbounds(root: map<string, Value>, merged: Option<seq<Value>>)
    requires MergeRoot(root, merged).Ok?
    ensures merged.Some? && MergeRoot(root, merged).value.Obj? &&
            Items(MergeRoot(root, merged).value, "outbounds") == merged.value
  {
    var outbounds := EntryArr(root, "outbounds").value;
    var route := MergeRoute(EntryObj(root, "route").value, SelectorOf(outbounds),
                            Named(outbounds, DIRECT_ALIASES)).value;
    RootedEntries(root, merged.value, route, MergeExperimental(root).value);
  }

  /** The merge of the whole config merges the outbound list. */
  lemma {:induction false} MergedOutbounds(config: Value, nodes: seq<Value>, replace: bool, linux: bool)
    requires MergeNodes(config, nodes, replace, linux).Ok?
    ensures var after := MergeNodes(config, nodes, replace, linux).value;
            after.Obj? && Some(Items(after, "outbounds")) == MergeOutbounds(Items(config, "outbounds"), nodes, replace)
  {
    MigrationKeepsOutbounds(config, linux);
    RootOutbounds(Migrated(config, linux).value, MergeOutbounds(Items(config, "outbounds"), nodes, replace));
  }

  lemma {:induction false} MigrationKeepsDns(root: map<string, Value>)
    ensures Get(Obj(MigrateDns(root)), "outbounds") == Get(Obj(root), "outbounds")
    ensures Get(Obj(MigrateDns(root)), "route") == Get(Obj(root), "route")
    ensures Get(Obj(MigrateDns(root)), "inbounds") == Get(Obj(root), "inbounds")
  {
  }

  /** A refresh that goes through leaves a whole outbound graph in the config. */
  lemma {:induction false} RefreshedConfigIsWhole(config: Value, sets: seq<NodeSet>, replace: bool, linux: bool)
    requires ProviderGraph.Fit(Items(config, "outbounds"), sets) && RefreshProviders(config, sets, replace, linux).Ok?
    ensures exists f :: Items(RefreshProviders(config, sets, replace, linux).value, "outbounds") == f &&
                        ProviderGraph.Whole(f, sets)
  {
    RefreshedOutbounds(config, sets, replace, linux);
    ProviderGraph.RefreshIsWhole(Items(config, "outbounds"), sets, replace);
  }

  /** In any config, a refresh that goes through leaves no stale node. */
  lemma {:induction false} RefreshedConfigHasNoStale(config: Value, sets: seq<NodeSet>, replace: bool, linux: bool,
                                                     tag: string)
    requires RefreshProviders(config, sets, replace, linux).Ok?
    requires IsStale(Items(config, "outbounds"), sets, tag) && tag !in CollectTags(Imported(sets))
    ensures tag !in NodeTags(Items(RefreshProviders(config, sets, replace, linux).value, "outbounds"))
  {
    RefreshedOutbounds(config, sets, replace, linux);
    ProviderGraph.StaleNodesAreGone(Items(config, "outbounds"), sets, replace, tag);
  }

  lemma {:induction false} RefreshedOutbounds(config: Value, sets: seq<NodeSet>, replace: bool, linux: bool)
    requires RefreshProviders(config, sets, replace, linux).Ok?
    ensures Refresh(Items(config, "outbounds"), sets, replace) ==
            Some(Items(RefreshProviders(config, sets, replace, linux).value, "outbounds"))
  {
    if sets != [] { RemovedOutbounds(config, sets); }
    MergedOutbounds(RemoveProviders(config, sets), Imported(sets), replace, linux);
    var merged := MergeNodes(RemoveProviders(config, sets), Imported(sets), replace, linux).value;
    OutboundsWritten(merged, AddGroups(Items(merged, "outbounds"), sets));
  }

  lemma {:induction false} OutboundsWritten(config: Value, outbounds: seq<Value>)
    requires config.Obj?
    ensures Items(WithOutbounds(config, outbounds), "outbounds") == outbounds
  {
  }

  lemma {:induction false} RemovedOutbounds(config: Value, sets: seq<NodeSet>)
    requires sets != []
    ensures Items(RemoveProviders(config, sets), "outbounds") == RemoveManaged(Items(config, "outbounds"), sets)
  {
  }
}
