/** The China split-routing toggle: what it adds, what it takes away, and what it means for requests
    under first-match evaluation. */
module ChinaRouting {
  import opened Prelude
  import opened Json
  import opened Outbounds

  const GEOIP_CN := "geoip-cn"
  const GEOSITE_CN := "geosite-cn"
  const GEOLOCATION_CN := "geosite-geolocation-cn"
  const GEOLOCATION_NOT_CN := "geosite-geolocation-!cn"
  const ROUTE_TAGS := [GEOIP_CN, GEOSITE_CN, GEOLOCATION_CN]
  const ALL_TAGS := [GEOIP_CN, GEOSITE_CN, GEOLOCATION_CN, GEOLOCATION_NOT_CN]

  const MATCHER_FIELDS := [
    "rule_set", "rules", "domain", "domain_suffix", "domain_keyword", "domain_regex", "ip_cidr", "ip_is_private",
    "source_ip_cidr", "source_ip_is_private", "port", "source_port", "network", "protocol", "process_name",
    "process_path", "clash_mode", "inbound", "geosite", "geoip", "query_type"]

  // ---------------------------------------------------------------- rules

  /** A Clash mode that is neither the direct nor the global one. */
  predicate IsRuleMode(rule: Value) {
    var mode := GetStr(rule, "clash_mode");
    mode.Some? &&
    LowerAscii(mode.value) !in ["direct", "\U{76F4}\U{8FDE}", "global", "\U{5168}\U{5C40}"]
  }

  /** `clash_mode_rule_insert_index`. */
  function InsertIndex(rules: seq<Value>): (i: nat)
    ensures i <= |rules|
  {
    PositionOr(rules, IsRuleMode, |rules|)
  }

  predicate Matcher(fields: map<string, Value>, field: string) {
    field in fields && (fields[field].Arr? ==> fields[field].items != [])
  }

  predicate HasMatcher(rule: Value) {
    rule.Obj? && exists k :: 0 <= k < |MATCHER_FIELDS| && Matcher(rule.fields, MATCHER_FIELDS[k])
  }

  predicate NamesTag(v: Value, tags: seq<string>) { v.Str? && v.s in tags }

  /** `strip_rule_set_tags`. */
  function StripTags(rule: Value, tags: seq<string>): Value {
    match Get(rule, "rule_set")
    case Some(Str(tag)) => if tag in tags then Obj(rule.fields - {"rule_set"}) else rule
    case Some(Arr(items)) =>
      var kept := Retain(items, v => !NamesTag(v, tags));
      if kept == [] then Obj(rule.fields - {"rule_set"}) else Obj(rule.fields["rule_set" := Arr(kept)])
    case _ => rule
  }

  /** The route rule without China tags, or nothing when no matcher is left. */
  function StripRouteRule(rule: Value): Option<Value> {
    var r := StripTags(rule, ROUTE_TAGS);
    if HasMatcher(r) then Some(r) else None
  }

  function StripNested(rule: Value): Value {
    match Get(rule, "rules")
    case Some(Arr(nested)) =>
      var kept := Retain(nested, KeepsNested);
      if kept == [] then Obj(rule.fields - {"rules"}) else Obj(rule.fields["rules" := Arr(kept)])
    case _ => rule
  }

  predicate KeepsNested(v: Value) {
    var tag := GetStr(v, "rule_set");
    tag.None? || tag.value !in ALL_TAGS
  }

  function StripDnsRule(rule: Value): Option<Value> {
    var r := StripNested(StripTags(rule, ALL_TAGS));
    if HasMatcher(r) then Some(r) else None
  }

  function ChinaRouteRules(direct: string): seq<Value> {
    [Obj(map["rule_set" := Str(GEOIP_CN), "outbound" := Str(direct)]),
     Obj(map["rule_set" := Str(GEOSITE_CN), "outbound" := Str(direct)]),
     Obj(map["rule_set" := Str(GEOLOCATION_CN), "outbound" := Str(direct)])]
  }

  function ChinaDnsRules(): seq<Value> {
    [Obj(map["rule_set" := Str(GEOSITE_CN), "server" := Str("local")]),
     Obj(map["rule_set" := Str(GEOLOCATION_CN), "server" := Str("local")]),
     Obj(map["type" := Str("logical"), "mode" := Str("and"),
             "rules" := Arr([Obj(map["rule_set" := Str(GEOLOCATION_NOT_CN), "invert" := Bool(true)]),
                             Obj(map["rule_set" := Str(GEOIP_CN)])]),
             "server" := Str("remote"), "client_subnet" := Str("114.114.114.114/24")])]
  }

  /** Strip the toggle's rules, and put its own before the first rule-mode entry when enabling. */
  function EditRules(rules: seq<Value>, strip: Value -> Option<Value>, added: seq<Value>): seq<Value> {
    Insert(RetainMut(rules, strip), added)
  }

  function Insert(rules: seq<Value>, added: seq<Value>): seq<Value> {
    InsertAll(rules, InsertIndex(rules), added)
  }

  // ---------------------------------------------------------------- rule sets and servers

  function LocalRuleSet(dir: string, tag: string): Value {
    Obj(map["type" := Str("local"), "tag" := Str(tag), "format" := Str("binary"),
            "path" := Str(dir + "/" + tag + ".srs")])
  }

  predicate KeepsRuleSet(v: Value) {
    var tag := GetStr(v, "tag");
    tag.None? || tag.value !in ALL_TAGS
  }

  function LocalRuleSets(dir: string): seq<Value> {
    [LocalRuleSet(dir, GEOIP_CN), LocalRuleSet(dir, GEOSITE_CN), LocalRuleSet(dir, GEOLOCATION_CN),
     LocalRuleSet(dir, GEOLOCATION_NOT_CN)]
  }

  function EditRuleSets(sets: seq<Value>, enable: bool, dir: string): seq<Value> {
    Retain(sets, KeepsRuleSet) + if enable then LocalRuleSets(dir) else []
  }

  const LOCAL_SERVER := Obj(map["type" := Str("tls"), "tag" := Str("local"), "server" := Str("223.5.5.5"),
                                "server_port" := Num(853)])
  const REMOTE_SERVER := Obj(map["type" := Str("tls"), "tag" := Str("remote"), "server" := Str("223.6.6.6"),
                                 "server_port" := Num(853)])

  predicate IsRemote(v: Value) { Tagged(v, "remote") }
  predicate IsLocal(v: Value) { Tagged(v, "local") }

  predicate IsManagedRemote(v: Value) {
    GetStr(v, "type") == Some("tls") && GetStr(v, "server") in {Some("223.6.6.6"), Some("8.8.8.8")} &&
    Get(v, "server_port") == Some(Num(853))
  }

  function MigrateRemote(v: Value): Value {
    if v.Obj? && IsManagedRemote(v) then Obj(v.fields["server" := Str("223.6.6.6")] - {"detour"}) else v
  }

  /** `ensure_china_ip_routing_dns_servers` on the server list. */
  function EnsureServers(servers: seq<Value>): seq<Value> {
    WithRemote(WithLocal(servers))
  }

  // ---------------------------------------------------------------- the toggle

  predicate IsDirectAlias(v: Value) { HasAlias(v, DIRECT_ALIASES) }

  predicate IsDirectType(v: Value) { GetStr(v, "type") == Some("direct") }

  /** `existing_direct_outbound_tag`. */
  function DirectTag(outbounds: seq<Value>): Option<string> {
    match Position(outbounds, IsDirectAlias)
    case Some(i) => GetStr(outbounds[i], "tag")
    case None =>
      match Position(outbounds, IsDirectType)
      case Some(i) => GetStr(outbounds[i], "tag")
      case None => None
  }

  function EditRoute(route: map<string, Value>, enable: bool, direct: string, dir: string): Option<map<string, Value>> {
    var sets, rules := EntryArr(route, "rule_set"), EntryArr(route, "rules");
    if sets.None? || rules.None? then None
    else
      Some(TwoArrays(route, "rule_set", EditRuleSets(sets.value, enable, dir),
                     "rules", EditRules(rules.value, StripRouteRule, if enable then ChinaRouteRules(direct) else [])))
  }

  function TwoArrays(m: map<string, Value>, k: string, a: seq<Value>, l: string, b: seq<Value>): map<string, Value> {
    m[k := Arr(a)][l := Arr(b)]
  }

  function EditDns(dns: map<string, Value>, enable: bool): Option<map<string, Value>> {
    var servers, rules := EntryArr(dns, "servers"), EntryArr(dns, "rules");
    if (enable && servers.None?) || rules.None? then None
    else
      var rules' := EditRules(rules.value, StripDnsRule, if enable then ChinaDnsRules() else []);
      Some(if enable then TwoArrays(dns, "servers", EnsureServers(servers.value), "rules", rules')
           else dns["rules" := Arr(rules')])
  }

  /** `ensure_china_ip_routing`. */
  function EnsureChinaIpRouting(config: Value, enable: bool, dir: string): Result<Value> {
    if !config.Obj? then Err
    else
      var root := config.fields;
      var direct := if enable then DirectTag(Items(config, "outbounds")) else Some("");
      var route, dns := EntryObj(root, "route"), EntryObj(root, "dns");
      if direct.None? || route.None? || dns.None? then Err
      else
        match (EditRoute(route.value, enable, direct.value, dir), EditDns(dns.value, enable))
        case (Some(route'), Some(dns')) => Ok(Obj(Rebuilt(root, route', dns')))
        case _ => Err
  }

  function Rebuilt(root: map<string, Value>, route: map<string, Value>, dns: map<string, Value>): map<string, Value> {
    root["route" := Obj(route)]["dns" := Obj(dns)]
  }

  lemma {:induction false} RebuiltEntries(root: map<string, Value>, route: map<string, Value>, dns: map<string, Value>,
                       route': map<string, Value>, dns': map<string, Value>)
    ensures var r := Rebuilt(root, route, dns);
            EntryObj(r, "route") == Some(route) && EntryObj(r, "dns") == Some(dns) &&
            Items(Obj(r), "outbounds") == Items(Obj(root), "outbounds") &&
            Rebuilt(r, route', dns') == Rebuilt(root, route', dns')
  {
  }

  lemma {:induction false} TwoArraysEntries(m: map<string, Value>, k: string, a: seq<Value>, l: string, b: seq<Value>,
                                            a': seq<Value>, b': seq<Value>)
    requires k != l
    ensures var t := TwoArrays(m, k, a, l, b);
            EntryArr(t, k) == Some(a) && EntryArr(t, l) == Some(b) &&
            TwoArrays(t, k, a', l, b') == TwoArrays(m, k, a', l, b')
  {
  }

  // ---------------------------------------------------------------- stripping

  lemma {:induction false} StripTagsStable(rule: Value, tags: seq<string>)
    ensures StripTags(StripTags(rule, tags), tags) == StripTags(rule, tags)
  {
    match Get(rule, "rule_set")
    case Some(Arr(items)) =>
      var keep := (v: Value) => !NamesTag(v, tags);
      var kept := Retain(items, keep);
      forall x | x in kept ensures keep(x) { RetainMembers(items, keep, x); }
      RetainAll(kept, keep);
    case _ =>
  }

  lemma {:induction false} StripNestedStable(rule: Value)
    ensures StripNested(StripNested(rule)) == StripNested(rule)
  {
    match Get(rule, "rules")
    case Some(Arr(nested)) =>
      var kept := Retain(nested, KeepsNested);
      forall x | x in kept ensures KeepsNested(x) { RetainMembers(nested, KeepsNested, x); }
      RetainAll(kept, KeepsNested);
    case _ =>
  }

  lemma {:induction false} StripRouteStable(rule: Value)
    ensures StripRouteRule(rule).Some? ==> StripRouteRule(StripRouteRule(rule).value) == StripRouteRule(rule)
  {
    StripTagsStable(rule, ROUTE_TAGS);
  }

  lemma {:induction false} StripDnsStable(rule: Value)
    ensures StripDnsRule(rule).Some? ==> StripDnsRule(StripDnsRule(rule).value) == StripDnsRule(rule)
  {
    var r := StripTags(rule, ALL_TAGS);
    StripTagsStable(rule, ALL_TAGS);
    StripNestedStable(r);
    assert Get(StripNested(r), "rule_set") == Get(r, "rule_set");
    assert StripTags(StripNested(r), ALL_TAGS) == StripNested(r);
  }

  const NEUTRAL_FIELDS := {"outbound", "server", "type", "mode", "client_subnet"}

  lemma {:induction false} NeutralHasNoMatcher(rule: Value)
    requires rule.Obj? && rule.fields.Keys <= NEUTRAL_FIELDS
    ensures !HasMatcher(rule)
  {
    forall k | 0 <= k < |MATCHER_FIELDS| ensures MATCHER_FIELDS[k] !in NEUTRAL_FIELDS {}
  }

  lemma {:induction false} ChinaRouteRulesVanish(direct: string, rule: Value)
    requires rule in ChinaRouteRules(direct)
    ensures StripRouteRule(rule) == None
  {
    var r := StripTags(rule, ROUTE_TAGS);
    assert r.fields.Keys == {"outbound"};
    NeutralHasNoMatcher(r);
  }

  lemma {:induction false} ChinaDnsRulesVanish(rule: Value)
    requires rule in ChinaDnsRules()
    ensures StripDnsRule(rule) == None
  {
    if rule == ChinaDnsRules()[2] { LogicalRuleVanishes(); } else { TagRuleVanishes(rule); }
  }

  lemma {:induction false} TagRuleVanishes(rule: Value)
    requires rule in ChinaDnsRules()[..2]
    ensures StripDnsRule(rule) == None
  {
    var r := StripTags(rule, ALL_TAGS);
    assert r.fields.Keys == {"server"};
    assert StripNested(r) == r;
    NeutralHasNoMatcher(r);
  }

  lemma {:induction false} LogicalRuleVanishes()
    ensures StripDnsRule(ChinaDnsRules()[2]) == None
  {
    var rule := ChinaDnsRules()[2];
    var r := StripNested(rule);
    NestedVanish();
    assert StripTags(rule, ALL_TAGS) == rule;
    assert r.fields.Keys == {"type", "mode", "server", "client_subnet"};
    NeutralHasNoMatcher(r);
  }

  lemma {:induction false} NestedVanish()
    ensures Retain(ChinaDnsRules()[2].fields["rules"].items, KeepsNested) == []
  {
    RetainNone(ChinaDnsRules()[2].fields["rules"].items, KeepsNested);
  }

  lemma {:induction false} InsertedVanish<T(!new)>(kept: seq<T>, i: nat, strip: T -> Option<T>, added: seq<T>)
    requires i <= |kept| && RetainMut(kept, strip) == kept && forall x :: x in added ==> strip(x) == None
    ensures RetainMut(InsertAll(kept, i, added), strip) == kept
  {
    MiddleVanishes(kept[..i], added, kept[i..], strip);
    assert kept == kept[..i] + kept[i..];
  }

  lemma {:induction false} MiddleVanishes<T(!new)>(a: seq<T>, added: seq<T>, b: seq<T>, strip: T -> Option<T>)
    requires forall x :: x in added ==> strip(x) == None
    ensures RetainMut(a + added + b, strip) == RetainMut(a + b, strip)
  {
    RetainMutAppend(a, b, strip);
    RetainMutAppend(a + added, b, strip);
    RetainMutAppend(a, added, strip);
    RetainMutNone(added, strip);
    assert RetainMut(a, strip) + [] == RetainMut(a, strip);
  }

  /** Editing again with the same additions changes nothing, and editing with other additions forgets
      the first ones. */
  lemma {:induction false} EditRulesForgets(rules: seq<Value>, strip: Value -> Option<Value>, added: seq<Value>,
                                            added': seq<Value>)
    requires forall x :: x in rules && strip(x).Some? ==> strip(strip(x).value) == strip(x)
    requires forall x :: x in added ==> strip(x) == None
    ensures EditRules(EditRules(rules, strip, added), strip, added') == EditRules(rules, strip, added')
  {
    var kept := RetainMut(rules, strip);
    RetainMutStable(rules, strip);
    InsertedVanish(kept, InsertIndex(kept), strip, added);
  }

  lemma {:induction false} OwnRuleSetsGo(dir: string, v: Value)
    requires v in LocalRuleSets(dir)
    ensures !KeepsRuleSet(v)
  {
  }

  lemma {:induction false} EditRuleSetsForgets(sets: seq<Value>, enable: bool, enable': bool, dir: string)
    ensures EditRuleSets(EditRuleSets(sets, enable, dir), enable', dir) == EditRuleSets(sets, enable', dir)
  {
    var kept, added := Retain(sets, KeepsRuleSet), if enable then LocalRuleSets(dir) else [];
    RetainAppend(kept, added, KeepsRuleSet);
    forall x | x in kept ensures KeepsRuleSet(x) { RetainMembers(sets, KeepsRuleSet, x); }
    RetainAll(kept, KeepsRuleSet);
    forall x | x in added ensures !KeepsRuleSet(x) { OwnRuleSetsGo(dir, x); }
    RetainNone(added, KeepsRuleSet);
    assert kept + [] == kept;
  }

  function WithLocal(servers: seq<Value>): seq<Value> {
    if Position(servers, IsLocal).Some? then servers else servers + [LOCAL_SERVER]
  }

  function WithRemote(servers: seq<Value>): seq<Value> {
    match Position(servers, IsRemote)
    case Some(i) => servers[i := MigrateRemote(servers[i])]
    case None => servers + [REMOTE_SERVER]
  }

  lemma {:induction false} MigrationIsStable(v: Value)
    ensures MigrateRemote(MigrateRemote(v)) == MigrateRemote(v)
    ensures GetStr(MigrateRemote(v), "tag") == GetStr(v, "tag")
    ensures MigrateRemote(REMOTE_SERVER) == REMOTE_SERVER && IsRemote(REMOTE_SERVER) && IsLocal(LOCAL_SERVER)
  {
    assert REMOTE_SERVER.fields["server" := Str("223.6.6.6")] - {"detour"} == REMOTE_SERVER.fields;
    if v.Obj? && IsManagedRemote(v) {
      var f := v.fields["server" := Str("223.6.6.6")] - {"detour"};
      assert f["server" := Str("223.6.6.6")] - {"detour"} == f;
    }
  }

  lemma {:induction false} WithRemoteStable(s: seq<Value>)
    ensures WithRemote(WithRemote(s)) == WithRemote(s)
  {
    var r := WithRemote(s);
    var i := match Position(s, IsRemote) case Some(k) => k case None => |s|;
    MigrationIsStable(if i < |s| then s[i] else REMOTE_SERVER);
    forall j | 0 <= j < i ensures !IsRemote(r[j]) { assert r[j] == s[j] && s[j] in s; }
    PositionAt(r, IsRemote, i);
    assert r[i := r[i]] == r;
  }

  lemma {:induction false} WithLocalStable(s: seq<Value>)
    ensures Position(WithRemote(WithLocal(s)), IsLocal).Some?
  {
    var t, l := WithLocal(s), PositionOr(s, IsLocal, |s|);
    MigrationIsStable(t[l]);
    LocalSurvives(t, l);
  }

  lemma {:induction false} LocalSurvives(t: seq<Value>, l: nat)
    requires l < |t| && IsLocal(t[l])
    ensures Position(WithRemote(t), IsLocal).Some?
  {
    var r := WithRemote(t);
    match Position(t, IsRemote) {
      case Some(i) =>
        assert i != l;
        assert r[l] == t[l];
      case None =>
        assert r[l] == t[l];
    }
    assert r[l] in r;
  }

  lemma {:induction false} EnsureServersStable(servers: seq<Value>)
    ensures EnsureServers(EnsureServers(servers)) == EnsureServers(servers)
  {
    WithLocalStable(servers);
    WithRemoteStable(WithLocal(servers));
  }

  // ---------------------------------------------------------------- theorems about the toggle

  lemma {:induction false} RouteRulesForget(rules: seq<Value>, enable: bool, enable': bool, direct: string)
    ensures var added := if enable then ChinaRouteRules(direct) else [];
            var added' := if enable' then ChinaRouteRules(direct) else [];
            EditRules(EditRules(rules, StripRouteRule, added), StripRouteRule, added') ==
            EditRules(rules, StripRouteRule, added')
  {
    var added := if enable then ChinaRouteRules(direct) else [];
    forall x | x in rules && StripRouteRule(x).Some?
      ensures StripRouteRule(StripRouteRule(x).value) == StripRouteRule(x) {
      StripRouteStable(x);
    }
    forall x | x in added ensures StripRouteRule(x) == None { ChinaRouteRulesVanish(direct, x); }
    EditRulesForgets(rules, StripRouteRule, added, if enable' then ChinaRouteRules(direct) else []);
  }

  lemma {:induction false} EditRouteForgets(route: map<string, Value>, enable: bool, enable': bool, direct: string,
                                            dir: string)
    requires EditRoute(route, enable, direct, dir).Some?
    ensures EditRoute(EditRoute(route, enable, direct, dir).value, enable', direct, dir) ==
            EditRoute(route, enable', direct, dir)
  {
    var sets, rules := EntryArr(route, "rule_set").value, EntryArr(route, "rules").value;
    var added := if enable then ChinaRouteRules(direct) else [];
    var added' := if enable' then ChinaRouteRules(direct) else [];
    RouteRulesForget(rules, enable, enable', direct);
    EditRuleSetsForgets(sets, enable, enable', dir);
    TwoArraysEntries(route, "rule_set", EditRuleSets(sets, enable, dir), "rules",
                     EditRules(rules, StripRouteRule, added),
                     EditRuleSets(sets, enable', dir), EditRules(rules, StripRouteRule, added'));
  }

  lemma {:induction false} DnsRulesForget(rules: seq<Value>, enable: bool, enable': bool)
    ensures var added, added' := if enable then ChinaDnsRules() else [], if enable' then ChinaDnsRules() else [];
            EditRules(EditRules(rules, StripDnsRule, added), StripDnsRule, added') ==
            EditRules(rules, StripDnsRule, added')
  {
    var added := if enable then ChinaDnsRules() else [];
    forall x | x in rules && StripDnsRule(x).Some? ensures StripDnsRule(StripDnsRule(x).value) == StripDnsRule(x) {
      StripDnsStable(x);
    }
    forall x | x in added ensures StripDnsRule(x) == None { ChinaDnsRulesVanish(x); }
    EditRulesForgets(rules, StripDnsRule, added, if enable' then ChinaDnsRules() else []);
  }

  lemma {:induction false} EditDnsStable(dns: map<string, Value>)
    requires EditDns(dns, true).Some?
    ensures EditDns(EditDns(dns, true).value, true) == EditDns(dns, true)
  {
    var servers, rules := EntryArr(dns, "servers").value, EntryArr(dns, "rules").value;
    var rules' := EditRules(rules, StripDnsRule, ChinaDnsRules());
    DnsRulesForget(rules, true, true);
    EnsureServersStable(servers);
    TwoArraysEntries(dns, "servers", EnsureServers(servers), "rules", rules', EnsureServers(servers), rules');
  }

  lemma {:induction false} EditDnsForgets(dns: map<string, Value>)
    requires EditDns(dns, true).Some?
    ensures EditDns(EditDns(dns, true).value, false).Some? && EditDns(dns, false).Some?
    ensures EditDns(EditDns(dns, true).value, false).value - {"servers"} == EditDns(dns, false).value - {"servers"}
  {
    var servers, rules := EntryArr(dns, "servers").value, EntryArr(dns, "rules").value;
    var rules' := EditRules(rules, StripDnsRule, ChinaDnsRules());
    DnsRulesForget(rules, true, false);
    TwoArraysEntries(dns, "servers", EnsureServers(servers), "rules", rules', [], []);
    OnlyServersDiffer(dns, EnsureServers(servers), rules', EditRules(rules, StripDnsRule, []));
  }

  lemma {:induction false} OnlyServersDiffer(dns: map<string, Value>, servers: seq<Value>, rules: seq<Value>,
                                             rules': seq<Value>)
    ensures TwoArrays(dns, "servers", servers, "rules", rules)["rules" := Arr(rules')] - {"servers"} ==
            dns["rules" := Arr(rules')] - {"servers"}
  {
  }

  lemma {:induction false} DirectIsUnused(route: map<string, Value>, direct: string, direct': string, dir: string)
    ensures EditRoute(route, false, direct, dir) == EditRoute(route, false, direct', dir)
  {
  }

  /** Enabling is idempotent on every config it accepts. */
  lemma {:induction false} EnableIsIdempotent(config: Value, dir: string)
    requires EnsureChinaIpRouting(config, true, dir).Ok?
    ensures EnsureChinaIpRouting(EnsureChinaIpRouting(config, true, dir).value, true, dir) ==
            EnsureChinaIpRouting(config, true, dir)
  {
    var root, direct := config.fields, DirectTag(Items(config, "outbounds")).value;
    var route, dns := EntryObj(root, "route").value, EntryObj(root, "dns").value;
    EditRouteForgets(route, true, true, direct, dir);
    EditDnsStable(dns);
    var route', dns' := EditRoute(route, true, direct, dir).value, EditDns(dns, true).value;
    RebuiltEntries(root, route', dns', route', dns');
  }

  /** A config without its `dns.servers`. */
  function WithoutServers(config: Value): Value {
    match Get(config, "dns")
    case Some(Obj(dns)) => Obj(config.fields["dns" := Obj(dns - {"servers"})])
    case _ => config
  }

  /** Enabling and then disabling leaves what disabling alone leaves, up to the DNS servers. */
  lemma {:induction false} DisableUndoesEnable(config: Value, dir: string)
    requires EnsureChinaIpRouting(config, true, dir).Ok?
    ensures var on := EnsureChinaIpRouting(config, true, dir).value;
            EnsureChinaIpRouting(on, false, dir).Ok? && EnsureChinaIpRouting(config, false, dir).Ok? &&
            WithoutServers(EnsureChinaIpRouting(on, false, dir).value) ==
            WithoutServers(EnsureChinaIpRouting(config, false, dir).value)
  {
    var root, direct := config.fields, DirectTag(Items(config, "outbounds")).value;
    var route, dns := EntryObj(root, "route").value, EntryObj(root, "dns").value;
    var route1, dns1 := EditRoute(route, true, direct, dir).value, EditDns(dns, true).value;
    EditRouteForgets(route, true, false, direct, dir);
    DirectIsUnused(route, direct, "", dir);
    DirectIsUnused(route1, direct, "", dir);
    EditDnsForgets(dns);
    var off, da, db := EditRoute(route, false, "", dir).value, EditDns(dns1, false).value, EditDns(dns, false).value;
    RebuiltEntries(root, route1, dns1, off, da);
    SameButServers(root, off, da, db);
  }

  lemma {:induction false} SameButServers(root: map<string, Value>, route: map<string, Value>, a: map<string, Value>,
                                          b: map<string, Value>)
    requires a - {"servers"} == b - {"servers"}
    ensures WithoutServers(Obj(Rebuilt(root, route, a))) == WithoutServers(Obj(Rebuilt(root, route, b)))
  {
    assert Rebuilt(root, route, a)["dns" := Obj(a - {"servers"})] ==
           Rebuilt(root, route, b)["dns" := Obj(b - {"servers"})];
  }

  // ---------------------------------------------------------------- meaning

  /** First-match evaluation, whatever the matchers mean: the rule that decides a request. */
  function Decides(rules: seq<Value>, matches: Value -> bool): Option<Value> {
    if rules == [] then None
    else if matches(rules[0]) then Some(rules[0]) else Decides(rules[1..], matches)
  }

  lemma {:induction false} DecidesAppend(a: seq<Value>, b: seq<Value>, matches: Value -> bool)
    ensures Decides(a + b, matches) == if Decides(a, matches).Some? then Decides(a, matches) else Decides(b, matches)
  {
    if a == [] {
      assert a + b == b;
    } else {
      DecidesAppend(a[1..], b, matches);
      assert (a + b)[1..] == a[1..] + b;
    }
  }

  /** A rule the toggle leaves alone: an object with a listed matcher, naming no China tag. */
  predicate IsClean(rule: Value) {
    HasMatcher(rule) &&
    match Get(rule, "rule_set")
    case Some(Str(tag)) => tag !in ROUTE_TAGS
    case Some(Arr(items)) => items != [] && forall v :: v in items ==> !NamesTag(v, ROUTE_TAGS)
    case _ => true
  }

  lemma {:induction false} CleanIsKept(rule: Value)
    ensures StripRouteRule(rule) == Some(rule) <==> IsClean(rule)
  {
    match Get(rule, "rule_set")
    case Some(Arr(items)) =>
      var keep := (v: Value) => !NamesTag(v, ROUTE_TAGS);
      if forall v :: v in items ==> keep(v) {
        RetainAll(items, keep);
        assert rule.fields["rule_set" := Arr(items)] == rule.fields;
      } else {
        var v :| v in items && !keep(v);
        RetainMembers(items, keep, v);
      }
    case _ =>
  }

  /** The toggle leaves the existing route rules alone exactly when all of them are clean. */
  lemma {:induction false} RulesSurviveIff(rules: seq<Value>)
    ensures RetainMut(rules, StripRouteRule) == rules <==> forall r :: r in rules ==> IsClean(r)
  {
    RetainMutLength(rules, StripRouteRule);
    forall r ensures StripRouteRule(r) == Some(r) <==> IsClean(r) { CleanIsKept(r); }
  }

  /** A rule with an action and no listed matcher is dropped, whichever way the toggle goes. */
  lemma {:induction false} BareActionRuleIsDropped(direct: string)
    ensures var sniff := Obj(map["action" := Str("sniff")]);
            EditRules([sniff], StripRouteRule, []) == [] &&
            EditRules([sniff], StripRouteRule, ChinaRouteRules(direct)) == ChinaRouteRules(direct)
  {
    var sniff := Obj(map["action" := Str("sniff")]);
    assert StripRouteRule(sniff) == None;
    assert RetainMut([sniff], StripRouteRule) == [];
  }

  /** Rules put in the middle decide exactly the requests that nothing before them decides and that
      match one of them. */
  lemma {:induction false} InsertedDecide(rules: seq<Value>, i: nat, added: seq<Value>, matches: Value -> bool)
    requires i <= |rules|
    ensures Decides(InsertAll(rules, i, added), matches) ==
            if Decides(rules[..i], matches).None? && Decides(added, matches).Some? then Decides(added, matches)
            else Decides(rules, matches)
  {
    MiddleDecides(rules[..i], added, rules[i..], matches);
    assert rules == rules[..i] + rules[i..];
  }

  lemma {:induction false} MiddleDecides(a: seq<Value>, added: seq<Value>, b: seq<Value>, matches: Value -> bool)
    ensures Decides(a + added + b, matches) ==
            if Decides(a, matches).None? && Decides(added, matches).Some? then Decides(added, matches)
            else Decides(a + b, matches)
  {
    DecidesAppend(a + added, b, matches);
    DecidesAppend(a, added, matches);
    DecidesAppend(a, b, matches);
  }

  lemma {:induction false} InsertIndexMeaning(rules: seq<Value>)
    ensures forall k :: 0 <= k < InsertIndex(rules) ==> !IsRuleMode(rules[k])
    ensures InsertIndex(rules) < |rules| ==> IsRuleMode(rules[InsertIndex(rules)])
  {
    forall k | 0 <= k < InsertIndex(rules) ensures !IsRuleMode(rules[k]) { assert rules[k] in rules; }
  }

  lemma {:induction false} ChinaRulesGoDirect(direct: string, matches: Value -> bool)
    ensures var d := Decides(ChinaRouteRules(direct), matches);
            d.Some? ==> GetStr(d.value, "outbound") == Some(direct)
  {
    DecidesMember(ChinaRouteRules(direct), matches);
  }

  /** Inserting the China rules changes the outcome only for requests that one of them matches and that are
      undecided before the first rule-mode entry: those go direct. */
  lemma {:induction false} InsertedChangesOnlyChina(rules: seq<Value>, direct: string, matches: Value -> bool)
    ensures var china := Decides(ChinaRouteRules(direct), matches);
            var after := Decides(Insert(rules, ChinaRouteRules(direct)), matches);
            if Decides(rules[..InsertIndex(rules)], matches).None? && china.Some?
            then after == china && GetStr(after.value, "outbound") == Some(direct)
            else after == Decides(rules, matches)
  {
    InsertedDecide(rules, InsertIndex(rules), ChinaRouteRules(direct), matches);
    ChinaRulesGoDirect(direct, matches);
  }

  /** On clean rules, enabling changes the deciding rule only for requests that nothing before the
      first rule-mode entry decides and that match a China tag; those go to the direct outbound. */
  lemma {:induction false} EnableChangesOnlyChina(rules: seq<Value>, direct: string, matches: Value -> bool)
    requires forall r :: r in rules ==> IsClean(r)
    ensures var i, china := InsertIndex(rules), ChinaRouteRules(direct);
            var before, after := Decides(rules, matches), Decides(EditRules(rules, StripRouteRule, china), matches);
            if Decides(rules[..i], matches).None? && Decides(china, matches).Some?
            then after == Decides(china, matches) && GetStr(after.value, "outbound") == Some(direct)
            else after == before
  {
    RulesSurviveIff(rules);
    InsertedChangesOnlyChina(rules, direct, matches);
  }

  lemma {:induction false} DecidesMember(rules: seq<Value>, matches: Value -> bool)
    ensures Decides(rules, matches).Some? ==> Decides(rules, matches).value in rules
  {
    if rules != [] { DecidesMember(rules[1..], matches); }
  }

  function RouteRules(config: Value): seq<Value> {
    match Get(config, "route") case Some(route) => Items(route, "rules") case None => []
  }

  /** The route rules after a toggle: stripped, and with the China rules when enabling. */
  lemma {:induction false} ToggledRules(config: Value, enable: bool, dir: string)
    requires EnsureChinaIpRouting(config, enable, dir).Ok?
    ensures enable ==> DirectTag(Items(config, "outbounds")).Some?
    ensures RouteRules(EnsureChinaIpRouting(config, enable, dir).value) ==
            EditRules(RouteRules(config), StripRouteRule,
                      if enable then ChinaRouteRules(DirectTag(Items(config, "outbounds")).value) else [])
  {
    var root := config.fields;
    var direct := if enable then DirectTag(Items(config, "outbounds")).value else "";
    var route, dns := EntryObj(root, "route").value, EntryObj(root, "dns").value;
    var route', dns' := EditRoute(route, enable, direct, dir).value, EditDns(dns, enable).value;
    RuleEntries(route, enable, direct, dir);
    RebuiltEntries(root, route', dns', route', dns');
    assert RouteRules(config) == EntryArr(route, "rules").value;
  }

  lemma {:induction false} RuleEntries(route: map<string, Value>, enable: bool, direct: string, dir: string)
    requires EditRoute(route, enable, direct, dir).Some?
    ensures EntryArr(route, "rules").Some?
    ensures Items(Obj(EditRoute(route, enable, direct, dir).value), "rules") ==
            EditRules(EntryArr(route, "rules").value, StripRouteRule, if enable then ChinaRouteRules(direct) else [])
  {
    var sets, rules := EntryArr(route, "rule_set").value, EntryArr(route, "rules").value;
    var rules' := EditRules(rules, StripRouteRule, if enable then ChinaRouteRules(direct) else []);
    TwoArraysEntries(route, "rule_set", EditRuleSets(sets, enable, dir), "rules", rules', [], []);
  }

  lemma {:induction false} DisablingGoesThrough(config: Value, dir: string)
    requires EnsureChinaIpRouting(config, true, dir).Ok?
    ensures EnsureChinaIpRouting(config, false, dir).Ok?
  {
  }

  /** On any config, enabled and disabled routing differ only for requests that a China rule matches and that are
      undecided before the first rule-mode entry: those go direct when enabled. */
  lemma {:induction false} EnabledVersusDisabled(config: Value, dir: string, matches: Value -> bool)
    requires EnsureChinaIpRouting(config, true, dir).Ok?
    ensures EnsureChinaIpRouting(config, false, dir).Ok? && DirectTag(Items(config, "outbounds")).Some?
    ensures var off := RouteRules(EnsureChinaIpRouting(config, false, dir).value);
            var direct := DirectTag(Items(config, "outbounds")).value;
            var china := Decides(ChinaRouteRules(direct), matches);
            var after := Decides(RouteRules(EnsureChinaIpRouting(config, true, dir).value), matches);
            if Decides(off[..InsertIndex(off)], matches).None? && china.Some?
            then after == china && GetStr(after.value, "outbound") == Some(direct)
            else after == Decides(off, matches)
  {
    DisablingGoesThrough(config, dir);
    ToggledRules(config, true, dir);
    ToggledRules(config, false, dir);
    var off, direct := RouteRules(EnsureChinaIpRouting(config, false, dir).value),
                       DirectTag(Items(config, "outbounds")).value;
    NothingInserted(RetainMut(RouteRules(config), StripRouteRule));
    assert RouteRules(EnsureChinaIpRouting(config, true, dir).value) == Insert(off, ChinaRouteRules(direct));
    InsertedChangesOnlyChina(off, direct, matches);
  }

  lemma {:induction false} NothingInserted(rules: seq<Value>)
    ensures Insert(rules, []) == rules
  {
  }

  /** What enabling means for the requests of a whole config. */
  lemma {:induction false} EnablingPreservesMeaning(config: Value, dir: string, matches: Value -> bool)
    requires EnsureChinaIpRouting(config, true, dir).Ok? && forall r :: r in RouteRules(config) ==> IsClean(r)
    ensures DirectTag(Items(config, "outbounds")).Some?
    ensures var rules, direct := RouteRules(config), DirectTag(Items(config, "outbounds")).value;
            var china := Decides(ChinaRouteRules(direct), matches);
            var before := Decides(rules, matches);
            var after := Decides(RouteRules(EnsureChinaIpRouting(config, true, dir).value), matches);
            if Decides(rules[..InsertIndex(rules)], matches).None? && china.Some?
            then after == china && GetStr(after.value, "outbound") == Some(direct)
            else after == before
  {
    ToggledRules(config, true, dir);
    EnableChangesOnlyChina(RouteRules(config), DirectTag(Items(config, "outbounds")).value, matches);
  }
}
