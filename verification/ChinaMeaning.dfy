/** What the China toggle does to a config, told field by field: which rules survive and as what, which rules, rule
    sets and servers come in, who answers a request, and what stays untouched. */
module ChinaMeaning {
  import opened Prelude
  import opened Json
  import opened Outbounds
  import opened ChinaRouting

  /** The fields by which a rule selects requests. */
  const SELECTING := {
    "rule_set", "rules", "domain", "domain_suffix", "domain_keyword", "domain_regex", "ip_cidr", "ip_is_private",
    "source_ip_cidr", "source_ip_is_private", "port", "source_port", "network", "protocol", "process_name",
    "process_path", "clash_mode", "inbound", "geosite", "geoip", "query_type"}

  predicate IsRouteTag(v: Value) {
    v == Str("geoip-cn") || v == Str("geosite-cn") || v == Str("geosite-geolocation-cn")
  }

  predicate IsChinaTag(v: Value) { IsRouteTag(v) || v == Str("geosite-geolocation-!cn") }

  /** The rule selects requests by at least one field, an empty list not counting. */
  ghost predicate Selects(rule: Value) {
    rule.Obj? && exists k :: k in SELECTING && k in rule.fields && rule.fields[k] != Arr([])
  }

  lemma {:induction false} MatcherMeaning(rule: Value)
    ensures HasMatcher(rule) <==> Selects(rule)
  {
    if HasMatcher(rule) {
      var i :| 0 <= i < |MATCHER_FIELDS| && Matcher(rule.fields, MATCHER_FIELDS[i]);
      assert MATCHER_FIELDS[i] in SELECTING;
    }
    if Selects(rule) {
      var k :| k in SELECTING && k in rule.fields && rule.fields[k] != Arr([]);
      Listed(k);
      var i :| 0 <= i < |MATCHER_FIELDS| && MATCHER_FIELDS[i] == k;
      assert Matcher(rule.fields, MATCHER_FIELDS[i]);
    }
  }

  lemma {:induction false} Listed(k: string)
    requires k in SELECTING
    ensures exists i :: 0 <= i < |MATCHER_FIELDS| && MATCHER_FIELDS[i] == k
  {
    var m := MATCHER_FIELDS;
    assert m[0] == "rule_set" && m[1] == "rules" && m[2] == "domain" && m[3] == "domain_suffix" &&
           m[4] == "domain_keyword" && m[5] == "domain_regex" && m[6] == "ip_cidr" && m[7] == "ip_is_private";
    assert m[8] == "source_ip_cidr" && m[9] == "source_ip_is_private" && m[10] == "port" && m[11] == "source_port" &&
           m[12] == "network" && m[13] == "protocol" && m[14] == "process_name" && m[15] == "process_path";
    assert m[16] == "clash_mode" && m[17] == "inbound" && m[18] == "geosite" && m[19] == "geoip" &&
           m[20] == "query_type";
  }

  // ---------------------------------------------------------------- what is left of one rule

  /** `after` is `before` without the entries that `gone` names: a single entry, or those of a list, which goes
      altogether when none is left (an empty one too). */
  ghost predicate Purged(before: map<string, Value>, after: map<string, Value>, key: string, single: bool,
                         gone: Value -> bool) {
    (forall k :: k != key ==> (k in after <==> k in before) && (k in before ==> after[k] == before[k])) &&
    if key !in before || !(before[key].Arr? || (single && before[key].Str?)) then
      (key in after <==> key in before) && (key in before ==> after[key] == before[key])
    else if before[key].Str? then
      if gone(before[key]) then key !in after else key in after && after[key] == before[key]
    else if forall v :: v in before[key].items ==> gone(v) then key !in after
    else key in after && after[key] == Arr(Retain(before[key].items, v => !gone(v)))
  }

  /** A nested rule of a logical one that names a China rule set. */
  predicate NamesChina(v: Value) {
    v.Obj? && "rule_set" in v.fields && v.fields["rule_set"].Str? && IsChinaTag(v.fields["rule_set"])
  }

  lemma {:induction false} RetainEmpty(items: seq<Value>, gone: Value -> bool, keep: Value -> bool)
    requires forall v :: keep(v) <==> !gone(v)
    ensures Retain(items, keep) == [] <==> forall v :: v in items ==> gone(v)
    ensures Retain(items, keep) == Retain(items, v => !gone(v))
  {
    if items != [] {
      RetainEmpty(items[1..], gone, keep);
      assert items[0] in items;
    }
  }

  lemma {:induction false} TagsPurged(rule: Value, tags: seq<string>, gone: Value -> bool)
    requires rule.Obj? && forall v :: gone(v) <==> NamesTag(v, tags)
    ensures StripTags(rule, tags).Obj? && Purged(rule.fields, StripTags(rule, tags).fields, "rule_set", true, gone)
  {
    match Get(rule, "rule_set")
    case Some(Arr(items)) => RetainEmpty(items, gone, v => !NamesTag(v, tags));
    case _ =>
  }

  lemma {:induction false} NestedPurged(rule: Value)
    requires rule.Obj?
    ensures StripNested(rule).Obj? && Purged(rule.fields, StripNested(rule).fields, "rules", false, NamesChina)
  {
    match Get(rule, "rules")
    case Some(Arr(nested)) =>
      forall v ensures KeepsNested(v) <==> !NamesChina(v) { NestedNames(v); }
      RetainEmpty(nested, NamesChina, KeepsNested);
    case _ =>
  }

  lemma {:induction false} NestedNames(v: Value)
    ensures KeepsNested(v) <==> !NamesChina(v)
  {
  }

  /** A route rule loses exactly its China tags, and goes if it then selects nothing. */
  lemma {:induction false} RouteRuleMeaning(rule: Value)
    ensures !rule.Obj? ==> StripRouteRule(rule) == None
    ensures rule.Obj? ==> exists left ::
              Purged(rule.fields, left, "rule_set", true, IsRouteTag) &&
              StripRouteRule(rule) == if Selects(Obj(left)) then Some(Obj(left)) else None
  {
    if rule.Obj? {
      forall v ensures IsRouteTag(v) <==> NamesTag(v, ROUTE_TAGS) { RouteTagNames(v); }
      TagsPurged(rule, ROUTE_TAGS, IsRouteTag);
      MatcherMeaning(StripTags(rule, ROUTE_TAGS));
    }
  }

  lemma {:induction false} RouteTagNames(v: Value)
    ensures IsRouteTag(v) <==> NamesTag(v, ROUTE_TAGS)
    ensures IsChinaTag(v) <==> NamesTag(v, ALL_TAGS)
  {
  }

  /** A DNS rule loses exactly its China tags and the nested rules that name one, and goes if it then selects
      nothing. */
  lemma {:induction false} DnsRuleMeaning(rule: Value)
    ensures !rule.Obj? ==> StripDnsRule(rule) == None
    ensures rule.Obj? ==> exists mid, left ::
              Purged(rule.fields, mid, "rule_set", true, IsChinaTag) && Purged(mid, left, "rules", false, NamesChina) &&
              StripDnsRule(rule) == if Selects(Obj(left)) then Some(Obj(left)) else None
  {
    if rule.Obj? {
      forall v ensures IsChinaTag(v) <==> NamesTag(v, ALL_TAGS) { RouteTagNames(v); }
      TagsPurged(rule, ALL_TAGS, IsChinaTag);
      var mid := StripTags(rule, ALL_TAGS);
      NestedPurged(mid);
      MatcherMeaning(StripNested(mid));
    }
  }

  /** A DNS rule that the toggle leaves alone: it selects something, names no China tag, holds no empty list of
      tags or nested rules, and no nested rule that names one. */
  ghost predicate CleanDns(rule: Value) {
    Selects(rule) &&
    (match Get(rule, "rule_set")
     case Some(Arr(tags)) => tags != [] && forall v :: v in tags ==> !IsChinaTag(v)
     case Some(v) => !IsChinaTag(v)
     case None => true) &&
    (match Get(rule, "rules")
     case Some(Arr(nested)) => nested != [] && forall v :: v in nested ==> !NamesChina(v)
     case _ => true)
  }

  lemma {:induction false} CleanDnsIsKept(rule: Value)
    ensures StripDnsRule(rule) == Some(rule) <==> CleanDns(rule)
  {
    forall v ensures (IsChinaTag(v) <==> NamesTag(v, ALL_TAGS)) && (KeepsNested(v) <==> !NamesChina(v)) {
      RouteTagNames(v);
      NestedNames(v);
    }
    TagsKept(rule);
    NestedKept(rule);
    MatcherMeaning(rule);
    if StripDnsRule(rule) == Some(rule) { BothKept(rule); }
  }

  lemma {:induction false} TagsKept(rule: Value)
    ensures StripTags(rule, ALL_TAGS) == rule <==>
            match Get(rule, "rule_set")
            case Some(Arr(tags)) => tags != [] && forall v :: v in tags ==> !NamesTag(v, ALL_TAGS)
            case Some(v) => !NamesTag(v, ALL_TAGS)
            case None => true
  {
    match Get(rule, "rule_set")
    case Some(Arr(items)) =>
      var keep := (v: Value) => !NamesTag(v, ALL_TAGS);
      if forall v :: v in items ==> keep(v) {
        RetainAll(items, keep);
        assert rule.fields["rule_set" := Arr(items)] == rule.fields;
      } else {
        var v :| v in items && !keep(v);
        RetainMembers(items, keep, v);
      }
    case _ =>
  }

  lemma {:induction false} NestedKept(rule: Value)
    ensures StripNested(rule) == rule <==>
            match Get(rule, "rules")
            case Some(Arr(nested)) => nested != [] && forall v :: v in nested ==> KeepsNested(v)
            case _ => true
  {
    match Get(rule, "rules")
    case Some(Arr(items)) =>
      if forall v :: v in items ==> KeepsNested(v) {
        RetainAll(items, KeepsNested);
        assert rule.fields["rules" := Arr(items)] == rule.fields;
      } else {
        var v :| v in items && !KeepsNested(v);
        RetainMembers(items, KeepsNested, v);
      }
    case _ =>
  }

  /** The two passes over a rule touch different fields. */
  lemma {:induction false} BothKept(rule: Value)
    requires StripNested(StripTags(rule, ALL_TAGS)) == rule
    ensures StripTags(rule, ALL_TAGS) == rule
  {
    var mid := StripTags(rule, ALL_TAGS);
    assert Get(StripNested(mid), "rule_set") == Get(mid, "rule_set");
    StripTagsStable(rule, ALL_TAGS);
    assert StripTags(StripNested(mid), ALL_TAGS) == StripNested(mid);
    if mid != rule {
      assert Get(mid, "rule_set") == Get(rule, "rule_set");
    }
  }

  /** The toggle leaves the existing DNS rules alone exactly when all of them are clean. */
  lemma {:induction false} DnsRulesSurviveIff(rules: seq<Value>)
    ensures RetainMut(rules, StripDnsRule) == rules <==> forall r :: r in rules ==> CleanDns(r)
  {
    RetainMutLength(rules, StripDnsRule);
    forall r ensures StripDnsRule(r) == Some(r) <==> CleanDns(r) { CleanDnsIsKept(r); }
  }

  // ---------------------------------------------------------------- the parts of a config

  /** An entry of the table `key`, of `route` say. */
  function In(config: Value, key: string, sub: string): Option<Value> {
    match Get(config, key) case Some(v) => Get(v, sub) case None => None
  }

  function ListIn(config: Value, key: string, sub: string): seq<Value> {
    match In(config, key, sub) case Some(Arr(items)) => items case _ => []
  }

  /** Absent, or an object. */
  predicate ObjectOrNone(v: Option<Value>) { v.None? || v.value.Obj? }

  predicate ListOrNone(v: Option<Value>) { v.None? || v.value.Arr? }

  /** When exactly the toggle accepts a config. */
  lemma {:induction false} AcceptedIff(config: Value, enable: bool, dir: string)
    ensures EnsureChinaIpRouting(config, enable, dir).Ok? <==>
            config.Obj? && ObjectOrNone(Get(config, "route")) && ObjectOrNone(Get(config, "dns")) &&
            ListOrNone(In(config, "route", "rule_set")) && ListOrNone(In(config, "route", "rules")) &&
            ListOrNone(In(config, "dns", "rules")) &&
            (enable ==> ListOrNone(In(config, "dns", "servers")) && DirectTag(ListOf(config, "outbounds")).Some?)
  {
  }

  function ListOf(config: Value, key: string): seq<Value> {
    match Get(config, key) case Some(Arr(items)) => items case _ => []
  }

  /** The edited tables, put back into the config. */
  lemma {:induction false} ToggledTables(config: Value, enable: bool, dir: string)
      returns (route: map<string, Value>, dns: map<string, Value>, direct: string)
    requires EnsureChinaIpRouting(config, enable, dir).Ok?
    ensures config.Obj? && EntryObj(config.fields, "route") == Some(route)
    ensures EntryObj(config.fields, "dns") == Some(dns)
    ensures direct == if enable then DirectTag(ListOf(config, "outbounds")).value else ""
    ensures EditRoute(route, enable, direct, dir).Some? && EditDns(dns, enable).Some?
    ensures EnsureChinaIpRouting(config, enable, dir).value ==
            Obj(config.fields["route" := Obj(EditRoute(route, enable, direct, dir).value)]
                             ["dns" := Obj(EditDns(dns, enable).value)])
    ensures forall sub :: In(config, "route", sub) == Get(Obj(route), sub) &&
                          In(config, "dns", sub) == Get(Obj(dns), sub)
  {
    route, dns := EntryObj(config.fields, "route").value, EntryObj(config.fields, "dns").value;
    direct := if enable then DirectTag(ListOf(config, "outbounds")).value else "";
  }

  lemma {:induction false} PutBack(root: map<string, Value>, route: map<string, Value>, dns: map<string, Value>,
                                   key: string, sub: string)
    ensures var after := Obj(root["route" := Obj(route)]["dns" := Obj(dns)]);
            (key != "route" && key != "dns" ==> Get(after, key) == Get(Obj(root), key)) &&
            In(after, "route", sub) == Get(Obj(route), sub) && In(after, "dns", sub) == Get(Obj(dns), sub)
  {
  }

  /** Whatever is not a rule, a rule set or a server stays as it was. */
  lemma {:induction false} OnlyChinaPartsChange(config: Value, enable: bool, dir: string, key: string, sub: string)
    requires EnsureChinaIpRouting(config, enable, dir).Ok?
    ensures var after := EnsureChinaIpRouting(config, enable, dir).value;
            (key != "route" && key != "dns" ==> Get(after, key) == Get(config, key)) &&
            (sub != "rule_set" && sub != "rules" ==> In(after, "route", sub) == In(config, "route", sub)) &&
            (sub != "servers" && sub != "rules" ==> In(after, "dns", sub) == In(config, "dns", sub)) &&
            (!enable && sub != "rules" ==> In(after, "dns", sub) == In(config, "dns", sub))
  {
    var route, dns, direct := ToggledTables(config, enable, dir);
    PutBack(config.fields, EditRoute(route, enable, direct, dir).value, EditDns(dns, enable).value, key, sub);
  }

  /** The lists of a table. */
  function ListAt(m: map<string, Value>, key: string): seq<Value> {
    match Get(Obj(m), key) case Some(Arr(items)) => items case _ => []
  }

  lemma {:induction false} RouteLists(route: map<string, Value>, enable: bool, direct: string, dir: string)
    requires EditRoute(route, enable, direct, dir).Some?
    ensures var r := EditRoute(route, enable, direct, dir).value;
            ListAt(r, "rule_set") == EditRuleSets(ListAt(route, "rule_set"), enable, dir) &&
            ListAt(r, "rules") ==
            EditRules(ListAt(route, "rules"), StripRouteRule, if enable then ChinaRouteRules(direct) else [])
  {
    EntryIsList(route, "rule_set");
    EntryIsList(route, "rules");
    TwoArraysEntries(route, "rule_set", EditRuleSets(ListAt(route, "rule_set"), enable, dir), "rules",
                     EditRules(ListAt(route, "rules"), StripRouteRule, if enable then ChinaRouteRules(direct) else []),
                     [], []);
  }

  lemma {:induction false} DnsLists(dns: map<string, Value>, enable: bool)
    requires EditDns(dns, enable).Some?
    ensures var r := EditDns(dns, enable).value;
            ListAt(r, "rules") ==
            EditRules(ListAt(dns, "rules"), StripDnsRule, if enable then ChinaDnsRules() else []) &&
            (enable ==> ListAt(r, "servers") == EnsureServers(ListAt(dns, "servers")))
  {
    EntryIsList(dns, "rules");
    var rules := EditRules(ListAt(dns, "rules"), StripDnsRule, if enable then ChinaDnsRules() else []);
    if enable {
      EntryIsList(dns, "servers");
      TwoArraysEntries(dns, "servers", EnsureServers(ListAt(dns, "servers")), "rules", rules, [], []);
    }
  }

  lemma {:induction false} EntryIsList(m: map<string, Value>, key: string)
    ensures EntryArr(m, key).Some? ==> EntryArr(m, key).value == ListAt(m, key)
  {
  }

  /** The route lists after a toggle. */
  lemma {:induction false} ToggledRoute(config: Value, enable: bool, dir: string)
    requires EnsureChinaIpRouting(config, enable, dir).Ok?
    ensures enable ==> DirectTag(ListOf(config, "outbounds")).Some?
    ensures var after := EnsureChinaIpRouting(config, enable, dir).value;
            var direct := if enable then DirectTag(ListOf(config, "outbounds")).value else "";
            ListIn(after, "route", "rule_set") == EditRuleSets(ListIn(config, "route", "rule_set"), enable, dir) &&
            ListIn(after, "route", "rules") ==
            EditRules(ListIn(config, "route", "rules"), StripRouteRule, if enable then ChinaRouteRules(direct) else [])
  {
    var route, dns, direct := ToggledTables(config, enable, dir);
    var route', dns' := EditRoute(route, enable, direct, dir).value, EditDns(dns, enable).value;
    RouteLists(route, enable, direct, dir);
    PutBack(config.fields, route', dns', "", "rule_set");
    PutBack(config.fields, route', dns', "", "rules");
  }

  /** ... and the DNS lists. */
  lemma {:induction false} ToggledDns(config: Value, enable: bool, dir: string)
    requires EnsureChinaIpRouting(config, enable, dir).Ok?
    ensures var after := EnsureChinaIpRouting(config, enable, dir).value;
            ListIn(after, "dns", "rules") ==
            EditRules(ListIn(config, "dns", "rules"), StripDnsRule, if enable then ChinaDnsRules() else []) &&
            (enable ==> ListIn(after, "dns", "servers") == EnsureServers(ListIn(config, "dns", "servers")))
  {
    var route, dns, direct := ToggledTables(config, enable, dir);
    var route', dns' := EditRoute(route, enable, direct, dir).value, EditDns(dns, enable).value;
    DnsLists(dns, enable);
    PutBack(config.fields, route', dns', "", "servers");
    PutBack(config.fields, route', dns', "", "rules");
  }

  // ---------------------------------------------------------------- who answers a request

  /** The mode names that direct and global overrides go by, in lower case. */
  predicate IsOverride(mode: string) {
    LowerAscii(mode) == "direct" || LowerAscii(mode) == "直连" ||
    LowerAscii(mode) == "global" || LowerAscii(mode) == "全局"
  }

  /** The rules before the first one for a mode that is no override. */
  function Overrides(rules: seq<Value>): (before: seq<Value>)
    ensures before <= rules
    ensures forall r :: r in before ==> !(r.Obj? && "clash_mode" in r.fields && r.fields["clash_mode"].Str? &&
                                          !IsOverride(r.fields["clash_mode"].s))
    ensures before != rules ==>
              var r := rules[|before|];
              r.Obj? && "clash_mode" in r.fields && r.fields["clash_mode"].Str? && !IsOverride(r.fields["clash_mode"].s)
  {
    InsertIndexMeaning(rules);
    rules[..InsertIndex(rules)]
  }

  /** Of three rules the first that matches. */
  function FirstOf(a: Value, b: Value, c: Value, matches: Value -> bool): Option<Value> {
    if matches(a) then Some(a) else if matches(b) then Some(b) else if matches(c) then Some(c) else None
  }

  /** With China routing on, a request that no override decides and that a China rule set matches goes to the direct
      outbound; every other request is decided as with it off. */
  lemma {:induction false} RouteOutcome(config: Value, dir: string, matches: Value -> bool)
    requires EnsureChinaIpRouting(config, true, dir).Ok?
    ensures EnsureChinaIpRouting(config, false, dir).Ok? && DirectTag(ListOf(config, "outbounds")).Some?
    ensures var off := ListIn(EnsureChinaIpRouting(config, false, dir).value, "route", "rules");
            var on := ListIn(EnsureChinaIpRouting(config, true, dir).value, "route", "rules");
            var direct := Str(DirectTag(ListOf(config, "outbounds")).value);
            var china := FirstOf(Obj(map["rule_set" := Str("geoip-cn"), "outbound" := direct]),
                                 Obj(map["rule_set" := Str("geosite-cn"), "outbound" := direct]),
                                 Obj(map["rule_set" := Str("geosite-geolocation-cn"), "outbound" := direct]), matches);
            Decides(on, matches) ==
            if Decides(Overrides(off), matches).None? && china.Some? then china else Decides(off, matches)
  {
    DisablingGoesThrough(config, dir);
    ToggledRoute(config, true, dir);
    ToggledRoute(config, false, dir);
    var off, direct := ListIn(EnsureChinaIpRouting(config, false, dir).value, "route", "rules"),
                       DirectTag(ListOf(config, "outbounds")).value;
    NothingInserted(RetainMut(ListIn(config, "route", "rules"), StripRouteRule));
    InsertedDecide(off, InsertIndex(off), ChinaRouteRules(direct), matches);
    ThreeDecide(ChinaRouteRules(direct), matches);
  }

  lemma {:induction false} ThreeDecide(rules: seq<Value>, matches: Value -> bool)
    requires |rules| == 3
    ensures Decides(rules, matches) == FirstOf(rules[0], rules[1], rules[2], matches)
  {
    assert rules[1..][1..] == rules[2..] && rules[2..][1..] == [];
    assert Decides(rules[2..], matches) == if matches(rules[2]) then Some(rules[2]) else None;
    assert Decides(rules[1..], matches) == if matches(rules[1]) then Some(rules[1]) else Decides(rules[2..], matches);
  }

  /** With China routing on, a DNS request that no override decides and that a China rule matches is answered by the
      local server, or, for a name outside the list with a China address, by the remote one on behalf of a China
      subnet; every other request is answered as with it off. */
  lemma {:induction false} DnsOutcome(config: Value, dir: string, matches: Value -> bool)
    requires EnsureChinaIpRouting(config, true, dir).Ok?
    ensures EnsureChinaIpRouting(config, false, dir).Ok?
    ensures var off := ListIn(EnsureChinaIpRouting(config, false, dir).value, "dns", "rules");
            var on := ListIn(EnsureChinaIpRouting(config, true, dir).value, "dns", "rules");
            var china := FirstOf(
              Obj(map["rule_set" := Str("geosite-cn"), "server" := Str("local")]),
              Obj(map["rule_set" := Str("geosite-geolocation-cn"), "server" := Str("local")]),
              Obj(map["type" := Str("logical"), "mode" := Str("and"),
                      "rules" := Arr([Obj(map["rule_set" := Str("geosite-geolocation-!cn"), "invert" := Bool(true)]),
                                      Obj(map["rule_set" := Str("geoip-cn")])]),
                      "server" := Str("remote"), "client_subnet" := Str("114.114.114.114/24")]), matches);
            Decides(on, matches) ==
            if Decides(Overrides(off), matches).None? && china.Some? then china else Decides(off, matches)
  {
    DisablingGoesThrough(config, dir);
    ToggledDns(config, true, dir);
    ToggledDns(config, false, dir);
    var off := ListIn(EnsureChinaIpRouting(config, false, dir).value, "dns", "rules");
    NothingInserted(RetainMut(ListIn(config, "dns", "rules"), StripDnsRule));
    InsertedDecide(off, InsertIndex(off), ChinaDnsRules(), matches);
    ThreeDecide(ChinaDnsRules(), matches);
  }

  /** With the toggle off, the rules are the existing ones, each without its China tags. */
  lemma {:induction false} OffMeansStripped(config: Value, dir: string)
    requires EnsureChinaIpRouting(config, false, dir).Ok?
    ensures ListIn(EnsureChinaIpRouting(config, false, dir).value, "route", "rules") ==
            RetainMut(ListIn(config, "route", "rules"), StripRouteRule)
    ensures ListIn(EnsureChinaIpRouting(config, false, dir).value, "dns", "rules") ==
            RetainMut(ListIn(config, "dns", "rules"), StripDnsRule)
  {
    ToggledRoute(config, false, dir);
    ToggledDns(config, false, dir);
    NothingInserted(RetainMut(ListIn(config, "route", "rules"), StripRouteRule));
    NothingInserted(RetainMut(ListIn(config, "dns", "rules"), StripDnsRule));
  }

  // ---------------------------------------------------------------- rule sets, servers, the direct outbound

  predicate IsChinaSet(v: Value) {
    v.Obj? && "tag" in v.fields && v.fields["tag"].Str? && IsChinaTag(v.fields["tag"])
  }

  predicate IsOtherSet(v: Value) { !IsChinaSet(v) }

  function ChinaSet(dir: string, tag: string): Value {
    Obj(map["type" := Str("local"), "tag" := Str(tag), "format" := Str("binary"),
            "path" := Str(dir + "/" + tag + ".srs")])
  }

  /** Other rule sets stay in order, and the China ones are the four local files when enabling, none otherwise. */
  lemma {:induction false} RuleSetsMeaning(config: Value, enable: bool, dir: string)
    requires EnsureChinaIpRouting(config, enable, dir).Ok?
    ensures var sets := ListIn(EnsureChinaIpRouting(config, enable, dir).value, "route", "rule_set");
            Retain(sets, IsOtherSet) == Retain(ListIn(config, "route", "rule_set"), IsOtherSet) &&
            Retain(sets, IsChinaSet) ==
            if enable then [ChinaSet(dir, "geoip-cn"), ChinaSet(dir, "geosite-cn"),
                            ChinaSet(dir, "geosite-geolocation-cn"), ChinaSet(dir, "geosite-geolocation-!cn")]
            else []
  {
    ToggledRoute(config, enable, dir);
    SetsSplit(ListIn(config, "route", "rule_set"), enable, dir);
  }

  lemma {:induction false} SetKept(v: Value)
    ensures KeepsRuleSet(v) <==> !IsChinaSet(v)
  {
  }

  lemma {:induction false} RetainSame(s: seq<Value>, p: Value -> bool, q: Value -> bool)
    requires forall v :: p(v) <==> q(v)
    ensures Retain(s, p) == Retain(s, q)
  {
    if s != [] { RetainSame(s[1..], p, q); }
  }

  lemma {:induction false} SetsSplit(sets: seq<Value>, enable: bool, dir: string)
    ensures Retain(EditRuleSets(sets, enable, dir), IsOtherSet) == Retain(sets, IsOtherSet)
    ensures Retain(EditRuleSets(sets, enable, dir), IsChinaSet) == if enable then LocalRuleSets(dir) else []
  {
    var kept, added := Retain(sets, KeepsRuleSet), if enable then LocalRuleSets(dir) else [];
    forall v ensures KeepsRuleSet(v) <==> IsOtherSet(v) { SetKept(v); }
    RetainSame(sets, KeepsRuleSet, IsOtherSet);
    forall v | v in kept ensures IsOtherSet(v) { RetainMembers(sets, IsOtherSet, v); }
    forall v | v in added ensures IsChinaSet(v) { OwnRuleSetsGo(dir, v); }
    SplitAppend(kept, added);
  }

  lemma {:induction false} SplitAppend(kept: seq<Value>, added: seq<Value>)
    requires (forall v :: v in kept ==> IsOtherSet(v)) && forall v :: v in added ==> IsChinaSet(v)
    ensures Retain(kept + added, IsOtherSet) == kept && Retain(kept + added, IsChinaSet) == added
  {
    RetainAppend(kept, added, IsOtherSet);
    RetainAppend(kept, added, IsChinaSet);
    RetainAll(kept, IsOtherSet);
    RetainNone(kept, IsChinaSet);
    RetainNone(added, IsOtherSet);
    RetainAll(added, IsChinaSet);
  }

  predicate HasTagged(servers: seq<Value>, tag: string) { exists v :: v in servers && IsTagged(v, tag) }

  predicate IsTagged(v: Value, tag: string) { v.Obj? && "tag" in v.fields && v.fields["tag"] == Str(tag) }

  /** A remote server as the program writes it, or used to. */
  predicate IsOwnRemote(v: Value) {
    IsTagged(v, "remote") && "type" in v.fields && v.fields["type"] == Str("tls") &&
    "server" in v.fields && (v.fields["server"] == Str("223.6.6.6") || v.fields["server"] == Str("8.8.8.8")) &&
    "server_port" in v.fields && v.fields["server_port"] == Num(853)
  }

  /** Enabling keeps every server in its place, except that the first remote one, if it is the program's own, is
      brought up to date; a missing local and then a missing remote server are put at the end. */
  lemma {:induction false} ServersMeaning(config: Value, dir: string)
    requires EnsureChinaIpRouting(config, true, dir).Ok?
    ensures var before := ListIn(config, "dns", "servers");
            var after := ListIn(EnsureChinaIpRouting(config, true, dir).value, "dns", "servers");
            var local := Obj(map["type" := Str("tls"), "tag" := Str("local"), "server" := Str("223.5.5.5"),
                                 "server_port" := Num(853)]);
            var remote := Obj(map["type" := Str("tls"), "tag" := Str("remote"), "server" := Str("223.6.6.6"),
                                  "server_port" := Num(853)]);
            |before| <= |after| &&
            after[|before|..] == (if HasTagged(before, "local") then [] else [local]) +
                                 (if HasTagged(before, "remote") then [] else [remote]) &&
            forall i :: 0 <= i < |before| ==>
              after[i] == Updated(before, i)
  {
    ToggledDns(config, true, dir);
    ServersEdited(ListIn(config, "dns", "servers"));
  }

  lemma {:induction false} TaggedFirst(servers: seq<Value>, tag: string, p: Value -> bool)
    requires forall v :: p(v) <==> IsTagged(v, tag)
    ensures Position(servers, p).Some? <==> HasTagged(servers, tag)
    ensures Position(servers, p).Some? ==>
              !HasTagged(servers[..Position(servers, p).value], tag) &&
              forall j :: Position(servers, p).value < j < |servers| ==> HasTagged(servers[..j], tag)
  {
    if Position(servers, p).Some? {
      var i := Position(servers, p).value;
      assert servers[i] in servers;
      forall j | i < j < |servers| ensures HasTagged(servers[..j], tag) { assert servers[..j][i] in servers[..j]; }
    }
  }

  lemma {:induction false} RemoteMigrates(v: Value)
    ensures IsRemote(v) <==> IsTagged(v, "remote")
    ensures IsLocal(v) <==> IsTagged(v, "local")
    ensures IsRemote(v) ==>
              MigrateRemote(v) ==
              if IsOwnRemote(v) then Obj(v.fields["server" := Str("223.6.6.6")] - {"detour"}) else v
  {
  }

  /** Server `i` after enabling. */
  function Updated(before: seq<Value>, i: nat): Value
    requires i < |before|
  {
    if IsOwnRemote(before[i]) && !HasTagged(before[..i], "remote")
    then Obj(before[i].fields["server" := Str("223.6.6.6")] - {"detour"}) else before[i]
  }

  lemma {:induction false} ServersEdited(before: seq<Value>)
    ensures var after := EnsureServers(before);
            |before| <= |after| &&
            after[|before|..] == (if HasTagged(before, "local") then [] else [LOCAL_SERVER]) +
                                 (if HasTagged(before, "remote") then [] else [REMOTE_SERVER]) &&
            forall i :: 0 <= i < |before| ==> after[i] == Updated(before, i)
  {
    forall v ensures (IsRemote(v) <==> IsTagged(v, "remote")) && (IsLocal(v) <==> IsTagged(v, "local")) {
      RemoteMigrates(v);
    }
    var mid := WithLocal(before);
    TaggedFirst(before, "local", IsLocal);
    TaggedFirst(before, "remote", IsRemote);
    if HasTagged(before, "remote") { RemoteThere(before, mid); } else { RemoteMissing(before, mid); }
  }

  lemma {:induction false} RemoteThere(before: seq<Value>, mid: seq<Value>)
    requires before <= mid && HasTagged(before, "remote") && forall v :: IsRemote(v) <==> IsTagged(v, "remote")
    ensures |WithRemote(mid)| == |mid| && WithRemote(mid)[|before|..] == mid[|before|..]
    ensures forall i :: 0 <= i < |before| ==> WithRemote(mid)[i] == Updated(before, i)
  {
    TaggedFirst(before, "remote", IsRemote);
    var k := Position(before, IsRemote).value;
    PositionAt(mid, IsRemote, k);
    RemoteMigrates(before[k]);
    forall i | 0 <= i < |before| && i != k ensures Updated(before, i) == before[i] {
      if IsOwnRemote(before[i]) { assert IsRemote(before[i]) && i > k; }
    }
  }

  lemma {:induction false} RemoteMissing(before: seq<Value>, mid: seq<Value>)
    requires !HasTagged(before, "remote") && (mid == before || mid == before + [LOCAL_SERVER])
    requires forall v :: IsRemote(v) <==> IsTagged(v, "remote")
    ensures WithRemote(mid) == mid + [REMOTE_SERVER]
    ensures forall i :: 0 <= i < |before| ==> Updated(before, i) == before[i]
  {
    TaggedFirst(mid, "remote", IsRemote);
    assert !HasTagged(mid, "remote");
    forall i | 0 <= i < |before| ensures Updated(before, i) == before[i] { assert before[i] in before; }
  }

  predicate NamedDirect(v: Value) { IsTagged(v, "国内直连") || IsTagged(v, "direct") }

  predicate TypedDirect(v: Value) { v.Obj? && "type" in v.fields && v.fields["type"] == Str("direct") }

  /** `v` is the first of the list with this property. */
  ghost predicate IsFirst(s: seq<Value>, p: Value -> bool, v: Value) {
    exists i :: 0 <= i < |s| && s[i] == v && p(v) && forall j :: 0 <= j < i ==> !p(s[j])
  }

  /** The direct outbound: the first that goes by one of its two names, else the first of its type, by its tag. */
  lemma {:induction false} DirectMeaning(outbounds: seq<Value>)
    ensures forall v :: IsFirst(outbounds, NamedDirect, v) ==> DirectTag(outbounds) == GetStr(v, "tag")
    ensures (forall v :: v in outbounds ==> !NamedDirect(v)) ==>
              (forall v :: IsFirst(outbounds, TypedDirect, v) ==> DirectTag(outbounds) == GetStr(v, "tag")) &&
              ((forall v :: v in outbounds ==> !TypedDirect(v)) ==> DirectTag(outbounds) == None)
  {
    forall v ensures (IsDirectAlias(v) <==> NamedDirect(v)) && (IsDirectType(v) <==> TypedDirect(v)) { DirectNames(v); }
    FirstFound(outbounds, NamedDirect, IsDirectAlias);
    FirstFound(outbounds, TypedDirect, IsDirectType);
  }

  lemma {:induction false} DirectNames(v: Value)
    ensures IsDirectAlias(v) <==> NamedDirect(v)
    ensures IsDirectType(v) <==> TypedDirect(v)
  {
  }

  lemma {:induction false} FirstFound(s: seq<Value>, p: Value -> bool, q: Value -> bool)
    requires forall v :: p(v) <==> q(v)
    ensures forall v :: IsFirst(s, p, v) ==> Position(s, q).Some? && s[Position(s, q).value] == v
    ensures Position(s, q).Some? ==> exists v :: v in s && p(v)
    ensures Position(s, q).None? ==> forall v :: v in s ==> !p(v)
  {
    forall v | IsFirst(s, p, v) ensures Position(s, q).Some? && s[Position(s, q).value] == v {
      var i :| 0 <= i < |s| && s[i] == v && p(v) && forall j :: 0 <= j < i ==> !p(s[j]);
      PositionAt(s, q, i);
    }
    if Position(s, q).Some? { assert s[Position(s, q).value] in s; }
  }
}
