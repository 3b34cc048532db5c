/** The route rules Private Access writes and recognises as its own. */
module PrivateRules {
  import opened Prelude
  import opened Json
  import opened Cidr
  import opened Domains
  import opened Placement
  import opened RulePass
  import Tun

  const BYPASS_TAG := "sing-box-tui-bypass"
  const CARRIER_FIELDS := {"action", "domain", "outbound"}
  const RESOLVE_FIELDS := {"action", "server", "strategy", "disable_cache", "domain", "domain_suffix"}
  const ROUTE_FIELDS := {"action", "outbound", "override_address", "override_port", "port", "ip_cidr", "domain",
                         "domain_suffix"}

  datatype Proxy = Proxy(ip: Address, port: nat)

  datatype Targets = Targets(cidrs: seq<Ipv4Cidr>, domains: seq<string>, suffixes: seq<string>)
  {
    predicate NoDomains() { domains == [] && suffixes == [] }
  }

  /** A route table after normalisation. */
  datatype Table = Table(current: Targets, previous: Targets, carriers: seq<string>, proxy: Option<Proxy>)
  {
    predicate NoTargets() { current.NoDomains() && current.cidrs == [] }

    /** What normalisation establishes. */
    ghost predicate Normalized() {
      Normal(current.domains) && Normal(current.suffixes) && Normal(carriers) &&
      forall c :: c in current.cidrs ==> Canonical(c)
    }

    /** No carrier domain is a target, now or before. */
    ghost predicate Disjoint() {
      forall d :: d in carriers ==> d !in current.domains && d !in previous.domains
    }

    /** The block's domain rule holds nothing but domains, some of them carrier domains. */
    predicate MeetsTargets() { current.suffixes == [] && exists d :: d in carriers && d in current.domains }

    /** A carrier rule may hold exactly the domains that were targets before. */
    ghost predicate WereTargets() {
      previous.suffixes == [] && Normal(previous.domains) && forall d :: d in carriers ==> d in previous.domains
    }

    /** With carriers sent to `tag` and targets to `direct`, no carrier rule passes for a target rule, nor a target
        rule for a carrier rule. */
    ghost predicate Apart(tag: string, direct: string) {
      tag != direct || carriers == [] || proxy.Some? || NoTargets() || (!MeetsTargets() && !WereTargets())
    }
  }

  // ---------------------------------------------------------------- reading rules

  function Strs(ss: seq<string>): seq<Value> {
    if ss == [] then [] else [Str(ss[0])] + Strs(ss[1..])
  }

  function Lowered(items: seq<Value>): seq<string> {
    if items == [] then []
    else (match items[0] case Str(s) => [LowerAscii(s)] case _ => []) + Lowered(items[1..])
  }

  function Blocks(items: seq<Value>): seq<Ipv4Cidr> {
    if items == [] then []
    else (match items[0] case Str(s) => BlockIn(s) case _ => []) + Blocks(items[1..])
  }

  function BlockIn(s: string): seq<Ipv4Cidr> {
    match Parse(s) case Some(c) => [c] case None => []
  }

  /** `rule_string_values`. */
  function StringValues(rule: Value, field: string): seq<string> {
    match Get(rule, field) case Some(Str(s)) => [LowerAscii(s)] case Some(Arr(items)) => Lowered(items) case _ => []
  }

  /** `rule_ip_cidrs`. */
  function RuleCidrs(rule: Value): seq<Ipv4Cidr> {
    match Get(rule, "ip_cidr") case Some(Str(s)) => BlockIn(s) case Some(Arr(items)) => Blocks(items) case _ => []
  }

  function Shown(cidrs: seq<Ipv4Cidr>): seq<string> {
    if cidrs == [] then [] else [Show(cidrs[0])] + Shown(cidrs[1..])
  }

  lemma {:induction false} LoweredStrs(ss: seq<string>)
    requires forall s :: s in ss ==> LowerAscii(s) == s
    ensures Lowered(Strs(ss)) == ss
  {
    if ss != [] { LoweredStrs(ss[1..]); }
  }

  lemma {:induction false} BlocksShown(cidrs: seq<Ipv4Cidr>)
    requires forall c :: c in cidrs ==> Canonical(c)
    ensures Blocks(Strs(Shown(cidrs))) == cidrs
  {
    if cidrs != [] {
      ShownFirst(cidrs);
      BlocksShown(cidrs[1..]);
      BlockInShown(cidrs[0]);
      assert [cidrs[0]] + cidrs[1..] == cidrs;
    }
  }

  lemma {:induction false} ShownFirst(cidrs: seq<Ipv4Cidr>)
    requires cidrs != []
    ensures var s := Strs(Shown(cidrs)); s != [] && s[0] == Str(Show(cidrs[0])) && s[1..] == Strs(Shown(cidrs[1..]))
  {
    assert Shown(cidrs)[1..] == Shown(cidrs[1..]);
  }

  lemma {:induction false} BlockInShown(c: Ipv4Cidr)
    requires Canonical(c)
    ensures BlockIn(Show(c)) == [c]
  {
    ShowParses(c);
  }

  lemma {:induction false} LoweredIsLower(items: seq<Value>)
    ensures forall s :: s in Lowered(items) ==> LowerAscii(s) == s
  {
    if items != [] {
      LoweredIsLower(items[1..]);
      if items[0].Str? { LowerIsStable(items[0].s); }
    }
  }

  lemma {:induction false} ValuesAreLower(rule: Value, field: string)
    ensures forall s :: s in StringValues(rule, field) ==> LowerAscii(s) == s
  {
    match Get(rule, field)
    case Some(Str(s)) => LowerIsStable(s);
    case Some(Arr(items)) => LoweredIsLower(items);
    case _ =>
  }

  // ---------------------------------------------------------------- the carrier rule

  predicate OnlyFields(rule: Value, fields: set<string>) { rule.Obj? && rule.fields.Keys <= fields }

  /** `rule_references_rule_set` for the bypass rule-set. */
  predicate IsBypass(rule: Value) {
    match Get(rule, "rule_set")
    case Some(Str(s)) => s == BYPASS_TAG
    case Some(Arr(items)) => Str(BYPASS_TAG) in items
    case _ => false
  }

  predicate IsHijack(rule: Value) { GetStr(rule, "action") == Some("hijack-dns") }

  predicate IsCarrier(rule: Value, carriers: seq<string>, tag: string) {
    OnlyFields(rule, CARRIER_FIELDS) && (GetStr(rule, "action").None? || GetStr(rule, "action") == Some("route")) &&
    GetStr(rule, "outbound") == Some(tag) && exists d :: d in StringValues(rule, "domain") && d in carriers
  }

  lemma {:induction false} CarrierLacks(rule: Value, carriers: seq<string>, tag: string)
    requires IsCarrier(rule, carriers, tag)
    ensures Get(rule, "ip_cidr") == None && Get(rule, "clash_mode") == None && Get(rule, "rule_set") == None
    ensures Get(rule, "override_address") == None && Get(rule, "ip_is_private") == None
  {
  }

  function MergeCarrier(rule: Value, carriers: seq<string>, tag: string): Value {
    if rule.Obj? then Obj(WithCarriers(rule.fields, SortDedup(StringValues(rule, "domain") + carriers), tag)) else rule
  }

  function WithCarriers(fields: map<string, Value>, domains: seq<string>, tag: string): map<string, Value> {
    fields["domain" := Arr(Strs(domains))]["outbound" := Str(tag)]
  }

  lemma {:induction false} WithCarriersTwice(fields: map<string, Value>, domains: seq<string>, tag: string)
    ensures var f := WithCarriers(fields, domains, tag);
            WithCarriers(f, domains, tag) == f && f.Keys == fields.Keys + {"domain", "outbound"} &&
            GetStr(Obj(f), "outbound") == Some(tag) &&
            Get(Obj(f), "action") == Get(Obj(fields), "action")
  {
  }

  function CarrierRule(carriers: seq<string>, tag: string): Value {
    Obj(map["action" := Str("route"), "domain" := Arr(Strs(carriers)), "outbound" := Str(tag)])
  }

  function CarrierShape(carriers: seq<string>, tag: string): Shape<Value> {
    Shape(IsBypass, IsHijack, v => IsCarrier(v, carriers, tag), v => MergeCarrier(v, carriers, tag),
          CarrierRule(carriers, tag))
  }

  /** A carrier rule after merging: its domains are ascending, lower case, and include the carriers. */
  lemma {:induction false} MergedDomains(rule: Value, carriers: seq<string>, tag: string)
    requires rule.Obj? && Normal(carriers)
    ensures var d := StringValues(MergeCarrier(rule, carriers, tag), "domain");
            d == SortDedup(StringValues(rule, "domain") + carriers) && Normal(d) && forall c :: c in carriers ==> c in d
  {
    ValuesAreLower(rule, "domain");
    SortDedupSorts(StringValues(rule, "domain") + carriers);
    LoweredStrs(SortDedup(StringValues(rule, "domain") + carriers));
  }

  lemma {:induction false} MergeSettles(rule: Value, carriers: seq<string>, tag: string)
    requires Normal(carriers) && IsCarrier(rule, carriers, tag)
    ensures var m := MergeCarrier(rule, carriers, tag);
            IsCarrier(m, carriers, tag) && MergeCarrier(m, carriers, tag) == m
  {
    MergeIsCarrier(rule, carriers, tag);
    MergeTwice(rule, carriers, tag);
  }

  lemma {:induction false} MergeTwice(rule: Value, carriers: seq<string>, tag: string)
    requires Normal(carriers) && rule.Obj?
    ensures MergeCarrier(MergeCarrier(rule, carriers, tag), carriers, tag) == MergeCarrier(rule, carriers, tag)
  {
    var domains := SortDedup(StringValues(rule, "domain") + carriers);
    MergedDomains(rule, carriers, tag);
    SortDedupAbsorbs(domains, carriers);
    WithCarriersTwice(rule.fields, domains, tag);
  }

  lemma {:induction false} MergeIsCarrier(rule: Value, carriers: seq<string>, tag: string)
    requires Normal(carriers) && IsCarrier(rule, carriers, tag)
    ensures IsCarrier(MergeCarrier(rule, carriers, tag), carriers, tag)
  {
    var d :| d in StringValues(rule, "domain") && d in carriers;
    MergedDomains(rule, carriers, tag);
    StaysCarrier(rule, carriers, tag, SortDedup(StringValues(rule, "domain") + carriers), d);
  }

  lemma {:induction false} StaysCarrier(rule: Value, carriers: seq<string>, tag: string, domains: seq<string>,
                                        d: string)
    requires IsCarrier(rule, carriers, tag) && d in domains && d in carriers
    requires StringValues(Obj(WithCarriers(rule.fields, domains, tag)), "domain") == domains
    ensures IsCarrier(Obj(WithCarriers(rule.fields, domains, tag)), carriers, tag)
  {
    WithCarriersTwice(rule.fields, domains, tag);
  }

  lemma {:induction false} NewCarrierSettles(carriers: seq<string>, tag: string)
    requires Normal(carriers) && carriers != []
    ensures var c := CarrierRule(carriers, tag); IsCarrier(c, carriers, tag) && MergeCarrier(c, carriers, tag) == c
  {
    var c := CarrierRule(carriers, tag);
    LoweredStrs(carriers);
    SortDedupAbsorbs(carriers, carriers);
    assert WithCarriers(c.fields, carriers, tag) == c.fields;
    assert carriers[0] in StringValues(c, "domain");
  }

  lemma {:induction false} CarrierShapeIsSound(carriers: seq<string>, tag: string)
    requires Normal(carriers) && carriers != []
    ensures CarrierShape(carriers, tag).Sound()
  {
    var sh := CarrierShape(carriers, tag);
    NewCarrierSettles(carriers, tag);
    forall v | sh.carrier(v)
      ensures !sh.bypass(v) && !sh.hijack(v) && sh.carrier(sh.merge(v)) && sh.merge(sh.merge(v)) == sh.merge(v) {
      MergeSettles(v, carriers, tag);
      CarrierLacks(v, carriers, tag);
    }
  }

  // ---------------------------------------------------------------- the managed block

  predicate MatchesDomains(rule: Value, t: Table) {
    var domains, suffixes := StringValues(rule, "domain"), StringValues(rule, "domain_suffix");
    (domains == t.current.domains && suffixes == t.current.suffixes) ||
    (domains == t.previous.domains && suffixes == t.previous.suffixes)
  }

  predicate IsBridge(rule: Value) { Get(rule, "override_address").Some? && Get(rule, "override_port").Some? }

  predicate Meets(c: Ipv4Cidr, cidrs: seq<Ipv4Cidr>) { exists d :: d in cidrs && Overlaps(c, d) }

  predicate MatchesBlocks(cidrs: seq<Ipv4Cidr>, bridge: bool, t: Table) {
    cidrs != [] &&
    if bridge then
      (exists c :: c in cidrs && (Meets(c, t.current.cidrs) || Meets(c, t.previous.cidrs))) ||
      (t.proxy.None? && forall c :: c in cidrs ==> Meets(c, t.current.cidrs))
    else cidrs == t.current.cidrs || cidrs == t.previous.cidrs
  }

  /** `rule_matches_private_access_route_targets`. */
  predicate IsManaged(rule: Value, t: Table, direct: string) {
    if GetStr(rule, "action") == Some("resolve") then
      OnlyFields(rule, RESOLVE_FIELDS) && GetStr(rule, "server") == Some(Tun.SYSTEM_DNS_TAG) && MatchesDomains(rule, t)
    else
      GetStr(rule, "action") == Some("route") && GetStr(rule, "outbound") == Some(direct) &&
      OnlyFields(rule, ROUTE_FIELDS) && (t.proxy.Some? ==> IsBridge(rule)) &&
      (MatchesBlocks(RuleCidrs(rule), IsBridge(rule), t) ||
       (MatchesDomains(rule, t) && (StringValues(rule, "domain") != [] || StringValues(rule, "domain_suffix") != [])))
  }

  function WithDomains(m: map<string, Value>, t: Targets): map<string, Value> {
    var m1 := if t.domains == [] then m else m["domain" := Arr(Strs(t.domains))];
    if t.suffixes == [] then m1 else m1["domain_suffix" := Arr(Strs(t.suffixes))]
  }

  function WithProxy(m: map<string, Value>, proxy: Option<Proxy>): map<string, Value> {
    match proxy
    case Some(p) => m["override_address" := Str(ShowAddress(p.ip))]["override_port" := Num(p.port)]
    case None => m
  }

  function ResolveRule(t: Table): Value {
    Obj(WithDomains(map["action" := Str("resolve"), "server" := Str(Tun.SYSTEM_DNS_TAG), "strategy" := Str("ipv4_only"),
                        "disable_cache" := Bool(true)], t.current))
  }

  function DomainRule(t: Table, direct: string): Value {
    Obj(WithProxy(WithDomains(map["action" := Str("route"), "outbound" := Str(direct)], t.current), t.proxy))
  }

  function CidrRule(t: Table, direct: string): Value {
    Obj(WithProxy(map["action" := Str("route"), "ip_cidr" := Arr(Strs(Shown(t.current.cidrs))),
                      "outbound" := Str(direct)], t.proxy))
  }

  function ManagedBlock(t: Table, direct: string): seq<Value> {
    (if t.current.NoDomains() then [] else [ResolveRule(t), DomainRule(t, direct)]) +
    (if t.current.cidrs == [] then [] else [CidrRule(t, direct)])
  }

  lemma {:induction false} DomainsReadBack(m: map<string, Value>, t: Targets)
    requires Normal(t.domains) && Normal(t.suffixes) && "domain" !in m && "domain_suffix" !in m
    ensures var r := Obj(WithDomains(m, t));
            StringValues(r, "domain") == t.domains && StringValues(r, "domain_suffix") == t.suffixes
    ensures forall k :: k in m ==> k in WithDomains(m, t) && WithDomains(m, t)[k] == m[k]
    ensures WithDomains(m, t).Keys <= m.Keys + {"domain", "domain_suffix"}
  {
    LoweredStrs(t.domains);
    LoweredStrs(t.suffixes);
  }

  lemma {:induction false} ProxyKeeps(m: map<string, Value>, proxy: Option<Proxy>, k: string)
    requires k != "override_address" && k != "override_port"
    ensures Get(Obj(WithProxy(m, proxy)), k) == Get(Obj(m), k)
    ensures WithProxy(m, proxy).Keys <= m.Keys + {"override_address", "override_port"}
    ensures proxy.Some? ==> IsBridge(Obj(WithProxy(m, proxy)))
  {
  }

  lemma {:induction false} ResolveIsManaged(t: Table, direct: string)
    requires t.Normalized()
    ensures IsManaged(ResolveRule(t), t, direct)
  {
    var m := map["action" := Str("resolve"), "server" := Str(Tun.SYSTEM_DNS_TAG), "strategy" := Str("ipv4_only"),
                 "disable_cache" := Bool(true)];
    DomainsReadBack(m, t.current);
    assert "action" in m && "server" in m;
  }

  lemma {:induction false} DomainIsManaged(t: Table, direct: string)
    requires t.Normalized() && !t.current.NoDomains()
    ensures IsManaged(DomainRule(t, direct), t, direct) &&
            StringValues(DomainRule(t, direct), "domain") == t.current.domains
  {
    var m := map["action" := Str("route"), "outbound" := Str(direct)];
    DomainsReadBack(m, t.current);
    var w := WithDomains(m, t.current);
    assert "action" in m && "outbound" in m;
    ProxyKeeps(w, t.proxy, "action");
    ProxyKeeps(w, t.proxy, "outbound");
    ProxyKeeps(w, t.proxy, "domain");
    ProxyKeeps(w, t.proxy, "domain_suffix");
  }

  lemma {:induction false} MeetsSelf(cidrs: seq<Ipv4Cidr>, c: Ipv4Cidr)
    requires c in cidrs
    ensures Meets(c, cidrs)
  {
    assert Overlaps(c, c);
  }

  lemma {:induction false} OwnBlocksMatch(t: Table, bridge: bool)
    requires t.current.cidrs != []
    ensures MatchesBlocks(t.current.cidrs, bridge, t)
  {
    var c := t.current.cidrs[0];
    MeetsSelf(t.current.cidrs, c);
    assert c in t.current.cidrs;
  }

  lemma {:induction false} CidrIsManaged(t: Table, direct: string)
    requires t.Normalized() && t.current.cidrs != []
    ensures IsManaged(CidrRule(t, direct), t, direct)
  {
    var m := map["action" := Str("route"), "ip_cidr" := Arr(Strs(Shown(t.current.cidrs))), "outbound" := Str(direct)];
    ProxyKeeps(m, t.proxy, "action");
    ProxyKeeps(m, t.proxy, "outbound");
    ProxyKeeps(m, t.proxy, "ip_cidr");
    CidrsReadBack(t, direct);
    OwnBlocksMatch(t, IsBridge(CidrRule(t, direct)));
  }

  lemma {:induction false} CidrsReadBack(t: Table, direct: string)
    requires t.Normalized()
    ensures RuleCidrs(CidrRule(t, direct)) == t.current.cidrs && Get(CidrRule(t, direct), "ip_cidr").Some?
  {
    var m := map["action" := Str("route"), "ip_cidr" := Arr(Strs(Shown(t.current.cidrs))), "outbound" := Str(direct)];
    ProxyKeeps(m, t.proxy, "ip_cidr");
    BlocksShown(t.current.cidrs);
  }

  /** Every rule of the block is recognised as managed, so a later pass takes it out again. */
  lemma {:induction false} BlockIsManaged(t: Table, direct: string, rule: Value)
    requires t.Normalized() && rule in ManagedBlock(t, direct)
    ensures IsManaged(rule, t, direct)
  {
    ResolveIsManaged(t, direct);
    if !t.current.NoDomains() { DomainIsManaged(t, direct); }
    if t.current.cidrs != [] { CidrIsManaged(t, direct); }
  }

  lemma {:induction false} ManagedIsNotPlaced(t: Table, direct: string, rule: Value)
    requires IsManaged(rule, t, direct)
    ensures !IsBypass(rule) && !IsHijack(rule)
  {
    assert rule.Obj? && "rule_set" !in rule.fields;
  }

  /** In a table that keeps them apart no rule of the block is taken for the carrier rule. */
  lemma {:induction false} BlockIsNotCarrier(t: Table, direct: string, tag: string, rule: Value)
    requires t.Normalized() && t.Apart(tag, direct) && rule in ManagedBlock(t, direct)
    ensures !IsCarrier(rule, t.carriers, tag)
  {
    if !t.current.NoDomains() && rule == ResolveRule(t) {
      ResolveIsResolve(t);
    } else if !t.current.NoDomains() && rule == DomainRule(t, direct) {
      DomainIsNotCarrier(t, direct, tag);
    } else {
      CidrIsNotCarrier(t, direct, tag);
    }
  }

  lemma {:induction false} DomainIsNotCarrier(t: Table, direct: string, tag: string)
    requires t.Normalized() && t.Apart(tag, direct) && !t.current.NoDomains()
    ensures !IsCarrier(DomainRule(t, direct), t.carriers, tag)
  {
    DomainIsManaged(t, direct);
    DomainRuleFields(t, direct);
  }

  lemma {:induction false} CidrIsNotCarrier(t: Table, direct: string, tag: string)
    requires t.Normalized()
    ensures !IsCarrier(CidrRule(t, direct), t.carriers, tag)
  {
    CidrsReadBack(t, direct);
    if IsCarrier(CidrRule(t, direct), t.carriers, tag) { CarrierLacks(CidrRule(t, direct), t.carriers, tag); }
  }

  lemma {:induction false} DomainRuleFields(t: Table, direct: string)
    ensures var r := DomainRule(t, direct);
            GetStr(r, "outbound") == Some(direct) && GetStr(r, "action") == Some("route") &&
            (t.proxy.Some? ==> "override_address" in r.fields) &&
            (t.current.suffixes != [] ==> "domain_suffix" in r.fields) &&
            (t.proxy.None? && t.current.suffixes == [] ==> OnlyFields(r, CARRIER_FIELDS))
  {
  }

  lemma {:induction false} ResolveIsResolve(t: Table)
    ensures GetStr(ResolveRule(t), "action") == Some("resolve")
  {
  }

  /** In such a table with targets, a settled carrier rule is not taken for a managed one. */
  lemma {:induction false} CarrierIsNotManaged(t: Table, direct: string, tag: string, rule: Value)
    requires t.Normalized() && t.Apart(tag, direct) && !t.NoTargets()
    requires IsCarrier(rule, t.carriers, tag) && MergeCarrier(rule, t.carriers, tag) == rule
    ensures !IsManaged(rule, t, direct)
  {
    if IsManaged(rule, t, direct) {
      ManagedCarrier(t, direct, tag, rule);
      var d :| d in StringValues(rule, "domain") && d in t.carriers;
      MergedDomains(rule, t.carriers, tag);
    }
  }

  /** A carrier rule that is taken for a managed one has nothing but target domains, of now or before. */
  lemma {:induction false} ManagedCarrier(t: Table, direct: string, tag: string, rule: Value)
    requires IsCarrier(rule, t.carriers, tag) && IsManaged(rule, t, direct)
    ensures tag == direct && t.proxy.None?
    ensures (StringValues(rule, "domain") == t.current.domains && t.current.suffixes == []) ||
            (StringValues(rule, "domain") == t.previous.domains && t.previous.suffixes == [])
  {
    CarrierLacks(rule, t.carriers, tag);
    assert "domain_suffix" !in rule.fields;
    assert RuleCidrs(rule) == [] && StringValues(rule, "domain_suffix") == [];
  }

  lemma {:induction false} DisjointIsApart(t: Table, tag: string, direct: string)
    requires t.Disjoint()
    ensures t.Apart(tag, direct)
  {
    if t.carriers != [] { assert t.carriers[0] in t.carriers; }
  }

  // ---------------------------------------------------------------- the pass

  predicate IsPrivateDirect(rule: Value, direct: string) {
    GetBool(rule, "ip_is_private") == Some(true) && GetStr(rule, "outbound") == Some(direct) &&
    Get(rule, "override_address").None? && Get(rule, "override_port").None?
  }

  predicate HasClashMode(rule: Value) { Get(rule, "clash_mode").Some? }
  predicate HasAction(rule: Value) { Get(rule, "action").Some? }
  predicate IsFront(rule: Value) { GetBool(rule, "ip_is_private") == Some(true) || HasClashMode(rule) }

  function PrivateRule(direct: string): Value { Obj(map["ip_is_private" := Bool(true), "outbound" := Str(direct)]) }

  /** The pass for a table: carrier rules go to `tag`, private and managed ones to `direct`. */
  function EditFor(t: Table, tag: string, direct: string): Edit<Value> {
    Edit(if t.carriers == [] then None else Some(CarrierShape(t.carriers, tag)), t.proxy.None?,
         v => IsPrivateDirect(v, direct), HasClashMode, PrivateRule(direct), v => !IsManaged(v, t, direct),
         IsFront, HasAction, ManagedBlock(t, direct))
  }

  lemma {:induction false} PrivateIsInert(t: Table, tag: string, direct: string, rule: Value)
    requires IsPrivateDirect(rule, direct)
    ensures !IsManaged(rule, t, direct) && !IsCarrier(rule, t.carriers, tag)
    ensures IsPrivateDirect(PrivateRule(direct), direct) && !IsBypass(PrivateRule(direct)) &&
            !IsHijack(PrivateRule(direct))
  {
    assert "ip_is_private" in rule.fields;
  }

  /** The block is recognised and the carrier rule settles, whatever the domains. */
  lemma {:induction false} EditIsBasic(t: Table, tag: string, direct: string)
    requires t.Normalized()
    ensures EditFor(t, tag, direct).Basic()
  {
    var ed := EditFor(t, tag, direct);
    PrivateIsInert(t, tag, direct, PrivateRule(direct));
    forall x | x in ed.managed ensures !ed.keep(x) { BlockIsManaged(t, direct, x); }
    if t.carriers != [] { CarrierShapeIsSound(t.carriers, tag); }
  }

  /** That is all the three steps need to leave one another's rules alone. */
  lemma {:induction false} EditIsSound(t: Table, tag: string, direct: string)
    requires t.Normalized() && t.Apart(tag, direct)
    ensures EditFor(t, tag, direct).Sound()
  {
    var ed := EditFor(t, tag, direct);
    EditIsBasic(t, tag, direct);
    forall v | ed.isPrivate(v) ensures ed.keep(v) { PrivateIsInert(t, tag, direct, v); }
    if t.carriers != [] { CarrierPartIsSound(t, tag, direct); }
  }

  lemma {:induction false} CarrierPartIsSound(t: Table, tag: string, direct: string)
    requires t.Normalized() && t.Apart(tag, direct) && t.carriers != []
    ensures var ed, sh := EditFor(t, tag, direct), CarrierShape(t.carriers, tag);
            sh.Inert(ed.privateRule) && (forall x :: x in ed.managed ==> sh.Inert(x)) &&
            (forall v :: sh.carrier(v) ==> !ed.clash(v)) &&
            (|ed.managed| > 0 ==> forall v :: sh.carrier(v) && sh.merge(v) == v ==> ed.keep(v)) &&
            (forall v :: sh.bypass(v) || sh.hijack(v) ==> ed.keep(v))
  {
    var ed, sh := EditFor(t, tag, direct), CarrierShape(t.carriers, tag);
    PrivateIsInert(t, tag, direct, PrivateRule(direct));
    forall x | x in ed.managed ensures sh.Inert(x) {
      BlockIsManaged(t, direct, x);
      ManagedIsNotPlaced(t, direct, x);
      BlockIsNotCarrier(t, direct, tag, x);
    }
    forall v | sh.carrier(v) ensures !ed.clash(v) { CarrierLacks(v, t.carriers, tag); }
    forall v | |ed.managed| > 0 && sh.carrier(v) && sh.merge(v) == v ensures ed.keep(v) {
      CarrierIsNotManaged(t, direct, tag, v);
    }
    forall v | sh.bypass(v) || sh.hijack(v) ensures ed.keep(v) {
      if IsManaged(v, t, direct) { ManagedIsNotPlaced(t, direct, v); }
    }
  }

  // ---------------------------------------------------------------- when the passes are stable

  /** Passes are stable on all rule lists if and only if the table keeps carriers and targets apart. */
  lemma {:induction false} StableIffApart(t: Table, tag: string, direct: string)
    requires t.Normalized()
    ensures var ed := EditFor(t, tag, direct);
            (forall rules :: Pass(Pass(rules, ed), ed) == Pass(rules, ed)) <==> t.Apart(tag, direct)
  {
    var ed := EditFor(t, tag, direct);
    if t.Apart(tag, direct) {
      EditIsSound(t, tag, direct);
      forall rules ensures Pass(Pass(rules, ed), ed) == Pass(rules, ed) { PassIsStable(rules, ed); }
    } else {
      var rules := Confused(t, direct);
      assert Pass(Pass(rules, ed), ed) != Pass(rules, ed);
    }
  }

  /** Rules that a second application changes. */
  lemma {:induction false} Confused(t: Table, direct: string) returns (rules: seq<Value>)
    requires t.Normalized() && !t.Apart(direct, direct)
    ensures Pass(Pass(rules, EditFor(t, direct, direct)), EditFor(t, direct, direct)) !=
            Pass(rules, EditFor(t, direct, direct))
  {
    EditIsBasic(t, direct, direct);
    PrivateIsInert(t, direct, direct, PrivateRule(direct));
    if t.WereTargets() {
      rules := DroppedRules(t, direct, t.previous.domains);
    } else if forall d :: d in t.carriers ==> d in t.current.domains {
      rules := DroppedRules(t, direct, t.current.domains);
    } else {
      rules := [ClashRule(), BypassRule()];
      StolenRules(t, direct);
    }
  }

  /** The carrier rule with a single domain, as another tool may write it. */
  function ShortCarrier(carrier: string, tag: string): Value {
    Obj(map["domain" := Str(carrier), "outbound" := Str(tag)])
  }

  function ClashRule(): Value { Obj(map["clash_mode" := Str("direct"), "outbound" := Str("direct")]) }

  function BypassRule(): Value { Obj(map["rule_set" := Str(BYPASS_TAG), "outbound" := Str("direct")]) }

  lemma {:induction false} ShortIsCarrier(t: Table, direct: string)
    requires t.Normalized() && t.carriers != []
    ensures var x := ShortCarrier(t.carriers[0], direct);
            IsCarrier(x, t.carriers, direct) && MergeCarrier(x, t.carriers, direct) != x &&
            !IsManaged(x, t, direct) && !IsPrivateDirect(x, direct) && !HasClashMode(x) && !IsFront(x) &&
            !IsManaged(MergeCarrier(x, t.carriers, direct), t, direct) && !IsFront(MergeCarrier(x, t.carriers, direct))
  {
    var x := ShortCarrier(t.carriers[0], direct);
    assert StringValues(x, "domain") == [t.carriers[0]];
    assert t.carriers[0] in StringValues(x, "domain");
  }

  lemma {:induction false} FullCarrier(t: Table, direct: string, domains: seq<string>)
    requires t.Normalized() && t.carriers != [] && t.proxy.None? && Normal(domains)
    requires forall d :: d in t.carriers ==> d in domains
    requires (domains == t.current.domains && t.current.suffixes == []) ||
             (domains == t.previous.domains && t.previous.suffixes == [])
    ensures var f := CarrierRule(domains, direct);
            IsCarrier(f, t.carriers, direct) && MergeCarrier(f, t.carriers, direct) == f && IsManaged(f, t, direct) &&
            !IsPrivateDirect(f, direct) && !HasClashMode(f) && !IsFront(f)
  {
    var f := CarrierRule(domains, direct);
    FullSettles(domains, t.carriers, direct);
    CarrierLacks(f, t.carriers, direct);
    FullIsManaged(t, direct, domains);
  }

  lemma {:induction false} FullSettles(domains: seq<string>, carriers: seq<string>, tag: string)
    requires Normal(domains) && carriers != [] && forall d :: d in carriers ==> d in domains
    ensures var f := CarrierRule(domains, tag);
            StringValues(f, "domain") == domains && IsCarrier(f, carriers, tag) && MergeCarrier(f, carriers, tag) == f
  {
    var f := CarrierRule(domains, tag);
    LoweredStrs(domains);
    SortDedupAbsorbs(domains, carriers);
    assert WithCarriers(f.fields, domains, tag) == f.fields;
    assert carriers[0] in carriers && carriers[0] in StringValues(f, "domain");
  }

  lemma {:induction false} FullIsManaged(t: Table, direct: string, domains: seq<string>)
    requires t.proxy.None? && domains != [] && StringValues(CarrierRule(domains, direct), "domain") == domains
    requires (domains == t.current.domains && t.current.suffixes == []) ||
             (domains == t.previous.domains && t.previous.suffixes == [])
    ensures IsManaged(CarrierRule(domains, direct), t, direct)
  {
    var f := CarrierRule(domains, direct);
    assert StringValues(f, "domain_suffix") == [] && MatchesDomains(f, t);
    assert GetStr(f, "action") == Some("route") && GetStr(f, "outbound") == Some(direct);
  }

  lemma {:induction false} DroppedRules(t: Table, direct: string, domains: seq<string>) returns (rules: seq<Value>)
    requires t.Normalized() && t.carriers != [] && t.proxy.None? && !t.NoTargets() && Normal(domains)
    requires forall d :: d in t.carriers ==> d in domains
    requires (domains == t.current.domains && t.current.suffixes == []) ||
             (domains == t.previous.domains && t.previous.suffixes == [])
    ensures Pass(Pass(rules, EditFor(t, direct, direct)), EditFor(t, direct, direct)) !=
            Pass(rules, EditFor(t, direct, direct))
  {
    EditIsBasic(t, direct, direct);
    PrivateIsInert(t, direct, direct, PrivateRule(direct));
    ShortIsCarrier(t, direct);
    FullCarrier(t, direct, domains);
    rules := [CarrierRule(domains, direct), ShortCarrier(t.carriers[0], direct)];
    DroppedCarrierChanges(EditFor(t, direct, direct), rules[0], rules[1]);
  }

  lemma {:induction false} NotManagedUnless(t: Table, direct: string, rule: Value)
    requires t.Normalized() && IsCarrier(rule, t.carriers, direct) && MergeCarrier(rule, t.carriers, direct) == rule
    requires !t.WereTargets() && exists d :: d in t.carriers && d !in t.current.domains
    ensures !IsManaged(rule, t, direct) && !IsPrivateDirect(rule, direct) && !HasClashMode(rule) && !IsFront(rule) &&
            !IsBypass(rule)
  {
    CarrierLacks(rule, t.carriers, direct);
    MergedDomains(rule, t.carriers, direct);
    if IsManaged(rule, t, direct) { ManagedCarrier(t, direct, direct, rule); }
  }

  lemma {:induction false} StolenRules(t: Table, direct: string)
    requires t.Normalized() && t.carriers != [] && t.proxy.None? && t.MeetsTargets()
    requires !t.WereTargets() && exists d :: d in t.carriers && d !in t.current.domains
    ensures var ed, rules := EditFor(t, direct, direct), [ClashRule(), BypassRule()];
            Pass(Pass(rules, ed), ed) != Pass(rules, ed)
  {
    EditIsBasic(t, direct, direct);
    AddedRulesStay(t, direct);
    TargetIsStolen(t, direct);
    BlockIsNotBypass(t, direct);
    NeighboursAreKept(t, direct);
    StolenTargetChanges(EditFor(t, direct, direct), ClashRule(), BypassRule(), 1);
  }

  lemma {:induction false} AddedRulesStay(t: Table, direct: string)
    requires t.Normalized() && t.carriers != []
    requires !t.WereTargets() && exists d :: d in t.carriers && d !in t.current.domains
    ensures EditFor(t, direct, direct).AddedStay(CarrierShape(t.carriers, direct))
  {
    PrivateIsInert(t, direct, direct, PrivateRule(direct));
    NewCarrierSettles(t.carriers, direct);
    NotManagedUnless(t, direct, CarrierRule(t.carriers, direct));
  }

  lemma {:induction false} BlockIsNotBypass(t: Table, direct: string)
    requires t.Normalized()
    ensures forall v :: v in ManagedBlock(t, direct) ==> !IsBypass(v)
  {
    forall v | v in ManagedBlock(t, direct) ensures !IsBypass(v) {
      BlockIsManaged(t, direct, v);
      ManagedIsNotPlaced(t, direct, v);
    }
  }

  lemma {:induction false} NeighboursAreKept(t: Table, direct: string)
    ensures EditFor(t, direct, direct).Between(CarrierShape(t.carriers, direct), ClashRule(), BypassRule())
  {
    KeptClash(t, direct);
    KeptBypass(t, direct);
  }

  lemma {:induction false} KeptClash(t: Table, direct: string)
    ensures HasClashMode(ClashRule()) && !IsBypass(ClashRule()) && !IsManaged(ClashRule(), t, direct) &&
            !IsCarrier(ClashRule(), t.carriers, direct) && !IsPrivateDirect(ClashRule(), direct)
  {
    assert "clash_mode" in ClashRule().fields;
  }

  lemma {:induction false} KeptBypass(t: Table, direct: string)
    ensures IsBypass(BypassRule()) && !IsManaged(BypassRule(), t, direct) &&
            !IsCarrier(BypassRule(), t.carriers, direct) && !IsPrivateDirect(BypassRule(), direct)
  {
    assert "rule_set" in BypassRule().fields;
  }

  lemma {:induction false} TargetIsStolen(t: Table, direct: string)
    requires t.Normalized() && t.carriers != [] && t.proxy.None? && t.MeetsTargets()
    requires !t.WereTargets() && exists d :: d in t.carriers && d !in t.current.domains
    ensures var ed := EditFor(t, direct, direct);
            var sh := ed.carrier.value;
            |ed.managed| > 1 && Position(ed.managed, sh.carrier) == Some(1) &&
            var merged := sh.merge(ed.managed[1]);
            merged != ed.managed[1] && ed.keep(merged) && !ed.front(merged)
  {
    var rule := DomainRule(t, direct);
    DomainIsCarrier(t, direct);
    TargetPosition(t, direct);
    DomainIsManaged(t, direct);
    MergeSettles(rule, t.carriers, direct);
    NotManagedUnless(t, direct, MergeCarrier(rule, t.carriers, direct));
  }

  lemma {:induction false} BlockStarts(t: Table, direct: string)
    requires !t.current.NoDomains()
    ensures var m := ManagedBlock(t, direct); |m| > 1 && m[0] == ResolveRule(t) && m[1] == DomainRule(t, direct)
  {
  }

  lemma {:induction false} TargetPosition(t: Table, direct: string)
    requires !t.current.NoDomains() && IsCarrier(DomainRule(t, direct), t.carriers, direct)
    ensures var m := ManagedBlock(t, direct);
            |m| > 1 && m[1] == DomainRule(t, direct) &&
            Position(m, CarrierShape(t.carriers, direct).carrier) == Some(1)
  {
    var m := ManagedBlock(t, direct);
    BlockStarts(t, direct);
    ResolveIsResolve(t);
    PositionAt(m, CarrierShape(t.carriers, direct).carrier, 1);
  }

  lemma {:induction false} DomainIsCarrier(t: Table, direct: string)
    requires t.Normalized() && t.proxy.None? && t.MeetsTargets()
    ensures IsCarrier(DomainRule(t, direct), t.carriers, direct)
  {
    DomainIsManaged(t, direct);
    DomainRuleFields(t, direct);
  }
}
