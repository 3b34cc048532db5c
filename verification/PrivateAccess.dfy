/** The Private Access baseline and route table as edits of a whole config. */
module PrivateAccess {
  import opened Prelude
  import opened Json
  import opened Outbounds
  import opened Domains
  import opened Placement
  import opened RulePass
  import opened PrivateRules
  import Cidr
  import opened Tun

  // ---------------------------------------------------------------- options

  datatype Options = Options(
    profileId: string, cidrs: seq<string>, domains: seq<string>, suffixes: seq<string>,
    previousCidrs: seq<string>, previousDomains: seq<string>, previousSuffixes: seq<string>,
    carriers: seq<string>, proxy: Option<Proxy>)

  /** The table an option record stands for, unless the profile is blank or a block is malformed. */
  function TableOf(o: Options): Option<Table> {
    if TrimStart(o.profileId, IsSpace) == [] then None
    else
      match (Cidr.Normalized(o.cidrs), Cidr.Normalized(o.previousCidrs))
      case (Some(cidrs), Some(previous)) =>
        Some(Table(Targets(cidrs, NormalizeDomains(o.domains), NormalizeDomains(o.suffixes)),
                   Targets(previous, NormalizeDomains(o.previousDomains), NormalizeDomains(o.previousSuffixes)),
                   NormalizeDomains(o.carriers), o.proxy))
      case _ => None
  }

  lemma {:induction false} TablesAreNormalized(o: Options)
    requires TableOf(o).Some?
    ensures TableOf(o).value.Normalized()
  {
    NormalizeIsIdempotent(o.domains);
    NormalizeIsIdempotent(o.suffixes);
    NormalizeIsIdempotent(o.carriers);
    Cidr.NormalizedIsCanonical(o.cidrs);
  }

  // ---------------------------------------------------------------- the parts

  predicate IsGroup(v: Value) { GetStr(v, "type") in {Some("selector"), Some("urltest")} }

  function FirstTag(outbounds: seq<Value>, p: Value -> bool): Option<string> {
    match Position(outbounds, p) case Some(i) => GetStr(outbounds[i], "tag") case None => None
  }

  /** The outbound that carries the carrier domains: a selector, a group, the direct outbound, a node, or a
      direct outbound added for it. */
  function CarrierTag(outbounds: seq<Value>): string {
    if HasTag(outbounds, SelectorOf(outbounds)) then SelectorOf(outbounds)
    else if FirstTag(outbounds, IsGroup).Some? then FirstTag(outbounds, IsGroup).value
    else if BorrowsNode(outbounds) then FirstTag(outbounds, IsNode).value
    else DirectOf(outbounds)
  }

  /** No selector, no group and no direct outbound, but a node to fall back on. */
  predicate BorrowsNode(outbounds: seq<Value>) {
    !HasTag(outbounds, SelectorOf(outbounds)) && FirstTag(outbounds, IsGroup).None? &&
    !HasTag(outbounds, DirectOf(outbounds)) && FirstTag(outbounds, IsNode).Some?
  }

  function CarrierOutbounds(outbounds: seq<Value>): seq<Value> {
    if HasTag(outbounds, SelectorOf(outbounds)) || FirstTag(outbounds, IsGroup).Some? ||
       HasTag(outbounds, DirectOf(outbounds)) || BorrowsNode(outbounds)
    then outbounds
    else outbounds + [DirectOutbound(DirectOf(outbounds))]
  }

  predicate NeedsDirect(t: Table) { t.proxy.None? || !t.NoTargets() }

  function EditOutbounds(outbounds: seq<Value>, t: Table): seq<Value> {
    var o := if t.carriers == [] then outbounds else CarrierOutbounds(outbounds);
    if NeedsDirect(t) then EnsureDirect(o) else o
  }

  function LocalServer(v: Value): Value { if v.Obj? then Obj(v.fields["type" := Str("local")]) else v }

  function EnsureSystemServer(servers: seq<Value>): seq<Value> {
    match Position(servers, v => Tagged(v, SYSTEM_DNS_TAG))
    case Some(i) => servers[i := LocalServer(servers[i])]
    case None => servers + [Obj(map["type" := Str("local"), "tag" := Str(SYSTEM_DNS_TAG)])]
  }

  /** `ensure_private_access_system_dns` on the value of `dns`. */
  function EnsureSystemDns(root: map<string, Value>): Option<map<string, Value>> {
    match EntryObj(root, "dns")
    case None => None
    case Some(dns) =>
      match EntryArr(dns, "servers")
      case None => None
      case Some(servers) => Some(dns["servers" := Arr(EnsureSystemServer(servers))])
  }

  /** The route flag as the baseline wants it. */
  function BaselineFlag(config: Value): Option<bool> {
    if HasManagedTun(config) then Some(true)
    else if !HasOtherTun(config) && !HasBaseline(config) then Some(false)
    else None
  }

  function EditRoute(route: map<string, Value>, flag: Option<bool>, rules: seq<Value>): map<string, Value> {
    var r := match flag case Some(b) => route[FLAG := Bool(b)] case None => route;
    r["rules" := Arr(rules)]
  }

  /** Whether anything is written at all. */
  predicate Touches(t: Table) { t.carriers != [] || NeedsDirect(t) }

  function Rebuilt(root: map<string, Value>, outbounds: seq<Value>, dns: Option<map<string, Value>>,
                   route: map<string, Value>)
    : map<string, Value>
  {
    var r := root["outbounds" := Arr(outbounds)]["route" := Obj(route)];
    match dns case Some(d) => r["dns" := Obj(d)] case None => r
  }

  /** The config with new outbounds and rules, and with the baseline's DNS server and flag when asked for. */
  function Write(config: Value, baseline: bool, outbounds: seq<Value>, rules: seq<Value>): Result<Value> {
    if !config.Obj? then Err
    else
      var root := config.fields;
      var route, dns := EntryObj(root, "route"), EnsureSystemDns(root);
      if EntryArr(root, "outbounds").None? || route.None? || EntryArr(route.value, "rules").None? ||
         (baseline && (dns.None? || FlagOf(config).Err?))
      then Err
      else
        var flag := if baseline then BaselineFlag(config) else None;
        Ok(Obj(Rebuilt(root, outbounds, if baseline then dns else None, EditRoute(route.value, flag, rules))))
  }

  function RulesOf(config: Value): seq<Value> {
    match Get(config, "route") case Some(route) => Items(route, "rules") case None => []
  }

  /** The pass over a config's rules. */
  function EditOf(outbounds: seq<Value>, t: Table): Edit<Value> {
    EditFor(t, CarrierTag(outbounds), DirectOf(EditOutbounds(outbounds, t)))
  }

  /** `ensure_private_access_route_table` on a normalised table; without targets and proxy it is
      `ensure_private_access_tun_baseline`. */
  function Apply(config: Value, t: Table): Result<Value> {
    var outbounds := Items(config, "outbounds");
    if !Touches(t) then Ok(config)
    else Write(config, t.proxy.None?, EditOutbounds(outbounds, t), Pass(RulesOf(config), EditOf(outbounds, t)))
  }

  /** `ensure_private_access_route_table`. */
  function EnsureRouteTable(config: Value, o: Options): Result<Value> {
    match TableOf(o) case Some(t) => Apply(config, t) case None => Err
  }

  function EnsureBaseline(config: Value, carriers: seq<string>): Result<Value> {
    Apply(config, Table(Targets([], [], []), Targets([], [], []), NormalizeDomains(carriers), None))
  }

  // ---------------------------------------------------------------- each part settles

  /** The outbounds with which the second application finds what the first one left. */
  lemma {:induction false} DirectAddsNoGroup(outbounds: seq<Value>)
    ensures var after := EnsureDirect(outbounds);
            SelectorOf(after) == SelectorOf(outbounds) && FirstTag(after, IsGroup) == FirstTag(outbounds, IsGroup) &&
            (HasTag(after, SelectorOf(outbounds)) <==> HasTag(outbounds, SelectorOf(outbounds)))
  {
    var tag, after := DirectOf(outbounds), EnsureDirect(outbounds);
    PreferredExists(outbounds, DIRECT_ALIASES, DIRECT_TAG);
    PreferredExists(outbounds, SELECTOR_ALIASES, SELECTOR_TAG);
    assert tag !in SELECTOR_ALIASES;
    match Position(outbounds, v => Tagged(v, tag))
    case Some(i) =>
      TypeKeepsTag(outbounds[i]);
      TagsAlign(outbounds, after);
      GroupsAlign(outbounds, after);
    case None =>
      TagsAlign(outbounds, after);
      GroupsAlign(outbounds, after);
  }

  /** Lists whose entries have the same tags, up to added ones that are no selector. */
  lemma {:induction false} TagsAlign(a: seq<Value>, b: seq<Value>)
    requires |a| <= |b| && forall i :: 0 <= i < |a| ==> GetStr(b[i], "tag") == GetStr(a[i], "tag")
    requires forall i :: |a| <= i < |b| ==> !HasAlias(b[i], SELECTOR_ALIASES)
    ensures SelectorOf(b) == SelectorOf(a) && (HasTag(b, SelectorOf(a)) <==> HasTag(a, SelectorOf(a)))
  {
    var p := (v: Value) => HasAlias(v, SELECTOR_ALIASES);
    match Position(a, p)
    case Some(i) =>
      PositionAt(b, p, i);
      assert a[i] in a;
      assert b[i] in b;
    case None =>
      forall v | v in b ensures !p(v) {
        var k :| 0 <= k < |b| && b[k] == v;
        if k < |a| { assert a[k] in a; }
      }
  }

  lemma {:induction false} GroupsAlign(a: seq<Value>, b: seq<Value>)
    requires |a| <= |b| && forall i :: 0 <= i < |a| ==>
             GetStr(b[i], "tag") == GetStr(a[i], "tag") && (IsGroup(b[i]) <==> IsGroup(a[i]))
    requires forall i :: |a| <= i < |b| ==> !IsGroup(b[i])
    ensures FirstTag(b, IsGroup) == FirstTag(a, IsGroup)
  {
    match Position(a, IsGroup)
    case Some(i) => PositionAt(b, IsGroup, i);
    case None =>
      forall v | v in b ensures !IsGroup(v) {
        var k :| 0 <= k < |b| && b[k] == v;
        if k < |a| { assert a[k] in a; }
      }
  }

  lemma {:induction false} MissingDirectIsAdded(outbounds: seq<Value>)
    requires !HasTag(outbounds, DirectOf(outbounds))
    ensures EnsureDirect(outbounds) == outbounds + [DirectOutbound(DirectOf(outbounds))]
  {
    PositionHas(outbounds, v => Tagged(v, DirectOf(outbounds)));
  }

  /** Whenever no node is borrowed, the carrier outbound is the same the second time. */
  lemma {:induction false} ChoiceSettles(outbounds: seq<Value>, t: Table)
    requires t.carriers != [] && (!BorrowsNode(outbounds) || !NeedsDirect(t))
    ensures var o := EditOutbounds(outbounds, t);
            EditOutbounds(o, t) == o && CarrierTag(o) == CarrierTag(outbounds) && DirectOf(o) == DirectOf(outbounds)
  {
    var o1 := CarrierOutbounds(outbounds);
    DirectSettles(outbounds);
    DirectAddsNoGroup(outbounds);
    if !HasTag(outbounds, DirectOf(outbounds)) { MissingDirectIsAdded(outbounds); }
    if o1 != outbounds {
      assert o1 == EnsureDirect(outbounds);
    } else if NeedsDirect(t) {
      DirectStays(outbounds);
    }
  }

  lemma {:induction false} DirectStays(outbounds: seq<Value>)
    requires !BorrowsNode(outbounds)
    ensures CarrierOutbounds(EnsureDirect(outbounds)) == EnsureDirect(outbounds)
    ensures CarrierTag(EnsureDirect(outbounds)) == CarrierTag(outbounds)
  {
    DirectSettles(outbounds);
    DirectAddsNoGroup(outbounds);
  }

  lemma {:induction false} OutboundsSettle(outbounds: seq<Value>, t: Table)
    requires t.carriers == [] || !BorrowsNode(outbounds) || !NeedsDirect(t)
    ensures var o := EditOutbounds(outbounds, t);
            EditOutbounds(o, t) == o && DirectOf(o) == DirectOf(EditOutbounds(o, t)) &&
            (t.carriers != [] ==> CarrierTag(o) == CarrierTag(outbounds))
  {
    if t.carriers == [] { DirectSettles(outbounds); } else { ChoiceSettles(outbounds, t); }
  }

  lemma {:induction false} ServersSettle(servers: seq<Value>)
    ensures EnsureSystemServer(EnsureSystemServer(servers)) == EnsureSystemServer(servers)
    ensures exists v :: v in EnsureSystemServer(servers) && Tagged(v, SYSTEM_DNS_TAG)
  {
    var p := (v: Value) => Tagged(v, SYSTEM_DNS_TAG);
    var r := EnsureSystemServer(servers);
    var i := PositionOr(servers, p, |servers|);
    assert Tagged(r[i], SYSTEM_DNS_TAG) && LocalServer(r[i]) == r[i] by {
      if i < |servers| {
        var f := servers[i].fields["type" := Str("local")];
        assert f["type" := Str("local")] == f;
      } else {
        var f := map["type" := Str("local"), "tag" := Str(SYSTEM_DNS_TAG)];
        assert f["type" := Str("local")] == f;
      }
    }
    forall j | 0 <= j < i ensures !p(r[j]) { assert r[j] == servers[j] && servers[j] in servers; }
    PositionAt(r, p, i);
    assert r[i := r[i]] == r && r[i] in r;
  }

  lemma {:induction false} RebuiltEntries(root: map<string, Value>, o: seq<Value>, dns: Option<map<string, Value>>,
                                          route: map<string, Value>,
                       o': seq<Value>, dns': Option<map<string, Value>>, route': map<string, Value>)
    requires dns.Some? <==> dns'.Some?
    ensures var r := Rebuilt(root, o, dns, route);
            EntryArr(r, "outbounds") == Some(o) && EntryObj(r, "route") == Some(route) &&
            (dns.Some? ==> EntryObj(r, "dns") == dns) && (dns.None? ==> EntryObj(r, "dns") == EntryObj(root, "dns")) &&
            Get(Obj(r), "inbounds") == Get(Obj(root), "inbounds") &&
            Rebuilt(r, o', dns', route') == Rebuilt(root, o', dns', route')
  {
  }

  lemma {:induction false} RouteEntries(route: map<string, Value>, flag: Option<bool>, rules: seq<Value>,
                                        flag': Option<bool>)
    requires flag'.Some? ==> flag' == flag
    ensures var r := EditRoute(route, flag, rules);
            EntryArr(r, "rules") == Some(rules) && EditRoute(r, flag', rules) == r &&
            FlagIn(r) == match flag case Some(b) => Ok(if b then Enabled else Disabled) case None => FlagIn(route)
  {
    var r := EditRoute(route, flag, rules);
    assert EditRoute(r, flag', rules) == r;
  }

  // ---------------------------------------------------------------- applying twice

  lemma {:induction false} DnsSettles(root: map<string, Value>, r: map<string, Value>)
    requires EnsureSystemDns(root).Some? && EntryObj(r, "dns") == EnsureSystemDns(root) && "dns" in r
    ensures EnsureSystemDns(r) == EnsureSystemDns(root) && HasBaseline(Obj(r))
  {
    var dns := EntryObj(root, "dns").value;
    var servers := EntryArr(dns, "servers").value;
    ServersSettle(servers);
    var d := dns["servers" := Arr(EnsureSystemServer(servers))];
    assert d["servers" := Arr(EnsureSystemServer(servers))] == d;
    assert Items(r["dns"], "servers") == EnsureSystemServer(servers);
  }

  /** The flag the second application asks for is the one the first one left, if it asks at all. */
  lemma {:induction false} FlagSettles(config: Value, after: Value)
    requires Get(after, "inbounds") == Get(config, "inbounds") && HasBaseline(after)
    ensures BaselineFlag(after).Some? ==> BaselineFlag(after) == BaselineFlag(config)
  {
    assert Items(after, "inbounds") == Items(config, "inbounds");
  }

  /** Whether the carrier rule keeps its outbound from one application to the next. */
  predicate Steady(config: Value, t: Table) {
    t.carriers == [] || !NeedsDirect(t) || !BorrowsNode(Items(config, "outbounds"))
  }

  /** What is written can be read back, and writing it again changes nothing. */
  lemma {:induction false} WriteSettles(config: Value, baseline: bool, outbounds: seq<Value>, rules: seq<Value>)
    requires Write(config, baseline, outbounds, rules).Ok?
    ensures var after := Write(config, baseline, outbounds, rules).value;
            after.Obj? && Items(after, "outbounds") == outbounds && RulesOf(after) == rules &&
            Get(after, "inbounds") == Get(config, "inbounds") && Write(after, baseline, outbounds, rules) == Ok(after)
  {
    var root := config.fields;
    var route := EntryObj(root, "route").value;
    var dns := if baseline then EnsureSystemDns(root) else None;
    var flag := if baseline then BaselineFlag(config) else None;
    var route' := EditRoute(route, flag, rules);
    var r := Rebuilt(root, outbounds, dns, route');
    RebuiltEntries(root, outbounds, dns, route', outbounds, dns, route');
    if baseline {
      DnsSettles(root, r);
      FlagSettles(config, Obj(r));
    }
    RouteEntries(route, flag, rules, if baseline then BaselineFlag(Obj(r)) else None);
    assert FlagOf(Obj(r)) == FlagIn(route');
  }

  lemma {:induction false} SameEdit(t: Table, tag: string, tag': string, direct: string)
    requires t.carriers == [] || tag == tag'
    ensures EditFor(t, tag, direct) == EditFor(t, tag', direct)
  {
  }

  lemma {:induction false} SteadyEdit(outbounds: seq<Value>, t: Table)
    requires t.carriers == [] || !BorrowsNode(outbounds) || !NeedsDirect(t)
    ensures var o := EditOutbounds(outbounds, t);
            EditOutbounds(o, t) == o && EditOf(o, t) == EditOf(outbounds, t) &&
            (t.carriers == [] || CarrierTag(o) == CarrierTag(outbounds))
  {
    OutboundsSettle(outbounds, t);
    var o := EditOutbounds(outbounds, t);
    SameEdit(t, CarrierTag(outbounds), CarrierTag(o), DirectOf(o));
  }

  /** Whether the table keeps carrier and target rules apart, with the outbounds that the first application
      leaves: always when the carrier rule goes elsewhere than the targets, and when their domains are disjoint. */
  ghost predicate KeepsApart(config: Value, t: Table) {
    var o := EditOutbounds(Items(config, "outbounds"), t);
    t.Apart(CarrierTag(o), DirectOf(o))
  }

  lemma {:induction false} DisjointKeepsApart(config: Value, t: Table)
    requires t.Disjoint()
    ensures KeepsApart(config, t)
  {
    var o := EditOutbounds(Items(config, "outbounds"), t);
    DisjointIsApart(t, CarrierTag(o), DirectOf(o));
  }

  /** Applying the same table again changes nothing when carrier and target rules are apart and the carrier
      rule does not borrow a node. */
  lemma {:induction false} ReapplyChangesNothing(config: Value, t: Table)
    requires t.Normalized() && KeepsApart(config, t) && Steady(config, t) && Apply(config, t).Ok?
    ensures Apply(Apply(config, t).value, t) == Apply(config, t)
  {
    if Touches(t) {
      var outbounds := Items(config, "outbounds");
      var o, ed := EditOutbounds(outbounds, t), EditOf(outbounds, t);
      SteadyEdit(outbounds, t);
      EditIsSound(t, CarrierTag(outbounds), DirectOf(o));
      PassIsStable(RulesOf(config), ed);
      WriteSettles(config, t.proxy.None?, o, Pass(RulesOf(config), ed));
    }
  }

  /** The same for the options a caller gives, and for the baseline alone. */
  lemma {:induction false} ReapplyOptions(config: Value, o: Options)
    requires EnsureRouteTable(config, o).Ok? && KeepsApart(config, TableOf(o).value) && Steady(config, TableOf(o).value)
    ensures EnsureRouteTable(EnsureRouteTable(config, o).value, o) == EnsureRouteTable(config, o)
  {
    TablesAreNormalized(o);
    ReapplyChangesNothing(config, TableOf(o).value);
  }

  lemma {:induction false} ReapplyBaseline(config: Value, carriers: seq<string>)
    requires EnsureBaseline(config, carriers).Ok? &&
             (NormalizeDomains(carriers) == [] || !BorrowsNode(Items(config, "outbounds")))
    ensures EnsureBaseline(EnsureBaseline(config, carriers).value, carriers) == EnsureBaseline(config, carriers)
  {
    NormalizeIsIdempotent(carriers);
    ReapplyChangesNothing(config, Table(Targets([], [], []), Targets([], [], []), NormalizeDomains(carriers), None));
  }

  /** A borrowed node loses the carrier rule as soon as the direct outbound exists. */
  lemma {:induction false} NodeIsReplaced(outbounds: seq<Value>, t: Table)
    requires BorrowsNode(outbounds) && NeedsDirect(t) && t.carriers != []
    ensures var o := EditOutbounds(outbounds, t);
            DirectOf(o) == DirectOf(outbounds) && CarrierTag(o) == DirectOf(outbounds) && EditOutbounds(o, t) == o &&
            CarrierTag(outbounds) != DirectOf(outbounds)
  {
    DirectSettles(outbounds);
    DirectAddsNoGroup(outbounds);
    var i := Position(outbounds, IsNode).value;
    assert outbounds[i] in outbounds;
  }

  lemma {:induction false} OtherOutbound(rule: Value, carriers: seq<string>, tag: string, other: string)
    requires tag != other
    ensures !IsCarrier(MergeCarrier(rule, carriers, tag), carriers, other) &&
            !IsCarrier(CarrierRule(carriers, tag), carriers, other)
  {
  }

  lemma {:induction false} RuleSources(rules: seq<Value>, t: Table, tag: string, direct: string, v: Value)
    requires t.carriers != [] && v in Pass(rules, EditFor(t, tag, direct))
    ensures v in rules || v == PrivateRule(direct) || v in ManagedBlock(t, direct) ||
            v == CarrierRule(t.carriers, tag) ||
            exists r :: r in rules && v == MergeCarrier(r, t.carriers, tag)
  {
    PassMembers(rules, EditFor(t, tag, direct), v);
  }

  lemma {:induction false} NoDirectCarrier(rules: seq<Value>, t: Table, tag: string, direct: string, v: Value)
    requires t.Normalized() && t.Apart(direct, direct) && t.carriers != [] && tag != direct
    requires forall r :: r in rules ==> !IsCarrier(r, t.carriers, direct)
    requires v in rules || v == PrivateRule(direct) || v in ManagedBlock(t, direct) ||
             v == CarrierRule(t.carriers, tag) ||
             exists r :: r in rules && v == MergeCarrier(r, t.carriers, tag)
    ensures !IsCarrier(v, t.carriers, direct)
  {
    if v in rules {
    } else if v == PrivateRule(direct) {
      PrivateIsInert(t, direct, direct, PrivateRule(direct));
    } else if v in ManagedBlock(t, direct) {
      BlockIsNotCarrier(t, direct, direct, v);
    } else if v == CarrierRule(t.carriers, tag) {
      OtherOutbound(v, t.carriers, tag, direct);
    } else {
      var r :| r in rules && v == MergeCarrier(r, t.carriers, tag);
      OtherOutbound(r, t.carriers, tag, direct);
    }
  }

  lemma {:induction false} RulesDiffer(rules: seq<Value>, t: Table, tag: string, direct: string)
    requires t.Normalized() && t.Apart(direct, direct) && t.carriers != [] && tag != direct
    requires forall r :: r in rules ==> !IsCarrier(r, t.carriers, direct)
    ensures var once := Pass(rules, EditFor(t, tag, direct)); Pass(once, EditFor(t, direct, direct)) != once
  {
    var once := Pass(rules, EditFor(t, tag, direct));
    forall v | v in once ensures !IsCarrier(v, t.carriers, direct) {
      RuleSources(rules, t, tag, direct, v);
      NoDirectCarrier(rules, t, tag, direct, v);
    }
    EditIsSound(t, direct, direct);
    CarrierAppears(once, EditFor(t, direct, direct));
  }

  lemma {:induction false} WriteAgain(config: Value, baseline: bool, o: seq<Value>, rules: seq<Value>,
                                      rules': seq<Value>)
    requires Write(config, baseline, o, rules).Ok? && rules' != RulesOf(config)
    ensures Write(config, baseline, o, rules').Ok? && Write(config, baseline, o, rules') != Ok(config)
  {
    WriteSettles(config, baseline, o, rules');
  }

  /** The rules that the first application leaves outside the managed block already hold a carrier rule for
      the direct outbound: the first of its kind, with all carrier domains, and early enough. */
  ghost predicate DirectCarrierPlaced(config: Value, t: Table) {
    var outbounds := Items(config, "outbounds");
    var ed, direct := EditOf(outbounds, t), DirectOf(outbounds);
    CarrierDone(Outside(Pass(RulesOf(config), ed), ed), EditFor(t, direct, direct))
  }

  lemma {:induction false} WriteSameIff(config: Value, baseline: bool, o: seq<Value>, rules: seq<Value>,
                                        rules': seq<Value>)
    requires Write(config, baseline, o, rules) == Ok(config) && RulesOf(config) == rules
    ensures Write(config, baseline, o, rules').Ok?
    ensures Write(config, baseline, o, rules') == Ok(config) <==> rules' == rules
  {
    if rules' != rules { WriteAgain(config, baseline, o, rules, rules'); }
  }

  lemma {:induction false} SecondPassIff(rules: seq<Value>, t: Table, tag: string, direct: string)
    requires t.Normalized() && t.Apart(direct, direct)
    ensures var ed, next := EditFor(t, tag, direct), EditFor(t, direct, direct);
            var once := Pass(rules, ed);
            Pass(once, next) == once <==> CarrierDone(Outside(once, ed), next)
  {
    var ed, next := EditFor(t, tag, direct), EditFor(t, direct, direct);
    EditIsSound(t, tag, direct);
    EditIsSound(t, direct, direct);
    OtherPassIff(rules, ed, next);
    CarrierDoneIff(Outside(Pass(rules, ed), ed), next);
  }

  /** Applying a table that keeps them apart again changes nothing if and only if the first application
      borrowed no node, or the rules hold a placed carrier rule for the direct outbound besides. */
  lemma {:induction false} ReapplyIff(config: Value, t: Table)
    requires t.Normalized() && KeepsApart(config, t) && Apply(config, t).Ok?
    ensures Apply(Apply(config, t).value, t).Ok?
    ensures Apply(Apply(config, t).value, t) == Apply(config, t) <==>
            Steady(config, t) || DirectCarrierPlaced(config, t)
  {
    if Steady(config, t) {
      ReapplyChangesNothing(config, t);
    } else {
      var outbounds := Items(config, "outbounds");
      var o, ed := EditOutbounds(outbounds, t), EditOf(outbounds, t);
      var direct, rules := DirectOf(outbounds), Pass(RulesOf(config), ed);
      NodeIsReplaced(outbounds, t);
      SecondPassIff(RulesOf(config), t, CarrierTag(outbounds), direct);
      WriteSettles(config, t.proxy.None?, o, rules);
      WriteSameIff(Apply(config, t).value, t.proxy.None?, o, rules, Pass(rules, EditFor(t, direct, direct)));
    }
  }

  /** On outbounds of which no node is borrowed, a table can be applied again to every config without effect if
      and only if it keeps carrier and target rules apart. */
  lemma {:induction false} ReapplyAlwaysIff(outbounds: seq<Value>, t: Table)
    requires t.Normalized() && (t.carriers == [] || !NeedsDirect(t) || !BorrowsNode(outbounds))
    ensures (forall config | Items(config, "outbounds") == outbounds && Apply(config, t).Ok? ::
               Apply(Apply(config, t).value, t) == Apply(config, t)) <==>
            t.Apart(CarrierTag(outbounds), DirectOf(EditOutbounds(outbounds, t)))
  {
    SteadyEdit(outbounds, t);
    if t.Apart(CarrierTag(outbounds), DirectOf(EditOutbounds(outbounds, t))) {
      forall config | Items(config, "outbounds") == outbounds && Apply(config, t).Ok?
        ensures Apply(Apply(config, t).value, t) == Apply(config, t)
      {
        ReapplyChangesNothing(config, t);
      }
    } else {
      var config := ConfusedConfig(outbounds, t);
    }
  }

  function PlainConfig(outbounds: seq<Value>, rules: seq<Value>): Value {
    Obj(map["outbounds" := Arr(outbounds), "route" := Obj(map["rules" := Arr(rules)])])
  }

  lemma {:induction false} PlainWrites(outbounds: seq<Value>, rules: seq<Value>, o: seq<Value>, rules': seq<Value>)
    ensures Items(PlainConfig(outbounds, rules), "outbounds") == outbounds
    ensures RulesOf(PlainConfig(outbounds, rules)) == rules
    ensures Write(PlainConfig(outbounds, rules), true, o, rules').Ok?
  {
  }

  lemma {:induction false} ConfusedConfig(outbounds: seq<Value>, t: Table) returns (config: Value)
    requires t.Normalized() && EditOutbounds(EditOutbounds(outbounds, t), t) == EditOutbounds(outbounds, t)
    requires EditOf(EditOutbounds(outbounds, t), t) == EditOf(outbounds, t)
    requires !t.Apart(CarrierTag(outbounds), DirectOf(EditOutbounds(outbounds, t)))
    ensures Items(config, "outbounds") == outbounds && Apply(config, t).Ok?
    ensures Apply(Apply(config, t).value, t) != Apply(config, t)
  {
    var o, ed := EditOutbounds(outbounds, t), EditOf(outbounds, t);
    var rules := Confused(t, DirectOf(o));
    config := PlainConfig(outbounds, rules);
    PlainWrites(outbounds, rules, o, Pass(rules, ed));
    WriteSettles(config, true, o, Pass(rules, ed));
    WriteSameIff(Apply(config, t).value, true, o, Pass(rules, ed), Pass(Pass(rules, ed), ed));
  }

  /** On rules that hold no carrier rule for the direct outbound at all, the first condition decides. */
  lemma {:induction false} ReapplyChangesNothingIff(config: Value, t: Table)
    requires t.Normalized() && KeepsApart(config, t) && Apply(config, t).Ok?
    requires forall r :: r in RulesOf(config) ==> !IsCarrier(r, t.carriers, DirectOf(Items(config, "outbounds")))
    ensures Apply(Apply(config, t).value, t) == Apply(config, t) <==> Steady(config, t)
  {
    ReapplyIff(config, t);
    if !Steady(config, t) {
      var outbounds := Items(config, "outbounds");
      NodeIsReplaced(outbounds, t);
      RulesDiffer(RulesOf(config), t, CarrierTag(outbounds), DirectOf(outbounds));
      SecondPassIff(RulesOf(config), t, CarrierTag(outbounds), DirectOf(outbounds));
    }
  }

  /** A concrete config that changes again: one node, no selector, group or direct outbound. */
  function LoneNode(): Value { Obj(map["type" := Str("vmess"), "tag" := Str("n")]) }

  function LoneConfig(): Value { Obj(map["outbounds" := Arr([LoneNode()])]) }

  function CarrierOnly(): Table { Table(Targets([], [], []), Targets([], [], []), ["a"], None) }

  lemma {:induction false} CarrierOnlyIsNormal()
    ensures CarrierOnly().Normalized() && KeepsApart(LoneConfig(), CarrierOnly())
  {
    assert LowerAscii("a") == "a";
  }

  lemma {:induction false} LoneWrites(o: seq<Value>, rules: seq<Value>)
    ensures Write(LoneConfig(), true, o, rules).Ok?
  {
  }

  lemma {:induction false} BorrowedNodeExample()
    ensures Apply(LoneConfig(), CarrierOnly()).Ok?
    ensures Apply(Apply(LoneConfig(), CarrierOnly()).value, CarrierOnly()) != Apply(LoneConfig(), CarrierOnly())
  {
    var config, t := LoneConfig(), CarrierOnly();
    var outbounds := Items(config, "outbounds");
    assert outbounds == [LoneNode()] && RulesOf(config) == [];
    LoneNodeIsBorrowed(LoneNode());
    CarrierOnlyIsNormal();
    LoneWrites(EditOutbounds(outbounds, t), Pass(RulesOf(config), EditOf(outbounds, t)));
    ReapplyChangesNothingIff(config, t);
  }

  lemma {:induction false} LoneNodeIsBorrowed(node: Value)
    requires node == LoneNode()
    ensures BorrowsNode([node])
  {
    PreferredExists([node], SELECTOR_ALIASES, SELECTOR_TAG);
    PreferredExists([node], DIRECT_ALIASES, DIRECT_TAG);
    assert !IsGroup(node) && IsNode(node);
    PositionAt([node], IsNode, 0);
  }

  // ---------------------------------------------------------------- everything else

  /** A rule no part of the edit is about: not of the managed shape, not a carrier rule, not the
      private-address rule. */
  ghost predicate Bystander(rule: Value, t: Table, tag: string, direct: string) {
    !IsManaged(rule, t, direct) && !IsPrivateDirect(rule, direct) && !IsCarrier(rule, t.carriers, tag)
  }

  /** The rules after one application. */
  lemma {:induction false} RulesAfter(config: Value, t: Table)
    requires Touches(t) && Apply(config, t).Ok?
    ensures RulesOf(Apply(config, t).value) == Pass(RulesOf(config), EditOf(Items(config, "outbounds"), t))
  {
    var outbounds := Items(config, "outbounds");
    WriteSettles(config, t.proxy.None?, EditOutbounds(outbounds, t), Pass(RulesOf(config), EditOf(outbounds, t)));
  }

  /** Bystanders keep their order; none is lost, none is added. */
  lemma {:induction false} OthersKeepOrder(config: Value, t: Table, other: Value -> bool)
    requires t.Normalized() && Apply(config, t).Ok?
    requires var outbounds := Items(config, "outbounds");
             forall v :: other(v) ==> Bystander(v, t, CarrierTag(outbounds), DirectOf(EditOutbounds(outbounds, t)))
    ensures Retain(RulesOf(Apply(config, t).value), other) == Retain(RulesOf(config), other)
  {
    if Touches(t) {
      var outbounds := Items(config, "outbounds");
      RulesAfter(config, t);
      EditIsBasic(t, CarrierTag(outbounds), DirectOf(EditOutbounds(outbounds, t)));
      BystandersPass(RulesOf(config), t, CarrierTag(outbounds), DirectOf(EditOutbounds(outbounds, t)), other);
    }
  }

  lemma {:induction false} BystandersPass(rules: seq<Value>, t: Table, tag: string, direct: string,
                                          other: Value -> bool)
    requires EditFor(t, tag, direct).Basic() && forall v :: other(v) ==> Bystander(v, t, tag, direct)
    ensures Retain(Pass(rules, EditFor(t, tag, direct)), other) == Retain(rules, other)
  {
    BystandersKeepOrder(rules, EditFor(t, tag, direct), other);
  }

  /** What is left of the managed shape is exactly the managed block. */
  lemma {:induction false} ManagedIsTheBlock(config: Value, t: Table)
    requires t.Normalized() && !t.NoTargets() && Apply(config, t).Ok?
    ensures var direct := DirectOf(EditOutbounds(Items(config, "outbounds"), t));
            Retain(RulesOf(Apply(config, t).value), v => IsManaged(v, t, direct)) == ManagedBlock(t, direct)
  {
    var outbounds := Items(config, "outbounds");
    RulesAfter(config, t);
    EditIsBasic(t, CarrierTag(outbounds), DirectOf(EditOutbounds(outbounds, t)));
    BlockRemains(RulesOf(config), t, CarrierTag(outbounds), DirectOf(EditOutbounds(outbounds, t)));
  }

  lemma {:induction false} BlockRemains(rules: seq<Value>, t: Table, tag: string, direct: string)
    requires EditFor(t, tag, direct).Basic() && !t.NoTargets()
    ensures Retain(Pass(rules, EditFor(t, tag, direct)), v => IsManaged(v, t, direct)) == ManagedBlock(t, direct)
  {
    OnlyManagedRemain(rules, EditFor(t, tag, direct), v => IsManaged(v, t, direct));
  }
}
