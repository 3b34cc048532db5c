/** What applying a Private Access route table leaves in a config, told by the options a caller gives and by the
    fields of the rules. */
module RouteTable {
  import opened Prelude
  import opened Json
  import opened Outbounds
  import opened Domains
  import opened Placement
  import opened RulePass
  import opened PrivateRules
  import opened PrivateAccess
  import Cidr
  import Tun

  // ---------------------------------------------------------------- the rules for the targets

  /** The entry lists exactly these strings; it is absent when there are none. */
  ghost predicate Lists(entry: Option<Value>, texts: seq<string>) {
    if texts == [] then entry == None
    else entry.Some? && entry.value.Arr? && |entry.value.items| == |texts| &&
         forall i :: 0 <= i < |texts| ==> entry.value.items[i] == Str(texts[i])
  }

  /** The rule sends its traffic to the proxy's address and port, or has no such fields without a proxy. */
  ghost predicate Overrides(rule: Value, proxy: Option<Proxy>) {
    match proxy
    case None => Get(rule, "override_address") == None && Get(rule, "override_port") == None
    case Some(p) =>
      Get(rule, "override_port") == Some(Num(p.port)) &&
      exists text :: Get(rule, "override_address") == Some(Str(text)) && Cidr.ParseAddress(text) == Some(p.ip)
  }

  /** The rule that resolves the target names with the system's own DNS. */
  ghost predicate ResolvesNames(rule: Value, t: Targets) {
    OnlyFields(rule, {"action", "server", "strategy", "disable_cache", "domain", "domain_suffix"}) &&
    Get(rule, "action") == Some(Str("resolve")) && Get(rule, "server") == Some(Str("private-access-system")) &&
    Get(rule, "strategy") == Some(Str("ipv4_only")) && Get(rule, "disable_cache") == Some(Bool(true)) &&
    Lists(Get(rule, "domain"), t.domains) && Lists(Get(rule, "domain_suffix"), t.suffixes)
  }

  /** The rule that sends the target names to the direct outbound. */
  ghost predicate RoutesNames(rule: Value, t: Targets, direct: string, proxy: Option<Proxy>) {
    OnlyFields(rule, {"action", "outbound", "domain", "domain_suffix", "override_address", "override_port"}) &&
    Get(rule, "action") == Some(Str("route")) && Get(rule, "outbound") == Some(Str(direct)) &&
    Lists(Get(rule, "domain"), t.domains) && Lists(Get(rule, "domain_suffix"), t.suffixes) && Overrides(rule, proxy)
  }

  /** The rule that sends the target blocks there; its texts read back as the blocks. */
  ghost predicate RoutesBlocks(rule: Value, t: Targets, direct: string, proxy: Option<Proxy>) {
    OnlyFields(rule, {"action", "outbound", "ip_cidr", "override_address", "override_port"}) &&
    Get(rule, "action") == Some(Str("route")) && Get(rule, "outbound") == Some(Str(direct)) && Overrides(rule, proxy) &&
    match Get(rule, "ip_cidr")
    case Some(Arr(items)) =>
      |items| == |t.cidrs| &&
      forall i :: 0 <= i < |items| ==> items[i].Str? && Cidr.Parse(items[i].s) == Some(t.cidrs[i])
    case _ => false
  }

  /** The rules for the targets: two for the names, if any, and one for the blocks, if any. */
  ghost predicate IsBlockFor(block: seq<Value>, t: Targets, direct: string, proxy: Option<Proxy>) {
    var names := if t.domains == [] && t.suffixes == [] then 0 else 2;
    var blocks := if t.cidrs == [] then 0 else 1;
    |block| == names + blocks &&
    (names == 2 ==> ResolvesNames(block[0], t) && RoutesNames(block[1], t, direct, proxy)) &&
    (blocks == 1 ==> RoutesBlocks(block[names], t, direct, proxy))
  }

  lemma {:induction false} StrsList(ss: seq<string>)
    ensures |Strs(ss)| == |ss| && forall i :: 0 <= i < |ss| ==> Strs(ss)[i] == Str(ss[i])
  {
    if ss != [] { StrsList(ss[1..]); }
  }

  lemma {:induction false} NamesListed(m: map<string, Value>, t: Targets)
    requires "domain" !in m && "domain_suffix" !in m
    ensures var r := Obj(WithDomains(m, t));
            Lists(Get(r, "domain"), t.domains) && Lists(Get(r, "domain_suffix"), t.suffixes)
    ensures forall k :: k != "domain" && k != "domain_suffix" ==> Get(Obj(WithDomains(m, t)), k) == Get(Obj(m), k)
    ensures WithDomains(m, t).Keys <= m.Keys + {"domain", "domain_suffix"}
  {
    StrsList(t.domains);
    StrsList(t.suffixes);
  }

  lemma {:induction false} ProxyWritten(m: map<string, Value>, proxy: Option<Proxy>)
    requires "override_address" !in m && "override_port" !in m
    ensures Overrides(Obj(WithProxy(m, proxy)), proxy)
    ensures forall k :: k != "override_address" && k != "override_port" ==>
              Get(Obj(WithProxy(m, proxy)), k) == Get(Obj(m), k)
    ensures WithProxy(m, proxy).Keys <= m.Keys + {"override_address", "override_port"}
  {
    if proxy.Some? { Cidr.AddressReads(proxy.value.ip); }
  }

  lemma {:induction false} ResolveWritten(t: Table)
    ensures ResolvesNames(ResolveRule(t), t.current)
  {
    var m := map["action" := Str("resolve"), "server" := Str(Tun.SYSTEM_DNS_TAG), "strategy" := Str("ipv4_only"),
                 "disable_cache" := Bool(true)];
    NamesListed(m, t.current);
  }

  lemma {:induction false} DomainWritten(t: Table, direct: string)
    ensures RoutesNames(DomainRule(t, direct), t.current, direct, t.proxy)
  {
    var m := map["action" := Str("route"), "outbound" := Str(direct)];
    NamesListed(m, t.current);
    var w := WithDomains(m, t.current);
    NamesAndProxy(w, t.proxy, direct);
  }

  /** Adding the proxy to the rule for the names leaves its other fields alone. */
  lemma {:induction false} NamesAndProxy(w: map<string, Value>, proxy: Option<Proxy>, direct: string)
    requires w.Keys <= {"action", "outbound", "domain", "domain_suffix"}
    requires Get(Obj(w), "action") == Some(Str("route")) && Get(Obj(w), "outbound") == Some(Str(direct))
    ensures var r := Obj(WithProxy(w, proxy));
            OnlyFields(r, {"action", "outbound", "domain", "domain_suffix", "override_address", "override_port"}) &&
            Get(r, "action") == Some(Str("route")) && Get(r, "outbound") == Some(Str(direct)) && Overrides(r, proxy) &&
            Get(r, "domain") == Get(Obj(w), "domain") && Get(r, "domain_suffix") == Get(Obj(w), "domain_suffix")
  {
    ProxyWritten(w, proxy);
  }

  lemma {:induction false} ShownParse(cidrs: seq<Cidr.Ipv4Cidr>)
    requires forall c :: c in cidrs ==> Cidr.Canonical(c)
    ensures var items := Strs(Shown(cidrs));
            |items| == |cidrs| &&
            forall i :: 0 <= i < |items| ==> items[i].Str? && Cidr.Parse(items[i].s) == Some(cidrs[i])
  {
    if cidrs != [] {
      ShownFirst(cidrs);
      ShownParse(cidrs[1..]);
      Cidr.ShowParses(cidrs[0]);
    }
  }

  lemma {:induction false} BlocksWritten(t: Table, direct: string)
    requires forall c :: c in t.current.cidrs ==> Cidr.Canonical(c)
    ensures RoutesBlocks(CidrRule(t, direct), t.current, direct, t.proxy)
  {
    var m := map["action" := Str("route"), "ip_cidr" := Arr(Strs(Shown(t.current.cidrs))), "outbound" := Str(direct)];
    ShownParse(t.current.cidrs);
    ProxyWritten(m, t.proxy);
  }

  lemma {:induction false} BlockWritten(t: Table, direct: string)
    requires forall c :: c in t.current.cidrs ==> Cidr.Canonical(c)
    ensures IsBlockFor(ManagedBlock(t, direct), t.current, direct, t.proxy)
  {
    ResolveWritten(t);
    DomainWritten(t, direct);
    BlocksWritten(t, direct);
    BlockParts(t, direct);
  }

  lemma {:induction false} BlockParts(t: Table, direct: string)
    ensures var m, names := ManagedBlock(t, direct), if t.current.NoDomains() then 0 else 2;
            |m| == names + (if t.current.cidrs == [] then 0 else 1) &&
            (names == 2 ==> m[0] == ResolveRule(t) && m[1] == DomainRule(t, direct)) &&
            (t.current.cidrs != [] ==> m[names] == CidrRule(t, direct))
  {
  }

  // ---------------------------------------------------------------- what is taken for such a rule

  /** The names a rule lists under a field, in lower case; the blocks it lists. */
  lemma {:induction false} StringsMeaning(rule: Value, field: string, x: string)
    ensures x in StringValues(rule, field) <==>
            match Get(rule, field)
            case Some(Str(s)) => x == LowerAscii(s)
            case Some(Arr(items)) => exists v :: v in items && v.Str? && x == LowerAscii(v.s)
            case _ => false
  {
    match Get(rule, field)
    case Some(Arr(items)) => LoweredMeaning(items, x);
    case _ =>
  }

  lemma {:induction false} LoweredMeaning(items: seq<Value>, x: string)
    ensures x in Lowered(items) <==> exists v :: v in items && v.Str? && x == LowerAscii(v.s)
  {
    if items != [] {
      LoweredMeaning(items[1..], x);
      assert items == [items[0]] + items[1..];
    }
  }

  /** A rule is the table's own in one of these cases only: it resolves the names of now or before; or it routes to
      the direct outbound, with nothing but the fields such rules have, in bridge form if the table has a proxy, and
      lists the names, or the blocks, of now or before, or, in bridge form, blocks that meet them. */
  ghost predicate Own(rule: Value, t: Table, direct: string) {
    rule.Obj? && "action" in rule.fields &&
    if rule.fields["action"] == Str("resolve") then
      rule.fields.Keys <= {"action", "server", "strategy", "disable_cache", "domain", "domain_suffix"} &&
      Get(rule, "server") == Some(Str("private-access-system")) && NamesOf(rule, t)
    else
      rule.fields["action"] == Str("route") && Get(rule, "outbound") == Some(Str(direct)) &&
      rule.fields.Keys <= {"action", "outbound", "override_address", "override_port", "port", "ip_cidr", "domain",
                           "domain_suffix"} &&
      (t.proxy.Some? ==> Bridged(rule)) &&
      ((NamesOf(rule, t) && !(StringValues(rule, "domain") == [] && StringValues(rule, "domain_suffix") == [])) ||
       (RuleCidrs(rule) != [] && if Bridged(rule) then BlocksMeet(RuleCidrs(rule), t)
                                 else RuleCidrs(rule) == t.current.cidrs || RuleCidrs(rule) == t.previous.cidrs))
  }

  predicate Bridged(rule: Value) {
    rule.Obj? && "override_address" in rule.fields && "override_port" in rule.fields
  }

  predicate NamesOf(rule: Value, t: Table) {
    var domains, suffixes := StringValues(rule, "domain"), StringValues(rule, "domain_suffix");
    (domains == t.current.domains && suffixes == t.current.suffixes) ||
    (domains == t.previous.domains && suffixes == t.previous.suffixes)
  }

  /** Some block meets one of now or before, or, without a proxy, all of them meet one of now. */
  ghost predicate BlocksMeet(cidrs: seq<Cidr.Ipv4Cidr>, t: Table) {
    (exists c, d :: c in cidrs && (d in t.current.cidrs || d in t.previous.cidrs) && Cidr.Overlaps(c, d)) ||
    (t.proxy.None? && forall c :: c in cidrs ==> exists d :: d in t.current.cidrs && Cidr.Overlaps(c, d))
  }

  lemma {:induction false} OwnMeaning(rule: Value, t: Table, direct: string)
    ensures IsManaged(rule, t, direct) <==> Own(rule, t, direct)
  {
    if Get(rule, "action") == Some(Str("resolve")) {
      OwnResolve(rule, t, direct);
    } else {
      OwnRoute(rule, t, direct);
    }
  }

  lemma {:induction false} OwnResolve(rule: Value, t: Table, direct: string)
    requires Get(rule, "action") == Some(Str("resolve"))
    ensures IsManaged(rule, t, direct) <==> Own(rule, t, direct)
  {
    assert MatchesDomains(rule, t) <==> NamesOf(rule, t);
  }

  lemma {:induction false} OwnRoute(rule: Value, t: Table, direct: string)
    requires Get(rule, "action") != Some(Str("resolve"))
    ensures IsManaged(rule, t, direct) <==> Own(rule, t, direct)
  {
    assert MatchesDomains(rule, t) <==> NamesOf(rule, t);
    assert IsBridge(rule) <==> Bridged(rule);
    assert GetStr(rule, "action") == Some("route") <==> Get(rule, "action") == Some(Str("route"));
    assert GetStr(rule, "outbound") == Some(direct) <==> Get(rule, "outbound") == Some(Str(direct));
    var cidrs := RuleCidrs(rule);
    if cidrs != [] { MeetMeaning(cidrs, t); }
  }

  lemma {:induction false} MeetMeaning(cidrs: seq<Cidr.Ipv4Cidr>, t: Table)
    requires cidrs != []
    ensures MatchesBlocks(cidrs, true, t) <==> BlocksMeet(cidrs, t)
    ensures MatchesBlocks(cidrs, false, t) <==> cidrs == t.current.cidrs || cidrs == t.previous.cidrs
  {
    if BlocksMeet(cidrs, t) && !(t.proxy.None? && forall c :: c in cidrs ==> Meets(c, t.current.cidrs)) {
      if c, d :| c in cidrs && (d in t.current.cidrs || d in t.previous.cidrs) && Cidr.Overlaps(c, d) {
        assert Meets(c, t.current.cidrs) || Meets(c, t.previous.cidrs);
      }
    }
  }

  // ---------------------------------------------------------------- the config after an application

  /** The first outbound that goes by one of the direct outbound's names, else its own name. */
  ghost predicate DirectName(outbounds: seq<Value>, name: string) {
    (exists i :: 0 <= i < |outbounds| && IsDirectName(outbounds[i]) && GetStr(outbounds[i], "tag") == Some(name) &&
                 forall j :: 0 <= j < i ==> !IsDirectName(outbounds[j])) ||
    (name == "国内直连" && forall v :: v in outbounds ==> !IsDirectName(v))
  }

  predicate IsDirectName(v: Value) { GetStr(v, "tag") == Some("国内直连") || GetStr(v, "tag") == Some("direct") }

  lemma {:induction false} DirectOfMeaning(outbounds: seq<Value>)
    ensures DirectName(outbounds, DirectOf(outbounds))
  {
    forall v: Value ensures HasAlias(v, DIRECT_ALIASES) <==> IsDirectName(v) {}
    var p := (v: Value) => HasAlias(v, DIRECT_ALIASES);
    match Position(outbounds, p)
    case Some(i) => assert IsDirectName(outbounds[i]);
    case None =>
  }

  predicate AsksForTargets(t: Table) { t.current.domains != [] || t.current.suffixes != [] || t.current.cidrs != [] }

  /** The rules after a pass with targets: the block for them, between rules of which none is the table's own,
      before the first rule for private addresses or a Clash mode, else after the last one with an action. */
  lemma {:induction false} PassWritten(rules: seq<Value>, t: Table, tag: string, direct: string)
      returns (pre: seq<Value>, block: seq<Value>, post: seq<Value>)
    requires t.Normalized() && AsksForTargets(t)
    ensures Pass(rules, EditFor(t, tag, direct)) == pre + block + post
    ensures IsBlockFor(block, t.current, direct, t.proxy) && forall v :: v in pre + post ==> !Own(v, t, direct)
    ensures InPlace(pre, post)
  {
    var ed := EditFor(t, tag, direct);
    var s := PrivateStep(CarrierStep(rules, ed), ed);
    BlockWritten(t, direct);
    OwnAreDropped(s, t, tag, direct);
    pre, block, post := BlockInPlace(Retain(s, ed.keep), t, tag, direct);
  }

  lemma {:induction false} OwnAreDropped(s: seq<Value>, t: Table, tag: string, direct: string)
    ensures forall v :: v in Retain(s, EditFor(t, tag, direct).keep) ==> !Own(v, t, direct)
  {
    var keep := EditFor(t, tag, direct).keep;
    forall v | v in Retain(s, keep) ensures !Own(v, t, direct) {
      RetainMembers(s, keep, v);
      OwnMeaning(v, t, direct);
    }
  }

  lemma {:induction false} BlockInPlace(kept: seq<Value>, t: Table, tag: string, direct: string)
      returns (pre: seq<Value>, block: seq<Value>, post: seq<Value>)
    ensures var ed := EditFor(t, tag, direct);
            block == ManagedBlock(t, direct) &&
            InsertAll(kept, ManagedIndex(kept, ed), ed.managed) == pre + block + post
    ensures pre + post == kept && InPlace(pre, post)
  {
    PlaceMeaning(kept);
    IndexMeaning(kept, t, tag, direct);
    var i := PositionOr(kept, IsFront, AfterLast(kept, HasAction));
    pre, block, post := kept[..i], ManagedBlock(t, direct), kept[i..];
  }

  lemma {:induction false} IndexMeaning(kept: seq<Value>, t: Table, tag: string, direct: string)
    ensures var ed := EditFor(t, tag, direct);
            ManagedIndex(kept, ed) == PositionOr(kept, IsFront, AfterLast(kept, HasAction)) &&
            ed.managed == ManagedBlock(t, direct)
  {
  }

  /** The rules of a config after an application with targets. */
  lemma {:induction false} TableWritten(config: Value, t: Table)
      returns (pre: seq<Value>, block: seq<Value>, post: seq<Value>)
    requires t.Normalized() && AsksForTargets(t) && Apply(config, t).Ok?
    ensures RulesOf(Apply(config, t).value) == pre + block + post
    ensures var direct := DirectOf(EditOutbounds(Items(config, "outbounds"), t));
            IsBlockFor(block, t.current, direct, t.proxy) && forall v :: v in pre + post ==> !Own(v, t, direct)
    ensures InPlace(pre, post)
  {
    var outbounds := Items(config, "outbounds");
    RulesAfter(config, t);
    pre, block, post := PassWritten(RulesOf(config), t, CarrierTag(outbounds), DirectOf(EditOutbounds(outbounds, t)));
  }

  /** The rule is for private addresses, or for a Clash mode. */
  predicate Leads(v: Value) {
    v.Obj? && (("ip_is_private" in v.fields && v.fields["ip_is_private"] == Bool(true)) || "clash_mode" in v.fields)
  }

  predicate Acts(v: Value) { v.Obj? && "action" in v.fields }

  ghost predicate InPlace(pre: seq<Value>, post: seq<Value>) {
    (forall v :: v in pre ==> !Leads(v)) &&
    if post != [] && Leads(post[0]) then true
    else (forall v :: v in post ==> !Leads(v) && !Acts(v)) && (pre != [] ==> Acts(pre[|pre| - 1]))
  }

  lemma {:induction false} LeadMeaning(v: Value)
    ensures (IsFront(v) <==> Leads(v)) && (HasAction(v) <==> Acts(v))
  {
  }

  lemma {:induction false} PlaceMeaning(kept: seq<Value>)
    ensures var i := PositionOr(kept, IsFront, AfterLast(kept, HasAction)); i <= |kept| && InPlace(kept[..i], kept[i..])
  {
    forall v ensures (IsFront(v) <==> Leads(v)) && (HasAction(v) <==> Acts(v)) { LeadMeaning(v); }
    match Position(kept, IsFront) {
      case Some(i) =>
        assert forall j :: 0 <= j < i ==> kept[..i][j] == kept[j];
      case None =>
        LastActs(kept);
    }
  }

  lemma {:induction false} LastActs(s: seq<Value>)
    ensures var i := AfterLast(s, HasAction);
            (i > 0 ==> HasAction(s[i - 1])) && forall v :: v in s[i..] ==> !HasAction(v)
  {
    if s != [] && !HasAction(s[|s| - 1]) {
      var n := |s| - 1;
      LastActs(s[..n]);
      var i := AfterLast(s[..n], HasAction);
      assert s[i..] == s[..n][i..] + [s[n]];
    }
  }

  /** The same told by the options: the targets written are those the caller asked for. */
  lemma {:induction false} OptionsWritten(config: Value, o: Options)
      returns (pre: seq<Value>, block: seq<Value>, post: seq<Value>, asked: Targets, former: Targets)
    requires EnsureRouteTable(config, o).Ok?
    ensures asked == Targets(Cidr.Normalized(o.cidrs).value, NormalizeDomains(o.domains), NormalizeDomains(o.suffixes))
    ensures former == Targets(Cidr.Normalized(o.previousCidrs).value, NormalizeDomains(o.previousDomains),
                              NormalizeDomains(o.previousSuffixes))
    ensures asked.cidrs != [] || asked.domains != [] || asked.suffixes != [] ==>
              RulesOf(EnsureRouteTable(config, o).value) == pre + block + post && InPlace(pre, post) &&
              exists direct ::
                IsBlockFor(block, asked, direct, o.proxy) &&
                DirectName(Items(EnsureRouteTable(config, o).value, "outbounds"), direct) &&
                forall v :: v in pre + post ==>
                              !Own(v, Table(asked, former, NormalizeDomains(o.carriers), o.proxy), direct)
  {
    var t := TableOf(o).value;
    TablesAreNormalized(o);
    asked, former := t.current, t.previous;
    pre, block, post := [], [], [];
    if AsksForTargets(t) {
      pre, block, post := TableWritten(config, t);
      var outbounds := EditOutbounds(Items(config, "outbounds"), t);
      DirectOfMeaning(outbounds);
      WriteSettles(config, t.proxy.None?, outbounds, Pass(RulesOf(config), EditOf(Items(config, "outbounds"), t)));
    }
  }

  // ---------------------------------------------------------------- former targets

  lemma {:induction false} ListedIsRead(rule: Value, field: string, texts: seq<string>)
    requires Lists(Get(rule, field), texts) && forall x :: x in texts ==> LowerAscii(x) == x
    ensures StringValues(rule, field) == texts
  {
    if texts != [] {
      var items := Get(rule, field).value.items;
      StrsList(texts);
      assert items == Strs(texts);
      LoweredStrs(texts);
    }
  }

  lemma {:induction false} BlocksAreRead(items: seq<Value>, cidrs: seq<Cidr.Ipv4Cidr>)
    requires |items| == |cidrs|
    requires forall i :: 0 <= i < |items| ==> items[i].Str? && Cidr.Parse(items[i].s) == Some(cidrs[i])
    ensures Blocks(items) == cidrs
  {
    if items != [] {
      BlocksAreRead(items[1..], cidrs[1..]);
      assert cidrs == [cidrs[0]] + cidrs[1..];
    }
  }

  /** A rule that was written for the former targets. */
  ghost predicate WasFor(rule: Value, former: Targets, direct: string, proxy: Option<Proxy>) {
    ((former.domains != [] || former.suffixes != []) &&
     (ResolvesNames(rule, former) || RoutesNames(rule, former, direct, proxy))) ||
    (former.cidrs != [] && RoutesBlocks(rule, former, direct, proxy))
  }

  /** It counts as the table's own, unless the table has a proxy and the rule was written without one. */
  lemma {:induction false} FormerIsOwn(rule: Value, t: Table, direct: string, proxy: Option<Proxy>)
    requires WasFor(rule, t.previous, direct, proxy)
    requires (t.proxy.Some? ==> proxy.Some?) || ResolvesNames(rule, t.previous)
    requires forall x :: x in t.previous.domains || x in t.previous.suffixes ==> LowerAscii(x) == x
    ensures Own(rule, t, direct)
  {
    var f := t.previous;
    if (f.domains != [] || f.suffixes != []) && (ResolvesNames(rule, f) || RoutesNames(rule, f, direct, proxy)) {
      ListedIsRead(rule, "domain", f.domains);
      ListedIsRead(rule, "domain_suffix", f.suffixes);
      assert NamesOf(rule, t);
    } else {
      BlocksAreRead(rule.fields["ip_cidr"].items, f.cidrs);
      assert RuleCidrs(rule) == f.cidrs && f.cidrs[0] in f.cidrs && Cidr.Overlaps(f.cidrs[0], f.cidrs[0]);
    }
  }

  /** After an application that asks for targets, no rule that was written for the former ones is left outside the
      new block. */
  lemma {:induction false} FormerAreGone(config: Value, o: Options, former: Targets, proxy: Option<Proxy>,
                                         direct: string, pre: seq<Value>, post: seq<Value>, rule: Value)
    requires EnsureRouteTable(config, o).Ok? && former == TableOf(o).value.previous
    requires forall v :: v in pre + post ==> !Own(v, TableOf(o).value, direct)
    requires WasFor(rule, former, direct, proxy) && ((o.proxy.Some? ==> proxy.Some?) || ResolvesNames(rule, former))
    ensures rule !in pre + post
  {
    NormalizeIsIdempotent(o.previousDomains);
    NormalizeIsIdempotent(o.previousSuffixes);
    FormerIsOwn(rule, TableOf(o).value, direct, proxy);
  }

  // ---------------------------------------------------------------- acceptance

  predicate ObjectOrNone(v: Option<Value>) { v.None? || v.value.Obj? }

  predicate ListOrNone(v: Option<Value>) { v.None? || v.value.Arr? }

  function In(config: Value, key: string, sub: string): Option<Value> {
    match Get(config, key) case Some(v) => Get(v, sub) case None => None
  }

  /** The parts that are written to have the right types; without a proxy these are the DNS servers and the route
      flag as well. */
  predicate Writable(config: Value, baseline: bool) {
    config.Obj? && ListOrNone(Get(config, "outbounds")) && ObjectOrNone(Get(config, "route")) &&
    ListOrNone(In(config, "route", "rules")) &&
    (baseline ==>
       ObjectOrNone(Get(config, "dns")) && ListOrNone(In(config, "dns", "servers")) &&
       (In(config, "route", "auto_detect_interface").None? || In(config, "route", "auto_detect_interface").value.Bool?))
  }

  lemma {:induction false} WritableMeaning(config: Value, baseline: bool, o: seq<Value>, rules: seq<Value>)
    ensures Write(config, baseline, o, rules).Ok? <==> Writable(config, baseline)
  {
  }

  /** When exactly the options make a table: the profile has a name, and the blocks can be read. */
  lemma {:induction false} TableIff(o: Options)
    ensures TableOf(o).Some? <==>
            (exists c :: c in o.profileId && !IsSpace(c)) && (forall v :: v in o.cidrs ==> Cidr.Parse(v).Some?) &&
            (forall v :: v in o.previousCidrs ==> Cidr.Parse(v).Some?)
    ensures TableOf(o).None? ==> forall config :: EnsureRouteTable(config, o) == Err
  {
    Cidr.NormalizedMeaning(o.cidrs);
    Cidr.NormalizedMeaning(o.previousCidrs);
    BlankMeaning(o.profileId);
  }

  /** When exactly it is applied: what is to be written can be. With a proxy and without targets and carriers there
      is nothing to write. */
  lemma {:induction false} AppliedIff(config: Value, o: Options)
    requires TableOf(o).Some?
    ensures EnsureRouteTable(config, o).Ok? <==>
            Writable(config, o.proxy.None?) ||
            (o.proxy.Some? && NormalizeDomains(o.carriers) == [] && !AsksForTargets(TableOf(o).value))
    ensures o.proxy.Some? && NormalizeDomains(o.carriers) == [] && !AsksForTargets(TableOf(o).value) ==>
              EnsureRouteTable(config, o) == Ok(config)
  {
    var t, outbounds := TableOf(o).value, Items(config, "outbounds");
    WritableMeaning(config, o.proxy.None?, EditOutbounds(outbounds, t), Pass(RulesOf(config), EditOf(outbounds, t)));
  }

  lemma {:induction false} BlankMeaning(s: string)
    ensures TrimStart(s, IsSpace) == [] <==> forall c :: c in s ==> IsSpace(c)
  {
    if s != [] && IsSpace(s[0]) {
      BlankMeaning(s[1..]);
      assert s == [s[0]] + s[1..];
    } else if s != [] {
      assert s[0] in s;
    }
  }

  // ---------------------------------------------------------------- the carrier rule

  predicate IsSelectorName(v: Value) { GetStr(v, "tag") == Some("手动选择") || GetStr(v, "tag") == Some("select") }

  predicate IsGroupType(v: Value) { GetStr(v, "type") == Some("selector") || GetStr(v, "type") == Some("urltest") }

  /** Neither a group nor one of the outbounds with a special type. */
  predicate IsServerType(v: Value) {
    GetStr(v, "type") != Some("selector") && GetStr(v, "type") != Some("urltest") &&
    GetStr(v, "type") != Some("direct") && GetStr(v, "type") != Some("block") && GetStr(v, "type") != Some("dns")
  }

  /** The tag of the first outbound with the property, if it has one. */
  ghost predicate FirstTagged(outbounds: seq<Value>, p: Value -> bool, tag: Option<string>) {
    (exists i :: 0 <= i < |outbounds| && p(outbounds[i]) && tag == GetStr(outbounds[i], "tag") &&
                 forall j :: 0 <= j < i ==> !p(outbounds[j])) ||
    (tag == None && forall v :: v in outbounds ==> !p(v))
  }

  lemma {:induction false} FirstTagMeaning(outbounds: seq<Value>, p: Value -> bool, q: Value -> bool)
    requires forall v :: p(v) <==> q(v)
    ensures FirstTagged(outbounds, p, FirstTag(outbounds, q))
  {
    match Position(outbounds, q)
    case Some(i) => assert p(outbounds[i]);
    case None =>
  }

  lemma {:induction false} KindsMeaning(v: Value)
    ensures (HasAlias(v, SELECTOR_ALIASES) <==> IsSelectorName(v)) && (IsGroup(v) <==> IsGroupType(v)) &&
            (IsNode(v) <==> IsServerType(v)) && (HasAlias(v, DIRECT_ALIASES) <==> IsDirectName(v))
  {
  }

  /** Carrier traffic goes to the selector, else to the first group, else to the direct outbound, else to the first
      node, else to a direct outbound added for it. */
  lemma {:induction false} CarrierTagMeaning(outbounds: seq<Value>, selector: Option<string>, group: Option<string>,
                                             direct: Option<string>, node: Option<string>)
    requires FirstTagged(outbounds, IsSelectorName, selector) && FirstTagged(outbounds, IsGroupType, group)
    requires FirstTagged(outbounds, IsDirectName, direct) && FirstTagged(outbounds, IsServerType, node)
    ensures CarrierTag(outbounds) ==
            if selector.Some? then selector.value
            else if group.Some? then group.value
            else if direct.Some? then direct.value
            else if node.Some? then node.value else "国内直连"
  {
    NamedMeaning(outbounds, SELECTOR_ALIASES, SELECTOR_TAG, IsSelectorName, selector);
    NamedMeaning(outbounds, DIRECT_ALIASES, DIRECT_TAG, IsDirectName, direct);
    forall v: Value ensures (IsGroup(v) <==> IsGroupType(v)) && (IsNode(v) <==> IsServerType(v)) { KindsMeaning(v); }
    FirstTagMeaning(outbounds, IsGroupType, IsGroup);
    FirstTagMeaning(outbounds, IsServerType, IsNode);
    SameFirst(outbounds, IsGroupType, group, FirstTag(outbounds, IsGroup));
    SameFirst(outbounds, IsServerType, node, FirstTag(outbounds, IsNode));
  }

  lemma {:induction false} SameFirst(outbounds: seq<Value>, p: Value -> bool, a: Option<string>, b: Option<string>)
    requires FirstTagged(outbounds, p, a) && FirstTagged(outbounds, p, b)
    ensures a == b
  {
    if exists v :: v in outbounds && p(v) {
      var i :| 0 <= i < |outbounds| && p(outbounds[i]) && a == GetStr(outbounds[i], "tag") &&
               forall j :: 0 <= j < i ==> !p(outbounds[j]);
      var k :| 0 <= k < |outbounds| && p(outbounds[k]) && b == GetStr(outbounds[k], "tag") &&
               forall j :: 0 <= j < k ==> !p(outbounds[j]);
      assert i == k;
    }
  }

  lemma {:induction false} NamedMeaning(outbounds: seq<Value>, aliases: seq<string>, preferred: string,
                                        p: Value -> bool, first: Option<string>)
    requires preferred in aliases && forall v: Value :: HasAlias(v, aliases) <==> p(v)
    requires FirstTagged(outbounds, p, first)
    ensures first.Some? <==> HasTag(outbounds, PreferredTag(outbounds, aliases, preferred))
    ensures PreferredTag(outbounds, aliases, preferred) == if first.Some? then first.value else preferred
  {
    var q := (v: Value) => HasAlias(v, aliases);
    FirstTagMeaning(outbounds, p, q);
    SameFirst(outbounds, p, first, FirstTag(outbounds, q));
    match Position(outbounds, q) {
      case Some(i) => assert outbounds[i] in outbounds && Tagged(outbounds[i], first.value);
      case None =>
        assert forall v :: v in outbounds && Tagged(v, preferred) ==> HasAlias(v, aliases);
    }
  }

  /** The rule sends exactly-named traffic to the outbound, and lists all these domains. */
  ghost predicate Carries(rule: Value, domains: seq<string>, tag: string) {
    OnlyFields(rule, {"action", "domain", "outbound"}) && Get(rule, "outbound") == Some(Str(tag)) &&
    (Get(rule, "action") == None || Get(rule, "action") == Some(Str("route")) || !Get(rule, "action").value.Str?) &&
    match Get(rule, "domain")
    case Some(Arr(items)) => forall d :: d in domains ==> Str(d) in items
    case _ => false
  }

  lemma {:induction false} SettledCarries(rule: Value, carriers: seq<string>, tag: string)
    requires Normal(carriers) && IsCarrier(rule, carriers, tag) && MergeCarrier(rule, carriers, tag) == rule
    ensures Carries(rule, carriers, tag)
  {
    MergedDomains(rule, carriers, tag);
    var d := SortDedup(StringValues(rule, "domain") + carriers);
    StrsList(d);
    SortDedupSorts(StringValues(rule, "domain") + carriers);
    assert Get(rule, "domain") == Some(Arr(Strs(d)));
    forall x | x in carriers ensures Str(x) in Strs(d) {
      assert x in d;
      var i :| 0 <= i < |d| && d[i] == x;
      assert Strs(d)[i] == Str(x);
    }
  }

  /** With carriers, and unless their rule could pass for one of the targets', a rule carries all of them to the
      carrier outbound. */
  lemma {:induction false} CarrierIsThere(config: Value, t: Table) returns (rule: Value)
    requires t.Normalized() && t.carriers != [] && Apply(config, t).Ok?
    requires var outbounds := Items(config, "outbounds");
             t.Apart(CarrierTag(outbounds), DirectOf(EditOutbounds(outbounds, t)))
    ensures rule in RulesOf(Apply(config, t).value)
    ensures Carries(rule, t.carriers, CarrierTag(Items(config, "outbounds")))
  {
    var outbounds := Items(config, "outbounds");
    var tag, ed := CarrierTag(outbounds), EditOf(outbounds, t);
    EditIsSound(t, tag, DirectOf(EditOutbounds(outbounds, t)));
    RulesAfter(config, t);
    rule := CarrierStays(RulesOf(config), ed);
    SettledCarries(rule, t.carriers, tag);
  }

  lemma {:induction false} CarrierStays<T(!new)>(rules: seq<T>, ed: Edit<T>) returns (c: T)
    requires ed.Sound() && ed.carrier.Some?
    ensures c in Pass(rules, ed) && ed.carrier.value.carrier(c) && ed.carrier.value.merge(c) == c
  {
    var pre, c', post := CarrierSettles(ed.carrier.value, rules);
    c := c';
    var s1 := CarrierStep(rules, ed);
    var s2 := PrivateStep(s1, ed);
    assert c in s1 && c in s2;
    RetainMembers(s2, ed.keep, c);
  }

  // ---------------------------------------------------------------- private addresses, outbounds, DNS, the rest

  /** Private addresses go to the direct outbound. */
  predicate SparesPrivate(rule: Value, direct: string) {
    Get(rule, "ip_is_private") == Some(Bool(true)) && Get(rule, "outbound") == Some(Str(direct)) &&
    Get(rule, "override_address") == None && Get(rule, "override_port") == None
  }

  /** Without a proxy some rule keeps private addresses direct. */
  lemma {:induction false} PrivateIsThere(config: Value, t: Table) returns (rule: Value)
    requires t.proxy.None? && Apply(config, t).Ok?
    ensures rule in RulesOf(Apply(config, t).value)
    ensures SparesPrivate(rule, DirectOf(EditOutbounds(Items(config, "outbounds"), t)))
  {
    var outbounds := Items(config, "outbounds");
    var direct := DirectOf(EditOutbounds(outbounds, t));
    RulesAfter(config, t);
    rule := PrivateStays(RulesOf(config), t, CarrierTag(outbounds), direct);
    SparesMeaning(rule, direct);
  }

  lemma {:induction false} PrivateStays(rules: seq<Value>, t: Table, tag: string, direct: string) returns (rule: Value)
    requires t.proxy.None?
    ensures rule in Pass(rules, EditFor(t, tag, direct)) && IsPrivateDirect(rule, direct)
  {
    var ed := EditFor(t, tag, direct);
    var s1 := CarrierStep(rules, ed);
    PrivateIsInert(t, tag, direct, PrivateRule(direct));
    rule := PrivateFound(s1, ed);
    PrivateIsInert(t, tag, direct, rule);
    RetainMembers(PrivateStep(s1, ed), ed.keep, rule);
  }

  lemma {:induction false} PrivateFound<T(!new)>(s: seq<T>, ed: Edit<T>) returns (x: T)
    requires ed.baseline && ed.isPrivate(ed.privateRule)
    ensures x in PrivateStep(s, ed) && ed.isPrivate(x)
  {
    PositionHas(s, ed.isPrivate);
    match Position(s, ed.isPrivate) {
      case Some(i) => x := s[i];
      case None =>
        x := ed.privateRule;
        assert x in PrivateStep(s, ed);
    }
  }

  lemma {:induction false} SparesMeaning(rule: Value, direct: string)
    ensures IsPrivateDirect(rule, direct) <==> SparesPrivate(rule, direct)
  {
  }

  predicate StaysOrTyped(before: Value, after: Value) {
    after == before ||
    (IsDirectName(before) && "type" !in before.fields && after == Obj(before.fields["type" := Str("direct")]))
  }

  /** Every outbound stays in its place; at most a type is given to a direct one that had none, and at most a direct
      one is added at the end. */
  lemma {:induction false} OutboundsStay(outbounds: seq<Value>, t: Table)
    ensures var after := EditOutbounds(outbounds, t);
            |outbounds| <= |after| <= |outbounds| + 1 &&
            (|after| > |outbounds| ==>
               after[|outbounds|] == Obj(map["type" := Str("direct"), "tag" := Str("国内直连")]) &&
               forall v :: v in outbounds ==> !IsDirectName(v)) &&
            forall i :: 0 <= i < |outbounds| ==> StaysOrTyped(outbounds[i], after[i])
    ensures t.carriers == [] && !NeedsDirect(t) ==> EditOutbounds(outbounds, t) == outbounds
  {
    var o := if t.carriers == [] then outbounds else CarrierOutbounds(outbounds);
    DirectOfMeaning(outbounds);
    DirectOfMeaning(o);
    if o != outbounds {
      assert o == outbounds + [DirectOutbound(DirectOf(outbounds))];
      NoDirectThere(outbounds);
      assert Tagged(o[|outbounds|], DirectOf(outbounds));
      AddedIsTyped(outbounds);
    } else {
      EnsuredDirect(outbounds);
    }
  }

  lemma {:induction false} NoDirectThere(outbounds: seq<Value>)
    requires !HasTag(outbounds, DirectOf(outbounds))
    ensures DirectOf(outbounds) == "国内直连" && forall v :: v in outbounds ==> !IsDirectName(v)
  {
    PreferredExists(outbounds, DIRECT_ALIASES, DIRECT_TAG);
    forall v: Value ensures HasAlias(v, DIRECT_ALIASES) <==> IsDirectName(v) { KindsMeaning(v); }
  }

  lemma {:induction false} AddedIsTyped(outbounds: seq<Value>)
    requires !HasTag(outbounds, DirectOf(outbounds))
    ensures var o := outbounds + [DirectOutbound(DirectOf(outbounds))]; EnsureDirect(o) == o
  {
    DirectSettles(outbounds);
    MissingDirectIsAdded(outbounds);
  }

  lemma {:induction false} EnsuredDirect(outbounds: seq<Value>)
    ensures var after := EnsureDirect(outbounds);
            |outbounds| <= |after| <= |outbounds| + 1 &&
            (|after| > |outbounds| ==>
               after[|outbounds|] == Obj(map["type" := Str("direct"), "tag" := Str("国内直连")]) &&
               forall v :: v in outbounds ==> !IsDirectName(v)) &&
            forall i :: 0 <= i < |outbounds| ==> StaysOrTyped(outbounds[i], after[i])
  {
    var tag := DirectOf(outbounds);
    DirectOfMeaning(outbounds);
    match Position(outbounds, v => Tagged(v, tag)) {
      case Some(i) => assert IsDirectName(outbounds[i]);
      case None =>
        PositionHas(outbounds, v => Tagged(v, tag));
        NoDirectThere(outbounds);
    }
  }

  /** Whatever is not an outbound, a route rule, the route flag or a DNS server stays as it was, and with a proxy the
      flag and the servers do too. */
  lemma {:induction false} OnlyTableChanges(config: Value, t: Table, key: string, sub: string)
    requires Apply(config, t).Ok?
    ensures var after := Apply(config, t).value;
            (key != "outbounds" && key != "route" && key != "dns" ==> Get(after, key) == Get(config, key)) &&
            (sub != "rules" && sub != "auto_detect_interface" ==>
               In(after, "route", sub) == In(config, "route", sub)) &&
            (sub != "servers" ==> In(after, "dns", sub) == In(config, "dns", sub)) &&
            (t.proxy.Some? ==> (sub != "rules" ==> In(after, "route", sub) == In(config, "route", sub)) &&
                               Get(after, "dns") == Get(config, "dns"))
  {
    if Touches(t) {
      var outbounds := Items(config, "outbounds");
      WrittenParts(config, t.proxy.None?, EditOutbounds(outbounds, t), Pass(RulesOf(config), EditOf(outbounds, t)), key,
                   sub);
    }
  }

  lemma {:induction false} WrittenParts(config: Value, baseline: bool, o: seq<Value>, rules: seq<Value>, key: string,
                                        sub: string)
    requires Write(config, baseline, o, rules).Ok?
    ensures var after := Write(config, baseline, o, rules).value;
            (key != "outbounds" && key != "route" && key != "dns" ==> Get(after, key) == Get(config, key)) &&
            (sub != "rules" && sub != "auto_detect_interface" ==>
               In(after, "route", sub) == In(config, "route", sub)) &&
            (!baseline && sub != "rules" ==> In(after, "route", sub) == In(config, "route", sub)) &&
            (sub != "servers" ==> In(after, "dns", sub) == In(config, "dns", sub)) &&
            (!baseline ==> Get(after, "dns") == Get(config, "dns"))
  {
  }

  /** Without a proxy, the DNS servers stay in place, the one for private access is local, and it is added at the end
      if it is missing. */
  lemma {:induction false} ServersStay(config: Value, o: seq<Value>, rules: seq<Value>)
    requires Write(config, true, o, rules).Ok?
    ensures var before := ListAt(In(config, "dns", "servers"));
            var after := ListAt(In(Write(config, true, o, rules).value, "dns", "servers"));
            (if exists v :: v in before && IsSystem(v) then |after| == |before|
             else after == before + [Obj(map["type" := Str("local"), "tag" := Str("private-access-system")])]) &&
            forall i :: 0 <= i < |before| ==>
              after[i] == if IsSystem(before[i]) && (forall j :: 0 <= j < i ==> !IsSystem(before[j]))
                          then Obj(before[i].fields["type" := Str("local")]) else before[i]
  {
    ServersWritten(config, o, rules);
    SystemEnsured(ListAt(In(config, "dns", "servers")));
  }

  function ListAt(v: Option<Value>): seq<Value> { match v case Some(Arr(items)) => items case _ => [] }

  predicate IsSystem(v: Value) { Get(v, "tag") == Some(Str("private-access-system")) }

  lemma {:induction false} ServersWritten(config: Value, o: seq<Value>, rules: seq<Value>)
    requires Write(config, true, o, rules).Ok?
    ensures ListAt(In(Write(config, true, o, rules).value, "dns", "servers")) ==
            EnsureSystemServer(ListAt(In(config, "dns", "servers")))
  {
  }

  lemma {:induction false} SystemEnsured(before: seq<Value>)
    ensures var after := EnsureSystemServer(before);
            (if exists v :: v in before && IsSystem(v) then |after| == |before|
             else after == before + [Obj(map["type" := Str("local"), "tag" := Str("private-access-system")])]) &&
            forall i :: 0 <= i < |before| ==>
              after[i] == if IsSystem(before[i]) && (forall j :: 0 <= j < i ==> !IsSystem(before[j]))
                          then Obj(before[i].fields["type" := Str("local")]) else before[i]
  {
    var p := (v: Value) => Tagged(v, Tun.SYSTEM_DNS_TAG);
    forall v: Value ensures p(v) <==> IsSystem(v) {}
    match Position(before, p)
    case Some(k) => assert before[k] in before && p(before[k]);
    case None =>
  }

  /** What the route flag is after an application without a proxy: on beside the managed TUN, off when there is no
      TUN at all and private access was not set up before, else as it was. */
  lemma {:induction false} FlagMeaning(config: Value, o: seq<Value>, rules: seq<Value>)
    requires Write(config, true, o, rules).Ok?
    ensures var after := In(Write(config, true, o, rules).value, "route", "auto_detect_interface");
            var tuns := ListAt(Get(config, "inbounds"));
            var managed := exists v :: v in tuns && IsTunTagged(v);
            var other := exists v :: v in tuns && Get(v, "type") == Some(Str("tun")) && !IsTunTagged(v);
            var setUp := exists v :: v in ListAt(In(config, "dns", "servers")) && IsSystem(v);
            after == if managed then Some(Bool(true))
                     else if !other && !setUp then Some(Bool(false))
                     else In(config, "route", "auto_detect_interface")
  {
    TunsMeaning(config);
    FlagWritten(config, o, rules);
  }

  predicate IsTunTagged(v: Value) { Get(v, "type") == Some(Str("tun")) && Get(v, "tag") == Some(Str("tun-in")) }

  lemma {:induction false} TunsMeaning(config: Value)
    ensures var tuns := ListAt(Get(config, "inbounds"));
            (Tun.HasManagedTun(config) <==> exists v :: v in tuns && IsTunTagged(v)) &&
            (Tun.HasOtherTun(config) <==>
             exists v :: v in tuns && Get(v, "type") == Some(Str("tun")) && !IsTunTagged(v)) &&
            (Tun.HasBaseline(config) <==> exists v :: v in ListAt(In(config, "dns", "servers")) && IsSystem(v))
  {
    forall v: Value
      ensures (Tun.IsManagedTun(v) <==> IsTunTagged(v)) && (Tagged(v, Tun.SYSTEM_DNS_TAG) <==> IsSystem(v)) {}
  }

  lemma {:induction false} FlagWritten(config: Value, o: seq<Value>, rules: seq<Value>)
    requires Write(config, true, o, rules).Ok?
    ensures In(Write(config, true, o, rules).value, "route", "auto_detect_interface") ==
            match BaselineFlag(config)
            case Some(b) => Some(Bool(b))
            case None => In(config, "route", "auto_detect_interface")
  {
  }

  /** The same told by the options: the carrier domains asked for are carried. */
  lemma {:induction false} CarriersWritten(config: Value, o: Options) returns (rule: Value)
    requires EnsureRouteTable(config, o).Ok? && NormalizeDomains(o.carriers) != []
    requires var outbounds := Items(config, "outbounds");
             TableOf(o).value.Apart(CarrierTag(outbounds), DirectOf(EditOutbounds(outbounds, TableOf(o).value)))
    ensures rule in RulesOf(EnsureRouteTable(config, o).value)
    ensures Carries(rule, NormalizeDomains(o.carriers), CarrierTag(Items(config, "outbounds")))
  {
    TablesAreNormalized(o);
    rule := CarrierIsThere(config, TableOf(o).value);
  }

  /** What is taken for the carrier rule: a rule with no other fields, to that outbound, that lists some carrier. */
  lemma {:induction false} CarrierMeaning(rule: Value, carriers: seq<string>, tag: string)
    ensures IsCarrier(rule, carriers, tag) <==>
            rule.Obj? && rule.fields.Keys <= {"action", "domain", "outbound"} &&
            Get(rule, "outbound") == Some(Str(tag)) &&
            (Get(rule, "action") == None || Get(rule, "action") == Some(Str("route")) ||
             !Get(rule, "action").value.Str?) &&
            exists d :: d in StringValues(rule, "domain") && d in carriers
  {
  }
}
