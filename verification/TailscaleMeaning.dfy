/** What the Tailscale toggle writes and takes out, list by list, and when switching it off gives back what was
    there. */
module TailscaleMeaning {
  import opened Prelude
  import opened Json
  import opened Tailscale
  import PrivateRules
  import ChinaRouting
  import Domains

  // ---------------------------------------------------------------- the four lists

  /** A list in an object that may be missing. */
  function ListIn(config: Value, section: string, key: string): seq<Value> {
    match Get(config, section) case Some(v) => Items(v, key) case None => []
  }

  function Endpoints(config: Value): seq<Value> { Items(config, "endpoints") }
  function Servers(config: Value): seq<Value> { ListIn(config, "dns", "servers") }
  function NameRules(config: Value): seq<Value> { ListIn(config, "dns", "rules") }
  function RouteRulesOf(config: Value): seq<Value> { ListIn(config, "route", "rules") }

  function FieldIn(config: Value, section: string, key: string): Option<Value> {
    match Get(config, section) case Some(v) => Get(v, key) case None => None
  }

  // ---------------------------------------------------------------- what is the program's own

  ghost predicate IsOurEndpoint(v: Value) {
    Get(v, "type") == Some(Str("tailscale")) && Get(v, "tag") == Some(Str("ts-ep")) &&
    Get(v, "state_directory") == Some(Str(".local/tailscale-embedded")) &&
    Get(v, "accept_routes") == Some(Bool(true)) && Get(v, "system_interface") == Some(Bool(false))
  }

  ghost predicate IsOurServer(v: Value) {
    Get(v, "type") == Some(Str("tailscale")) && Get(v, "tag") == Some(Str("tailscale-dns")) &&
    Get(v, "endpoint") == Some(Str("ts-ep"))
  }

  ghost predicate IsOneName(v: Option<Value>) { exists name :: v == Some(Arr([Str(name)])) }

  /** Two fields: one name resolved by the embedded server, or the control plane by the remote one. */
  ghost predicate IsOurNameRule(v: Value) {
    v.Obj? && |v.fields| == 2 &&
    ((Get(v, "server") == Some(Str("tailscale-dns")) && IsOneName(Get(v, "domain_suffix"))) ||
     (Get(v, "server") == Some(Str("remote")) &&
      Get(v, "domain_suffix") == Some(Arr([Str("tailscale.com"), Str("tailscale.io")]))))
  }

  /** Three fields: one name, the overlay blocks or the preferred routes sent to the endpoint. */
  ghost predicate IsOurRouteRule(v: Value) {
    v.Obj? && |v.fields| == 3 && Get(v, "action") == Some(Str("route")) && Get(v, "outbound") == Some(Str("ts-ep")) &&
    (IsOneName(Get(v, "domain_suffix")) ||
     Get(v, "ip_cidr") == Some(Arr([Str("100.64.0.0/10"), Str("fd7a:115c:a1e0::/48")])) ||
     Get(v, "preferred_by") == Some(Arr([Str("ts-ep")])))
  }

  lemma {:induction false} OneNameMeaning(v: Option<Value>)
    ensures OneString(v) <==> IsOneName(v)
  {
    if OneString(v) {
      var items := v.value.items;
      assert items == [Str(items[0].s)];
    }
  }

  lemma {:induction false} OwnMeaning(v: Value)
    ensures IsManagedEndpoint(v) <==> IsOurEndpoint(v)
    ensures IsManagedServer(v) <==> IsOurServer(v)
    ensures IsManagedDnsRule(v) <==> IsOurNameRule(v)
    ensures IsManagedRouteRule(v) <==> IsOurRouteRule(v)
  {
    OneNameMeaning(Get(v, "domain_suffix"));
  }

  ghost predicate Owns(s: seq<Value>, p: Value -> bool) { exists v :: v in s && p(v) }

  // ---------------------------------------------------------------- switching it off

  lemma {:induction false} SameRest(s: seq<Value>, a: Value -> bool, b: Value -> bool)
    requires forall v :: a(v) <==> b(v)
    ensures Without(s, a) == Without(s, b) && (Owns(s, a) <==> Owns(s, b))
  {
    if s != [] { SameRest(s[1..], a, b); }
  }

  /** The name rules, without the program's own if its server was there. */
  ghost function LeftNames(config: Value): seq<Value> {
    if Owns(Servers(config), IsManagedServer) then Without(NameRules(config), IsManagedDnsRule)
    else NameRules(config)
  }

  ghost function LeftRoutes(config: Value): seq<Value> {
    if Owns(Endpoints(config), IsManagedEndpoint) then Without(RouteRulesOf(config), IsManagedRouteRule)
    else RouteRulesOf(config)
  }

  lemma {:induction false} StrippedDns(dns: map<string, Value>)
    requires StripDns(dns).Some?
    ensures var d, now := Obj(dns), Obj(StripDns(dns).value);
            Items(now, "servers") == Without(Items(d, "servers"), IsManagedServer) &&
            Items(now, "rules") ==
              (if Owns(Items(d, "servers"), IsManagedServer) then Without(Items(d, "rules"), IsManagedDnsRule)
               else Items(d, "rules")) &&
            forall key :: key != "servers" && key != "rules" ==> Get(now, key) == Get(d, key)
  {
  }

  lemma {:induction false} StrippedRoute(route: map<string, Value>)
    requires StripRoute(route).Some?
    ensures var r, now := Obj(route), Obj(StripRoute(route).value);
            Items(now, "rules") == Without(Items(r, "rules"), IsManagedRouteRule) &&
            forall key :: key != "rules" ==> Get(now, key) == Get(r, key)
  {
  }

  ghost predicate OnlySection(c: Value, r: Value, section: string) {
    forall s :: s != section ==> Get(r, s) == Get(c, s)
  }

  ghost predicate OnlyLists(c: Value, r: Value, section: string) {
    forall key :: key != "servers" && key != "rules" ==> FieldIn(r, section, key) == FieldIn(c, section, key)
  }

  /** The three stages of the removal. */
  lemma {:induction false} FirstStage(root: map<string, Value>)
    requires Filtered(root, "endpoints", IsManagedEndpoint).Some?
    ensures var c, r := Obj(root), Obj(Filtered(root, "endpoints", IsManagedEndpoint).value);
            Endpoints(r) == Without(Endpoints(c), IsManagedEndpoint) &&
            OnlySection(c, r, "endpoints")
  {
  }

  lemma {:induction false} SecondStage(root: map<string, Value>)
    requires Within(root, "dns", StripDns).Some?
    ensures var c, r := Obj(root), Obj(Within(root, "dns", StripDns).value);
            Servers(r) == Without(Servers(c), IsManagedServer) && NameRules(r) == LeftNames(c) &&
            OnlySection(c, r, "dns") && OnlyLists(c, r, "dns")
  {
    if "dns" in root && root["dns"].Obj? { StrippedDns(root["dns"].fields); }
  }

  lemma {:induction false} ThirdStage(root: map<string, Value>)
    requires Within(root, "route", StripRoute).Some?
    ensures var c, r := Obj(root), Obj(Within(root, "route", StripRoute).value);
            RouteRulesOf(r) == Without(RouteRulesOf(c), IsManagedRouteRule) &&
            OnlySection(c, r, "route") && OnlyLists(c, r, "route")
  {
    if "route" in root && root["route"].Obj? { StrippedRoute(root["route"].fields); }
  }

  lemma {:induction false} Stages(root: map<string, Value>)
      returns (r1: map<string, Value>, r2: map<string, Value>, owned: bool)
    requires Remove(root).Some?
    ensures Filtered(root, "endpoints", IsManagedEndpoint) == Some(r1) && Within(r1, "dns", StripDns) == Some(r2)
    ensures owned <==> Owns(Endpoints(Obj(root)), IsManagedEndpoint)
    ensures Remove(root) == if owned then Within(r2, "route", StripRoute) else Some(r2)
  {
    r1 := Filtered(root, "endpoints", IsManagedEndpoint).value;
    r2 := Within(r1, "dns", StripDns).value;
    owned := exists v :: v in Endpoints(Obj(root)) && IsManagedEndpoint(v);
  }

  ghost predicate IsRemoved(c: Value, off: Value) {
    Endpoints(off) == Without(Endpoints(c), IsManagedEndpoint) &&
    Servers(off) == Without(Servers(c), IsManagedServer) &&
    NameRules(off) == LeftNames(c) && RouteRulesOf(off) == LeftRoutes(c)
  }

  lemma {:induction false} RemovedParts(root: map<string, Value>)
    requires Remove(root).Some?
    ensures IsRemoved(Obj(root), Obj(Remove(root).value))
  {
    var r1, r2, owned := Stages(root);
    FirstStage(root);
    SecondStage(r1);
    if owned { ThirdStage(r2); }
  }

  /** All else is as it was. */
  ghost predicate SameElsewhere(c: Value, r: Value, section: string, key: string) {
    (section !in {"endpoints", "dns", "route"} ==> Get(r, section) == Get(c, section)) &&
    (section in {"dns", "route"} && key !in {"servers", "rules"} ==>
       FieldIn(r, section, key) == FieldIn(c, section, key))
  }

  lemma {:induction false} RemovedElsewhere(root: map<string, Value>, section: string, key: string)
    requires Remove(root).Some?
    ensures SameElsewhere(Obj(root), Obj(Remove(root).value), section, key)
  {
    var r1, r2, owned := Stages(root);
    FirstStage(root);
    SecondStage(r1);
    if owned { ThirdStage(r2); }
    ElsewhereThrough(Obj(root), Obj(r1), Obj(r2), Obj(Remove(root).value), section, key);
  }

  lemma {:induction false} ElsewhereThrough(c: Value, r1: Value, r2: Value, off: Value, section: string, key: string)
    requires OnlySection(c, r1, "endpoints") && OnlySection(r1, r2, "dns") && OnlyLists(r1, r2, "dns")
    requires off == r2 || (OnlySection(r2, off, "route") && OnlyLists(r2, off, "route"))
    ensures SameElsewhere(c, off, section, key)
  {
    if section == "dns" {
      assert Get(r1, section) == Get(c, section);
      assert FieldIn(off, section, key) == FieldIn(r2, section, key);
    } else if section == "route" {
      assert Get(r1, section) == Get(c, section) && Get(r2, section) == Get(r1, section);
    } else {
      assert off != r2 && section != "endpoints" ==> Get(off, section) == Get(r2, section);
    }
  }

  // ---------------------------------------------------------------- switching it on

  ghost predicate IsRemoteTagged(v: Value) { Get(v, "tag") == Some(Str("remote")) }

  /** The remote server added when there is none. */
  ghost predicate IsFreshRemote(v: Value) {
    v == Obj(map["type" := Str("tls"), "tag" := Str("remote"), "server" := Str("223.6.6.6"), "server_port" := Num(853)])
  }

  lemma {:induction false} RemoteMeaning(servers: seq<Value>)
    ensures if exists v :: v in servers && IsRemoteTagged(v) then WithRemoteServer(servers) == servers
            else |WithRemoteServer(servers)| == |servers| + 1 && WithRemoteServer(servers)[..|servers|] == servers &&
                 IsFreshRemote(WithRemoteServer(servers)[|servers|])
  {
    forall v ensures IsRemoteTagged(v) <==> Tagged(v, "remote") {}
  }

  /** Before the first rule that does not hijack DNS. */
  ghost predicate AfterHijacks(rules: seq<Value>, i: nat) {
    i <= |rules| && (forall j :: 0 <= j < i ==> Get(rules[j], "action") == Some(Str("hijack-dns"))) &&
    (i < |rules| ==> Get(rules[i], "action") != Some(Str("hijack-dns")))
  }

  lemma {:induction false} PlaceMeaning(rules: seq<Value>)
    ensures AfterHijacks(rules, PositionOr(rules, v => !PrivateRules.IsHijack(v), |rules|))
  {
    var p := (v: Value) => !PrivateRules.IsHijack(v);
    match Position(rules, p)
    case Some(i) => forall j | 0 <= j < i ensures !p(rules[j]) {}
    case None => forall j | 0 <= j < |rules| ensures !p(rules[j]) { assert rules[j] in rules; }
  }

  /** The three rules that send the overlay's names, blocks and preferred routes to the endpoint. */
  lemma {:induction false} RouteRulesMeaning(domain: string)
    ensures var r := RouteRules(domain);
            |r| == 3 &&
            r[0] == Obj(map["domain_suffix" := Arr([Str(domain)]), "action" := Str("route"),
                            "outbound" := Str("ts-ep")]) &&
            r[1] == Obj(map["ip_cidr" := Arr([Str("100.64.0.0/10"), Str("fd7a:115c:a1e0::/48")]),
                            "action" := Str("route"), "outbound" := Str("ts-ep")]) &&
            r[2] == Obj(map["preferred_by" := Arr([Str("ts-ep")]), "action" := Str("route"),
                            "outbound" := Str("ts-ep")])
  {
  }

  lemma {:induction false} NameRulesMeaning(domain: string)
    ensures DnsRules(domain) ==
            [Obj(map["domain_suffix" := Arr([Str(domain)]), "server" := Str("tailscale-dns")]),
             Obj(map["domain_suffix" := Arr([Str("tailscale.com"), Str("tailscale.io")]), "server" := Str("remote")])]
    ensures DNS_SERVER == Obj(map["type" := Str("tailscale"), "tag" := Str("tailscale-dns"),
                                  "endpoint" := Str("ts-ep"), "accept_default_resolvers" := Bool(false)])
  {
  }

  lemma {:induction false} EndpointMeaning(hostname: Option<string>)
    ensures var e := Endpoint(hostname);
            IsOurEndpoint(e) &&
            (forall key :: Get(e, key).Some? ==>
               key in {"type", "tag", "state_directory", "accept_routes", "system_interface", "hostname"}) &&
            Get(e, "hostname") == if hostname.Some? && Trim(hostname.value) != [] then Some(Str(Trim(hostname.value)))
                                  else None
  {
  }

  /** Where lists are expected there are lists, or nothing. */
  lemma {:induction false} Entries(root: map<string, Value>, domain: string, hostname: Option<string>)
    requires Add(root, domain, hostname).Some?
    ensures var c := Obj(root); var dns, route := EntryObj(root, "dns"), EntryObj(root, "route");
            EntryArr(root, "endpoints") == Some(Endpoints(c)) && dns.Some? && route.Some? &&
            EntryArr(dns.value, "servers") == Some(Servers(c)) && EntryArr(dns.value, "rules") == Some(NameRules(c)) &&
            EntryArr(route.value, "rules") == Some(RouteRulesOf(c))
  {
  }

  /** The new DNS section and route. */
  lemma {:induction false} AddParts(root: map<string, Value>, domain: string, hostname: Option<string>)
      returns (dns: map<string, Value>, route: map<string, Value>, i: nat)
    requires Add(root, domain, hostname).Some?
    ensures var c := Obj(root);
            !(exists v :: v in Endpoints(c) && Tagged(v, "ts-ep")) &&
            Add(root, domain, hostname) == Some(Composed(root, Endpoints(c) + [Endpoint(hostname)], dns, route)) &&
            Get(Obj(dns), "servers") == Some(Arr([DNS_SERVER] + WithRemoteServer(Servers(c)))) &&
            Get(Obj(dns), "rules") == Some(Arr(DnsRules(domain) + NameRules(c))) &&
            i <= |RouteRulesOf(c)| && AfterHijacks(RouteRulesOf(c), i) &&
            Get(Obj(route), "rules") == Some(Arr(InsertAll(RouteRulesOf(c), i, RouteRules(domain))))
  {
    var c := Obj(root);
    Entries(root, domain, hostname);
    var dns0, route0 := EntryObj(root, "dns").value, EntryObj(root, "route").value;
    i := PositionOr(RouteRulesOf(c), v => !PrivateRules.IsHijack(v), |RouteRulesOf(c)|);
    PlaceMeaning(RouteRulesOf(c));
    dns := dns0["servers" := Arr([DNS_SERVER] + WithRemoteServer(Servers(c)))]
               ["rules" := Arr(DnsRules(domain) + NameRules(c))];
    route := route0["rules" := Arr(InsertAll(RouteRulesOf(c), i, RouteRules(domain)))];
  }

  lemma {:induction false} ComposedParts(root: map<string, Value>, endpoints: seq<Value>, dns: map<string, Value>,
                                         route: map<string, Value>)
    ensures var on := Obj(Composed(root, endpoints, dns, route));
            Endpoints(on) == endpoints && Servers(on) == Items(Obj(dns), "servers") &&
            NameRules(on) == Items(Obj(dns), "rules") && RouteRulesOf(on) == Items(Obj(route), "rules") &&
            Get(on, "dns") == Some(Obj(dns)) && Get(on, "route") == Some(Obj(route)) &&
            forall section :: section !in {"endpoints", "dns", "route"} ==> Get(on, section) == Get(Obj(root), section)
  {
  }

  ghost predicate IsAdded(c: Value, on: Value, domain: string, hostname: Option<string>) {
    Endpoints(on) == Endpoints(c) + [Endpoint(hostname)] &&
    Servers(on) == [DNS_SERVER] + WithRemoteServer(Servers(c)) && NameRules(on) == DnsRules(domain) + NameRules(c) &&
    exists i: nat :: i <= |RouteRulesOf(c)| && AfterHijacks(RouteRulesOf(c), i) &&
                     RouteRulesOf(on) == InsertAll(RouteRulesOf(c), i, RouteRules(domain))
  }

  lemma {:induction false} AddedParts(root: map<string, Value>, domain: string, hostname: Option<string>)
    requires Add(root, domain, hostname).Some?
    ensures !(exists v :: v in Endpoints(Obj(root)) && Tagged(v, "ts-ep"))
    ensures IsAdded(Obj(root), Obj(Add(root, domain, hostname).value), domain, hostname)
  {
    var c := Obj(root);
    var dns, route, i := AddParts(root, domain, hostname);
    ComposedParts(root, Endpoints(c) + [Endpoint(hostname)], dns, route);
    ComposedIsAdded(c, Obj(Composed(root, Endpoints(c) + [Endpoint(hostname)], dns, route)), domain, hostname, i);
  }

  lemma {:induction false} ComposedIsAdded(c: Value, on: Value, domain: string, hostname: Option<string>, i: nat)
    requires i <= |RouteRulesOf(c)| && AfterHijacks(RouteRulesOf(c), i)
    requires Endpoints(on) == Endpoints(c) + [Endpoint(hostname)]
    requires Servers(on) == [DNS_SERVER] + WithRemoteServer(Servers(c))
    requires NameRules(on) == DnsRules(domain) + NameRules(c)
    requires RouteRulesOf(on) == InsertAll(RouteRulesOf(c), i, RouteRules(domain))
    ensures IsAdded(c, on, domain, hostname)
  {
  }

  lemma {:induction false} AddedElsewhere(root: map<string, Value>, domain: string, hostname: Option<string>,
                                          section: string, key: string)
    requires Add(root, domain, hostname).Some?
    ensures SameElsewhere(Obj(root), Obj(Add(root, domain, hostname).value), section, key)
  {
  }

  // ---------------------------------------------------------------- on and off again

  /** Where the toggle writes there is the right kind of value, or none. */
  ghost predicate Writable(config: Value) {
    (Get(config, "endpoints").Some? ==> Get(config, "endpoints").value.Arr?) &&
    (Get(config, "dns").Some? ==> Get(config, "dns").value.Obj?) &&
    (Get(config, "route").Some? ==> Get(config, "route").value.Obj?) &&
    (FieldIn(config, "dns", "servers").Some? ==> FieldIn(config, "dns", "servers").value.Arr?) &&
    (FieldIn(config, "dns", "rules").Some? ==> FieldIn(config, "dns", "rules").value.Arr?) &&
    (FieldIn(config, "route", "rules").Some? ==> FieldIn(config, "route", "rules").value.Arr?)
  }

  lemma {:induction false} AddAcceptedIff(root: map<string, Value>, domain: string, hostname: Option<string>)
    ensures Add(root, domain, hostname).Some? <==>
            Writable(Obj(root)) && forall v :: v in Endpoints(Obj(root)) ==> Get(v, "tag") != Some(Str("ts-ep"))
  {
    KindsMeaning(root);
    forall v ensures Tagged(v, ENDPOINT_TAG) <==> Get(v, "tag") == Some(Str("ts-ep")) {}
  }

  lemma {:induction false} KindsMeaning(root: map<string, Value>)
    ensures var dns, route := EntryObj(root, "dns"), EntryObj(root, "route");
            Writable(Obj(root)) <==>
            EntryArr(root, "endpoints").Some? && dns.Some? && route.Some? && EntryArr(dns.value, "servers").Some? &&
            EntryArr(dns.value, "rules").Some? && EntryArr(route.value, "rules").Some?
    ensures Writable(Obj(root)) ==> EntryArr(root, "endpoints").value == Endpoints(Obj(root))
  {
  }

  /** Switching on is refused exactly when switching off is, when what that leaves cannot be written to or holds an
      endpoint of this name, when a foreign DNS server bears the server's name, or without a domain. */
  lemma {:induction false} OnAcceptedIff(config: Value, o: Options)
    ensures EnsureTailscale(config, Some(o)).Ok? <==>
            EnsureTailscale(config, None).Ok? && Writable(EnsureTailscale(config, None).value) &&
            (forall v :: v in Endpoints(EnsureTailscale(config, None).value) ==> Get(v, "tag") != Some(Str("ts-ep"))) &&
            (forall v :: v in Servers(config) && Get(v, "tag") == Some(Str("tailscale-dns")) ==> IsOurServer(v)) &&
            Domains.TrimStart(Trim(o.tailnetDomain), Domains.IsDot) != []
  {
    var domain := Domains.TrimStart(Trim(o.tailnetDomain), Domains.IsDot);
    if config.Obj? {
      TakenMeaning(config);
      if Remove(config.fields).Some? { AddAcceptedIff(Remove(config.fields).value, domain, o.hostname); }
    }
  }

  lemma {:induction false} TakenMeaning(config: Value)
    requires config.Obj?
    ensures DnsTagTaken(config.fields) <==>
            exists v :: v in Servers(config) && Get(v, "tag") == Some(Str("tailscale-dns")) && !IsOurServer(v)
  {
    forall v ensures IsManagedServer(v) <==> IsOurServer(v) { OwnMeaning(v); }
    forall v ensures Tagged(v, DNS_TAG) <==> Get(v, "tag") == Some(Str("tailscale-dns")) {}
  }

  /** Switching on starts from what switching off leaves. */
  lemma {:induction false} OnIsAdded(config: Value, o: Options) returns (root: map<string, Value>, domain: string)
    requires EnsureTailscale(config, Some(o)).Ok?
    ensures config.Obj? && Remove(config.fields) == Some(root) && EnsureTailscale(config, None) == Ok(Obj(root))
    ensures Add(root, domain, o.hostname).Some? &&
            EnsureTailscale(config, Some(o)) == Ok(Obj(Add(root, domain, o.hostname).value))
  {
    root := Remove(config.fields).value;
    domain := Domains.TrimStart(Trim(o.tailnetDomain), Domains.IsDot);
  }

  /** The four lists once it is on. */
  lemma {:induction false} OnMeaning(config: Value, o: Options) returns (domain: string)
    requires EnsureTailscale(config, Some(o)).Ok?
    ensures EnsureTailscale(config, None).Ok?
    ensures IsAdded(EnsureTailscale(config, None).value, EnsureTailscale(config, Some(o)).value, domain, o.hostname)
  {
    var root;
    root, domain := OnIsAdded(config, o);
    AddedParts(root, domain, o.hostname);
  }

  /** The four lists once it is off. */
  lemma {:induction false} OffMeaning(config: Value)
    requires EnsureTailscale(config, None).Ok?
    ensures var off := EnsureTailscale(config, None).value;
            Endpoints(off) == Without(Endpoints(config), IsOurEndpoint) &&
            Servers(off) == Without(Servers(config), IsOurServer) &&
            NameRules(off) == (if Owns(Servers(config), IsOurServer)
                               then Without(NameRules(config), IsOurNameRule) else NameRules(config)) &&
            RouteRulesOf(off) == (if Owns(Endpoints(config), IsOurEndpoint)
                                  then Without(RouteRulesOf(config), IsOurRouteRule) else RouteRulesOf(config))
  {
    RemovedParts(config.fields);
    forall v ensures (IsManagedEndpoint(v) <==> IsOurEndpoint(v)) && (IsManagedServer(v) <==> IsOurServer(v)) &&
                     (IsManagedDnsRule(v) <==> IsOurNameRule(v)) && (IsManagedRouteRule(v) <==> IsOurRouteRule(v))
    {
      OwnMeaning(v);
    }
    SameRest(Endpoints(config), IsManagedEndpoint, IsOurEndpoint);
    SameRest(Servers(config), IsManagedServer, IsOurServer);
    SameRest(NameRules(config), IsManagedDnsRule, IsOurNameRule);
    SameRest(RouteRulesOf(config), IsManagedRouteRule, IsOurRouteRule);
  }

  /** Nothing but endpoints, DNS servers, DNS rules and route rules is touched, on or off. */
  lemma {:induction false} NothingElseChanges(config: Value, options: Option<Options>, section: string, key: string)
    requires EnsureTailscale(config, options).Ok?
    ensures SameElsewhere(config, EnsureTailscale(config, options).value, section, key)
  {
    RemovedElsewhere(config.fields, section, key);
    if options.Some? {
      var root, domain := OnIsAdded(config, options.value);
      AddedElsewhere(root, domain, options.value.hostname, section, key);
    }
  }

  lemma {:induction false} ServersAreOurs()
    ensures IsManagedServer(DNS_SERVER) && !IsManagedServer(ChinaRouting.REMOTE_SERVER)
  {
  }

  lemma {:induction false} EndpointIsOurs(hostname: Option<string>)
    ensures IsManagedEndpoint(Endpoint(hostname))
  {
  }

  lemma {:induction false} NameRulesAreOurs(domain: string)
    ensures forall v :: v in DnsRules(domain) ==> IsManagedDnsRule(v)
  {
    var r := DnsRules(domain);
    assert |r| == 2 && r[0].fields.Keys == {"domain_suffix", "server"};
    assert r[1].fields.Keys == {"domain_suffix", "server"};
    assert IsManagedDnsRule(r[0]) && IsManagedDnsRule(r[1]);
  }

  lemma {:induction false} RouteRulesAreOurs(domain: string)
    ensures forall v :: v in RouteRules(domain) ==> IsManagedRouteRule(v)
  {
    var r := RouteRules(domain);
    RouteRulesMeaning(domain);
    assert r[0].fields.Keys == {"domain_suffix", "action", "outbound"};
    assert r[1].fields.Keys == {"ip_cidr", "action", "outbound"};
    assert r[2].fields.Keys == {"preferred_by", "action", "outbound"};
    assert IsManagedRouteRule(r[0]) && IsManagedRouteRule(r[1]) && IsManagedRouteRule(r[2]);
  }

  /** Switched on and off again: endpoints are those of switching off alone, servers too but for the remote server that
      was added; of the rules, those that look like the program's own go, whoever wrote them. */
  lemma {:induction false} OnAndOff(config: Value, o: Options)
    requires EnsureTailscale(config, Some(o)).Ok?
    requires EnsureTailscale(EnsureTailscale(config, Some(o)).value, None).Ok?
    ensures EnsureTailscale(config, None).Ok?
    ensures var off := EnsureTailscale(config, None).value;
            var again := EnsureTailscale(EnsureTailscale(config, Some(o)).value, None).value;
            Endpoints(again) == Endpoints(off) && Servers(again) == WithRemoteServer(Servers(off)) &&
            NameRules(again) == Without(NameRules(off), IsManagedDnsRule) &&
            RouteRulesOf(again) == Without(RouteRulesOf(off), IsManagedRouteRule)
  {
    var root, domain := OnIsAdded(config, o);
    RemovedParts(config.fields);
    KeptStays(Endpoints(config), IsManagedEndpoint);
    KeptStays(Servers(config), IsManagedServer);
    var on := Add(root, domain, o.hostname).value;
    AddedParts(root, domain, o.hostname);
    RemovedParts(on);
    BackAgain(Obj(root), Obj(on), Obj(Remove(on).value), domain, o.hostname);
  }

  lemma {:induction false} BackAgain(c: Value, on: Value, again: Value, domain: string, hostname: Option<string>)
    requires IsAdded(c, on, domain, hostname) && IsRemoved(on, again)
    requires Without(Endpoints(c), IsManagedEndpoint) == Endpoints(c)
    requires Without(Servers(c), IsManagedServer) == Servers(c)
    ensures Endpoints(again) == Endpoints(c) && Servers(again) == WithRemoteServer(Servers(c)) &&
            NameRules(again) == Without(NameRules(c), IsManagedDnsRule) &&
            RouteRulesOf(again) == Without(RouteRulesOf(c), IsManagedRouteRule)
  {
    EndpointIsOurs(hostname);
    EndpointsBack(Endpoints(c), Endpoint(hostname));
    ServersBack(Servers(c));
    var i: nat :| i <= |RouteRulesOf(c)| && AfterHijacks(RouteRulesOf(c), i) &&
                  RouteRulesOf(on) == InsertAll(RouteRulesOf(c), i, RouteRules(domain));
    RoutesBack(c, on, Endpoint(hostname), domain, i);
    NamesBack(c, on, domain);
  }

  lemma {:induction false} RoutesBack(c: Value, on: Value, endpoint: Value, domain: string, i: nat)
    requires Endpoints(on) == Endpoints(c) + [endpoint] && IsManagedEndpoint(endpoint) && i <= |RouteRulesOf(c)|
    requires RouteRulesOf(on) == InsertAll(RouteRulesOf(c), i, RouteRules(domain))
    ensures LeftRoutes(on) == Without(RouteRulesOf(c), IsManagedRouteRule)
  {
    assert endpoint in Endpoints(on);
    RouteRulesAreOurs(domain);
    RulesBack(RouteRulesOf(c), i, RouteRules(domain), IsManagedRouteRule);
  }

  lemma {:induction false} NamesBack(c: Value, on: Value, domain: string)
    requires Servers(on) == [DNS_SERVER] + WithRemoteServer(Servers(c))
    requires NameRules(on) == DnsRules(domain) + NameRules(c)
    ensures LeftNames(on) == Without(NameRules(c), IsManagedDnsRule)
  {
    ServersAreOurs();
    assert DNS_SERVER in Servers(on);
    NameRulesAreOurs(domain);
    RulesBack(NameRules(c), 0, DnsRules(domain), IsManagedDnsRule);
    assert NameRules(on) == InsertAll(NameRules(c), 0, DnsRules(domain));
  }

  lemma {:induction false} RulesBack(rules: seq<Value>, i: nat, added: seq<Value>, own: Value -> bool)
    requires i <= |rules| && forall v :: v in added ==> own(v)
    ensures Without(InsertAll(rules, i, added), own) == Without(rules, own)
  {
    RetainNone(added, Not(own));
    RetainMiddle(rules[..i], added, rules[i..], Not(own));
    Rejoin(rules, i);
  }

  lemma {:induction false} EndpointsBack(s: seq<Value>, e: Value)
    requires IsManagedEndpoint(e)
    ensures var kept := Without(s, IsManagedEndpoint); Without(kept + [e], IsManagedEndpoint) == kept
  {
    var kept := Without(s, IsManagedEndpoint);
    KeptStays(s, IsManagedEndpoint);
    RetainAppend(kept, [e], Not(IsManagedEndpoint));
    RetainNone([e], Not(IsManagedEndpoint));
  }

  lemma {:induction false} ServersBack(s: seq<Value>)
    ensures var kept := Without(s, IsManagedServer);
            Without([DNS_SERVER] + WithRemoteServer(kept), IsManagedServer) == WithRemoteServer(kept)
  {
    var own, kept, remote := Not(IsManagedServer), Without(s, IsManagedServer), [ChinaRouting.REMOTE_SERVER];
    ServersAreOurs();
    KeptStays(s, IsManagedServer);
    RetainAppend(kept, remote, own);
    RetainAll(remote, own);
    RetainNone([DNS_SERVER], own);
    RetainAppend([DNS_SERVER], WithRemoteServer(kept), own);
  }

  lemma {:induction false} KeptStays(s: seq<Value>, own: Value -> bool)
    ensures Without(Without(s, own), own) == Without(s, own)
  {
    forall v | v in Without(s, own) ensures !own(v) { RetainMembers(s, Not(own), v); }
    RetainAll(Without(s, own), Not(own));
  }

  lemma {:induction false} WithoutAllIff(s: seq<Value>, own: Value -> bool)
    ensures Without(s, own) == s <==> forall v :: v in s ==> !own(v)
  {
    if forall v :: v in s ==> !own(v) { RetainAll(s, Not(own)); }
    if Without(s, own) == s {
      forall v | v in s ensures !own(v) { RetainMembers(s, Not(own), v); }
    }
  }

  /** So the rules come back as switching off alone leaves them if and only if none of them looks like the program's
      own; rules that do are left over when an endpoint or server was edited by hand. */
  lemma {:induction false} RulesComeBackIff(config: Value, o: Options)
    requires EnsureTailscale(config, Some(o)).Ok?
    requires EnsureTailscale(EnsureTailscale(config, Some(o)).value, None).Ok?
    ensures EnsureTailscale(config, None).Ok?
    ensures var off := EnsureTailscale(config, None).value;
            var again := EnsureTailscale(EnsureTailscale(config, Some(o)).value, None).value;
            (NameRules(again) == NameRules(off) <==> forall v :: v in NameRules(off) ==> !IsOurNameRule(v)) &&
            (RouteRulesOf(again) == RouteRulesOf(off) <==> forall v :: v in RouteRulesOf(off) ==> !IsOurRouteRule(v))
  {
    OnAndOff(config, o);
    var off := EnsureTailscale(config, None).value;
    WithoutAllIff(NameRules(off), IsManagedDnsRule);
    WithoutAllIff(RouteRulesOf(off), IsManagedRouteRule);
    forall v ensures (IsManagedDnsRule(v) <==> IsOurNameRule(v)) && (IsManagedRouteRule(v) <==> IsOurRouteRule(v)) {
      OwnMeaning(v);
    }
  }

  /** What is switched on can be switched off. */
  lemma {:induction false} OnCanGoOff(config: Value, o: Options)
    requires EnsureTailscale(config, Some(o)).Ok?
    ensures EnsureTailscale(EnsureTailscale(config, Some(o)).value, None).Ok?
  {
    var root, domain := OnIsAdded(config, o);
    var dns, route, i := AddParts(root, domain, o.hostname);
    ComposedCanGo(root, Endpoints(Obj(root)) + [Endpoint(o.hostname)], dns, route);
  }

  lemma {:induction false} ComposedCanGo(root: map<string, Value>, endpoints: seq<Value>, dns: map<string, Value>,
                                         route: map<string, Value>)
    requires EntryArr(dns, "servers").Some? && EntryArr(dns, "rules").Some? && EntryArr(route, "rules").Some?
    ensures Remove(Composed(root, endpoints, dns, route)).Some?
  {
    StripsLists(dns);
  }

  lemma {:induction false} StripsLists(dns: map<string, Value>)
    requires EntryArr(dns, "servers").Some? && EntryArr(dns, "rules").Some?
    ensures StripDns(dns).Some?
  {
  }
}
