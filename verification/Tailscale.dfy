/** The embedded Tailscale toggle: what it writes and what it takes out again. */
module Tailscale {
  import opened Prelude
  import opened Json
  import opened Domains
  import ChinaRouting
  import PrivateRules

  const ENDPOINT_TAG := "ts-ep"
  const DNS_TAG := "tailscale-dns"
  const STATE_DIRECTORY := ".local/tailscale-embedded"
  const CGNAT_CIDR := "100.64.0.0/10"
  const IPV6_CIDR := "fd7a:115c:a1e0::/48"

  datatype Options = Options(tailnetDomain: string, hostname: Option<string>)

  predicate IsManagedEndpoint(v: Value) {
    GetStr(v, "type") == Some("tailscale") && Tagged(v, ENDPOINT_TAG) &&
    GetStr(v, "state_directory") == Some(STATE_DIRECTORY) &&
    GetBool(v, "accept_routes") == Some(true) && GetBool(v, "system_interface") == Some(false)
  }

  predicate IsManagedServer(v: Value) {
    GetStr(v, "type") == Some("tailscale") && Tagged(v, DNS_TAG) && GetStr(v, "endpoint") == Some(ENDPOINT_TAG)
  }

  predicate OneString(v: Option<Value>) { v.Some? && v.value.Arr? && |v.value.items| == 1 && v.value.items[0].Str? }

  predicate IsManagedDnsRule(v: Value) {
    v.Obj? && |v.fields| == 2 &&
    ((GetStr(v, "server") == Some(DNS_TAG) && OneString(Get(v, "domain_suffix"))) ||
     (GetStr(v, "server") == Some("remote") &&
      Get(v, "domain_suffix") == Some(Arr([Str("tailscale.com"), Str("tailscale.io")]))))
  }

  predicate IsManagedRouteRule(v: Value) {
    v.Obj? && |v.fields| == 3 && GetStr(v, "action") == Some("route") && GetStr(v, "outbound") == Some(ENDPOINT_TAG) &&
    (OneString(Get(v, "domain_suffix")) || Get(v, "ip_cidr") == Some(Arr([Str(CGNAT_CIDR), Str(IPV6_CIDR)])) ||
     Get(v, "preferred_by") == Some(Arr([Str(ENDPOINT_TAG)])))
  }

  /** An array field filtered when it is there; nothing when it is there and no array. */
  function Filtered(m: map<string, Value>, key: string, drop: Value -> bool): Option<map<string, Value>> {
    if key !in m then Some(m)
    else match m[key] case Arr(items) => Some(m[key := Arr(Without(items, drop))]) case _ => None
  }

  function Without(s: seq<Value>, drop: Value -> bool): seq<Value> { Retain(s, Not(drop)) }

  function Not(p: Value -> bool): Value -> bool { v => !p(v) }

  /** An object field edited when it is there as an object. */
  function Within(m: map<string, Value>, key: string, edit: map<string, Value> -> Option<map<string, Value>>)
    : Option<map<string, Value>>
  {
    if key in m && m[key].Obj? then
      match edit(m[key].fields) case Some(f) => Some(m[key := Obj(f)]) case None => None
    else Some(m)
  }

  function StripDns(dns: map<string, Value>): Option<map<string, Value>> {
    var owned := exists v :: v in Items(Obj(dns), "servers") && IsManagedServer(v);
    match Filtered(dns, "servers", IsManagedServer)
    case Some(d) => if owned then Filtered(d, "rules", IsManagedDnsRule) else Some(d)
    case None => None
  }

  function StripRoute(route: map<string, Value>): Option<map<string, Value>> {
    Filtered(route, "rules", IsManagedRouteRule)
  }

  /** `remove_managed_tailscale_config`. */
  function Remove(root: map<string, Value>): Option<map<string, Value>> {
    var owned := exists v :: v in Items(Obj(root), "endpoints") && IsManagedEndpoint(v);
    match Filtered(root, "endpoints", IsManagedEndpoint)
    case None => None
    case Some(r1) =>
      match Within(r1, "dns", StripDns)
      case None => None
      case Some(r2) => if owned then Within(r2, "route", StripRoute) else Some(r2)
  }

  function Trim(s: string): string { TrimEnd(TrimStart(s, IsSpace), IsSpace) }

  function Endpoint(hostname: Option<string>): Value {
    var m := map["type" := Str("tailscale"), "tag" := Str(ENDPOINT_TAG), "state_directory" := Str(STATE_DIRECTORY),
                 "accept_routes" := Bool(true), "system_interface" := Bool(false)];
    Obj(if hostname.Some? && Trim(hostname.value) != [] then m["hostname" := Str(Trim(hostname.value))] else m)
  }

  function DnsRules(domain: string): seq<Value> {
    [Obj(map["domain_suffix" := Arr([Str(domain)]), "server" := Str(DNS_TAG)]),
     Obj(map["domain_suffix" := Arr([Str("tailscale.com"), Str("tailscale.io")]), "server" := Str("remote")])]
  }

  function RouteRules(domain: string): seq<Value> {
    [Obj(map["domain_suffix" := Arr([Str(domain)]), "action" := Str("route"), "outbound" := Str(ENDPOINT_TAG)]),
     Obj(map["ip_cidr" := Arr([Str(CGNAT_CIDR), Str(IPV6_CIDR)]), "action" := Str("route"),
             "outbound" := Str(ENDPOINT_TAG)]),
     Obj(map["preferred_by" := Arr([Str(ENDPOINT_TAG)]), "action" := Str("route"), "outbound" := Str(ENDPOINT_TAG)])]
  }

  function WithRemoteServer(servers: seq<Value>): seq<Value> {
    if exists v :: v in servers && Tagged(v, "remote") then servers else servers + [ChinaRouting.REMOTE_SERVER]
  }

  const DNS_SERVER := Obj(map["type" := Str("tailscale"), "tag" := Str(DNS_TAG), "endpoint" := Str(ENDPOINT_TAG),
                              "accept_default_resolvers" := Bool(false)])

  function Add(root: map<string, Value>, domain: string, hostname: Option<string>): Option<map<string, Value>> {
    match (EntryArr(root, "endpoints"), EntryObj(root, "dns"), EntryObj(root, "route"))
    case (Some(endpoints), Some(dns), Some(route)) =>
      (match (EntryArr(dns, "servers"), EntryArr(dns, "rules"), EntryArr(route, "rules"))
       case (Some(servers), Some(dnsRules), Some(rules)) =>
         if exists v :: v in endpoints && Tagged(v, ENDPOINT_TAG) then None
         else
           var i := PositionOr(rules, v => !PrivateRules.IsHijack(v), |rules|);
           var served := [DNS_SERVER] + WithRemoteServer(servers);
           Some(Composed(root, endpoints + [Endpoint(hostname)],
                         dns["servers" := Arr(served)]["rules" := Arr(DnsRules(domain) + dnsRules)],
                         route["rules" := Arr(InsertAll(rules, i, RouteRules(domain)))]))
       case _ => None)
    case _ => None
  }

  function Composed(root: map<string, Value>, endpoints: seq<Value>, dns: map<string, Value>, route: map<string, Value>)
      : map<string, Value> {
    root["endpoints" := Arr(endpoints)]["dns" := Obj(dns)]["route" := Obj(route)]
  }

  predicate DnsTagTaken(root: map<string, Value>) {
    var dns := Get(Obj(root), "dns");
    dns.Some? && exists v :: v in Items(dns.value, "servers") && Tagged(v, DNS_TAG) && !IsManagedServer(v)
  }

  /** `ensure_tailscale_config`. */
  function EnsureTailscale(config: Value, options: Option<Options>): Result<Value> {
    if !config.Obj? || (options.Some? && DnsTagTaken(config.fields)) then Err
    else
      match Remove(config.fields)
      case None => Err
      case Some(root) =>
        if options.None? then Ok(Obj(root))
        else
          var domain := TrimStart(Trim(options.value.tailnetDomain), IsDot);
          if domain == [] then Err
          else match Add(root, domain, options.value.hostname) case Some(r) => Ok(Obj(r)) case None => Err
  }
}
