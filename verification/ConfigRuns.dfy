/** The config file over whole runs of edits: as long as the managed TUN is there, the program's own
    dials stay bound to the physical interface. */
module ConfigRuns {
  import opened Prelude
  import opened Json
  import opened Tun
  import ChinaRouting
  import PrivateRules
  import PrivateAccess
  import Tailscale
  import Provider
  import Merge
  import Outbounds
  import Domains
  import RulePass

  /** The edits the program makes to an existing config. */
  datatype Step =
    | SetTun(enable: bool, restore: Option<RouteFlag>)
    | Baseline(carriers: seq<string>)
    | RouteTable(options: PrivateAccess.Options)
    | China(enable: bool, dir: string)
    | SetTailscale(tailscale: Option<Tailscale.Options>)
    | MergeNodes(nodes: seq<Value>, replace: bool, linux: bool)
    | Refresh(sets: seq<Provider.NodeSet>, replace: bool, linux: bool)

  function Edited(config: Value, step: Step): Result<Value> {
    match step
    case SetTun(enable, restore) => SetInternetTunMode(config, enable, restore)
    case Baseline(carriers) => PrivateAccess.EnsureBaseline(config, carriers)
    case RouteTable(options) => PrivateAccess.EnsureRouteTable(config, options)
    case China(enable, dir) => ChinaRouting.EnsureChinaIpRouting(config, enable, dir)
    case SetTailscale(options) => Tailscale.EnsureTailscale(config, options)
    case MergeNodes(nodes, replace, linux) => Merge.MergeNodes(config, nodes, replace, linux)
    case Refresh(sets, replace, linux) => Merge.RefreshProviders(config, sets, replace, linux)
  }

  /** A refused edit writes nothing. */
  function After(config: Value, step: Step): Value {
    match Edited(config, step) case Ok(c) => c case Err => config
  }

  function Run(config: Value, steps: seq<Step>): Value {
    if steps == [] then config else After(Run(config, steps[..|steps| - 1]), steps[|steps| - 1])
  }

  /** The managed TUN is there only together with the flag that keeps its own traffic out of it. */
  ghost predicate Protected(config: Value) {
    HasManagedTun(config) ==> FlagOf(config) == Ok(Enabled)
  }

  /** `InternetTunModeUpdate`: what the caller saves to hand back when it switches the TUN off. */
  datatype TunUpdate = TunUpdate(changed: bool, before: RouteFlag)

  /** The config file. */
  class ConfigFile {
    var config: Value

    constructor (initial: Value)
      ensures config == initial
    {
      config := initial;
    }

    /** Read, edit, and write back when something changed. */
    method Perform(step: Step) returns (r: Result<bool>)
      modifies this
      ensures config == After(old(config), step)
      ensures r.Ok? <==> Edited(old(config), step).Ok?
      ensures r.Ok? ==> (r.value <==> config != old(config))
      ensures Protected(old(config)) ==> Protected(config)
      ensures HasOtherTun(config) ==> HasOtherTun(old(config))
    {
      StepFrame(config, step);
      var edited := Edited(config, step);
      if edited.Err? { return Err; }
      var changed := edited.value != config;
      if changed { config := edited.value; }
      return Ok(changed);
    }

    /** `set_internet_tun_mode`. */
    method SetInternetTun(enable: bool, restore: Option<RouteFlag>) returns (r: Result<TunUpdate>)
      modifies this
      ensures config == After(old(config), SetTun(enable, restore))
      ensures r.Ok? <==> SetInternetTunMode(old(config), enable, restore).Ok?
      ensures r.Ok? ==> (r.value.changed <==> config != old(config)) && FlagOf(old(config)) == Ok(r.value.before)
      ensures r.Ok? ==> Protected(config) && (HasManagedTun(config) <==> enable)
    {
      var before := FlagOf(config);
      if SetInternetTunMode(config, enable, restore).Ok? {
        ToggleDecides(config, enable, restore);
        TunStep(config, enable, restore);
      }
      var done := Perform(SetTun(enable, restore));
      if done.Err? { return Err; }
      return Ok(TunUpdate(done.value, before.value));
    }
  }

  // ---------------------------------------------------------------- what each edit leaves alone

  /** No TUN appears, and a flag that protects one stays. */
  ghost predicate Framed(before: Value, after: Value) {
    (HasManagedTun(after) ==> HasManagedTun(before)) && (HasOtherTun(after) ==> HasOtherTun(before)) &&
    (HasManagedTun(before) && FlagOf(before) == Ok(Enabled) ==> FlagOf(after) == Ok(Enabled))
  }

  /** More than that: a flag that is set stays, with or without a TUN. */
  ghost predicate Spared(before: Value, after: Value) {
    Framed(before, after) && (FlagOf(before) == Ok(Enabled) ==> FlagOf(after) == Ok(Enabled))
  }

  /** The usual reason: the same inbounds, and a route edited elsewhere. */
  ghost predicate Aside(before: Value, after: Value) {
    Get(after, "inbounds") == Get(before, "inbounds") &&
    (FlagOf(before) == Ok(Enabled) ==> FlagOf(after) == Ok(Enabled))
  }

  lemma {:induction false} AsideIsSpared(before: Value, after: Value)
    requires Aside(before, after)
    ensures Spared(before, after)
  {
    assert Items(after, "inbounds") == Items(before, "inbounds");
  }

  lemma {:induction false} ChinaIsAside(config: Value, enable: bool, dir: string)
    requires ChinaRouting.EnsureChinaIpRouting(config, enable, dir).Ok?
    ensures Aside(config, ChinaRouting.EnsureChinaIpRouting(config, enable, dir).value)
  {
    var root := config.fields;
    var direct := if enable then ChinaRouting.DirectTag(Items(config, "outbounds")) else Some("");
    var route := EntryObj(root, "route").value;
    var route' := ChinaRouting.EditRoute(route, enable, direct.value, dir).value;
    ChinaRouteKeepsFlag(route, enable, direct.value, dir);
    RebuiltAside(root, route', ChinaRouting.EditDns(EntryObj(root, "dns").value, enable).value);
  }

  lemma {:induction false} ChinaRouteKeepsFlag(route: map<string, Value>, enable: bool, direct: string, dir: string)
    requires ChinaRouting.EditRoute(route, enable, direct, dir).Some?
    ensures FlagIn(ChinaRouting.EditRoute(route, enable, direct, dir).value) == FlagIn(route)
  {
  }

  lemma {:induction false} RebuiltAside(root: map<string, Value>, route: map<string, Value>, dns: map<string, Value>)
    ensures Get(Obj(ChinaRouting.Rebuilt(root, route, dns)), "inbounds") == Get(Obj(root), "inbounds")
    ensures FlagOf(Obj(ChinaRouting.Rebuilt(root, route, dns))) == FlagIn(route)
  {
  }

  lemma {:induction false} WriteIsFramed(config: Value, baseline: bool, outbounds: seq<Value>, rules: seq<Value>)
    requires PrivateAccess.Write(config, baseline, outbounds, rules).Ok?
    ensures Framed(config, PrivateAccess.Write(config, baseline, outbounds, rules).value)
  {
    var root := config.fields;
    var route := EntryObj(root, "route").value;
    var dns := if baseline then PrivateAccess.EnsureSystemDns(root) else None;
    var flag := if baseline then PrivateAccess.BaselineFlag(config) else None;
    var route' := PrivateAccess.EditRoute(route, flag, rules);
    var r := PrivateAccess.Rebuilt(root, outbounds, dns, route');
    PrivateAccess.RebuiltEntries(root, outbounds, dns, route', outbounds, dns, route');
    PrivateAccess.RouteEntries(route, flag, rules, flag);
    assert FlagOf(Obj(r)) == FlagIn(route');
    assert Items(Obj(r), "inbounds") == Items(config, "inbounds");
  }

  lemma {:induction false} ApplyIsFramed(config: Value, t: PrivateRules.Table)
    requires PrivateAccess.Apply(config, t).Ok?
    ensures Framed(config, PrivateAccess.Apply(config, t).value)
  {
    if PrivateAccess.Touches(t) {
      var outbounds := Items(config, "outbounds");
      WriteIsFramed(config, t.proxy.None?, PrivateAccess.EditOutbounds(outbounds, t),
                    RulePass.Pass(PrivateAccess.RulesOf(config), PrivateAccess.EditOf(outbounds, t)));
    }
  }

  // ---------------------------------------------------------------- Tailscale

  lemma {:induction false} FilteredKeeps(m: map<string, Value>, key: string, drop: Value -> bool, other: string)
    requires Tailscale.Filtered(m, key, drop).Some? && other != key
    ensures Get(Obj(Tailscale.Filtered(m, key, drop).value), other) == Get(Obj(m), other)
  {
  }

  lemma {:induction false} RemoveIsAside(root: map<string, Value>)
    requires Tailscale.Remove(root).Some?
    ensures Aside(Obj(root), Obj(Tailscale.Remove(root).value))
  {
    var r1 := Tailscale.Filtered(root, "endpoints", Tailscale.IsManagedEndpoint).value;
    FilteredKeeps(root, "endpoints", Tailscale.IsManagedEndpoint, "inbounds");
    FilteredKeeps(root, "endpoints", Tailscale.IsManagedEndpoint, "route");
    var r2 := Tailscale.Within(r1, "dns", Tailscale.StripDns).value;
    WithinKeeps(r1, "dns", Tailscale.StripDns, "inbounds");
    WithinKeeps(r1, "dns", Tailscale.StripDns, "route");
    StripRouteIsAside(r2);
  }

  lemma {:induction false} WithinKeeps(m: map<string, Value>, key: string,
                                       edit: map<string, Value> -> Option<map<string, Value>>, other: string)
    requires Tailscale.Within(m, key, edit).Some? && other != key
    ensures Get(Obj(Tailscale.Within(m, key, edit).value), other) == Get(Obj(m), other)
  {
  }

  lemma {:induction false} StripRouteIsAside(root: map<string, Value>)
    ensures var r := Tailscale.Within(root, "route", Tailscale.StripRoute); r.Some? ==> Aside(Obj(root), Obj(r.value))
  {
    if Tailscale.Within(root, "route", Tailscale.StripRoute).Some? && "route" in root && root["route"].Obj? {
      FilteredKeeps(root["route"].fields, "rules", Tailscale.IsManagedRouteRule, FLAG);
    }
  }

  lemma {:induction false} AddIsAside(root: map<string, Value>, domain: string, hostname: Option<string>)
    requires Tailscale.Add(root, domain, hostname).Some?
    ensures Aside(Obj(root), Obj(Tailscale.Add(root, domain, hostname).value))
  {
  }

  lemma {:induction false} TailscaleIsAside(config: Value, options: Option<Tailscale.Options>)
    requires Tailscale.EnsureTailscale(config, options).Ok?
    ensures Aside(config, Tailscale.EnsureTailscale(config, options).value)
  {
    var root := Tailscale.Remove(config.fields).value;
    RemoveIsAside(config.fields);
    if options.Some? {
      var domain := Domains.TrimStart(Tailscale.Trim(options.value.tailnetDomain), Domains.IsDot);
      AddIsAside(root, domain, options.value.hostname);
    }
  }

  // ---------------------------------------------------------------- merging

  lemma {:induction false} LegacyKeepsTuns(s: seq<Value>)
    ensures (exists v :: v in Merge.AllWithoutLegacy(s) && IsManagedTun(v)) ==> exists v :: v in s && IsManagedTun(v)
    ensures (exists v :: v in Merge.AllWithoutLegacy(s) && IsOtherTun(v)) ==> exists v :: v in s && IsOtherTun(v)
  {
    forall v | v in Merge.AllWithoutLegacy(s)
      ensures exists w :: w in s && IsTun(w) == IsTun(v) && IsManagedTun(w) == IsManagedTun(v) {
      var k :| 0 <= k < |s| && v == Merge.WithoutLegacy(s[k]);
      assert s[k] in s;
    }
  }

  lemma {:induction false} MigrationKeepsTuns(items: seq<Value>, linux: bool)
    ensures var kept := if linux then items else Retain(items, v => !Merge.IsAutoRedirectTun(v));
            forall v :: v in kept ==> v in items
  {
    forall v | v in Retain(items, v => !Merge.IsAutoRedirectTun(v)) ensures v in items {
      RetainMembers(items, v => !Merge.IsAutoRedirectTun(v), v);
    }
  }

  lemma {:induction false} EditRulesIsAside(root: map<string, Value>, edit: seq<Value> -> seq<Value>)
    requires Merge.EditRules(root, edit).Some?
    ensures Aside(Obj(root), Obj(Merge.EditRules(root, edit).value))
  {
  }

  lemma {:induction false} InboundsMigrate(root: map<string, Value>, linux: bool)
    requires Merge.MigrateInbounds(root, linux).Some?
    ensures Spared(Obj(root), Obj(Merge.MigrateInbounds(root, linux).value))
  {
    if "inbounds" in root {
      var items := root["inbounds"].items;
      var kept := if linux then items else Retain(items, v => !Merge.IsAutoRedirectTun(v));
      var r := root["inbounds" := Arr(Merge.AllWithoutLegacy(kept))];
      var front := Merge.Actions(kept);
      MigrationKeepsTuns(items, linux);
      LegacyKeepsTuns(kept);
      FlagAndInbounds(root, Merge.AllWithoutLegacy(kept));
      assert Spared(Obj(root), Obj(r));
      if front != [] {
        EditRulesIsAside(r, rules => Merge.PrependMissing(rules, front));
        AsideIsSpared(Obj(r), Obj(Merge.MigrateInbounds(root, linux).value));
      }
    }
  }

  lemma {:induction false} MergedRouteKeepsFlag(route: map<string, Value>, selector: string, direct: string)
    requires Merge.MergeRoute(route, selector, direct).Some?
    ensures FlagIn(Merge.MergeRoute(route, selector, direct).value) == FlagIn(route)
  {
  }

  lemma {:induction false} MergeRootIsAside(root: map<string, Value>, merged: Option<seq<Value>>)
    requires Merge.MergeRoot(root, merged).Ok?
    ensures Aside(Obj(root), Merge.MergeRoot(root, merged).value)
  {
    var outbounds, route := EntryArr(root, "outbounds").value, EntryObj(root, "route").value;
    var selector, direct := Outbounds.SelectorOf(outbounds), Outbounds.Named(outbounds, Outbounds.DIRECT_ALIASES);
    MergedRouteKeepsFlag(route, selector, direct);
    Merge.RootedEntries(root, merged.value, Merge.MergeRoute(route, selector, direct).value,
                        Merge.MergeExperimental(root).value);
  }

  lemma {:induction false} MergeIsSpared(config: Value, nodes: seq<Value>, replace: bool, linux: bool)
    requires Merge.MergeNodes(config, nodes, replace, linux).Ok?
    ensures Spared(config, Merge.MergeNodes(config, nodes, replace, linux).value)
  {
    var root := Merge.Migrated(config, linux).value;
    MigratedIsSpared(config, linux, Provider.MergeOutbounds(Items(Obj(root), "outbounds"), nodes, replace));
  }

  lemma {:induction false} MigratedIsSpared(config: Value, linux: bool, merged: Option<seq<Value>>)
    requires Merge.Migrated(config, linux).Some? && Merge.MergeRoot(Merge.Migrated(config, linux).value, merged).Ok?
    ensures Spared(config, Merge.MergeRoot(Merge.Migrated(config, linux).value, merged).value)
  {
    var root, migrated := Merge.MigrateInbounds(config.fields, linux).value, Merge.Migrated(config, linux).value;
    InboundsMigrate(config.fields, linux);
    DnsIsAside(root);
    MergeRootIsAside(migrated, merged);
    AsideIsSpared(Obj(migrated), Merge.MergeRoot(migrated, merged).value);
  }

  lemma {:induction false} DnsIsAside(root: map<string, Value>)
    ensures Spared(Obj(root), Obj(Merge.MigrateDns(root)))
  {
    Merge.MigrationKeepsDns(root);
    AsideIsSpared(Obj(root), Obj(Merge.MigrateDns(root)));
  }

  lemma {:induction false} OutboundsAreAside(config: Value, outbounds: seq<Value>)
    ensures Aside(config, Merge.WithOutbounds(config, outbounds))
  {
  }

  lemma {:induction false} RefreshIsSpared(config: Value, sets: seq<Provider.NodeSet>, replace: bool, linux: bool)
    requires Merge.RefreshProviders(config, sets, replace, linux).Ok?
    ensures Spared(config, Merge.RefreshProviders(config, sets, replace, linux).value)
  {
    var removed := Merge.RemoveProviders(config, sets);
    RemovedIsSpared(config, sets);
    MergeIsSpared(removed, Provider.Imported(sets), replace, linux);
    var merged := Merge.MergeNodes(removed, Provider.Imported(sets), replace, linux).value;
    OutboundsAreSpared(merged, Provider.AddGroups(Items(merged, "outbounds"), sets));
    SparedThrough(config, removed, merged);
    SparedThrough(config, merged, Merge.RefreshProviders(config, sets, replace, linux).value);
  }

  lemma {:induction false} SparedThrough(a: Value, b: Value, c: Value)
    requires Spared(a, b) && Spared(b, c)
    ensures Spared(a, c)
  {
  }

  lemma {:induction false} OutboundsAreSpared(config: Value, outbounds: seq<Value>)
    ensures Spared(config, Merge.WithOutbounds(config, outbounds))
  {
    OutboundsAreAside(config, outbounds);
    AsideIsSpared(config, Merge.WithOutbounds(config, outbounds));
  }

  lemma {:induction false} RemovedIsSpared(config: Value, sets: seq<Provider.NodeSet>)
    ensures Spared(config, Merge.RemoveProviders(config, sets))
  {
    OutboundsAreSpared(config, Provider.RemoveManaged(Items(config, "outbounds"), sets));
  }

  // ---------------------------------------------------------------- runs

  /** Every step keeps the protection, and none brings in a TUN of its own. */
  lemma {:induction false} StepFrame(config: Value, step: Step)
    ensures Protected(config) ==> Protected(After(config, step))
    ensures HasOtherTun(After(config, step)) ==> HasOtherTun(config)
    ensures !step.SetTun? ==> Framed(config, After(config, step))
  {
    if Edited(config, step).Ok? {
      match step
      case SetTun(enable, restore) => TunStep(config, enable, restore);
      case Baseline(carriers) =>
        ApplyIsFramed(config, PrivateRules.Table(PrivateRules.Targets([], [], []), PrivateRules.Targets([], [], []),
                                                 Domains.NormalizeDomains(carriers), None));
      case RouteTable(options) => ApplyIsFramed(config, PrivateAccess.TableOf(options).value);
      case China(enable, dir) =>
        ChinaIsAside(config, enable, dir);
        AsideIsSpared(config, After(config, step));
      case SetTailscale(options) =>
        TailscaleIsAside(config, options);
        AsideIsSpared(config, After(config, step));
      case MergeNodes(nodes, replace, linux) => MergeIsSpared(config, nodes, replace, linux);
      case Refresh(sets, replace, linux) => RefreshIsSpared(config, sets, replace, linux);
    }
  }

  lemma {:induction false} TunStep(config: Value, enable: bool, restore: Option<RouteFlag>)
    requires SetInternetTunMode(config, enable, restore).Ok?
    ensures var after := SetInternetTunMode(config, enable, restore).value;
            Protected(after) && (HasOtherTun(after) ==> HasOtherTun(config))
  {
    if enable {
      assert SetInternetTunMode(config, true, restore) == SetInternetTunMode(config, true, None);
      EnableProtects(config);
    } else {
      DisableRemoves(config, restore);
    }
  }

  lemma {:induction false} ToggleDecides(config: Value, enable: bool, restore: Option<RouteFlag>)
    requires SetInternetTunMode(config, enable, restore).Ok?
    ensures HasManagedTun(SetInternetTunMode(config, enable, restore).value) <==> enable
  {
    if enable {
      assert SetInternetTunMode(config, true, restore) == SetInternetTunMode(config, true, None);
      EnableProtects(config);
    } else {
      DisableRemoves(config, restore);
    }
  }

  /** In every run from a protected config, the managed TUN is never there without the flag. */
  lemma {:induction false} LoopProtection(config: Value, steps: seq<Step>)
    requires Protected(config)
    ensures Protected(Run(config, steps))
  {
    if steps != [] {
      LoopProtection(config, steps[..|steps| - 1]);
      StepFrame(Run(config, steps[..|steps| - 1]), steps[|steps| - 1]);
    }
  }

  lemma {:induction false} NoOtherTun(config: Value, steps: seq<Step>)
    requires !HasOtherTun(config)
    ensures !HasOtherTun(Run(config, steps))
  {
    if steps != [] {
      NoOtherTun(config, steps[..|steps| - 1]);
      StepFrame(Run(config, steps[..|steps| - 1]), steps[|steps| - 1]);
    }
  }

  /** Whatever edits come between switching the TUN on and switching it off with the saved state, the TUN is
      gone and the flag is back; only a route table that was missing may have been filled meanwhile. */
  lemma {:induction false} FlagComesBack(config: Value, steps: seq<Step>)
    requires Edited(config, SetTun(true, None)).Ok?
    requires var saved := FlagOf(config).value;
             Edited(Run(After(config, SetTun(true, None)), steps), SetTun(false, Some(saved))).Ok?
    ensures var saved := FlagOf(config).value;
            var off := After(Run(After(config, SetTun(true, None)), steps), SetTun(false, Some(saved)));
            !HasManagedTun(off) &&
            FlagOf(off) == Ok(if saved == RouteMissing && RouteHasMore(Run(After(config, SetTun(true, None)), steps))
                              then FieldMissing else saved)
  {
    EnableProtects(config);
    var on := After(config, SetTun(true, None));
    NoOtherTun(on, steps);
    DisableRestoresFlag(Run(on, steps), FlagOf(config).value);
  }
}
