/** The managed Internet TUN: its inbound, and the route flag that keeps the program's own dials out of it. */
module Tun {
  import opened Prelude
  import opened Json

  const TUN_TAG := "tun-in"
  const FLAG := "auto_detect_interface"
  const SYSTEM_DNS_TAG := "private-access-system"

  /** What `route.auto_detect_interface` was before the TUN was switched on. */
  datatype RouteFlag = RouteMissing | FieldMissing | Disabled | Enabled

  const DEFAULT_TUN := Obj(map["type" := Str("tun"), "tag" := Str(TUN_TAG), "address" := Arr([Str("172.19.0.1/30")]),
                               "mtu" := Num(9000), "auto_route" := Bool(true), "strict_route" := Bool(true),
                               "stack" := Str("mixed"), "endpoint_independent_nat" := Bool(true)])

  predicate IsTun(v: Value) { GetStr(v, "type") == Some("tun") }
  predicate IsManagedTun(v: Value) { IsTun(v) && Tagged(v, TUN_TAG) }
  predicate IsOtherTun(v: Value) { IsTun(v) && !IsManagedTun(v) }
  predicate IsReserved(v: Value) { Tagged(v, TUN_TAG) }
  predicate IsNotManaged(v: Value) { !IsManagedTun(v) }

  predicate HasManagedTun(config: Value) { exists v :: v in Items(config, "inbounds") && IsManagedTun(v) }
  predicate HasOtherTun(config: Value) { exists v :: v in Items(config, "inbounds") && IsOtherTun(v) }

  predicate ReservedTagConflict(config: Value) {
    var reserved := Retain(Items(config, "inbounds"), IsReserved);
    reserved != [] && (!IsManagedTun(reserved[0]) || |reserved| > 1)
  }

  /** `config_has_private_access_tun_baseline`. */
  predicate HasBaseline(config: Value) {
    var dns := Get(config, "dns");
    dns.Some? && exists v :: v in Items(dns.value, "servers") && Tagged(v, SYSTEM_DNS_TAG)
  }

  /** `route_auto_detect_interface_state`. */
  function FlagOf(config: Value): Result<RouteFlag> {
    match Get(config, "route")
    case None => Ok(RouteMissing)
    case Some(Obj(route)) => FlagIn(route)
    case Some(_) => Err
  }

  function FlagIn(route: map<string, Value>): Result<RouteFlag> {
    if FLAG !in route then Ok(FieldMissing)
    else match route[FLAG] case Bool(b) => Ok(if b then Enabled else Disabled) case _ => Err
  }

  /** `set_internet_tun_auto_detect_interface`. */
  function SetFlag(root: map<string, Value>, on: bool): Option<map<string, Value>> {
    match EntryObj(root, "route")
    case Some(route) => Some(root["route" := Obj(route[FLAG := Bool(on)])])
    case None => None
  }

  function DropFlag(root: map<string, Value>, dropEmpty: bool): Option<map<string, Value>> {
    match EntryObj(root, "route")
    case Some(route) =>
      var left := route - {FLAG};
      Some(if dropEmpty && left == map[] then root - {"route"} else root["route" := Obj(left)])
    case None => None
  }

  /** `restore_route_auto_detect_interface`. */
  function RestoreFlag(root: map<string, Value>, state: RouteFlag): Option<map<string, Value>> {
    match state
    case Disabled => SetFlag(root, false)
    case Enabled => SetFlag(root, true)
    case FieldMissing => DropFlag(root, false)
    case RouteMissing => if "route" !in root then Some(root) else DropFlag(root, true)
  }

  /** The managed inbound added when missing, or every managed inbound taken out. */
  function EditInbounds(root: map<string, Value>, enable: bool): Option<map<string, Value>> {
    match EntryArr(root, "inbounds")
    case None => None
    case Some(inbounds) =>
      if enable then Some(root["inbounds" := Arr(WithTun(inbounds))])
      else if "inbounds" !in root then Some(root)
      else Some(root["inbounds" := Arr(Retain(inbounds, IsNotManaged))])
  }

  function WithTun(inbounds: seq<Value>): seq<Value> {
    if exists v :: v in inbounds && IsManagedTun(v) then inbounds else inbounds + [DEFAULT_TUN]
  }

  /** `set_internet_tun_mode`, as the new config. */
  function SetInternetTunMode(config: Value, enable: bool, restore: Option<RouteFlag>): Result<Value> {
    if !config.Obj? || FlagOf(config).Err? || (enable && (ReservedTagConflict(config) || HasOtherTun(config))) then Err
    else
      match EditInbounds(config.fields, enable)
      case None => Err
      case Some(root) =>
        var done :=
          if enable then SetFlag(root, true)
          else if HasOtherTun(config) then Some(root)
          else if restore.Some? then RestoreFlag(root, restore.value)
          else if HasBaseline(config) then SetFlag(root, false)
          else Some(root);
        if done.None? then Err else Ok(Obj(done.value))
  }

  // ---------------------------------------------------------------- one toggle

  lemma {:induction false} FlagAndInbounds(root: map<string, Value>, inbounds: seq<Value>)
    ensures FlagOf(Obj(root["inbounds" := Arr(inbounds)])) == FlagOf(Obj(root))
    ensures Items(Obj(root["inbounds" := Arr(inbounds)]), "inbounds") == inbounds
  {
  }

  /** Enabling leaves exactly one managed inbound, no other TUN and the flag set. */
  lemma {:induction false} EnableProtects(config: Value)
    requires SetInternetTunMode(config, true, None).Ok?
    ensures var on := SetInternetTunMode(config, true, None).value;
            HasManagedTun(on) && !HasOtherTun(on) && !ReservedTagConflict(on) && FlagOf(on) == Ok(Enabled)
  {
    EnabledParts(config);
    TunIsAlone(Items(config, "inbounds"));
  }

  lemma {:induction false} EnabledParts(config: Value)
    requires SetInternetTunMode(config, true, None).Ok?
    ensures var on := SetInternetTunMode(config, true, None).value;
            Items(on, "inbounds") == WithTun(Items(config, "inbounds")) && FlagOf(on) == Ok(Enabled)
  {
    FlagIsSet(EditInbounds(config.fields, true).value);
  }

  lemma {:induction false} FlagIsSet(root: map<string, Value>)
    requires SetFlag(root, true).Some?
    ensures var after := Obj(SetFlag(root, true).value);
            FlagOf(after) == Ok(Enabled) && Items(after, "inbounds") == Items(Obj(root), "inbounds")
  {
  }

  lemma {:induction false} TunIsAlone(inbounds: seq<Value>)
    requires Retain(inbounds, IsReserved) != [] ==>
             |Retain(inbounds, IsReserved)| == 1 && IsManagedTun(Retain(inbounds, IsReserved)[0])
    requires forall v :: v in inbounds ==> !IsOtherTun(v)
    ensures var after := WithTun(inbounds);
            |Retain(after, IsReserved)| == 1 && IsManagedTun(Retain(after, IsReserved)[0]) &&
            (exists v :: v in after && IsManagedTun(v)) && forall v :: v in after ==> !IsOtherTun(v)
  {
    var reserved := Retain(inbounds, IsReserved);
    if v :| v in inbounds && IsManagedTun(v) {
      RetainMembers(inbounds, IsReserved, v);
    } else {
      if reserved != [] { RetainMembers(inbounds, IsReserved, reserved[0]); }
      RetainAppend(inbounds, [DEFAULT_TUN], IsReserved);
      DefaultTunIsManaged();
      assert DEFAULT_TUN in WithTun(inbounds);
    }
  }

  lemma {:induction false} DefaultTunIsManaged()
    ensures IsManagedTun(DEFAULT_TUN) && !IsOtherTun(DEFAULT_TUN)
    ensures Retain([DEFAULT_TUN], IsReserved) == [DEFAULT_TUN] && Retain([DEFAULT_TUN], IsNotManaged) == []
  {
  }

  lemma {:induction false} ManagedRemoved(inbounds: seq<Value>)
    ensures forall v :: v in Retain(inbounds, IsNotManaged) <==> v in inbounds && !IsManagedTun(v)
  {
    forall v ensures v in Retain(inbounds, IsNotManaged) <==> v in inbounds && !IsManagedTun(v) {
      RetainMembers(inbounds, IsNotManaged, v);
    }
  }

  /** The route table holds something besides the flag. */
  predicate RouteHasMore(config: Value) {
    var route := Get(config, "route");
    route.Some? && route.value.Obj? && route.value.fields - {FLAG} != map[]
  }

  /** Disabling takes every managed inbound out and adds no other TUN. Another TUN keeps the flag as it is;
      otherwise the flag is back to the saved state, except that a route table that was missing stays, without
      the flag, if it has been filled meanwhile. */
  lemma {:induction false} DisableRestoresFlag(config: Value, state: RouteFlag)
    requires SetInternetTunMode(config, false, Some(state)).Ok?
    ensures var off := SetInternetTunMode(config, false, Some(state)).value;
            !HasManagedTun(off) && (HasOtherTun(off) <==> HasOtherTun(config)) &&
            FlagOf(off) ==
            if HasOtherTun(config) then FlagOf(config)
            else Ok(if state == RouteMissing && RouteHasMore(config) then FieldMissing else state)
  {
    ManagedRemoved(Items(config, "inbounds"));
    var root := EditInbounds(config.fields, false).value;
    InboundsLeaveRoute(config.fields);
    if !HasOtherTun(config) { RestoredFlag(root, state); }
  }

  lemma {:induction false} InboundsLeaveRoute(root: map<string, Value>)
    requires EditInbounds(root, false).Some?
    ensures Get(Obj(EditInbounds(root, false).value), "route") == Get(Obj(root), "route")
  {
  }

  lemma {:induction false} RestoredFlag(root: map<string, Value>, state: RouteFlag)
    requires RestoreFlag(root, state).Some?
    ensures FlagOf(Obj(RestoreFlag(root, state).value)) ==
            Ok(if state == RouteMissing && RouteHasMore(Obj(root)) then FieldMissing else state)
    ensures Get(Obj(RestoreFlag(root, state).value), "inbounds") == Get(Obj(root), "inbounds")
  {
  }

  lemma {:induction false} DisableRemoves(config: Value, restore: Option<RouteFlag>)
    requires SetInternetTunMode(config, false, restore).Ok?
    ensures var off := SetInternetTunMode(config, false, restore).value;
            !HasManagedTun(off) && (HasOtherTun(off) ==> HasOtherTun(config))
  {
    ManagedRemoved(Items(config, "inbounds"));
  }

  // ---------------------------------------------------------------- there and back

  lemma {:induction false} FlagRoundTrip(root: map<string, Value>, inbounds: Value, after: Value)
    requires FlagOf(Obj(root)).Ok?
    ensures SetFlag(root["inbounds" := inbounds], true).Some?
    ensures RestoreFlag(SetFlag(root["inbounds" := inbounds], true).value["inbounds" := after],
                        FlagOf(Obj(root)).value) ==
            Some(root["inbounds" := after])
  {
    var on := SetFlag(root["inbounds" := inbounds], true).value["inbounds" := after];
    var route := EntryObj(root, "route").value;
    var on' := EntryObj(on, "route").value;
    assert on' == route[FLAG := Bool(true)];
    match FlagOf(Obj(root)).value {
      case RouteMissing =>
        assert on' - {FLAG} == map[];
        assert on - {"route"} == root["inbounds" := after];
      case FieldMissing =>
        assert on' - {FLAG} == route;
        assert on["route" := Obj(route)] == root["inbounds" := after];
      case Disabled =>
        assert on'[FLAG := Bool(false)] == route;
        assert on["route" := Obj(route)] == root["inbounds" := after];
      case Enabled =>
        assert on'[FLAG := Bool(true)] == route;
        assert on["route" := Obj(route)] == root["inbounds" := after];
    }
  }

  lemma {:induction false} TunComesOut(inbounds: seq<Value>)
    ensures Retain(WithTun(inbounds), IsNotManaged) == Retain(inbounds, IsNotManaged)
  {
    RetainAppend(inbounds, [DEFAULT_TUN], IsNotManaged);
    DefaultTunIsManaged();
  }

  /** Disabling with the state saved by enabling: the old config without its managed inbounds. */
  lemma {:induction false} DisableAfterEnable(config: Value)
    requires SetInternetTunMode(config, true, None).Ok?
    ensures var on, saved := SetInternetTunMode(config, true, None).value, FlagOf(config).value;
            SetInternetTunMode(on, false, Some(saved)) ==
            Ok(Obj(config.fields["inbounds" := Arr(Retain(Items(config, "inbounds"), IsNotManaged))]))
  {
    var root, inbounds := config.fields, Items(config, "inbounds");
    var on := SetInternetTunMode(config, true, None).value;
    EnableProtects(config);
    assert Items(on, "inbounds") == WithTun(inbounds);
    TunComesOut(inbounds);
    FlagRoundTrip(root, Arr(WithTun(inbounds)), Arr(Retain(inbounds, IsNotManaged)));
  }

  /** Enabling and then disabling with the saved state gives the exact config back if and only if
      there was an inbound list and it held no managed TUN. */
  lemma {:induction false} ToggleRestoresIff(config: Value)
    requires SetInternetTunMode(config, true, None).Ok?
    ensures var on, saved := SetInternetTunMode(config, true, None).value, FlagOf(config).value;
            SetInternetTunMode(on, false, Some(saved)) == Ok(config) <==>
            "inbounds" in config.fields && !HasManagedTun(config)
  {
    var root, inbounds := config.fields, Items(config, "inbounds");
    DisableAfterEnable(config);
    var kept := Retain(inbounds, IsNotManaged);
    ManagedRemoved(inbounds);
    if "inbounds" in root && !HasManagedTun(config) {
      RetainAll(inbounds, IsNotManaged);
      assert root["inbounds" := Arr(inbounds)] == root;
    }
  }

  /** A config without an inbound list comes back with an empty one. */
  lemma {:induction false} ToggleLeavesEmptyInbounds()
    ensures var config := Obj(map[]);
            SetInternetTunMode(config, true, None).Ok? &&
            SetInternetTunMode(SetInternetTunMode(config, true, None).value, false, Some(RouteMissing)) ==
            Ok(Obj(map["inbounds" := Arr([])]))
  {
    var config := Obj(map[]);
    assert Items(config, "inbounds") == [];
    assert SetInternetTunMode(config, true, None).Ok?;
    DisableAfterEnable(config);
  }
}
