/** The Internet TUN toggle told by the fields of the config, entry by entry. */
module TunMeaning {
  import opened Prelude
  import opened Json
  import opened Tun

  predicate IsTunEntry(v: Value) { Get(v, "type") == Some(Str("tun")) }

  predicate IsOurs(v: Value) { Get(v, "tag") == Some(Str("tun-in")) }

  /** The inbound list, when there is one. */
  function Inbounds(config: Value): seq<Value> {
    match Get(config, "inbounds") case Some(Arr(items)) => items case _ => []
  }

  /** A field of the route table, when there is one. */
  function RouteField(config: Value, key: string): Option<Value> {
    match Get(config, "route") case Some(Obj(route)) => (if key in route then Some(route[key]) else None) case _ => None
  }

  /** No list where one belongs, or no boolean. */
  ghost predicate Readable(config: Value) {
    config.Obj? &&
    (Get(config, "route").Some? ==> Get(config, "route").value.Obj?) &&
    (RouteField(config, "auto_detect_interface").Some? ==> RouteField(config, "auto_detect_interface").value.Bool?) &&
    (Get(config, "inbounds").Some? ==> Get(config, "inbounds").value.Arr?)
  }

  /** Every TUN bears the managed tag, and that tag is borne by at most one inbound, a TUN. */
  ghost predicate RoomForOurs(inbounds: seq<Value>) {
    (forall i :: 0 <= i < |inbounds| ==> (IsTunEntry(inbounds[i]) <==> IsOurs(inbounds[i]))) &&
    forall i, j :: 0 <= i < j < |inbounds| ==> !(IsOurs(inbounds[i]) && IsOurs(inbounds[j]))
  }

  ghost predicate HasForeignTun(inbounds: seq<Value>) {
    exists i :: 0 <= i < |inbounds| && IsTunEntry(inbounds[i]) && !IsOurs(inbounds[i])
  }

  lemma {:induction false} ReservedMeaning(inbounds: seq<Value>)
    ensures Retain(inbounds, IsReserved) == [] <==> forall i :: 0 <= i < |inbounds| ==> !IsOurs(inbounds[i])
    ensures |Retain(inbounds, IsReserved)| > 1 <==>
            exists i, j :: 0 <= i < j < |inbounds| && IsOurs(inbounds[i]) && IsOurs(inbounds[j])
  {
    if inbounds != [] {
      var rest := inbounds[1..];
      ReservedMeaning(rest);
      assert forall i :: 0 < i < |inbounds| ==> inbounds[i] == rest[i - 1];
      assert forall i :: 0 <= i < |rest| ==> rest[i] == inbounds[i + 1];
    }
  }

  lemma {:induction false} RoomMeaning(config: Value)
    ensures !ReservedTagConflict(config) && !HasOtherTun(config) <==> RoomForOurs(Inbounds(config))
  {
    var inbounds := Items(config, "inbounds");
    var reserved := Retain(inbounds, IsReserved);
    ReservedMeaning(inbounds);
    OtherMeaning(config);
    if reserved != [] { RetainMembers(inbounds, IsReserved, reserved[0]); }
    if |reserved| == 1 {
      forall i | 0 <= i < |inbounds| && IsOurs(inbounds[i]) ensures inbounds[i] == reserved[0] {
        RetainMembers(inbounds, IsReserved, inbounds[i]);
      }
    }
  }

  lemma {:induction false} FlagMeaning(config: Value)
    ensures FlagOf(config) ==
            match Get(config, "route")
            case None => Ok(RouteMissing)
            case Some(Obj(route)) =>
              (match RouteField(config, "auto_detect_interface")
               case None => Ok(FieldMissing)
               case Some(Bool(b)) => Ok(if b then Enabled else Disabled)
               case Some(_) => Err)
            case Some(_) => Err
  {
  }

  /** The toggle is refused exactly for a config it cannot read, and enabling also where the tag or the
      traffic is taken. */
  lemma {:induction false} AcceptedIff(config: Value, enable: bool, restore: Option<RouteFlag>)
    ensures SetInternetTunMode(config, enable, restore).Ok? <==>
            Readable(config) && (enable ==> RoomForOurs(Inbounds(config)))
  {
    RoomMeaning(config);
    FlagMeaning(config);
  }

  /** What enabling and disabling make of the flag. */
  ghost predicate FlagFollows(config: Value, after: Value, enable: bool, restore: Option<RouteFlag>) {
    var before, now := RouteField(config, "auto_detect_interface"), RouteField(after, "auto_detect_interface");
    if enable then now == Some(Bool(true))
    else if HasForeignTun(Inbounds(config)) then now == before
    else match restore
         case Some(Enabled) => now == Some(Bool(true))
         case Some(Disabled) => now == Some(Bool(false))
         case Some(_) => now == None
         case None => now == if OwnsDns(config) then Some(Bool(false)) else before
  }

  /** The marker of the managed baseline. */
  ghost predicate OwnsDns(config: Value) {
    match Get(config, "dns")
    case Some(dns) =>
      (match Get(dns, "servers")
       case Some(Arr(servers)) =>
         exists i :: 0 <= i < |servers| && Get(servers[i], "tag") == Some(Str("private-access-system"))
       case _ => false)
    case None => false
  }

  lemma {:induction false} BaselineMeaning(config: Value)
    ensures HasBaseline(config) <==> OwnsDns(config)
  {
    if Get(config, "dns").Some? {
      var dns := Get(config, "dns").value;
      var servers := Items(dns, "servers");
      if v :| v in servers && Tagged(v, SYSTEM_DNS_TAG) {
        var i :| 0 <= i < |servers| && servers[i] == v;
        assert Get(servers[i], "tag") == Some(Str("private-access-system"));
      }
      if i :| 0 <= i < |servers| && Get(servers[i], "tag") == Some(Str("private-access-system")) {
        assert Tagged(servers[i], SYSTEM_DNS_TAG);
      }
    }
  }

  lemma {:induction false} OtherMeaning(config: Value)
    ensures HasOtherTun(config) <==> HasForeignTun(Inbounds(config))
  {
    var inbounds := Inbounds(config);
    if v :| v in inbounds && IsOtherTun(v) {
      var i :| 0 <= i < |inbounds| && inbounds[i] == v;
      assert IsTunEntry(inbounds[i]);
    }
    if i :| 0 <= i < |inbounds| && IsTunEntry(inbounds[i]) && !IsOurs(inbounds[i]) {
      assert IsOtherTun(inbounds[i]);
    }
  }

  lemma {:induction false} FlagOutcome(config: Value, enable: bool, restore: Option<RouteFlag>)
    requires SetInternetTunMode(config, enable, restore).Ok?
    ensures FlagFollows(config, SetInternetTunMode(config, enable, restore).value, enable, restore)
  {
    BaselineMeaning(config);
    OtherMeaning(config);
  }

  /** The inbound that enabling adds. */
  ghost predicate IsFreshTun(v: Value) {
    v.Obj? && v.fields.Keys == {"type", "tag", "address", "mtu", "auto_route", "strict_route", "stack",
                                "endpoint_independent_nat"} &&
    v.fields["type"] == Str("tun") && v.fields["tag"] == Str("tun-in") &&
    v.fields["address"] == Arr([Str("172.19.0.1/30")]) && v.fields["mtu"] == Num(9000) &&
    v.fields["auto_route"] == Bool(true) && v.fields["strict_route"] == Bool(true) &&
    v.fields["stack"] == Str("mixed") && v.fields["endpoint_independent_nat"] == Bool(true)
  }

  /** Enabling keeps all inbounds and adds the managed one if it is not there. */
  lemma {:induction false} EnablingAddsOne(config: Value, restore: Option<RouteFlag>)
    requires SetInternetTunMode(config, true, restore).Ok?
    ensures var inbounds, after := Inbounds(config), Inbounds(SetInternetTunMode(config, true, restore).value);
            if HasOurs(inbounds) then after == inbounds
            else |after| == |inbounds| + 1 && after[..|inbounds|] == inbounds && IsFreshTun(after[|inbounds|])
  {
    AcceptedIff(config, true, restore);
    EnabledInbounds(config, restore);
    ManagedMeaning(Inbounds(config));
  }

  /** Disabling drops exactly the managed inbounds, and adds no list where there was none. */
  lemma {:induction false} DisablingDropsOurs(config: Value, restore: Option<RouteFlag>)
    requires SetInternetTunMode(config, false, restore).Ok?
    ensures var after := SetInternetTunMode(config, false, restore).value;
            Inbounds(after) == Retain(Inbounds(config), v => !(IsTunEntry(v) && IsOurs(v))) &&
            (Get(after, "inbounds").Some? <==> Get(config, "inbounds").Some?)
  {
    DisabledInbounds(config, restore);
    SameFilter(Inbounds(config), IsNotManaged, v => !(IsTunEntry(v) && IsOurs(v)));
  }

  ghost predicate HasOurs(inbounds: seq<Value>) { exists i :: 0 <= i < |inbounds| && IsOurs(inbounds[i]) }

  lemma {:induction false} DisabledInbounds(config: Value, restore: Option<RouteFlag>)
    requires SetInternetTunMode(config, false, restore).Ok?
    ensures var after := SetInternetTunMode(config, false, restore).value;
            Inbounds(after) == Retain(Inbounds(config), IsNotManaged) &&
            (Get(after, "inbounds").Some? <==> Get(config, "inbounds").Some?)
  {
  }

  lemma {:induction false} ManagedMeaning(inbounds: seq<Value>)
    requires RoomForOurs(inbounds)
    ensures (exists v :: v in inbounds && IsManagedTun(v)) <==> HasOurs(inbounds)
  {
    if v :| v in inbounds && IsManagedTun(v) {
      var i :| 0 <= i < |inbounds| && inbounds[i] == v;
      assert IsOurs(inbounds[i]);
    }
    if i :| 0 <= i < |inbounds| && IsOurs(inbounds[i]) { assert IsManagedTun(inbounds[i]); }
  }

  lemma {:induction false} EnabledInbounds(config: Value, restore: Option<RouteFlag>)
    requires SetInternetTunMode(config, true, restore).Ok?
    ensures Inbounds(SetInternetTunMode(config, true, restore).value) == WithTun(Inbounds(config))
  {
  }

  lemma {:induction false} SameFilter(s: seq<Value>, a: Value -> bool, b: Value -> bool)
    requires forall v :: a(v) <==> b(v)
    ensures Retain(s, a) == Retain(s, b)
  {
    if s != [] { SameFilter(s[1..], a, b); }
  }

  /** Nothing else in the config changes. */
  lemma {:induction false} NothingElseChanges(config: Value, enable: bool, restore: Option<RouteFlag>, key: string)
    requires SetInternetTunMode(config, enable, restore).Ok?
    ensures var after := SetInternetTunMode(config, enable, restore).value;
            (key != "inbounds" && key != "route" ==> Get(after, key) == Get(config, key)) &&
            (key != "auto_detect_interface" ==> RouteField(after, key) == RouteField(config, key))
  {
    var root := EditInbounds(config.fields, enable).value;
    assert RouteField(Obj(root), key) == RouteField(config, key);
    SetFlagAside(root, true, key);
    SetFlagAside(root, false, key);
    if restore.Some? && RestoreFlag(root, restore.value).Some? { RestoredAside(root, restore, key); }
  }

  lemma {:induction false} RestoredAside(root: map<string, Value>, restore: Option<RouteFlag>, key: string)
    requires restore.Some? && RestoreFlag(root, restore.value).Some?
    ensures var after := Obj(RestoreFlag(root, restore.value).value);
            (key != "route" ==> Get(after, key) == Get(Obj(root), key)) &&
            (key != "auto_detect_interface" ==> RouteField(after, key) == RouteField(Obj(root), key))
  {
    match restore.value
    case Disabled => SetFlagAside(root, false, key);
    case Enabled => SetFlagAside(root, true, key);
    case FieldMissing => DropFlagAside(root, false, key);
    case RouteMissing => if "route" in root { DropFlagAside(root, true, key); }
  }

  lemma {:induction false} SetFlagAside(root: map<string, Value>, on: bool, key: string)
    requires SetFlag(root, on).Some?
    ensures var after := Obj(SetFlag(root, on).value);
            (key != "route" ==> Get(after, key) == Get(Obj(root), key)) &&
            (key != "auto_detect_interface" ==> RouteField(after, key) == RouteField(Obj(root), key))
  {
  }

  lemma {:induction false} DropFlagAside(root: map<string, Value>, dropEmpty: bool, key: string)
    requires DropFlag(root, dropEmpty).Some?
    ensures var after := Obj(DropFlag(root, dropEmpty).value);
            (key != "route" ==> Get(after, key) == Get(Obj(root), key)) &&
            (key != "auto_detect_interface" ==> RouteField(after, key) == RouteField(Obj(root), key))
  {
    var route := EntryObj(root, "route").value;
    assert key != "auto_detect_interface" ==> (key in route <==> key in route - {FLAG});
    if route - {FLAG} == map[] && key != "auto_detect_interface" { assert key !in route; }
  }

  /** A route table that was missing goes again if it holds nothing else. */
  lemma {:induction false} RouteStaysIff(config: Value, restore: Option<RouteFlag>)
    requires SetInternetTunMode(config, false, restore).Ok? && !HasOtherTun(config)
    ensures var after := SetInternetTunMode(config, false, restore).value;
            match restore
            case Some(RouteMissing) =>
              Get(after, "route").Some? <==>
              exists key :: key != "auto_detect_interface" && RouteField(config, key).Some?
            case Some(_) => Get(after, "route").Some?
            case None => HasBaseline(config) || Get(after, "route") == Get(config, "route")
  {
    if restore == Some(RouteMissing) {
      var after := SetInternetTunMode(config, false, restore).value;
      match Get(config, "route")
      case Some(Obj(route)) =>
        var left := route - {FLAG};
        if left != map[] {
          var key :| key in left;
          assert RouteField(config, key).Some?;
        }
        if key :| key != "auto_detect_interface" && RouteField(config, key).Some? { assert key in left; }
      case None =>
    }
  }
}
