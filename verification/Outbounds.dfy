/** The outbound list: tags, aliases of the special outbounds, and the edits the config code makes to one entry. */
module Outbounds {
  import opened Prelude
  import opened Json

  const SELECTOR_TAG := "手动选择"
  const AUTO_TAG := "自动选择"
  const DIRECT_TAG := "国内直连"
  const BLOCK_TAG := "屏蔽"
  const SELECTOR_ALIASES := [SELECTOR_TAG, "select"]
  const AUTO_ALIASES := [AUTO_TAG, "auto"]
  const DIRECT_ALIASES := [DIRECT_TAG, "direct"]
  const BLOCK_ALIASES := [BLOCK_TAG, "block"]

  predicate HasAlias(v: Value, aliases: seq<string>) {
    var tag := GetStr(v, "tag");
    tag.Some? && tag.value in aliases
  }

  predicate HasTag(outbounds: seq<Value>, tag: string) { exists v :: v in outbounds && Tagged(v, tag) }

  /** `preferred_existing_tag`. */
  function PreferredTag(outbounds: seq<Value>, aliases: seq<string>, preferred: string): string {
    match Position(outbounds, v => HasAlias(v, aliases))
    case Some(i) => GetStr(outbounds[i], "tag").value
    case None => preferred
  }

  function SelectorOf(outbounds: seq<Value>): string { PreferredTag(outbounds, SELECTOR_ALIASES, SELECTOR_TAG) }

  /** The old short names are used together. */
  function Named(outbounds: seq<Value>, aliases: seq<string>): string
    requires |aliases| == 2
  {
    PreferredTag(outbounds, aliases, if SelectorOf(outbounds) == "select" then aliases[1] else aliases[0])
  }

  function AutoOf(outbounds: seq<Value>): string { Named(outbounds, AUTO_ALIASES) }

  /** `is_replaceable_node_outbound`. */
  predicate IsNode(v: Value) {
    GetStr(v, "type") !in {Some("selector"), Some("urltest"), Some("direct"), Some("block"), Some("dns")}
  }

  /** `upsert_special_outbound`. */
  function Upsert(outbounds: seq<Value>, tag: string, built: Value, update: Value -> Value): seq<Value> {
    match Position(outbounds, v => Tagged(v, tag))
    case Some(i) => outbounds[i := update(outbounds[i])]
    case None => outbounds + [built]
  }

  /** `ensure_string_field`. */
  function EnsureStr(v: Value, key: string, value: string): Value {
    if v.Obj? && key !in v.fields then Obj(v.fields[key := Str(value)]) else v
  }

  // ---------------------------------------------------------------- the direct outbound

  function DirectOutbound(tag: string): Value { Obj(map["type" := Str("direct"), "tag" := Str(tag)]) }

  function WithDirectType(v: Value): Value { EnsureStr(v, "type", "direct") }

  function DirectOf(outbounds: seq<Value>): string { PreferredTag(outbounds, DIRECT_ALIASES, DIRECT_TAG) }

  /** The preferred direct outbound, added when missing and typed when it had no type. */
  function EnsureDirect(outbounds: seq<Value>): seq<Value> {
    Upsert(outbounds, DirectOf(outbounds), DirectOutbound(DirectOf(outbounds)), WithDirectType)
  }

  lemma {:induction false} TypeKeepsTag(v: Value)
    ensures GetStr(WithDirectType(v), "tag") == GetStr(v, "tag")
    ensures WithDirectType(WithDirectType(v)) == WithDirectType(v)
    ensures WithDirectType(v) != v ==> GetStr(WithDirectType(v), "type") == Some("direct") && Get(v, "type") == None
  {
  }

  lemma {:induction false} PreferredExists(outbounds: seq<Value>, aliases: seq<string>, preferred: string)
    ensures HasTag(outbounds, PreferredTag(outbounds, aliases, preferred)) ||
            PreferredTag(outbounds, aliases, preferred) == preferred
    ensures (exists v :: v in outbounds && HasAlias(v, aliases)) ==>
            HasTag(outbounds, PreferredTag(outbounds, aliases, preferred))
    ensures preferred in aliases ==> PreferredTag(outbounds, aliases, preferred) in aliases
  {
    match Position(outbounds, v => HasAlias(v, aliases))
    case Some(i) => assert outbounds[i] in outbounds;
    case None =>
  }

  /** Entries whose tags agree one by one have the same preferred tag, also when more entries follow. */
  lemma {:induction false} SamePreferred(a: seq<Value>, b: seq<Value>, aliases: seq<string>, preferred: string)
    requires |a| <= |b| && forall i :: 0 <= i < |a| ==> GetStr(b[i], "tag") == GetStr(a[i], "tag")
    requires forall i :: |a| <= i < |b| ==> GetStr(b[i], "tag") == Some(preferred)
    ensures preferred in aliases ==> PreferredTag(b, aliases, preferred) == PreferredTag(a, aliases, preferred)
  {
    if preferred in aliases {
      var p := (v: Value) => HasAlias(v, aliases);
      match Position(a, p)
      case Some(i) =>
        PositionAt(b, p, i);
      case None =>
        forall j | 0 <= j < |a| ensures !p(b[j]) { assert a[j] in a; }
        if |a| < |b| {
          PositionAt(b, p, |a|);
        } else {
          assert forall v :: v in b ==> !p(v);
        }
    }
  }

  lemma {:induction false} DirectSettles(outbounds: seq<Value>)
    ensures var after := EnsureDirect(outbounds);
            DirectOf(after) == DirectOf(outbounds) && EnsureDirect(after) == after && HasTag(after, DirectOf(outbounds))
  {
    var tag, after := DirectOf(outbounds), EnsureDirect(outbounds);
    var p := (v: Value) => Tagged(v, tag);
    PreferredExists(outbounds, DIRECT_ALIASES, DIRECT_TAG);
    match Position(outbounds, p)
    case Some(i) =>
      TypeKeepsTag(outbounds[i]);
      SamePreferred(outbounds, after, DIRECT_ALIASES, DIRECT_TAG);
      PositionAt(after, p, i);
      assert after[i := after[i]] == after;
      assert after[i] in after;
    case None =>
      SamePreferred(outbounds, after, DIRECT_ALIASES, DIRECT_TAG);
      forall j | 0 <= j < |outbounds| ensures !p(after[j]) { assert after[j] in outbounds; }
      PositionAt(after, p, |outbounds|);
      TypeKeepsTag(DirectOutbound(tag));
      assert after[|outbounds| := after[|outbounds|]] == after;
      assert after[|outbounds|] in after;
  }
}
