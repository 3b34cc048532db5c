/** JSON values as the config editors see them, and the vector operations they use. Objects are maps:
    the program compares configs without regard to key order, and so does this model. */
module Json {
  import opened Prelude

  datatype Value =
    | Null
    | Bool(b: bool)
    | Num(n: int)
    | Str(s: string)
    | Arr(items: seq<Value>)
    | Obj(fields: map<string, Value>)

  /** `value.get(key)`. */
  function Get(v: Value, key: string): Option<Value> {
    if v.Obj? && key in v.fields then Some(v.fields[key]) else None
  }

  /** `value.get(key).and_then(Value::as_str)`. */
  function GetStr(v: Value, key: string): Option<string> {
    match Get(v, key) case Some(Str(s)) => Some(s) case _ => None
  }

  function GetBool(v: Value, key: string): Option<bool> {
    match Get(v, key) case Some(Bool(b)) => Some(b) case _ => None
  }

  /** `value.get(key).and_then(Value::as_array)`, an absent array being empty. */
  function Items(v: Value, key: string): seq<Value> {
    match Get(v, key) case Some(Arr(items)) => items case _ => []
  }

  /** `entry(key).or_insert_with(...)`, as an object, an array, or neither. */
  function EntryObj(m: map<string, Value>, key: string): Option<map<string, Value>> {
    if key !in m then Some(map[]) else if m[key].Obj? then Some(m[key].fields) else None
  }

  function EntryArr(m: map<string, Value>, key: string): Option<seq<Value>> {
    if key !in m then Some([]) else if m[key].Arr? then Some(m[key].items) else None
  }

  function Tagged(v: Value, tag: string): bool { GetStr(v, "tag") == Some(tag) }

  // ---------------------------------------------------------------- vectors

  /** `Vec::retain`. */
  function Retain<T>(s: seq<T>, keep: T -> bool): seq<T> {
    if s == [] then [] else (if keep(s[0]) then [s[0]] else []) + Retain(s[1..], keep)
  }

  lemma {:induction false} RetainMembers<T>(s: seq<T>, keep: T -> bool, x: T)
    ensures x in Retain(s, keep) <==> x in s && keep(x)
  {
    if s != [] { RetainMembers(s[1..], keep, x); }
  }

  lemma {:induction false} RetainAppend<T>(a: seq<T>, b: seq<T>, keep: T -> bool)
    ensures Retain(a + b, keep) == Retain(a, keep) + Retain(b, keep)
  {
    if a == [] {
      assert a + b == b;
    } else {
      RetainAppend(a[1..], b, keep);
      assert (a + b)[1..] == a[1..] + b;
      Regroup(if keep(a[0]) then [a[0]] else [], Retain(a[1..], keep), Retain(b, keep));
    }
  }

  /** Filtering around something put in the middle. */
  lemma {:induction false} RetainMiddle<T>(a: seq<T>, xs: seq<T>, b: seq<T>, keep: T -> bool)
    ensures Retain(a + xs + b, keep) == Retain(a, keep) + Retain(xs, keep) + Retain(b, keep)
    ensures Retain(a + b, keep) == Retain(a, keep) + Retain(b, keep)
    ensures Retain(xs, keep) == [] ==> Retain(a + xs + b, keep) == Retain(a + b, keep)
  {
    RetainAppend(a + xs, b, keep);
    RetainAppend(a, xs, keep);
    RetainAppend(a, b, keep);
    assert Retain(a, keep) + [] == Retain(a, keep);
  }

  lemma {:induction false} RetainAll<T>(s: seq<T>, keep: T -> bool)
    requires forall x :: x in s ==> keep(x)
    ensures Retain(s, keep) == s
  {
    if s != [] { RetainAll(s[1..], keep); }
  }

  lemma {:induction false} RetainNone<T>(s: seq<T>, keep: T -> bool)
    requires forall x :: x in s ==> !keep(x)
    ensures Retain(s, keep) == []
  {
    if s != [] { RetainNone(s[1..], keep); }
  }

  /** `Vec::retain_mut`: every element is edited, and dropped when the edit leaves nothing. */
  function RetainMut<T>(s: seq<T>, edit: T -> Option<T>): seq<T> {
    if s == [] then []
    else (match edit(s[0]) case Some(x) => [x] case None => []) + RetainMut(s[1..], edit)
  }

  lemma {:induction false} RetainMutAppend<T>(a: seq<T>, b: seq<T>, edit: T -> Option<T>)
    ensures RetainMut(a + b, edit) == RetainMut(a, edit) + RetainMut(b, edit)
  {
    if a == [] {
      assert a + b == b;
    } else {
      RetainMutAppend(a[1..], b, edit);
      assert (a + b)[1..] == a[1..] + b;
      var first := match edit(a[0]) case Some(x) => [x] case None => [];
      Regroup(first, RetainMut(a[1..], edit), RetainMut(b, edit));
    }
  }

  /** An edit that changes its own results no further can be repeated without effect. */
  lemma {:induction false} RetainMutStable<T>(s: seq<T>, edit: T -> Option<T>)
    requires forall x :: x in s && edit(x).Some? ==> edit(edit(x).value) == edit(x)
    ensures RetainMut(RetainMut(s, edit), edit) == RetainMut(s, edit)
  {
    if s != [] {
      RetainMutStable(s[1..], edit);
      var first := match edit(s[0]) case Some(x) => [x] case None => [];
      RetainMutAppend(first, RetainMut(s[1..], edit), edit);
      if edit(s[0]).Some? { assert first[1..] == []; }
    }
  }

  lemma {:induction false} RetainMutNone<T>(s: seq<T>, edit: T -> Option<T>)
    requires forall x :: x in s ==> edit(x) == None
    ensures RetainMut(s, edit) == []
  {
    if s != [] { RetainMutNone(s[1..], edit); }
  }

  lemma {:induction false} RetainMutLength<T>(s: seq<T>, edit: T -> Option<T>)
    ensures |RetainMut(s, edit)| <= |s|
    ensures RetainMut(s, edit) == s <==> forall x :: x in s ==> edit(x) == Some(x)
  {
    if s != [] {
      RetainMutLength(s[1..], edit);
      var r, rest := RetainMut(s, edit), RetainMut(s[1..], edit);
      if edit(s[0]).Some? {
        assert r == [edit(s[0]).value] + rest && r[1..] == rest;
      } else {
        assert r == rest;
        assert s[0] in s;
      }
    }
  }

  /** `iter().position(...)`. */
  function Position<T>(s: seq<T>, p: T -> bool): (i: Option<nat>)
    ensures i.Some? ==> i.value < |s| && p(s[i.value]) && forall j :: 0 <= j < i.value ==> !p(s[j])
    ensures i.None? ==> forall x :: x in s ==> !p(x)
  {
    if s == [] then None
    else if p(s[0]) then Some(0)
    else
      match Position(s[1..], p)
      case None => None
      case Some(j) => Some(j + 1)
  }

  lemma {:induction false} PositionAt<T>(s: seq<T>, p: T -> bool, i: nat)
    requires i < |s| && p(s[i]) && forall j :: 0 <= j < i ==> !p(s[j])
    ensures Position(s, p) == Some(i)
  {
    assert s[i] in s;
  }

  function PositionOr<T>(s: seq<T>, p: T -> bool, default: nat): nat {
    match Position(s, p) case Some(i) => i case None => default
  }

  function InsertAll<T>(s: seq<T>, i: nat, xs: seq<T>): seq<T>
    requires i <= |s|
  {
    s[..i] + xs + s[i..]
  }
}
