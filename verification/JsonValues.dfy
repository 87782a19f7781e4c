/**
 JSON documents, the pointers that locate values in them, and the one patch
 operation that validation produces.

 An object is the sequence of its members in key order, as a `std::map` iterates
 it.  Numbers are integers; floats and binary values are not part of this model.
 */
module JsonValues {
  import opened Wrappers

  datatype Json =
    | Null
    | Bool(b: bool)
    | Int(n: int)
    | Str(s: string)
    | Arr(items: seq<Json>)
    | Obj(members: seq<Member>)

  datatype Member = Member(key: string, value: Json)

  predicate IsContainer(j: Json) {
    j.Arr? || j.Obj?
  }

  /** The value stored under `key`, as `find` on the member map returns it. */
  function FindMember(members: seq<Member>, key: string): (r: Option<Json>)
    ensures r.Some? <==> exists i :: 0 <= i < |members| && members[i].key == key
    ensures r.Some? ==> exists i :: 0 <= i < |members| && members[i] == Member(key, r.value)
  {
    if members == [] then None
    else if members[0].key == key then
      assert members[0] == Member(key, members[0].value);
      Some(members[0].value)
    else
      var r := FindMember(members[1..], key);
      assert r.Some? ==> exists i :: 0 <= i < |members| && members[i] == Member(key, r.value) by {
        if r.Some? {
          var i :| 0 <= i < |members[1..]| && members[1..][i] == Member(key, r.value);
          assert members[i + 1] == Member(key, r.value);
        }
      }
      assert (exists i :: 0 <= i < |members| && members[i].key == key) ==> r.Some? by {
        if i :| 0 <= i < |members| && members[i].key == key {
          assert members[1..][i - 1].key == key;
        }
      }
      r
  }

  /** A member map holds every key once, at every depth. */
  ghost predicate WellFormed(j: Json) {
    match j
    case Arr(items) => forall i :: 0 <= i < |items| ==> WellFormed(items[i])
    case Obj(members) =>
      && (forall i, k :: 0 <= i < k < |members| ==> members[i].key != members[k].key)
      && (forall i :: 0 <= i < |members| ==> WellFormed(members[i].value))
    case _ => true
  }

  lemma FindMemberAt(members: seq<Member>, i: nat)
    requires i < |members|
    requires forall i, k :: 0 <= i < k < |members| ==> members[i].key != members[k].key
    ensures FindMember(members, members[i].key) == Some(members[i].value)
  {
  }

  // ---------------------------------------------------------------- pointers

  datatype Token = Key(key: string) | Index(index: nat)

  type Pointer = seq<Token>

  /** The value one token below `j`. */
  function Child(j: Json, t: Token): Option<Json> {
    match (j, t)
    case (Obj(members), Key(key)) => FindMember(members, key)
    case (Arr(items), Index(i)) => if i < |items| then Some(items[i]) else None
    case _ => None
  }

  function Lookup(j: Json, ptr: Pointer): Option<Json> {
    if ptr == [] then Some(j)
    else match Child(j, ptr[0])
      case None => None
      case Some(c) => Lookup(c, ptr[1..])
  }

  lemma {:induction false} LookupSnoc(j: Json, ptr: Pointer, t: Token)
    requires Lookup(j, ptr).Some?
    ensures Lookup(j, ptr + [t]) == Child(Lookup(j, ptr).value, t)
  {
    if ptr == [] {
      assert [t][1..] == [];
      assert ptr + [t] == [t];
    } else {
      assert (ptr + [t])[1..] == ptr[1..] + [t];
      LookupSnoc(Child(j, ptr[0]).value, ptr[1..], t);
    }
  }

  // ------------------------------------------------------------------ patches

  /** One `add` operation of a JSON patch. */
  datatype Add = Add(path: Pointer, value: Json)

  /** Stores a member, replacing the value of a key that is already present. */
  function SetMember(members: seq<Member>, key: string, value: Json): (r: seq<Member>)
    ensures forall k :: FindMember(r, k) == if k == key then Some(value) else FindMember(members, k)
  {
    if members == [] then
      assert [Member(key, value)][1..] == [];
      [Member(key, value)]
    else if members[0].key == key then
      [Member(key, value)] + members[1..]
    else
      var r := [members[0]] + SetMember(members[1..], key, value);
      assert r[1..] == SetMember(members[1..], key, value);
      r
  }

  /** The `add` operation of section 4.1 of RFC 6902; `None` is the error outcome. */
  function ApplyAdd(j: Json, path: Pointer, value: Json): Option<Json> {
    if path == [] then Some(value)
    else if |path| == 1 then
      match (j, path[0])
      case (Obj(members), Key(key)) => Some(Obj(SetMember(members, key, value)))
      case (Arr(items), Index(i)) =>
        if i <= |items| then Some(Arr(items[..i] + [value] + items[i..])) else None
      case _ => None
    else
      match Child(j, path[0])
      case None => None
      case Some(c) =>
        match ApplyAdd(c, path[1..], value)
        case None => None
        case Some(c') => Some(ReplaceChild(j, path[0], c'))
  }

  /** Puts `c` in the place of an existing child. */
  function ReplaceChild(j: Json, t: Token, c: Json): (r: Json)
    requires Child(j, t).Some?
    ensures forall u :: Child(r, u) == if u == t then Some(c) else Child(j, u)
    ensures r.Obj? == j.Obj? && r.Arr? == j.Arr?
    ensures j.Arr? ==> |r.items| == |j.items|
  {
    match j
    case Obj(members) => Obj(SetMember(members, t.key, c))
    case Arr(items) => Arr(items[t.index := c])
  }

  function ApplyAll(j: Json, adds: seq<Add>): Option<Json>
    decreases |adds|
  {
    if adds == [] then Some(j)
    else match ApplyAdd(j, adds[0].path, adds[0].value)
      case None => None
      case Some(j') => ApplyAll(j', adds[1..])
  }
}
