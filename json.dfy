/**
 * JSON values as Python's json module and JavaScript's JSON.parse produce
 * them. An object is a sequence of key/value pairs whose keys are
 * distinct, in insertion order, as Python dicts keep them. JavaScript lists
 * integer-like keys first, in ascending order, then the rest in insertion
 * order; the frames the editors and viewer build carry no integer-like
 * keys, so for them the order here is the one JavaScript reports.
 */
module Json {
  import opened Wrappers

  datatype Json =
    | Null
    | Bool(b: bool)
    | Num(n: int)
    | Str(s: string)
    | Arr(items: seq<Json>)
    | Obj(members: seq<(string, Json)>)

  /** The keys of an object's member list, in order. */
  function Keys(members: seq<(string, Json)>): (ks: seq<string>)
    ensures |ks| == |members|
    ensures forall i :: 0 <= i < |members| ==> ks[i] == members[i].0
  {
    if members == [] then [] else [members[0].0] + Keys(members[1..])
  }

  /** An object is well formed when no key occurs twice. */
  predicate DistinctKeys(members: seq<(string, Json)>) {
    forall i, j :: 0 <= i < j < |members| ==> members[i].0 != members[j].0
  }

  /** `d[key]` / `d.get(key)` on a member list: the value stored under `key`. */
  function Lookup(members: seq<(string, Json)>, key: string): (r: Option<Json>)
    ensures r.None? <==> forall i :: 0 <= i < |members| ==> members[i].0 != key
    ensures r.Some? ==> exists i :: 0 <= i < |members| && members[i] == (key, r.value)
  {
    if members == [] then None
    else if members[0].0 == key then Some(members[0].1)
    else Lookup(members[1..], key)
  }

  /** `d[key]` on any JSON value: None when it is not an object or has no such key. */
  function Get(j: Json, key: string): Option<Json> {
    if j.Obj? then Lookup(j.members, key) else None
  }

  /**
   * `d[key] = v` on a member list: an existing key keeps its position and
   * takes the new value; a new key is appended at the end.
   */
  function Assign(members: seq<(string, Json)>, key: string, v: Json): (r: seq<(string, Json)>)
  {
    if members == [] then [(key, v)]
    else if members[0].0 == key then [(key, v)] + members[1..]
    else [members[0]] + Assign(members[1..], key, v)
  }

  /** `d[key] = v` on an object. */
  function Put(j: Json, key: string, v: Json): Json
    requires j.Obj?
  {
    Obj(Assign(j.members, key, v))
  }

  /** After `d[key] = v`, `d[key]` is `v`. */
  lemma {:induction false} LookupAssignSame(members: seq<(string, Json)>, key: string, v: Json)
    ensures Lookup(Assign(members, key, v), key) == Some(v)
  {
    if members != [] && members[0].0 != key {
      LookupAssignSame(members[1..], key, v);
    }
  }

  /** `d[key] = v` leaves every other key's value as it was. */
  lemma {:induction false} LookupAssignOther(members: seq<(string, Json)>, key: string, v: Json, other: string)
    requires other != key
    ensures Lookup(Assign(members, key, v), other) == Lookup(members, other)
  {
    if members != [] && members[0].0 != key {
      LookupAssignOther(members[1..], key, v, other);
    }
  }

  /**
   * `d[key] = v` keeps the key order: the existing keys stay where they were,
   * and a new key goes last.
   */
  lemma {:induction false} KeysAssign(members: seq<(string, Json)>, key: string, v: Json)
    ensures Lookup(members, key).Some? ==> Keys(Assign(members, key, v)) == Keys(members)
    ensures Lookup(members, key).None? ==> Keys(Assign(members, key, v)) == Keys(members) + [key]
  {
    if members != [] && members[0].0 != key {
      KeysAssign(members[1..], key, v);
      assert Keys(Assign(members, key, v)) == [members[0].0] + Keys(Assign(members[1..], key, v));
      assert Keys(members) == [members[0].0] + Keys(members[1..]);
    } else if members != [] {
      assert Keys(Assign(members, key, v)) == [key] + Keys(members[1..]);
      assert Keys(members) == [members[0].0] + Keys(members[1..]);
    }
  }

  /** `d[key] = v` keeps an object's keys distinct. */
  lemma {:induction false} AssignKeepsDistinct(members: seq<(string, Json)>, key: string, v: Json)
    requires DistinctKeys(members)
    ensures DistinctKeys(Assign(members, key, v))
  {
    KeysAssign(members, key, v);
    var r := Assign(members, key, v);
    forall i, j | 0 <= i < j < |r| ensures r[i].0 != r[j].0 {
      assert Keys(r)[i] == r[i].0 && Keys(r)[j] == r[j].0;
      if Lookup(members, key).Some? {
        assert Keys(members)[i] == members[i].0 && Keys(members)[j] == members[j].0;
      } else {
        assert Keys(r) == Keys(members) + [key];
        if j == |members| {
          assert Keys(members)[i] == members[i].0;
        } else {
          assert Keys(members)[i] == members[i].0 && Keys(members)[j] == members[j].0;
        }
      }
    }
  }

  /** A value `JSON.parse` can produce: no object anywhere inside it repeats a key. */
  predicate WellFormed(j: Json)
    decreases j
  {
    match j
    case Arr(items) => forall i :: 0 <= i < |items| ==> WellFormed(items[i])
    case Obj(members) => DistinctKeys(members) && forall i :: 0 <= i < |members| ==> WellFormed(members[i].1)
    case _ => true
  }

  /** In an object with distinct keys, looking up the key at position `i` finds the value at `i`. */
  lemma {:induction false} LookupDistinct(members: seq<(string, Json)>, i: int)
    requires DistinctKeys(members) && 0 <= i < |members|
    ensures Lookup(members, members[i].0) == Some(members[i].1)
  {
    if i > 0 {
      assert DistinctKeys(members[1..]) by {
        forall a, b | 0 <= a < b < |members[1..]| ensures members[1..][a].0 != members[1..][b].0 {
          assert members[1..][a] == members[a + 1] && members[1..][b] == members[b + 1];
        }
      }
      LookupDistinct(members[1..], i - 1);
    }
  }
}
