/**
 * JavaScript values as the browser handlers see them after `JSON.parse`:
 * a JSON value or `undefined`. Property reads, optional chaining,
 * truthiness, strict equality, object spread and lodash's `isEqual` are
 * defined on them as the language defines them for these values.
 */
module JsValues {
  import opened Wrappers
  import opened Json
  import opened Decimal

  datatype JsValue = Undefined | Defined(json: Json)

  /** The outcome of a property read: the value read, or a thrown TypeError. */
  datatype Read = Threw | Got(value: JsValue)

  /**
   * `v.key` for a key that no built-in prototype defines (`data`, `content`,
   * `script`, `meta`, `modules`, `current_order`, ...): a read from
   * `undefined` or `null` throws, an object yields its member or
   * `undefined`, and any other value yields `undefined`.
   */
  function Member(v: JsValue, key: string): (r: Read)
    ensures r.Threw? <==> v == Undefined || v == Defined(Null)
    ensures r.Got? && r.value.Defined? ==> Get(v.json, key) == Some(r.value.json)
    ensures r.Got? && r.value == Undefined ==> Get(v.json, key).None?
  {
    match v
    case Undefined => Threw
    case Defined(j) =>
      if j.Null? then Threw
      else match Get(j, key)
        case Some(x) => Got(Defined(x))
        case None => Got(Undefined)
  }

  /** `v?.key`: `undefined` where `v.key` would throw, and the same value otherwise. */
  function OptionalMember(v: JsValue, key: string): (r: JsValue)
    ensures Member(v, key).Got? ==> r == Member(v, key).value
    ensures Member(v, key).Threw? ==> r == Undefined
  {
    if v == Undefined || v == Defined(Null) then Undefined else Member(v, key).value
  }

  /** `v.k1.k2...`, read left to right; the first read that throws ends it. */
  function Path(v: JsValue, keys: seq<string>): Read
    decreases |keys|
  {
    if keys == [] then Got(v)
    else match Member(v, keys[0])
      case Threw => Threw
      case Got(w) => Path(w, keys[1..])
  }

  /** `data.data.x` on a message `{"data": {x: value}}` yields that value. */
  lemma ReadNested(outer: string, inner: string, value: Json)
    ensures Path(Defined(Obj([(outer, Obj([(inner, value)]))])), [outer, inner]) == Got(Defined(value))
  {
    var msg := Defined(Obj([(outer, Obj([(inner, value)]))]));
    assert Member(msg, outer) == Got(Defined(Obj([(inner, value)])));
    assert Member(Defined(Obj([(inner, value)])), inner) == Got(Defined(value));
    assert [outer, inner][1..] == [inner];
    assert [inner][1..] == [];
    assert Path(Defined(Obj([(inner, value)])), [inner]) == Path(Defined(value), []);
  }

  /**
   * `data.data.x` throws exactly when `data` is `null` or has no usable
   * `data` member (none, or `null`).
   */
  lemma {:induction false} NestedReadThrows(v: JsValue, outer: string, inner: string)
    ensures Path(v, [outer, inner]).Threw? <==>
      v == Undefined || v == Defined(Null) || Member(v, outer) == Got(Undefined) || Member(v, outer) == Got(Defined(Null))
  {
    assert [outer, inner][1..] == [inner];
    assert [inner][1..] == [];
    match Member(v, outer)
    case Threw =>
    case Got(w) =>
      assert Path(v, [outer, inner]) == Path(w, [inner]);
      assert Path(w, [inner]).Threw? <==> Member(w, inner).Threw?;
  }

  /** JavaScript truthiness: `undefined`, `null`, `false`, `0` and `""` are falsy. */
  predicate Truthy(v: JsValue) {
    match v
    case Undefined => false
    case Defined(j) =>
      match j
      case Null => false
      case Bool(b) => b
      case Num(n) => n != 0
      case Str(s) => s != ""
      case _ => true
  }

  /**
   * `a === b` for values read from different places of parsed messages.
   * `JSON.parse` builds a fresh object for every object or array it reads,
   * so two of them are never identical, whatever their contents.
   */
  function StrictEquals(a: JsValue, b: JsValue): (r: bool)
    ensures r <==> a == b && !(a.Defined? && (a.json.Arr? || a.json.Obj?))
  {
    match (a, b)
    case (Undefined, Undefined) => true
    case (Defined(Null), Defined(Null)) => true
    case (Defined(Bool(x)), Defined(Bool(y))) => x == y
    case (Defined(Num(x)), Defined(Num(y))) => x == y
    case (Defined(Str(x)), Defined(Str(y))) => x == y
    case _ => false
  }

  /** `===` is symmetric. */
  lemma StrictEqualsSymmetric(a: JsValue, b: JsValue)
    ensures StrictEquals(a, b) == StrictEquals(b, a)
  {
  }

  /**
   * The own enumerable properties that object spread `{...v}` copies, in
   * order: an object's members, an array's or a string's indices, and
   * nothing for any other value.
   */
  function OwnEntries(v: JsValue): (r: seq<(string, Json)>)
    ensures v.Defined? && v.json.Obj? ==> r == v.json.members
    ensures v.Defined? && v.json.Arr? ==>
      |r| == |v.json.items| && forall i :: 0 <= i < |r| ==> r[i] == (DecimalText(i), v.json.items[i])
    ensures v.Defined? && v.json.Str? ==>
      |r| == |v.json.s| && forall i :: 0 <= i < |r| ==> r[i] == (DecimalText(i), Str([v.json.s[i]]))
    ensures v == Undefined || (v.Defined? && (v.json.Null? || v.json.Bool? || v.json.Num?)) ==> r == []
  {
    match v
    case Undefined => []
    case Defined(j) =>
      match j
      case Obj(m) => m
      case Arr(items) => seq(|items|, i requires 0 <= i < |items| => (DecimalText(i), items[i]))
      case Str(s) => seq(|s|, i requires 0 <= i < |s| => (DecimalText(i), Str([s[i]])))
      case _ => []
  }

  /** `{...v, key: x}`. */
  function SpreadWith(v: JsValue, key: string, x: Json): Json {
    Obj(Assign(OwnEntries(v), key, x))
  }

  /** After `{...v, key: x}`, `key` holds `x` and every other key is what `v` spread into the object. */
  lemma SpreadWithSets(v: JsValue, key: string, x: Json)
    ensures SpreadWith(v, key, x).Obj? && Lookup(SpreadWith(v, key, x).members, key) == Some(x)
    ensures forall k :: k != key ==> Lookup(SpreadWith(v, key, x).members, k) == Lookup(OwnEntries(v), k)
  {
    var m := OwnEntries(v);
    LookupAssignSame(m, key, x);
    forall k | k != key
      ensures Lookup(Assign(m, key, x), k) == Lookup(m, k)
    {
      LookupAssignOther(m, key, x, k);
    }
  }

  /** Spreading an object copies its member list as it is. */
  lemma SpreadObject(m: seq<(string, Json)>, key: string, x: Json)
    ensures SpreadWith(Defined(Obj(m)), key, x) == Obj(Assign(m, key, x))
  {
  }

  /**
   * lodash's `isEqual` on parsed JSON: values of the same kind with equal
   * contents; arrays element by element; objects with the same number of
   * own keys, each key of the first present in the second with an equal
   * value, in any order.
   */
  predicate DeepEqual(a: Json, b: Json)
    decreases a
  {
    match a
    case Arr(xs) => b.Arr? && |xs| == |b.items| && forall i :: 0 <= i < |xs| ==> DeepEqual(xs[i], b.items[i])
    case Obj(ma) =>
      b.Obj? && |ma| == |b.members| &&
      forall i :: 0 <= i < |ma| ==>
        Lookup(b.members, ma[i].0).Some? && DeepEqual(ma[i].1, Lookup(b.members, ma[i].0).value)
    case _ => a == b
  }

  /** `isEqual` on values that may be `undefined`. */
  predicate IsEqual(a: JsValue, b: JsValue) {
    match (a, b)
    case (Undefined, Undefined) => true
    case (Defined(x), Defined(y)) => DeepEqual(x, y)
    case _ => false
  }

  /** `isEqual(x, x)` holds for every value `JSON.parse` can produce. */
  lemma {:induction false} DeepEqualReflexive(a: Json)
    requires WellFormed(a)
    ensures DeepEqual(a, a)
    decreases a
  {
    match a
    case Arr(xs) =>
      forall i | 0 <= i < |xs| ensures DeepEqual(xs[i], xs[i]) {
        DeepEqualReflexive(xs[i]);
      }
    case Obj(ma) =>
      forall i | 0 <= i < |ma| ensures Lookup(ma, ma[i].0).Some? && DeepEqual(ma[i].1, Lookup(ma, ma[i].0).value) {
        LookupDistinct(ma, i);
        DeepEqualReflexive(ma[i].1);
      }
    case _ =>
  }

  /** Unlike `==` on the member lists, `isEqual` ignores the order of an object's keys. */
  lemma DeepEqualIgnoresKeyOrder(k1: string, x: Json, k2: string, y: Json)
    requires k1 != k2 && WellFormed(x) && WellFormed(y)
    ensures DeepEqual(Obj([(k1, x), (k2, y)]), Obj([(k2, y), (k1, x)]))
    ensures x != y ==> Obj([(k1, x), (k2, y)]) != Obj([(k2, y), (k1, x)])
  {
    DeepEqualReflexive(x);
    DeepEqualReflexive(y);
    var b := [(k2, y), (k1, x)];
    assert Lookup(b, k1) == Some(x) by { LookupDistinct(b, 1); }
    assert Lookup(b, k2) == Some(y) by { LookupDistinct(b, 0); }
    if x != y {
      assert Obj([(k1, x), (k2, y)]).members[0] != Obj([(k2, y), (k1, x)]).members[0];
    }
  }

  /** `undefined` and `null` are not `isEqual`, and neither is anything else. */
  lemma UndefinedEqualsOnlyItself(v: JsValue)
    ensures IsEqual(Undefined, v) <==> v == Undefined
    ensures IsEqual(Defined(Null), v) <==> v == Defined(Null)
  {
  }
}
