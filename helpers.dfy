/** The admin panel's shallow object comparison. */
module AdminHelpers {

  /** A JavaScript value as strict equality sees it. Objects, arrays and
      functions are references: two of them are equal only when they are the
      same reference. Numbers are integers; NaN is kept apart because it is
      not equal to itself. */
  datatype JsValue =
    | Undefined
    | Null
    | Bool(b: bool)
    | Num(n: int)
    | NaN
    | Str(s: string)
    | Ref(address: nat)

  /** An object's own enumerable properties. A key may be present with the value `undefined`. */
  type JsObject = map<string, JsValue>

  /** `===`. */
  predicate StrictEq(a: JsValue, b: JsValue) {
    a != NaN && b != NaN && a == b
  }

  /** `object[key]`: a missing key reads as `undefined`. */
  function Get(o: JsObject, key: string): JsValue {
    if key in o then o[key] else Undefined
  }

  /** Same number of keys, and every key of the first object holds a value
      strictly equal to what the second object holds at that key. */
  predicate ShallowEqual(object1: JsObject, object2: JsObject) {
    |object1.Keys| == |object2.Keys| && forall key :: key in object1 ==> StrictEq(object1[key], Get(object2, key))
  }

  /** `shallowIsEqual`: the key counts, then a loop over the first object's
      keys that stops at the first difference. Neither object is changed. */
  method ShallowIsEqual(object1: JsObject, object2: JsObject) returns (equal: bool)
    ensures equal == ShallowEqual(object1, object2)
  {
    var keys1, keys2 := object1.Keys, object2.Keys;
    if |keys1| != |keys2| {
      return false;
    }
    var pending := keys1;
    while pending != {}
      invariant pending <= keys1
      invariant forall key :: key in object1 && key !in pending ==> StrictEq(object1[key], Get(object2, key))
      decreases pending
    {
      var key :| key in pending;
      if !StrictEq(object1[key], Get(object2, key)) {
        return false;
      }
      pending := pending - {key};
    }
    return true;
  }

  // Properties.

  /** The comparison is not symmetric: `{a: undefined}` equals `{b: 1}`, but
      not the other way round. */
  lemma NotSymmetric()
    ensures ShallowEqual(map["a" := Undefined], map["b" := Num(1)])
    ensures !ShallowEqual(map["b" := Num(1)], map["a" := Undefined])
  {
    assert map["a" := Undefined].Keys == {"a"};
    assert map["b" := Num(1)].Keys == {"b"};
  }

  /** The documented examples: equal flat objects compare equal, a changed
      value compares unequal, and nested objects with equal content but
      distinct references compare unequal. */
  lemma DocumentedExamples(nested1: nat, nested2: nat)
    requires nested1 != nested2
    ensures ShallowEqual(map["name" := Str("John"), "age" := Num(30)], map["name" := Str("John"), "age" := Num(30)])
    ensures !ShallowEqual(map["name" := Str("John"), "age" := Num(30)], map["name" := Str("John"), "age" := Num(31)])
    ensures !ShallowEqual(map["user" := Ref(nested1)], map["user" := Ref(nested2)])
  {
    assert "age" in map["name" := Str("John"), "age" := Num(30)];
    assert "user" in map["user" := Ref(nested1)];
  }

  /** When the first object holds no `undefined` value, equal objects have
      the same keys. */
  lemma {:induction false} SameKeysWithoutUndefined(object1: JsObject, object2: JsObject)
    requires forall key :: key in object1 ==> object1[key] != Undefined
    requires ShallowEqual(object1, object2)
    ensures object1.Keys == object2.Keys
  {
    var k1, k2 := object1.Keys, object2.Keys;
    assert k1 <= k2 by {
      forall key | key in k1 ensures key in k2 {
        assert StrictEq(object1[key], Get(object2, key));
      }
    }
    assert k2 == k1 + (k2 - k1);
    assert |k2 - k1| == 0;
  }

  /** An object equals itself exactly when it holds no NaN. */
  lemma ReflexiveIffNoNaN(o: JsObject)
    ensures ShallowEqual(o, o) <==> forall key :: key in o ==> o[key] != NaN
  {
  }
}
