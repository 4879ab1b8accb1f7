/**
 * `mapObject(obj, callback)`: a new object with the same own keys (except
 * `__proto__`), each value replaced by `callback(value, key)`.
 */
module Utils {

  /**
   * An object as `for…in` sees it: its own properties, and the order in which
   * `for…in` visits the enumerable string keys, its own and inherited ones
   * alike, each once.
   */
  datatype JsObject<T> = JsObject(own: map<string, T>, forIn: seq<string>)

  /** `for…in` never visits a key twice. */
  ghost predicate Distinct(keys: seq<string>)
  {
    forall i, j :: 0 <= i < j < |keys| ==> keys[i] != keys[j]
  }

  /** The keys `for…in` visits that pass `hasOwnProperty`, in visiting order. */
  function OwnVisited<T>(forIn: seq<string>, own: map<string, T>): (r: seq<string>)
  {
    if forIn == [] then []
    else OwnVisited(forIn[..|forIn| - 1], own) + (if forIn[|forIn| - 1] in own then [forIn[|forIn| - 1]] else [])
  }

  /** The own keys visited are exactly the own keys among those `for…in` visits, each once. */
  lemma {:induction false} OwnVisitedMeaning<T>(forIn: seq<string>, own: map<string, T>)
    requires Distinct(forIn)
    ensures forall k :: k in OwnVisited(forIn, own) <==> k in forIn && k in own
    ensures Distinct(OwnVisited(forIn, own))
    decreases |forIn|
  {
    if forIn != [] {
      var init := forIn[..|forIn| - 1];
      var last := forIn[|forIn| - 1];
      assert forall i, j :: 0 <= i < j < |init| ==> init[i] == forIn[i] && init[j] == forIn[j];
      OwnVisitedMeaning(init, own);
      assert forall k :: k in forIn <==> k in init || k == last;
      assert last !in init;
    }
  }

  /**
   * The key whose assignment runs the inherited `Object.prototype.__proto__`
   * setter instead of creating an own property.
   */
  const ProtoKey := "__proto__"

  /**
   * `mapObject`: the result holds exactly the own keys `for…in` visits other
   * than `__proto__`, each mapped by the callback, and `calls` lists the keys
   * the callback was called with, in order, `__proto__` included.
   */
  method MapObject<T, U>(obj: JsObject<T>, callback: (T, string) -> U) returns (result: map<string, U>, calls: seq<string>)
    requires Distinct(obj.forIn)
    ensures result.Keys == set k | k in obj.forIn && k in obj.own && k != ProtoKey
    ensures forall k :: k in result ==> k in obj.own && result[k] == callback(obj.own[k], k)
    ensures calls == OwnVisited(obj.forIn, obj.own)
  {
    result := map[];
    calls := [];
    for i := 0 to |obj.forIn|
      invariant result.Keys == set k | k in obj.forIn[..i] && k in obj.own && k != ProtoKey
      invariant forall k :: k in result ==> k in obj.own && result[k] == callback(obj.own[k], k)
      invariant calls == OwnVisited(obj.forIn[..i], obj.own)
    {
      var key := obj.forIn[i];
      assert obj.forIn[..i + 1][..i] == obj.forIn[..i];
      if key in obj.own {
        var value := callback(obj.own[key], key);
        if key != ProtoKey {
          result := result[key := value];
        }
        calls := calls + [key];
      }
      assert forall k :: k in obj.forIn[..i + 1] <==> k in obj.forIn[..i] || k == key;
    }
    assert obj.forIn[..|obj.forIn|] == obj.forIn;
  }

  /**
   * The callback is called once per own key `for…in` visits and never with
   * another key; the keys of the result are exactly those.
   */
  lemma MapObjectCalls<T>(obj: JsObject<T>)
    requires Distinct(obj.forIn)
    ensures var calls := OwnVisited(obj.forIn, obj.own);
      && (forall k :: k in calls <==> k in obj.forIn && k in obj.own)
      && Distinct(calls)
  {
    OwnVisitedMeaning(obj.forIn, obj.own);
  }
}
