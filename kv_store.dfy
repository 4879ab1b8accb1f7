/**
 * The host's durable key/value storage as the core uses it: get, put and
 * delete by key (singly or in batches), a listing in ascending key order
 * bounded by start (inclusive), end (exclusive), prefix and limit, and the
 * single wake register set by `setAlarm`. The store is not part of the
 * repository; its operations are modelled by the functions below.
 */
module KvStore {
  import opened Wrappers
  import opened Strings

  /** Keys strictly ascending: one entry per key, in listing order. */
  ghost predicate Sorted<V>(es: seq<(string, V)>)
  {
    forall i, j :: 0 <= i < j < |es| ==> Less(es[i].0, es[j].0)
  }

  /** Every key of `es` sorts after `b`. */
  ghost predicate Above<V>(b: string, es: seq<(string, V)>)
  {
    forall i :: 0 <= i < |es| ==> Less(b, es[i].0)
  }

  function Lookup<V>(es: seq<(string, V)>, k: string): Option<V>
  {
    if es == [] then None
    else if es[0].0 == k then Some(es[0].1)
    else Lookup(es[1..], k)
  }

  /** The entries after `put(k, v)`: `k` is added at its place, or its value replaced. */
  function Insert<V>(es: seq<(string, V)>, k: string, v: V): seq<(string, V)>
  {
    if es == [] then [(k, v)]
    else if es[0].0 == k then [(k, v)] + es[1..]
    else if Less(k, es[0].0) then [(k, v)] + es
    else [es[0]] + Insert(es[1..], k, v)
  }

  /** The entries after `delete(k)`. */
  function Remove<V>(es: seq<(string, V)>, k: string): seq<(string, V)>
  {
    if es == [] then []
    else (if es[0].0 == k then [] else [es[0]]) + Remove(es[1..], k)
  }

  /** The entries after `put(record)`: each pair in turn, a later pair winning. */
  function InsertAll<V>(es: seq<(string, V)>, kvs: seq<(string, V)>): seq<(string, V)>
    decreases kvs
  {
    if kvs == [] then es else InsertAll(Insert(es, kvs[0].0, kvs[0].1), kvs[1..])
  }

  /** The entries after `delete(keys)`. */
  function RemoveAll<V>(es: seq<(string, V)>, keys: seq<string>): seq<(string, V)>
    decreases keys
  {
    if keys == [] then es else RemoveAll(Remove(es, keys[0]), keys[1..])
  }

  /** What `delete(keys)` returns: how many of the keys were present when deleted. */
  function DeletedCount<V>(es: seq<(string, V)>, keys: seq<string>): nat
    decreases keys
  {
    if keys == [] then 0
    else (if Lookup(es, keys[0]).Some? then 1 else 0) + DeletedCount(Remove(es, keys[0]), keys[1..])
  }

  /** The value a record built from `kvs` holds for `q`: its last pair with that key. */
  function LastValue<V>(kvs: seq<(string, V)>, q: string): Option<V>
  {
    if kvs == [] then None
    else if kvs[|kvs| - 1].0 == q then Some(kvs[|kvs| - 1].1)
    else LastValue(kvs[..|kvs| - 1], q)
  }

  /** What `get(keys)` returns: the stored entries whose key was asked for, in key order. */
  function Found<V>(es: seq<(string, V)>, keys: seq<string>): seq<(string, V)>
  {
    if es == [] then []
    else (if es[0].0 in keys then [es[0]] else []) + Found(es[1..], keys)
  }

  datatype ListOptions = ListOptions(
    start: Option<string>,
    end: Option<string>,
    prefix: Option<string>,
    limit: Option<nat>)

  predicate Selected(k: string, o: ListOptions)
  {
    && (o.start.None? || !Less(k, o.start.value))
    && (o.end.None? || Less(k, o.end.value))
    && (o.prefix.None? || StartsWith(k, o.prefix.value))
  }

  function Select<V>(es: seq<(string, V)>, o: ListOptions): seq<(string, V)>
  {
    if es == [] then []
    else (if Selected(es[0].0, o) then [es[0]] else []) + Select(es[1..], o)
  }

  function Take<T>(s: seq<T>, limit: Option<nat>): seq<T>
  {
    if limit.Some? && limit.value < |s| then s[..limit.value] else s
  }

  /** What `list(o)` returns: the selected entries in ascending key order, at most `limit` of them. */
  function ListSpec<V>(es: seq<(string, V)>, o: ListOptions): seq<(string, V)>
  {
    Take(Select(es, o), o.limit)
  }

  // ---------------------------------------------------------------- lemmas

  lemma {:induction false} LookupFound<V>(es: seq<(string, V)>, i: nat)
    requires Sorted(es) && i < |es|
    ensures Lookup(es, es[i].0) == Some(es[i].1)
  {
    if i > 0 {
      LessIrreflexive(es[0].0);
      assert es[1..][i - 1] == es[i];
      LookupFound(es[1..], i - 1);
    }
  }

  lemma {:induction false} LookupAbsent<V>(es: seq<(string, V)>, k: string)
    requires forall i :: 0 <= i < |es| ==> es[i].0 != k
    ensures Lookup(es, k) == None
  {
    if es != [] {
      LookupAbsent(es[1..], k);
    }
  }

  lemma {:induction false} LookupSome<V>(es: seq<(string, V)>, k: string)
    requires Lookup(es, k).Some?
    ensures exists i :: 0 <= i < |es| && es[i] == (k, Lookup(es, k).value)
  {
    if es[0].0 != k {
      LookupSome(es[1..], k);
      var i :| 0 <= i < |es[1..]| && es[1..][i] == (k, Lookup(es, k).value);
      assert es[i + 1] == (k, Lookup(es, k).value);
    }
  }

  lemma SortedTail<V>(es: seq<(string, V)>)
    requires Sorted(es) && es != []
    ensures Sorted(es[1..]) && Above(es[0].0, es[1..])
  {
  }

  lemma SortedCons<V>(x: (string, V), es: seq<(string, V)>)
    requires Sorted(es) && Above(x.0, es)
    ensures Sorted([x] + es)
  {
  }

  lemma {:induction false} AboveTransitive<V>(a: string, b: string, es: seq<(string, V)>)
    requires Less(a, b) && Above(b, es)
    ensures Above(a, es)
  {
    forall i | 0 <= i < |es| ensures Less(a, es[i].0) {
      LessTransitive(a, b, es[i].0);
    }
  }

  lemma {:induction false} InsertLookup<V>(es: seq<(string, V)>, k: string, v: V, q: string)
    ensures Lookup(Insert(es, k, v), q) == if q == k then Some(v) else Lookup(es, q)
  {
    if es != [] && es[0].0 != k && !Less(k, es[0].0) {
      InsertLookup(es[1..], k, v, q);
    }
  }

  lemma {:induction false} InsertAbove<V>(b: string, es: seq<(string, V)>, k: string, v: V)
    requires Above(b, es) && Less(b, k)
    ensures Above(b, Insert(es, k, v))
  {
    if es != [] && es[0].0 != k && !Less(k, es[0].0) {
      InsertAbove(b, es[1..], k, v);
    }
  }

  lemma {:induction false} InsertSorted<V>(es: seq<(string, V)>, k: string, v: V)
    requires Sorted(es)
    ensures Sorted(Insert(es, k, v))
  {
    if es == [] {
    } else if es[0].0 == k {
      SortedTail(es);
      SortedCons((k, v), es[1..]);
    } else if Less(k, es[0].0) {
      SortedTail(es);
      AboveTransitive(k, es[0].0, es[1..]);
      SortedCons((k, v), es);
    } else {
      SortedTail(es);
      LessTotal(k, es[0].0);
      InsertSorted(es[1..], k, v);
      InsertAbove(es[0].0, es[1..], k, v);
      SortedCons(es[0], Insert(es[1..], k, v));
    }
  }

  lemma {:induction false} InsertMember<V>(es: seq<(string, V)>, k: string, v: V, x: (string, V))
    requires x in Insert(es, k, v)
    ensures x == (k, v) || x in es
  {
    if es != [] && es[0].0 != k && !Less(k, es[0].0) {
      if x != es[0] {
        InsertMember(es[1..], k, v, x);
      }
    }
  }

  lemma {:induction false} RemoveMember<V>(es: seq<(string, V)>, k: string, x: (string, V))
    requires x in Remove(es, k)
    ensures x in es && x.0 != k
  {
    if es != [] {
      if es[0].0 == k || x != es[0] {
        RemoveMember(es[1..], k, x);
      }
    }
  }

  lemma {:induction false} RemoveAllMember<V>(es: seq<(string, V)>, keys: seq<string>, x: (string, V))
    requires x in RemoveAll(es, keys)
    ensures x in es && x.0 !in keys
    decreases keys
  {
    if keys != [] {
      RemoveAllMember(Remove(es, keys[0]), keys[1..], x);
      RemoveMember(es, keys[0], x);
    }
  }

  lemma {:induction false} RemoveAllSnoc<V>(es: seq<(string, V)>, keys: seq<string>, k: string)
    ensures RemoveAll(es, keys + [k]) == Remove(RemoveAll(es, keys), k)
    decreases keys
  {
    if keys == [] {
      assert keys + [k] == [k];
    } else {
      assert (keys + [k])[1..] == keys[1..] + [k];
      RemoveAllSnoc(Remove(es, keys[0]), keys[1..], k);
    }
  }

  lemma {:induction false} RemoveLookup<V>(es: seq<(string, V)>, k: string, q: string)
    ensures Lookup(Remove(es, k), q) == if q == k then None else Lookup(es, q)
  {
    if es != [] {
      RemoveLookup(es[1..], k, q);
      var r := Remove(es, k);
      if es[0].0 == k {
        assert r == Remove(es[1..], k);
      } else {
        assert r == [es[0]] + Remove(es[1..], k);
        assert r[0] == es[0] && r[1..] == Remove(es[1..], k);
      }
    }
  }

  lemma {:induction false} RemoveAbove<V>(b: string, es: seq<(string, V)>, k: string)
    requires Above(b, es)
    ensures Above(b, Remove(es, k))
  {
    if es != [] {
      RemoveAbove(b, es[1..], k);
    }
  }

  lemma {:induction false} RemoveSorted<V>(es: seq<(string, V)>, k: string)
    requires Sorted(es)
    ensures Sorted(Remove(es, k))
  {
    if es != [] {
      SortedTail(es);
      RemoveSorted(es[1..], k);
      RemoveAbove(es[0].0, es[1..], k);
    }
  }

  lemma {:induction false} InsertAllSorted<V>(es: seq<(string, V)>, kvs: seq<(string, V)>)
    requires Sorted(es)
    ensures Sorted(InsertAll(es, kvs))
    decreases kvs
  {
    if kvs != [] {
      InsertSorted(es, kvs[0].0, kvs[0].1);
      InsertAllSorted(Insert(es, kvs[0].0, kvs[0].1), kvs[1..]);
    }
  }

  lemma {:induction false} LastValueCons<V>(x: (string, V), kvs: seq<(string, V)>, q: string)
    ensures LastValue([x] + kvs, q) == if LastValue(kvs, q).Some? then LastValue(kvs, q) else if x.0 == q then Some(x.1) else None
    decreases |kvs|
  {
    if kvs != [] {
      assert ([x] + kvs)[..|[x] + kvs| - 1] == [x] + kvs[..|kvs| - 1];
      LastValueCons(x, kvs[..|kvs| - 1], q);
    }
  }

  lemma {:induction false} InsertAllLookup<V>(es: seq<(string, V)>, kvs: seq<(string, V)>, q: string)
    ensures Lookup(InsertAll(es, kvs), q) == if LastValue(kvs, q).Some? then LastValue(kvs, q) else Lookup(es, q)
    decreases kvs
  {
    if kvs != [] {
      InsertAllLookup(Insert(es, kvs[0].0, kvs[0].1), kvs[1..], q);
      InsertLookup(es, kvs[0].0, kvs[0].1, q);
      assert kvs == [kvs[0]] + kvs[1..];
      LastValueCons(kvs[0], kvs[1..], q);
    }
  }

  lemma {:induction false} RemoveAllSorted<V>(es: seq<(string, V)>, keys: seq<string>)
    requires Sorted(es)
    ensures Sorted(RemoveAll(es, keys))
    decreases keys
  {
    if keys != [] {
      RemoveSorted(es, keys[0]);
      RemoveAllSorted(Remove(es, keys[0]), keys[1..]);
    }
  }

  lemma {:induction false} RemoveAllLookup<V>(es: seq<(string, V)>, keys: seq<string>, q: string)
    ensures Lookup(RemoveAll(es, keys), q) == if q in keys then None else Lookup(es, q)
    decreases keys
  {
    if keys != [] {
      RemoveLookup(es, keys[0], q);
      RemoveAllLookup(Remove(es, keys[0]), keys[1..], q);
      assert q in keys <==> q == keys[0] || q in keys[1..];
    }
  }

  lemma {:induction false} SelectMember<V>(es: seq<(string, V)>, o: ListOptions, x: (string, V))
    ensures x in Select(es, o) <==> x in es && Selected(x.0, o)
  {
    if es != [] {
      SelectMember(es[1..], o, x);
      assert es == [es[0]] + es[1..];
    }
  }

  lemma {:induction false} SelectAbove<V>(b: string, es: seq<(string, V)>, o: ListOptions)
    requires Above(b, es)
    ensures Above(b, Select(es, o))
  {
    if es != [] {
      SelectAbove(b, es[1..], o);
    }
  }

  lemma {:induction false} SelectSorted<V>(es: seq<(string, V)>, o: ListOptions)
    requires Sorted(es)
    ensures Sorted(Select(es, o))
  {
    if es != [] {
      SortedTail(es);
      SelectSorted(es[1..], o);
      SelectAbove(es[0].0, es[1..], o);
    }
  }

  /** A listing is sorted, contains only stored entries the options select, and respects the limit. */
  lemma ListProperties<V>(es: seq<(string, V)>, o: ListOptions)
    requires Sorted(es)
    ensures Sorted(ListSpec(es, o))
    ensures forall x :: x in ListSpec(es, o) ==> x in es && Selected(x.0, o)
    ensures o.limit.Some? ==> |ListSpec(es, o)| <= o.limit.value
    ensures o.limit.None? ==> forall x :: x in es && Selected(x.0, o) ==> x in ListSpec(es, o)
  {
    SelectSorted(es, o);
    forall x ensures x in Select(es, o) <==> x in es && Selected(x.0, o) {
      SelectMember(es, o, x);
    }
    forall x | x in ListSpec(es, o) ensures x in es && Selected(x.0, o) {
      var s := Select(es, o);
      if o.limit.Some? && o.limit.value < |s| {
        var j :| 0 <= j < o.limit.value && s[..o.limit.value][j] == x;
        assert s[j] == x;
      }
      assert x in s;
      SelectMember(es, o, x);
    }
  }

  /** The listing's first entry, when there is one, has the least selected key. */
  lemma {:induction false} ListFirstIsLeast<V>(es: seq<(string, V)>, o: ListOptions)
    requires Sorted(es)
    requires o.limit != Some(0)
    ensures ListSpec(es, o) == [] <==> forall i :: 0 <= i < |es| ==> !Selected(es[i].0, o)
    ensures ListSpec(es, o) != [] ==>
      forall i :: 0 <= i < |es| && Selected(es[i].0, o) ==> !Less(es[i].0, ListSpec(es, o)[0].0)
  {
    SelectSorted(es, o);
    var s := Select(es, o);
    assert ListSpec(es, o) == [] <==> s == [];
    if s != [] {
      assert ListSpec(es, o)[0] == s[0];
      SelectMember(es, o, s[0]);
      var i0 :| 0 <= i0 < |es| && es[i0] == s[0];
      assert Selected(es[i0].0, o);
      forall i | 0 <= i < |es| && Selected(es[i].0, o) ensures !Less(es[i].0, s[0].0) {
        SelectMember(es, o, es[i]);
        SortedHeadLeast(s, es[i]);
      }
    } else {
      forall i | 0 <= i < |es| ensures !Selected(es[i].0, o) {
        SelectMember(es, o, es[i]);
      }
    }
  }

  /** No entry of a sorted sequence sorts before its head. */
  lemma SortedHeadLeast<V>(s: seq<(string, V)>, x: (string, V))
    requires Sorted(s) && x in s
    ensures !Less(x.0, s[0].0)
  {
    var j :| 0 <= j < |s| && s[j] == x;
    if j > 0 {
      LessAsymmetric(s[0].0, s[j].0);
    } else {
      LessIrreflexive(s[0].0);
    }
  }

  lemma {:induction false} FoundMember<V>(es: seq<(string, V)>, keys: seq<string>, x: (string, V))
    ensures x in Found(es, keys) <==> x in es && x.0 in keys
  {
    if es != [] {
      FoundMember(es[1..], keys, x);
      assert es == [es[0]] + es[1..];
    }
  }

  /**
   * The host's storage object: its entries, in key order, and its single
   * wake register.
   */
  class Store<V> {
    var entries: seq<(string, V)>
    var alarm: Option<int>

    ghost predicate Valid()
      reads this
    {
      Sorted(entries)
    }

    constructor ()
      ensures Valid() && entries == [] && alarm == None
    {
      entries := [];
      alarm := None;
    }

    method Get(k: string) returns (r: Option<V>)
      ensures r == Lookup(entries, k)
    {
      r := Lookup(entries, k);
    }

    method GetMany(keys: seq<string>) returns (r: seq<(string, V)>)
      ensures r == Found(entries, keys)
    {
      r := Found(entries, keys);
    }

    method List(o: ListOptions) returns (r: seq<(string, V)>)
      ensures r == ListSpec(entries, o)
    {
      r := ListSpec(entries, o);
    }

    method Put(k: string, v: V)
      requires Valid()
      modifies this`entries
      ensures Valid() && entries == Insert(old(entries), k, v)
    {
      InsertSorted(entries, k, v);
      entries := Insert(entries, k, v);
    }

    method PutMany(kvs: seq<(string, V)>)
      requires Valid()
      modifies this`entries
      ensures Valid() && entries == InsertAll(old(entries), kvs)
    {
      InsertAllSorted(entries, kvs);
      entries := InsertAll(entries, kvs);
    }

    method Delete(k: string) returns (existed: bool)
      requires Valid()
      modifies this`entries
      ensures Valid() && entries == Remove(old(entries), k)
      ensures existed == Lookup(old(entries), k).Some?
    {
      existed := Lookup(entries, k).Some?;
      RemoveSorted(entries, k);
      entries := Remove(entries, k);
    }

    method DeleteMany(keys: seq<string>) returns (count: nat)
      requires Valid()
      modifies this`entries
      ensures Valid() && entries == RemoveAll(old(entries), keys)
      ensures count == DeletedCount(old(entries), keys)
    {
      count := DeletedCount(entries, keys);
      RemoveAllSorted(entries, keys);
      entries := RemoveAll(entries, keys);
    }

    method SetAlarm(t: int)
      modifies this`alarm
      ensures alarm == Some(t)
    {
      alarm := Some(t);
    }
  }
}
