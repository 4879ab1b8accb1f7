/**
 * Typed, namespaced storage (`createTypedStorage`): each configured name gets
 * an item whose keys live under `<name>##` in the shared host storage, whose
 * values are validated before they are written and after they are read, and
 * which are kept there in their `superjson` string form.
 */
module TypedStorage {
  import opened Wrappers
  import opened Strings
  import opened KvStore
  import opened Serial

  /** A schema's `parse`: the (possibly transformed) value it accepts, or None where it throws. */
  type Validator = Value -> Option<Value>

  /** Why a typed read or write throws: the stored text is not `superjson`, or the schema rejects the value. */
  datatype StorageError = ParseError | ValidationError

  /** The host key of `key` in namespace `name`: `${name}##${key}`. */
  function Prefixed(name: string, key: string): string
  {
    name + "##" + key
  }

  function PrefixedKeys(name: string, keys: seq<string>): (r: seq<string>)
    ensures |r| == |keys|
    ensures forall i :: 0 <= i < |keys| ==> r[i] == Prefixed(name, keys[i])
  {
    seq(|keys|, i requires 0 <= i < |keys| => Prefixed(name, keys[i]))
  }

  /** The host listing behind a typed `list(o)`: the prefix goes under the namespace; start, end and limit pass unchanged. */
  function HostListOptions(name: string, o: ListOptions): ListOptions
  {
    o.(prefix := Some(Prefixed(name, if o.prefix.Some? then o.prefix.value else "")))
  }

  /** `validator.parse(superjson.parse(s))`. */
  function Decode(s: Serialized, validator: Validator): Result<Value, StorageError>
  {
    match Parse(s)
    case None => Failure(ParseError)
    case Some(v) =>
      match validator(v)
      case None => Failure(ValidationError)
      case Some(w) => Success(w)
  }

  /** What a typed `get(key)` returns: nothing for a missing key, otherwise the decoded value or the error it throws. */
  function GetSpec(es: seq<(string, Serialized)>, name: string, key: string, validator: Validator): Result<Option<Value>, StorageError>
  {
    match Lookup(es, Prefixed(name, key))
    case None => Success(None)
    case Some(s) =>
      match Decode(s, validator)
      case Failure(e) => Failure(e)
      case Success(w) => Success(Some(w))
  }

  /**
   * What a typed `get(keys)` makes of the entries the host found: text that
   * is not `superjson` throws, values the schema rejects are dropped, and the
   * rest are kept under their host keys.
   */
  function KeepValid(found: seq<(string, Serialized)>, validator: Validator): (r: Result<seq<(string, Value)>, StorageError>)
    ensures r.Failure? <==> exists i :: 0 <= i < |found| && Parse(found[i].1).None?
    ensures r.Failure? ==> r.error == ParseError
    ensures r.Success? ==> forall i :: 0 <= i < |found| && Parse(found[i].1).Some? && validator(Parse(found[i].1).value).Some? ==>
      (found[i].0, validator(Parse(found[i].1).value).value) in r.value
    ensures r.Success? ==> forall x :: x in r.value ==>
      exists i :: 0 <= i < |found| && found[i].0 == x.0 && Parse(found[i].1).Some? && validator(Parse(found[i].1).value) == Some(x.1)
    decreases |found|
  {
    if found == [] then Success([])
    else
      var init := found[..|found| - 1];
      var last := found[|found| - 1];
      assert forall i :: 0 <= i < |init| ==> init[i] == found[i];
      match KeepValid(init, validator)
      case Failure(e) => Failure(e)
      case Success(out) =>
        match Parse(last.1)
        case None => Failure(ParseError)
        case Some(v) =>
          match validator(v)
          case None => Success(out)
          case Some(w) => Success(out + [(last.0, w)])
  }

  /** What the `storage.ts` typed `list` makes of the host listing: every value decoded, the first failure thrown. */
  function DecodeAll(items: seq<(string, Serialized)>, validator: Validator): (r: Result<seq<(string, Value)>, StorageError>)
    ensures r.Failure? <==> exists i :: 0 <= i < |items| && Decode(items[i].1, validator).Failure?
    ensures r.Success? ==> |r.value| == |items|
    ensures r.Success? ==> forall i :: 0 <= i < |items| ==> r.value[i] == (items[i].0, Decode(items[i].1, validator).value)
    decreases |items|
  {
    if items == [] then Success([])
    else
      match Decode(items[0].1, validator)
      case Failure(e) => Failure(e)
      case Success(w) =>
        match DecodeAll(items[1..], validator)
        case Failure(e) => Failure(e)
        case Success(rest) => Success([(items[0].0, w)] + rest)
  }

  /**
   * What a typed `put(record)` hands to the host: every value validated and
   * stringified under its host key, or the first validation error, in which
   * case nothing is written.
   */
  function ValidateAll(name: string, kvs: seq<(string, Value)>, validator: Validator): (r: Result<seq<(string, Serialized)>, StorageError>)
    ensures r.Failure? <==> exists i :: 0 <= i < |kvs| && validator(kvs[i].1).None?
    ensures r.Failure? ==> r.error == ValidationError
    ensures r.Success? ==> |r.value| == |kvs|
    ensures r.Success? ==> forall i :: 0 <= i < |kvs| ==> r.value[i] == (Prefixed(name, kvs[i].0), Stringify(validator(kvs[i].1).value))
    decreases |kvs|
  {
    if kvs == [] then Success([])
    else
      var init := kvs[..|kvs| - 1];
      var last := kvs[|kvs| - 1];
      assert forall i :: 0 <= i < |init| ==> init[i] == kvs[i];
      match ValidateAll(name, init, validator)
      case Failure(e) => Failure(e)
      case Success(vals) =>
        match validator(last.1)
        case None => Failure(ValidationError)
        case Some(w) => Success(vals + [(Prefixed(name, last.0), Stringify(w))])
  }

  lemma KeepValidStep(found: seq<(string, Serialized)>, i: nat, validator: Validator)
    requires i < |found|
    ensures KeepValid(found[..i + 1], validator) ==
      match KeepValid(found[..i], validator)
      case Failure(e) => Failure(e)
      case Success(out) =>
        match Parse(found[i].1)
        case None => Failure(ParseError)
        case Some(v) => if validator(v).Some? then Success(out + [(found[i].0, validator(v).value)]) else Success(out)
  {
    assert found[..i + 1][..i] == found[..i];
  }

  lemma ValidateAllStep(name: string, kvs: seq<(string, Value)>, i: nat, validator: Validator)
    requires i < |kvs|
    ensures ValidateAll(name, kvs[..i + 1], validator) ==
      match ValidateAll(name, kvs[..i], validator)
      case Failure(e) => Failure(e)
      case Success(vals) =>
        match validator(kvs[i].1)
        case None => Failure(ValidationError)
        case Some(w) => Success(vals + [(Prefixed(name, kvs[i].0), Stringify(w))])
  {
    assert kvs[..i + 1][..i] == kvs[..i];
  }

  predicate NoHash(name: string)
  {
    forall i :: 0 <= i < |name| ==> name[i] != '#'
  }

  // ---------------------------------------------------------------- lemmas

  /** Within one namespace, distinct keys have distinct host keys. */
  lemma PrefixedInjectiveKey(name: string, k1: string, k2: string)
    requires Prefixed(name, k1) == Prefixed(name, k2)
    ensures k1 == k2
  {
    assert Prefixed(name, k1)[|name| + 2..] == k1;
    assert Prefixed(name, k2)[|name| + 2..] == k2;
  }

  lemma ShorterNameDiffers(n1: string, k1: string, n2: string, k2: string)
    requires NoHash(n2) && |n1| < |n2|
    ensures Prefixed(n1, k1) != Prefixed(n2, k2)
  {
    assert Prefixed(n1, k1)[|n1|] == '#';
    assert Prefixed(n2, k2)[|n1|] == n2[|n1|];
  }

  /** For names without `#`, the host key determines both the name and the key. */
  lemma PrefixedInjective(n1: string, k1: string, n2: string, k2: string)
    requires NoHash(n1) && NoHash(n2)
    requires Prefixed(n1, k1) == Prefixed(n2, k2)
    ensures n1 == n2 && k1 == k2
  {
    if |n1| < |n2| {
      ShorterNameDiffers(n1, k1, n2, k2);
    } else if |n2| < |n1| {
      ShorterNameDiffers(n2, k2, n1, k1);
    } else {
      var s := Prefixed(n1, k1);
      assert n1 == s[..|n1|] == n2;
      PrefixedInjectiveKey(n1, k1, k2);
    }
  }

  /** Names that contain `##` can share host keys: namespace `a` key `b##c` is namespace `a##b` key `c`. */
  lemma PrefixedCollision()
    ensures Prefixed("a", "b##c") == Prefixed("a##b", "c")
  {
  }

  /** Round trip: reading a key right after a successful `put` gives what the schema makes of the stored value. */
  lemma PutThenGet(es: seq<(string, Serialized)>, name: string, key: string, v: Value, validator: Validator)
    requires validator(v).Some?
    ensures var w := validator(v).value;
      GetSpec(Insert(es, Prefixed(name, key), Stringify(w)), name, key, validator) ==
        if validator(w).Some? then Success(Some(validator(w).value)) else Failure(ValidationError)
  {
    InsertLookup(es, Prefixed(name, key), Stringify(validator(v).value), Prefixed(name, key));
  }

  /** With a schema that accepts its own output unchanged, `get` returns exactly what `put` stored. */
  lemma PutThenGetIdempotent(es: seq<(string, Serialized)>, name: string, key: string, v: Value, validator: Validator)
    requires validator(v).Some? && validator(validator(v).value) == validator(v)
    ensures GetSpec(Insert(es, Prefixed(name, key), Stringify(validator(v).value)), name, key, validator) == Success(validator(v))
  {
    PutThenGet(es, name, key, v, validator);
  }

  /**
   * A write under one namespace is invisible under another (for names without
   * `#`), to other keys of its own, and to a raw read of the same key.
   */
  lemma PutIsolated(es: seq<(string, Serialized)>, n1: string, k1: string, s: Serialized, n2: string, k2: string, validator: Validator)
    requires NoHash(n1) && NoHash(n2)
    requires n1 != n2 || k1 != k2
    ensures GetSpec(Insert(es, Prefixed(n1, k1), s), n2, k2, validator) == GetSpec(es, n2, k2, validator)
    ensures Lookup(Insert(es, Prefixed(n1, k1), s), k1) == Lookup(es, k1)
  {
    if Prefixed(n1, k1) == Prefixed(n2, k2) {
      PrefixedInjective(n1, k1, n2, k2);
    }
    InsertLookup(es, Prefixed(n1, k1), s, Prefixed(n2, k2));
    assert |Prefixed(n1, k1)| > |k1|;
    InsertLookup(es, Prefixed(n1, k1), s, k1);
  }

  /** A raw write to the host storage is invisible to a typed read of the same key, under any namespace. */
  lemma RawPutIsolated(es: seq<(string, Serialized)>, k: string, s: Serialized, name: string, validator: Validator)
    ensures GetSpec(Insert(es, k, s), name, k, validator) == GetSpec(es, name, k, validator)
  {
    assert |Prefixed(name, k)| > |k|;
    InsertLookup(es, k, s, Prefixed(name, k));
  }

  /** A key read right after its `delete` is absent. */
  lemma DeleteThenGet(es: seq<(string, Serialized)>, name: string, key: string, validator: Validator)
    ensures GetSpec(Remove(es, Prefixed(name, key)), name, key, validator) == Success(None)
  {
    RemoveLookup(es, Prefixed(name, key), Prefixed(name, key));
  }

  lemma {:induction false} LastValueDistinct<V>(kvs: seq<(string, V)>, i: nat)
    requires i < |kvs|
    requires forall a, b :: 0 <= a < b < |kvs| ==> kvs[a].0 != kvs[b].0
    ensures LastValue(kvs, kvs[i].0) == Some(kvs[i].1)
    decreases |kvs|
  {
    if i != |kvs| - 1 {
      LastValueDistinct(kvs[..|kvs| - 1], i);
    }
  }

  /**
   * Round trip for `put(record)`: after a successful write every key of the
   * record reads back as what the schema makes of its stored value.
   */
  lemma PutManyThenGet(es: seq<(string, Serialized)>, name: string, kvs: seq<(string, Value)>, validator: Validator, i: nat)
    requires ValidateAll(name, kvs, validator).Success?
    requires forall a, b :: 0 <= a < b < |kvs| ==> kvs[a].0 != kvs[b].0
    requires i < |kvs|
    ensures var w := validator(kvs[i].1).value;
      GetSpec(InsertAll(es, ValidateAll(name, kvs, validator).value), name, kvs[i].0, validator) ==
        if validator(w).Some? then Success(Some(validator(w).value)) else Failure(ValidationError)
  {
    var vals := ValidateAll(name, kvs, validator).value;
    forall a, b | 0 <= a < b < |vals| ensures vals[a].0 != vals[b].0 {
      if vals[a].0 == vals[b].0 {
        PrefixedInjectiveKey(name, kvs[a].0, kvs[b].0);
      }
    }
    LastValueDistinct(vals, i);
    InsertAllLookup(es, vals, Prefixed(name, kvs[i].0));
  }

  /** A typed listing only reaches host keys under its namespace and the requested prefix. */
  lemma ListWithinNamespace(es: seq<(string, Serialized)>, name: string, o: ListOptions, validator: Validator)
    requires Sorted(es)
    ensures forall x :: x in ListSpec(es, HostListOptions(name, o)) ==>
      x in es && StartsWith(x.0, Prefixed(name, if o.prefix.Some? then o.prefix.value else ""))
    ensures DecodeAll(ListSpec(es, HostListOptions(name, o)), validator).Success? ==>
      forall x :: x in DecodeAll(ListSpec(es, HostListOptions(name, o)), validator).value ==>
        StartsWith(x.0, Prefixed(name, if o.prefix.Some? then o.prefix.value else ""))
  {
    var l := ListSpec(es, HostListOptions(name, o));
    ListProperties(es, HostListOptions(name, o));
    var r := DecodeAll(l, validator);
    if r.Success? {
      forall x | x in r.value
        ensures StartsWith(x.0, Prefixed(name, if o.prefix.Some? then o.prefix.value else ""))
      {
        var i :| 0 <= i < |r.value| && r.value[i] == x;
        assert l[i] in l;
      }
    }
  }

  /**
   * A successful typed `get(keys)` returns, under host keys, exactly the
   * requested entries that are stored and that the schema accepts.
   */
  lemma GetManyMeaning(es: seq<(string, Serialized)>, name: string, keys: seq<string>, validator: Validator)
    ensures var r := KeepValid(Found(es, PrefixedKeys(name, keys)), validator);
      r.Success? ==> forall x :: x in r.value ==>
        exists s :: (x.0, s) in es && x.0 in PrefixedKeys(name, keys) && Decode(s, validator) == Success(x.1)
    ensures var r := KeepValid(Found(es, PrefixedKeys(name, keys)), validator);
      r.Success? ==> forall s, k :: (k, s) in es && k in PrefixedKeys(name, keys) && Decode(s, validator).Success? ==>
        (k, Decode(s, validator).value) in r.value
  {
    var found := Found(es, PrefixedKeys(name, keys));
    var r := KeepValid(found, validator);
    if r.Success? {
      forall x | x in r.value
        ensures exists s :: (x.0, s) in es && x.0 in PrefixedKeys(name, keys) && Decode(s, validator) == Success(x.1)
      {
        var i :| 0 <= i < |found| && found[i].0 == x.0 && Parse(found[i].1).Some? && validator(Parse(found[i].1).value) == Some(x.1);
        assert found[i] in found;
        FoundMember(es, PrefixedKeys(name, keys), found[i]);
        assert Decode(found[i].1, validator) == Success(x.1);
      }
      forall s, k | (k, s) in es && k in PrefixedKeys(name, keys) && Decode(s, validator).Success?
        ensures (k, Decode(s, validator).value) in r.value
      {
        FoundMember(es, PrefixedKeys(name, keys), (k, s));
        var i :| 0 <= i < |found| && found[i] == (k, s);
      }
    }
  }

  /** One typed namespace over the shared host storage (`createTypedStorageItem`). */
  class TypedStorageItem {
    const storage: Store<Serialized>
    const name: string
    const validator: Validator

    ghost predicate Valid()
      reads storage
    {
      storage.Valid()
    }

    constructor (storage: Store<Serialized>, name: string, validator: Validator)
      ensures this.storage == storage && this.name == name && this.validator == validator
    {
      this.storage := storage;
      this.name := name;
      this.validator := validator;
    }

    method Get(key: string) returns (r: Result<Option<Value>, StorageError>)
      ensures r == GetSpec(storage.entries, name, key, validator)
      ensures r == Success(None) <==> Lookup(storage.entries, Prefixed(name, key)).None?
    {
      var s := storage.Get(Prefixed(name, key));
      if s.None? {
        return Success(None);
      }
      var d := Decode(s.value, validator);
      r := if d.Success? then Success(Some(d.value)) else Failure(d.error);
    }

    method GetMany(keys: seq<string>) returns (r: Result<seq<(string, Value)>, StorageError>)
      ensures r == KeepValid(Found(storage.entries, PrefixedKeys(name, keys)), validator)
    {
      var found := storage.GetMany(PrefixedKeys(name, keys));
      var out: seq<(string, Value)> := [];
      var i := 0;
      while i < |found|
        invariant 0 <= i <= |found|
        invariant KeepValid(found[..i], validator) == Success(out)
      {
        KeepValidStep(found, i, validator);
        var v := Parse(found[i].1);
        if v.None? {
          assert found[..i + 1] == found[..i + 1];
          r := Failure(ParseError);
          assert KeepValid(found, validator).Failure?;
          return;
        }
        var parsed := validator(v.value);
        if parsed.Some? {
          out := out + [(found[i].0, parsed.value)];
        }
        i := i + 1;
      }
      assert found[..i] == found;
      r := Success(out);
    }

    method List(o: ListOptions) returns (r: Result<seq<(string, Value)>, StorageError>)
      ensures r == DecodeAll(ListSpec(storage.entries, HostListOptions(name, o)), validator)
    {
      var items := storage.List(HostListOptions(name, o));
      r := DecodeAll(items, validator);
    }

    method Put(key: string, v: Value) returns (r: Result<(), StorageError>)
      requires Valid()
      modifies storage`entries
      ensures Valid()
      ensures r.Failure? <==> validator(v).None?
      ensures r.Failure? ==> storage.entries == old(storage.entries)
      ensures r.Success? ==> storage.entries == Insert(old(storage.entries), Prefixed(name, key), Stringify(validator(v).value))
    {
      var parsed := validator(v);
      if parsed.None? {
        return Failure(ValidationError);
      }
      storage.Put(Prefixed(name, key), Stringify(parsed.value));
      r := Success(());
    }

    method PutMany(kvs: seq<(string, Value)>) returns (r: Result<(), StorageError>)
      requires Valid()
      modifies storage`entries
      ensures Valid()
      ensures r.Failure? <==> ValidateAll(name, kvs, validator).Failure?
      ensures r.Failure? ==> storage.entries == old(storage.entries)
      ensures r.Success? ==> storage.entries == InsertAll(old(storage.entries), ValidateAll(name, kvs, validator).value)
    {
      var vals: seq<(string, Serialized)> := [];
      var i := 0;
      while i < |kvs|
        invariant 0 <= i <= |kvs|
        invariant ValidateAll(name, kvs[..i], validator) == Success(vals)
        invariant storage.entries == old(storage.entries)
      {
        ValidateAllStep(name, kvs, i, validator);
        var parsed := validator(kvs[i].1);
        if parsed.None? {
          r := Failure(ValidationError);
          assert ValidateAll(name, kvs, validator).Failure?;
          return;
        }
        vals := vals + [(Prefixed(name, kvs[i].0), Stringify(parsed.value))];
        i := i + 1;
      }
      assert kvs[..i] == kvs;
      storage.PutMany(vals);
      r := Success(());
    }

    method Delete(key: string) returns (existed: bool)
      requires Valid()
      modifies storage`entries
      ensures Valid()
      ensures storage.entries == Remove(old(storage.entries), Prefixed(name, key))
      ensures existed == Lookup(old(storage.entries), Prefixed(name, key)).Some?
    {
      existed := storage.Delete(Prefixed(name, key));
    }

    method DeleteMany(keys: seq<string>) returns (count: nat)
      requires Valid()
      modifies storage`entries
      ensures Valid()
      ensures storage.entries == RemoveAll(old(storage.entries), PrefixedKeys(name, keys))
      ensures count == DeletedCount(old(storage.entries), PrefixedKeys(name, keys))
    {
      count := storage.DeleteMany(PrefixedKeys(name, keys));
    }
  }

  /** `createTypedStorage`: one item per configured name, all over the same host storage. */
  method CreateTypedStorage(storage: Store<Serialized>, cfg: map<string, Validator>) returns (items: map<string, TypedStorageItem>)
    ensures items.Keys == cfg.Keys
    ensures forall n :: n in items ==>
      items[n].storage == storage && items[n].name == n && items[n].validator == cfg[n]
  {
    items := map[];
    var rest := cfg.Keys;
    while rest != {}
      invariant rest <= cfg.Keys
      invariant items.Keys == cfg.Keys - rest
      invariant forall n :: n in items ==>
        items[n].storage == storage && items[n].name == n && items[n].validator == cfg[n]
      decreases |rest|
    {
      var n :| n in rest;
      var item := new TypedStorageItem(storage, n, cfg[n]);
      items := items[n := item];
      rest := rest - {n};
    }
  }
}
