/**
 * `createDurable`: the durable object's `fetch`, which sends requests on the
 * configured pathname to the RPC router, others to a fallthrough handler if
 * there is one, and answers 400 otherwise; and the second copy of the typed
 * storage, whose `list` hands back the stored strings as they are.
 */
module Durable {
  import opened Wrappers
  import opened KvStore
  import opened Serial
  import opened TypedStorage
  import opened Rpc

  // ---------------------------------------------------------------- typed storage, second copy

  /**
   * `createTypedStorageItem` as `createDurable`'s file has it. Its `get`,
   * `put` and `delete` are the same code as the storage module's; its `list`
   * neither parses nor validates.
   */
  class DurableStorageItem {
    const typed: TypedStorageItem

    ghost predicate Valid()
      reads typed.storage
    {
      typed.Valid()
    }

    constructor (storage: Store<Serialized>, name: string, validator: Validator)
      ensures typed.storage == storage && typed.name == name && typed.validator == validator
    {
      typed := new TypedStorageItem(storage, name, validator);
    }

    method Get(key: string) returns (r: Result<Option<Value>, StorageError>)
      ensures r == GetSpec(typed.storage.entries, typed.name, key, typed.validator)
      ensures r == Success(None) <==> Lookup(typed.storage.entries, Prefixed(typed.name, key)).None?
    {
      r := typed.Get(key);
    }

    method GetMany(keys: seq<string>) returns (r: Result<seq<(string, Value)>, StorageError>)
      ensures r == KeepValid(Found(typed.storage.entries, PrefixedKeys(typed.name, keys)), typed.validator)
    {
      r := typed.GetMany(keys);
    }

    /** `storage.list({...opts, prefix: prefix(opts?.prefix ?? '')})`, values untouched. */
    method List(o: ListOptions) returns (r: seq<(string, Serialized)>)
      ensures r == ListSpec(typed.storage.entries, HostListOptions(typed.name, o))
    {
      r := typed.storage.List(HostListOptions(typed.name, o));
    }

    method Put(key: string, v: Value) returns (r: Result<(), StorageError>)
      requires Valid()
      modifies typed.storage`entries
      ensures Valid()
      ensures r.Failure? <==> typed.validator(v).None?
      ensures r.Failure? ==> typed.storage.entries == old(typed.storage.entries)
      ensures r.Success? ==> typed.storage.entries == Insert(old(typed.storage.entries), Prefixed(typed.name, key), Stringify(typed.validator(v).value))
    {
      r := typed.Put(key, v);
    }

    method PutMany(kvs: seq<(string, Value)>) returns (r: Result<(), StorageError>)
      requires Valid()
      modifies typed.storage`entries
      ensures Valid()
      ensures r.Failure? <==> ValidateAll(typed.name, kvs, typed.validator).Failure?
      ensures r.Failure? ==> typed.storage.entries == old(typed.storage.entries)
      ensures r.Success? ==> typed.storage.entries == InsertAll(old(typed.storage.entries), ValidateAll(typed.name, kvs, typed.validator).value)
    {
      r := typed.PutMany(kvs);
    }

    method Delete(key: string) returns (existed: bool)
      requires Valid()
      modifies typed.storage`entries
      ensures Valid()
      ensures typed.storage.entries == Remove(old(typed.storage.entries), Prefixed(typed.name, key))
      ensures existed == Lookup(old(typed.storage.entries), Prefixed(typed.name, key)).Some?
    {
      existed := typed.Delete(key);
    }

    method DeleteMany(keys: seq<string>) returns (count: nat)
      requires Valid()
      modifies typed.storage`entries
      ensures Valid()
      ensures typed.storage.entries == RemoveAll(old(typed.storage.entries), PrefixedKeys(typed.name, keys))
      ensures count == DeletedCount(old(typed.storage.entries), PrefixedKeys(typed.name, keys))
    {
      count := typed.DeleteMany(keys);
    }
  }

  /**
   * This copy's `list` returns stored entries exactly as stored, text that
   * would not parse included, and only those under `<name>##<prefix>`.
   */
  lemma RawListWithinNamespace(es: seq<(string, Serialized)>, name: string, o: ListOptions)
    requires Sorted(es)
    ensures var p := Prefixed(name, if o.prefix.Some? then o.prefix.value else "");
      forall x :: x in ListSpec(es, HostListOptions(name, o)) ==> x in es && Strings.StartsWith(x.0, p)
    ensures forall k, s :: (k, s) in es && Selected(k, HostListOptions(name, o)) && o.limit.None? ==>
      (k, s) in ListSpec(es, HostListOptions(name, o))
  {
    var h := HostListOptions(name, o);
    forall x | x in ListSpec(es, h) ensures x in es && Selected(x.0, h) {
      SelectMember(es, h, x);
    }
    forall k, s | (k, s) in es && Selected(k, h) && o.limit.None? ensures (k, s) in ListSpec(es, h) {
      SelectMember(es, h, (k, s));
    }
  }

  /** `createTypedStorage` of this file: one item per configured name, all over the same host storage. */
  method CreateTypedStorage(storage: Store<Serialized>, cfg: map<string, Validator>) returns (items: map<string, DurableStorageItem>)
    ensures items.Keys == cfg.Keys
    ensures forall n :: n in items ==>
      items[n].typed.storage == storage && items[n].typed.name == n && items[n].typed.validator == cfg[n]
  {
    items := map[];
    var rest := cfg.Keys;
    while rest != {}
      invariant rest <= cfg.Keys
      invariant items.Keys == cfg.Keys - rest
      invariant forall n :: n in items ==>
        items[n].typed.storage == storage && items[n].typed.name == n && items[n].typed.validator == cfg[n]
      decreases |rest|
    {
      var n :| n in rest;
      var item := new DurableStorageItem(storage, n, cfg[n]);
      items := items[n := item];
      rest := rest - {n};
    }
  }

  // ---------------------------------------------------------------- fetch

  const DefaultPathname := "/rpc"

  /** A request as `fetch` uses it: the URL's pathname and the body. */
  datatype Request = Request(pathname: string, body: Serialized)

  /** A response body: an RPC envelope, or the JSON `{msg}` of a rejected request. */
  datatype Body = Envelope(text: Serialized) | Message(msg: string)

  datatype Response = Response(status: nat, body: Body)

  /** The parts of the configuration `fetch` reads. */
  datatype DurableConfig = DurableConfig(router: JsValue, pathname: Option<string>, fallthrough: Option<Request -> Response>)

  /** Where `fetch` sends a request. */
  datatype FetchRoute = ToRpc | ToFallthrough | BadRequest(status: nat, msg: string)

  function Expected(configured: Option<string>): string
  {
    if configured.Some? then configured.value else DefaultPathname
  }

  /** The pathname decision of `fetch`. */
  function Dispatch(configured: Option<string>, hasFallthrough: bool, pathname: string): FetchRoute
  {
    var expected := Expected(configured);
    if pathname == expected then ToRpc
    else if hasFallthrough then ToFallthrough
    else BadRequest(400, "Invalid request: Expected " + expected + " or a defined fallthrough, got " + pathname)
  }

  /** `fetch(req)`; a Failure where `routeHttpToObject` throws. */
  function Fetch(cfg: DurableConfig, req: Request, call: (nat, seq<Value>) -> Option<Value>): Result<Response, ServeError>
  {
    match Dispatch(cfg.pathname, cfg.fallthrough.Some?, req.pathname)
    case ToRpc =>
      (match RouteHttpToObject(req.body, cfg.router, call)
       case Failure(e) => Failure(e)
       case Success(text) => Success(Response(200, Envelope(text))))
    case ToFallthrough => Success(cfg.fallthrough.value(req))
    case BadRequest(status, msg) => Success(Response(status, Message(msg)))
  }

  /**
   * RPC exactly on the configured pathname (`/rpc` by default); otherwise
   * the fallthrough exactly when one is defined; otherwise a 400 naming the
   * expected and the actual pathname.
   */
  lemma DispatchCases(configured: Option<string>, hasFallthrough: bool, pathname: string)
    ensures var r := Dispatch(configured, hasFallthrough, pathname);
      && (r.ToRpc? <==> pathname == (if configured.Some? then configured.value else "/rpc"))
      && (r.ToFallthrough? <==> pathname != Expected(configured) && hasFallthrough)
      && (r.BadRequest? <==> pathname != Expected(configured) && !hasFallthrough)
      && (r.BadRequest? ==> r.status == 400)
      && (r.BadRequest? ==> r.msg == "Invalid request: Expected " + Expected(configured) + " or a defined fallthrough, got " + pathname)
  {
  }

  /** What `fetch` answers on each of the three routes. */
  lemma FetchCases(cfg: DurableConfig, req: Request, call: (nat, seq<Value>) -> Option<Value>)
    ensures req.pathname != Expected(cfg.pathname) && cfg.fallthrough.Some? ==>
      Fetch(cfg, req, call) == Success(cfg.fallthrough.value(req))
    ensures req.pathname != Expected(cfg.pathname) && cfg.fallthrough.None? ==>
      Fetch(cfg, req, call).Success? && Fetch(cfg, req, call).value.status == 400
    ensures req.pathname == Expected(cfg.pathname) ==>
      (Fetch(cfg, req, call).Success? <==> RouteHttpToObject(req.body, cfg.router, call).Success?)
  {
  }

  /**
   * A request the client sends to the default pathname, for a path at which
   * the router has a function, is answered 200, and the client's call
   * returns what that function returned.
   */
  lemma FetchEndToEnd(cfg: DurableConfig, rpc: RpcRequest, f: nat, call: (nat, seq<Value>) -> Option<Value>)
    requires cfg.pathname.None?
    requires ValueAt(cfg.router, rpc.path) == Some(Function(f))
    ensures var resp := Fetch(cfg, Request(DefaultPathname, Stringify(RequestValue(rpc))), call);
      && resp.Success? && resp.value.status == 200 && resp.value.body.Envelope?
      && FetchDecision(resp.value.body.text) == Success(call(f, rpc.args))
  {
    EndToEnd(rpc, cfg.router, f, call);
  }
}
