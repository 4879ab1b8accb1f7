/**
 * The RPC layer: a client proxy that turns `proxy.a.b.c(args)` into the
 * request `{path: ["a", "b", "c"], args}`, a server that walks that path
 * through a nested router object and calls the function it finds, and the
 * `{status, data | error}` envelope the two exchange over HTTP.
 */
module Rpc {
  import opened Wrappers
  import opened Strings
  import opened Serial

  /** `{path, args}`. */
  datatype RpcRequest = RpcRequest(path: seq<string>, args: seq<Value>)

  // ---------------------------------------------------------------- client proxy

  /** A property key: a string, or a symbol (told apart by an identity). */
  datatype PropertyKey = Name(name: string) | Symbol(id: nat)

  /** `_createRecursiveProxy(cb, path)`: all a proxy holds besides the callback is its path. */
  datatype ClientProxy = ClientProxy(path: seq<string>)

  /** What a property read on a proxy gives: another proxy, or `undefined`. */
  datatype Access = NoProxy | Proxy(proxy: ClientProxy)

  /** `createClientProxy(cb)`. */
  const Root := ClientProxy([])

  /** The proxy's `get` trap. */
  function Get(p: ClientProxy, key: PropertyKey): Access
  {
    if key.Symbol? || key.name == "then" then NoProxy
    else Proxy(ClientProxy(p.path + [key.name]))
  }

  /**
   * Reading the keys one after another: None once a read is attempted on
   * `undefined` (a TypeError in the caller's code).
   */
  function Walk(a: Access, keys: seq<PropertyKey>): Option<Access>
    decreases |keys|
  {
    if keys == [] then Some(a)
    else if a.NoProxy? then None
    else Walk(Get(a.proxy, keys[0]), keys[1..])
  }

  /** A key the proxy turns into a path segment. */
  predicate Routable(key: PropertyKey)
  {
    key.Name? && key.name != "then"
  }

  /** The path segments a run of string keys adds. */
  function Names(keys: seq<PropertyKey>): (r: seq<string>)
    ensures |r| == |keys|
    ensures forall i :: 0 <= i < |keys| && keys[i].Name? ==> r[i] == keys[i].name
  {
    seq(|keys|, i requires 0 <= i < |keys| => if keys[i].Name? then keys[i].name else "")
  }

  /**
   * The proxy's `apply` trap: calling a proxy hands the callback exactly one
   * request, built from the proxy's path and the call's arguments, and
   * returns what the callback returns. Reading properties (`Get`, `Walk`)
   * never reaches the callback.
   */
  function Apply<R>(p: ClientProxy, args: seq<Value>, cb: RpcRequest -> R): (R, seq<RpcRequest>)
  {
    var req := RpcRequest(p.path, args);
    (cb(req), [req])
  }

  /**
   * Reading string keys other than `then` from a proxy yields a proxy whose
   * path is the old one extended by those keys.
   */
  lemma {:induction false} WalkPath(p: ClientProxy, keys: seq<PropertyKey>)
    requires forall i :: 0 <= i < |keys| ==> Routable(keys[i])
    ensures Walk(Proxy(p), keys) == Some(Proxy(ClientProxy(p.path + Names(keys))))
    decreases |keys|
  {
    if keys == [] {
      assert p.path + Names(keys) == p.path;
    } else {
      assert Routable(keys[0]);
      var n, rest := keys[0].name, keys[1..];
      var q := ClientProxy(p.path + [n]);
      assert Get(p, keys[0]) == Proxy(q);
      assert Walk(Proxy(p), keys) == Walk(Proxy(q), rest);
      forall i | 0 <= i < |rest| ensures Routable(rest[i]) {
        assert rest[i] == keys[i + 1];
      }
      WalkPath(q, rest);
      NamesCons(keys);
      assert (p.path + [n]) + Names(rest) == p.path + ([n] + Names(rest));
    }
  }

  lemma NamesCons(keys: seq<PropertyKey>)
    requires |keys| > 0 && keys[0].Name?
    ensures Names(keys) == [keys[0].name] + Names(keys[1..])
  {
    var a := Names(keys);
    var b := [keys[0].name] + Names(keys[1..]);
    assert |a| == |b|;
    forall i | 0 <= i < |a| ensures a[i] == b[i] {
      if i > 0 {
        assert keys[1..][i - 1] == keys[i];
      }
    }
  }

  /** If any key read is `then` or a symbol, no proxy comes out (`undefined`, or a TypeError). */
  lemma {:induction false} WalkStops(p: ClientProxy, keys: seq<PropertyKey>, j: nat)
    requires j < |keys| && !Routable(keys[j])
    ensures Walk(Proxy(p), keys) != Some(Proxy(ClientProxy(p.path + Names(keys)))) && !(Walk(Proxy(p), keys).Some? && Walk(Proxy(p), keys).value.Proxy?)
    decreases |keys|
  {
    if j == 0 {
      WalkNoProxy(keys[1..]);
    } else {
      if Routable(keys[0]) {
        var q := ClientProxy(p.path + [keys[0].name]);
        assert Walk(Proxy(p), keys) == Walk(Proxy(q), keys[1..]);
        WalkStops(q, keys[1..], j - 1);
      } else {
        WalkNoProxy(keys[1..]);
      }
    }
  }

  /** Nothing but `undefined` or a TypeError comes out of reading keys from `undefined`. */
  lemma WalkNoProxy(keys: seq<PropertyKey>)
    ensures Walk(NoProxy, keys) == if keys == [] then Some(NoProxy) else None
  {
  }

  /** `createClientProxy(cb).k1.….kn(...args)` hands `cb` the request with path `[k1, …, kn]`. */
  lemma ClientRequest<R>(keys: seq<PropertyKey>, args: seq<Value>, cb: RpcRequest -> R)
    requires forall i :: 0 <= i < |keys| ==> Routable(keys[i])
    ensures var a := Walk(Proxy(Root), keys);
      && a.Some? && a.value.Proxy?
      && Apply(a.value.proxy, args, cb).1 == [RpcRequest(Names(keys), args)]
      && Apply(a.value.proxy, args, cb).0 == cb(RpcRequest(Names(keys), args))
  {
    WalkPath(Root, keys);
    assert Root.path + Names(keys) == Names(keys);
  }

  // ---------------------------------------------------------------- server routing

  /** The router object as the server sees it. A function is known by an identity; what it does is `call`'s business. */
  datatype JsValue =
    | Object(props: map<string, JsValue>)
    | Function(fn: nat)
    | Null
    | Undefined
    | Number(n: int)
    | Text(s: string)
    | Boolean(b: bool)

  /** JavaScript's `typeof`. */
  function TypeOf(v: JsValue): string
  {
    match v
    case Object(_) => "object"
    case Null => "object"
    case Function(_) => "function"
    case Undefined => "undefined"
    case Number(_) => "number"
    case Text(_) => "string"
    case Boolean(_) => "boolean"
  }

  /** What `routeRpcToObject` throws. */
  datatype RouteError =
    | NotAnObject(key: string)
    | MissingKey(key: string, path: seq<string>)
    | NotAFunction(path: seq<string>, typeName: string)

  /** The loop of `routeRpcToObject`: walk `keys` from `current`; `path` is the whole request path, for messages. */
  function Resolve(current: JsValue, keys: seq<string>, path: seq<string>): Result<JsValue, RouteError>
    decreases |keys|
  {
    if keys == [] then Success(current)
    else if !current.Object? then Failure(NotAnObject(keys[0]))
    else if keys[0] !in current.props then Failure(MissingKey(keys[0], path))
    else Resolve(current.props[keys[0]], keys[1..], path)
  }

  /**
   * `routeRpcToObject(rpc, obj)`, with the functions of the router applied
   * through `call`; `call` gives None where the function returns `undefined`.
   */
  function Route(rpc: RpcRequest, obj: JsValue, call: (nat, seq<Value>) -> Option<Value>): Result<Option<Value>, RouteError>
  {
    match Resolve(obj, rpc.path, rpc.path)
    case Failure(e) => Failure(e)
    case Success(v) =>
      if v.Function? then Success(call(v.fn, rpc.args))
      else Failure(NotAFunction(rpc.path, TypeOf(v)))
  }

  /** The value at `path` in a tree of objects, independently of how the server reports failures. */
  function ValueAt(obj: JsValue, path: seq<string>): Option<JsValue>
    decreases |path|
  {
    if path == [] then Some(obj)
    else if obj.Object? && path[0] in obj.props then ValueAt(obj.props[path[0]], path[1..])
    else None
  }

  /** `routeRpcToObject` as the loop it is. */
  method RouteRpcToObject(rpc: RpcRequest, obj: JsValue, call: (nat, seq<Value>) -> Option<Value>) returns (r: Result<Option<Value>, RouteError>)
    ensures r == Route(rpc, obj, call)
  {
    var path := rpc.path;
    var current := obj;
    for i := 0 to |path|
      invariant Resolve(obj, path, path) == Resolve(current, path[i..], path)
    {
      var key := path[i];
      assert path[i..][1..] == path[i + 1..];
      if !current.Object? {
        return Failure(NotAnObject(key));
      }
      if key !in current.props {
        return Failure(MissingKey(key, path));
      }
      current := current.props[key];
    }
    if !current.Function? {
      return Failure(NotAFunction(path, TypeOf(current)));
    }
    r := Success(call(current.fn, rpc.args));
  }

  /** The walk succeeds exactly where the path exists, and finds the value there. */
  lemma {:induction false} ResolveMeaning(current: JsValue, keys: seq<string>, path: seq<string>)
    ensures Resolve(current, keys, path).Success? <==> ValueAt(current, keys).Some?
    ensures Resolve(current, keys, path).Success? ==> Resolve(current, keys, path).value == ValueAt(current, keys).value
    decreases |keys|
  {
    if keys != [] && current.Object? && keys[0] in current.props {
      ResolveMeaning(current.props[keys[0]], keys[1..], path);
    }
  }

  /**
   * The walk fails at key `i`: the value reached before it exists, and is
   * either an object without that key (reported as missing, with the whole
   * path) or not an object at all.
   */
  ghost predicate FailsAt(current: JsValue, keys: seq<string>, path: seq<string>, i: nat)
    requires i < |keys|
  {
    && ValueAt(current, keys[..i]).Some?
    && var v := ValueAt(current, keys[..i]).value;
      if v.Object? then keys[i] !in v.props && Resolve(current, keys, path) == Failure(MissingKey(keys[i], path))
      else Resolve(current, keys, path) == Failure(NotAnObject(keys[i]))
  }

  /**
   * The walk throws "not an object" at the first key reached from a
   * non-object, and "missing" at the first key absent from an object, naming
   * the whole path.
   */
  lemma {:induction false} ResolveFailure(current: JsValue, keys: seq<string>, path: seq<string>)
    ensures Resolve(current, keys, path).Failure? ==>
      exists i :: 0 <= i < |keys| && FailsAt(current, keys, path, i)
    decreases |keys|
  {
    if Resolve(current, keys, path).Failure? {
      assert keys[..0] == [];
      if current.Object? && keys[0] in current.props {
        var next := current.props[keys[0]];
        ResolveFailure(next, keys[1..], path);
        var i :| 0 <= i < |keys[1..]| && FailsAt(next, keys[1..], path, i);
        assert keys[..i + 1][1..] == keys[1..][..i];
        assert ValueAt(current, keys[..i + 1]) == ValueAt(next, keys[1..][..i]);
        assert FailsAt(current, keys, path, i + 1);
      } else {
        assert FailsAt(current, keys, path, 0);
      }
    }
  }

  /** `routeRpcToObject` returns the function at the path applied to the arguments, and throws exactly when there is none. */
  lemma RouteMeaning(rpc: RpcRequest, obj: JsValue, call: (nat, seq<Value>) -> Option<Value>)
    ensures Route(rpc, obj, call).Success? <==> ValueAt(obj, rpc.path).Some? && ValueAt(obj, rpc.path).value.Function?
    ensures Route(rpc, obj, call).Success? ==> Route(rpc, obj, call).value == call(ValueAt(obj, rpc.path).value.fn, rpc.args)
    ensures ValueAt(obj, rpc.path).Some? && !ValueAt(obj, rpc.path).value.Function? ==>
      Route(rpc, obj, call) == Failure(NotAFunction(rpc.path, TypeOf(ValueAt(obj, rpc.path).value)))
  {
    ResolveMeaning(obj, rpc.path, rpc.path);
  }

  /** The value at a path reached in two legs: routing is compositional in the path. */
  lemma {:induction false} ValueAtAppend(obj: JsValue, a: seq<string>, b: seq<string>)
    ensures ValueAt(obj, a + b) == if ValueAt(obj, a).None? then None else ValueAt(ValueAt(obj, a).value, b)
    decreases |a|
  {
    if a == [] {
      assert a + b == b;
    } else {
      assert (a + b)[1..] == a[1..] + b;
      if obj.Object? && a[0] in obj.props {
        ValueAtAppend(obj.props[a[0]], a[1..], b);
      }
    }
  }

  /** A router with `f` nested under `path`: `{p0: {p1: … f}}`. */
  function Nest(path: seq<string>, leaf: JsValue): JsValue
    decreases |path|
  {
    if path == [] then leaf else Object(map[path[0] := Nest(path[1..], leaf)])
  }

  lemma {:induction false} NestValueAt(path: seq<string>, leaf: JsValue)
    ensures ValueAt(Nest(path, leaf), path) == Some(leaf)
    decreases |path|
  {
    if path != [] {
      NestValueAt(path[1..], leaf);
    }
  }

  /**
   * A request the client proxy builds for `k1.….kn(args)`, routed against a
   * router with a function at that path, reaches that function.
   */
  lemma ProxyReachesRouter(keys: seq<PropertyKey>, args: seq<Value>, obj: JsValue, f: nat, call: (nat, seq<Value>) -> Option<Value>)
    requires forall i :: 0 <= i < |keys| ==> Routable(keys[i])
    requires ValueAt(obj, Names(keys)) == Some(Function(f))
    ensures var a := Walk(Proxy(Root), keys);
      && a.Some? && a.value.Proxy?
      && Route(Apply(a.value.proxy, args, (req: RpcRequest) => req).0, obj, call) == Success(call(f, args))
  {
    ClientRequest(keys, args, (req: RpcRequest) => req);
    RouteMeaning(RpcRequest(Names(keys), args), obj, call);
  }

  // ---------------------------------------------------------------- the HTTP envelope

  /** `RPC_RESPONSE_SCHEMA`: `data` is None where it is `undefined`. */
  datatype RpcResponse =
    | Ok(data: Option<Value>)
    | InvalidInput(error: string)
    | ServerError(error: string)

  /** The object the envelope is sent as. */
  function ResponseValue(r: RpcResponse): Value
  {
    match r
    case Ok(d) => Obj(if d.Some? then map["status" := Str("ok"), "data" := d.value] else map["status" := Str("ok")])
    case InvalidInput(e) => Obj(map["status" := Str("invalid_input"), "error" := Str(e)])
    case ServerError(e) => Obj(map["status" := Str("server_error"), "error" := Str(e)])
  }

  /** `RPC_RESPONSE_SCHEMA.safeParse`: the discriminated union on `status`; None where it fails. */
  function ParseResponse(v: Value): Option<RpcResponse>
  {
    if !v.Obj? || "status" !in v.fields then None
    else
      var f := v.fields;
      if f["status"] == Str("ok") then Some(Ok(if "data" in f then Some(f["data"]) else None))
      else if "error" !in f || !f["error"].Str? then None
      else if f["status"] == Str("invalid_input") then Some(InvalidInput(f["error"].s))
      else if f["status"] == Str("server_error") then Some(ServerError(f["error"].s))
      else None
  }

  /** Every envelope survives being sent and checked. */
  lemma ResponseRoundTrip(r: RpcResponse)
    ensures ParseResponse(ResponseValue(r)) == Some(r)
  {
  }

  /** Why the client's call rejects. */
  datatype FetchError =
    | BodyNotParsed                            // `parse` of the response text throws
    | InvalidResponse                          // "Error parsing response: ..."
    | FailureResponse(status: string, error: string)

  /** What the function `fetchAdapter` returns makes of a response body. */
  function FetchDecision(body: Serialized): Result<Option<Value>, FetchError>
  {
    match Parse(body)
    case None => Failure(BodyNotParsed)
    case Some(v) =>
      match ParseResponse(v)
      case None => Failure(InvalidResponse)
      case Some(Ok(d)) => Success(d)
      case Some(InvalidInput(e)) => Failure(FailureResponse("invalid_input", e))
      case Some(ServerError(e)) => Failure(FailureResponse("server_error", e))
  }

  /** The client gets data only from an `ok` envelope, and then exactly its `data`. */
  lemma FetchOkOnly(body: Serialized)
    ensures FetchDecision(body).Success? <==>
      Parse(body).Some? && ParseResponse(Parse(body).value).Some? && ParseResponse(Parse(body).value).value.Ok?
    ensures FetchDecision(body).Success? ==> FetchDecision(body).value == ParseResponse(Parse(body).value).value.data
    ensures forall e :: FetchDecision(Stringify(ResponseValue(InvalidInput(e)))) == Failure(FailureResponse("invalid_input", e))
    ensures forall e :: FetchDecision(Stringify(ResponseValue(ServerError(e)))) == Failure(FailureResponse("server_error", e))
  {
    forall e: string ensures FetchDecision(Stringify(ResponseValue(InvalidInput(e)))) == Failure(FailureResponse("invalid_input", e)) {
      ResponseRoundTrip(InvalidInput(e));
    }
    forall e: string ensures FetchDecision(Stringify(ResponseValue(ServerError(e)))) == Failure(FailureResponse("server_error", e)) {
      ResponseRoundTrip(ServerError(e));
    }
  }

  /** The object a request is sent as. */
  function RequestValue(req: RpcRequest): Value
  {
    Obj(map["path" := Arr(StrValues(req.path)), "args" := Arr(req.args)])
  }

  function StrValues(ss: seq<string>): (r: seq<Value>)
    ensures |r| == |ss|
    ensures forall i :: 0 <= i < |ss| ==> r[i] == Str(ss[i])
  {
    seq(|ss|, i requires 0 <= i < |ss| => Str(ss[i]))
  }

  /** `z.array(z.string())`: the strings, or None if an item is not a string. */
  function StringItems(items: seq<Value>): (r: Option<seq<string>>)
    ensures r.Some? <==> forall i :: 0 <= i < |items| ==> items[i].Str?
    ensures r.Some? ==> |r.value| == |items| && forall i :: 0 <= i < |items| ==> r.value[i] == items[i].s
  {
    if forall i :: 0 <= i < |items| ==> items[i].Str? then Some(seq(|items|, i requires 0 <= i < |items| => items[i].s))
    else None
  }

  /** `RPC_REQUEST_SCHEMA.parse`: None where it throws. */
  function ParseRequest(v: Value): Option<RpcRequest>
  {
    if !v.Obj? || "path" !in v.fields || "args" !in v.fields then None
    else if !v.fields["path"].Arr? || !v.fields["args"].Arr? then None
    else
      match StringItems(v.fields["path"].items)
      case None => None
      case Some(path) => Some(RpcRequest(path, v.fields["args"].items))
  }

  /** Every request survives being sent and checked. */
  lemma RequestRoundTrip(req: RpcRequest)
    ensures ParseRequest(RequestValue(req)) == Some(req)
  {
    var items := StrValues(req.path);
    assert StringItems(items).value == req.path;
  }

  /** Why the server's handling of a request throws. */
  datatype ServeError =
    | RequestNotParsed                    // `parse` of the request body throws
    | InvalidRequest                      // `RPC_REQUEST_SCHEMA.parse` throws
    | RoutingFailed(error: RouteError)

  /** `routeHttpToObject(req, {router, parse, stringify})`: the body of the response it returns. */
  function RouteHttpToObject(body: Serialized, router: JsValue, call: (nat, seq<Value>) -> Option<Value>): Result<Serialized, ServeError>
  {
    match Parse(body)
    case None => Failure(RequestNotParsed)
    case Some(v) =>
      match ParseRequest(v)
      case None => Failure(InvalidRequest)
      case Some(req) =>
        match Route(req, router, call)
        case Failure(e) => Failure(RoutingFailed(e))
        case Success(data) => Success(Stringify(ResponseValue(Ok(data))))
  }

  /**
   * A served response is the `ok` envelope around what the router returned
   * for the parsed request (`undefined` included), and comes out of the
   * client as that value.
   */
  lemma HttpWrapsOk(body: Serialized, router: JsValue, call: (nat, seq<Value>) -> Option<Value>)
    ensures RouteHttpToObject(body, router, call).Success? ==>
      && Parse(body).Some? && ParseRequest(Parse(body).value).Some?
      && var req := ParseRequest(Parse(body).value).value;
        && Route(req, router, call).Success?
        && RouteHttpToObject(body, router, call).value == Stringify(ResponseValue(Ok(Route(req, router, call).value)))
        && FetchDecision(RouteHttpToObject(body, router, call).value) == Success(Route(req, router, call).value)
  {
    if RouteHttpToObject(body, router, call).Success? {
      var req := ParseRequest(Parse(body).value).value;
      ResponseRoundTrip(Ok(Route(req, router, call).value));
    }
  }

  /**
   * The round trip: the client sends a request for a path at which the
   * router has a function; the server answers `ok`; the client's call
   * returns what that function returned.
   */
  lemma EndToEnd(req: RpcRequest, router: JsValue, f: nat, call: (nat, seq<Value>) -> Option<Value>)
    requires ValueAt(router, req.path) == Some(Function(f))
    ensures RouteHttpToObject(Stringify(RequestValue(req)), router, call).Success?
    ensures FetchDecision(RouteHttpToObject(Stringify(RequestValue(req)), router, call).value) == Success(call(f, req.args))
  {
    RequestRoundTrip(req);
    RouteMeaning(req, router, call);
    ResponseRoundTrip(Ok(call(f, req.args)));
  }
}
