/** Request dispatch in the core API (com/bcorp/api): the request methods,
    the request record, the older handler resolver, whose registrations
    overwrite, and the router, which refuses a route defined twice. */
module Api {
  import opened Java

  /** `CacheRequestMethod`: an open interface whose implementations are
      records without components, so two methods are equal exactly when
      they are the same record. The program has four: `Get`, `Set` and
      `Remove` of the interface itself, and `Patch` of its web-layer
      extension `CustomCacheRequestMethod`. */
  datatype CacheRequestMethod = Get | Set | Remove | Patch

  /** `CacheRequest` without its filters: a nullable String key, a method
      and an optional value, of which routing needs only the class. */
  datatype CacheRequest = CacheRequest(key: Option<string>, operation: CacheRequestMethod, value: Option<Instance>)

  datatype KeyOnlyHandlerKey = KeyOnlyHandlerKey(operation: CacheRequestMethod, keyClass: JavaClass)

  datatype KeyValueHandlerKey = KeyValueHandlerKey(operation: CacheRequestMethod, keyClass: JavaClass, valueClass: JavaClass)

  /** `resolve`: a missing entry is a HandlerNotFoundException. */
  function Resolve<K, H>(handlers: map<K, H>, key: K): (r: Result<H>)
    ensures key in handlers <==> r.Normal?
    ensures key in handlers ==> r.value == handlers[key]
    ensures key !in handlers ==> r == Raised(HandlerNotFoundException)
  {
    if key in handlers then Normal(handlers[key]) else Raised(HandlerNotFoundException)
  }

  /** `resolveHandler(method, key, value)` over a table: looked up by the
      runtime classes of both, so an instance of a subclass of a
      registered class is not found. */
  function ResolveKeyValueIn<H>(handlers: map<KeyValueHandlerKey, H>, operation: CacheRequestMethod,
                                key: Option<Instance>, value: Option<Instance>): (r: Result<H>)
    ensures key.None? || value.None? ==> r == Raised(NullPointerException)
    ensures key.Some? && value.Some? ==>
              var k := KeyValueHandlerKey(operation, key.value.klass, value.value.klass);
              && (k in handlers <==> r.Normal?)
              && (k in handlers ==> r.value == handlers[k])
              && (k !in handlers ==> r == Raised(HandlerNotFoundException))
  {
    if key.None? || value.None? then Raised(NullPointerException)
    else Resolve(handlers, KeyValueHandlerKey(operation, key.value.klass, value.value.klass))
  }

  /** `resolveHandler(method, key)` over a table: looked up by the key's
      runtime class. */
  function ResolveKeyOnlyIn<H>(handlers: map<KeyOnlyHandlerKey, H>, operation: CacheRequestMethod,
                               key: Option<Instance>): (r: Result<H>)
    ensures key.None? ==> r == Raised(NullPointerException)
    ensures key.Some? ==>
              var k := KeyOnlyHandlerKey(operation, key.value.klass);
              && (k in handlers <==> r.Normal?)
              && (k in handlers ==> r.value == handlers[k])
              && (k !in handlers ==> r == Raised(HandlerNotFoundException))
  {
    if key.None? then Raised(NullPointerException)
    else Resolve(handlers, KeyOnlyHandlerKey(operation, key.value.klass))
  }

  /** The resolver of com/bcorp/api/HandlerResolver.java: a map per kind of
      operation, filled by `put`, so a later registration replaces an
      earlier one. */
  class HandlerResolver<H> {
    var keyOnlyHandlers: map<KeyOnlyHandlerKey, H>
    var keyValueHandlers: map<KeyValueHandlerKey, H>

    constructor()
      ensures keyOnlyHandlers == map[] && keyValueHandlers == map[]
    {
      keyOnlyHandlers := map[];
      keyValueHandlers := map[];
    }

    method RegisterKeyOnlyHandler(operation: CacheRequestMethod, keyClass: JavaClass, handler: H)
      modifies this
      ensures keyOnlyHandlers == old(keyOnlyHandlers)[KeyOnlyHandlerKey(operation, keyClass) := handler]
      ensures keyValueHandlers == old(keyValueHandlers)
      ensures ResolveKeyOnly(operation, Some(Instance(keyClass))) == Normal(handler)
    {
      keyOnlyHandlers := keyOnlyHandlers[KeyOnlyHandlerKey(operation, keyClass) := handler];
    }

    method RegisterKeyValueHandler(operation: CacheRequestMethod, keyClass: JavaClass, valueClass: JavaClass, handler: H)
      modifies this
      ensures keyValueHandlers == old(keyValueHandlers)[KeyValueHandlerKey(operation, keyClass, valueClass) := handler]
      ensures keyOnlyHandlers == old(keyOnlyHandlers)
      ensures ResolveKeyValue(operation, Some(Instance(keyClass)), Some(Instance(valueClass))) == Normal(handler)
    {
      keyValueHandlers := keyValueHandlers[KeyValueHandlerKey(operation, keyClass, valueClass) := handler];
    }

    function ResolveKeyValue(operation: CacheRequestMethod, key: Option<Instance>, value: Option<Instance>): (r: Result<H>)
      reads this
      ensures key.None? || value.None? ==> r == Raised(NullPointerException)
      ensures key.Some? && value.Some? ==>
                var k := KeyValueHandlerKey(operation, key.value.klass, value.value.klass);
                && (k in keyValueHandlers <==> r.Normal?)
                && (k in keyValueHandlers ==> r.value == keyValueHandlers[k])
                && (k !in keyValueHandlers ==> r == Raised(HandlerNotFoundException))
    {
      ResolveKeyValueIn(keyValueHandlers, operation, key, value)
    }

    function ResolveKeyOnly(operation: CacheRequestMethod, key: Option<Instance>): (r: Result<H>)
      reads this
      ensures key.None? ==> r == Raised(NullPointerException)
      ensures key.Some? ==>
                var k := KeyOnlyHandlerKey(operation, key.value.klass);
                && (k in keyOnlyHandlers <==> r.Normal?)
                && (k in keyOnlyHandlers ==> r.value == keyOnlyHandlers[k])
                && (k !in keyOnlyHandlers ==> r == Raised(HandlerNotFoundException))
    {
      ResolveKeyOnlyIn(keyOnlyHandlers, operation, key)
    }
  }

  /** `CacheRoute`: the method and the class a handler is registered for. */
  datatype CacheRoute = CacheRoute(operation: CacheRequestMethod, klass: JavaClass)

  /** The route of a request: the class of its value when it has one,
      otherwise the class of its String key, which must not be null. */
  function RouteOf(request: CacheRequest): (r: Result<CacheRoute>)
    ensures request.value.Some? ==> r == Normal(CacheRoute(request.operation, request.value.value.klass))
    ensures request.value.None? && request.key.Some? ==> r == Normal(CacheRoute(request.operation, StringClass))
    ensures request.value.None? && request.key.None? ==> r == Raised(NullPointerException)
  {
    if request.value.Some? then Normal(CacheRoute(request.operation, request.value.value.klass))
    else if request.key.Some? then Normal(CacheRoute(request.operation, StringClass))
    else Raised(NullPointerException)
  }

  /** The router of com/bcorp/api/Router.java: one handler per route. */
  class Router<H> {
    var handlersMap: map<CacheRoute, H>

    constructor()
      ensures handlersMap == map[]
    {
      handlersMap := map[];
    }

    /** `addRoute`: a route defined twice is refused and the first handler
        stays. */
    method AddRoute(route: CacheRoute, handler: H) returns (s: Status)
      modifies this
      ensures route in old(handlersMap) <==> s == Threw(DuplicateRouteDefinition)
      ensures route in old(handlersMap) ==> handlersMap == old(handlersMap)
      ensures route !in old(handlersMap) ==> s == Done && handlersMap == old(handlersMap)[route := handler]
    {
      if route in handlersMap {
        return Threw(DuplicateRouteDefinition);
      }
      handlersMap := handlersMap[route := handler];
      return Done;
    }

    /** `getHandler`: the handler of the request's route, or a
        HandlerNotFoundException. */
    function GetHandler(request: CacheRequest): (r: Result<H>)
      reads this
      ensures RouteOf(request).Raised? ==> r == Raised(RouteOf(request).ex)
      ensures RouteOf(request).Normal? ==>
                var route := RouteOf(request).value;
                && (route in handlersMap <==> r.Normal?)
                && (route in handlersMap ==> r.value == handlersMap[route])
                && (route !in handlersMap ==> r == Raised(HandlerNotFoundException))
    {
      match RouteOf(request)
      case Raised(e) => Raised(e)
      case Normal(route) => Resolve(handlersMap, route)
    }
  }
}
