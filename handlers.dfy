/** The handler resolver of com/bcorp/api/handlers/HandlerResolver.java:
    like the older one, but a second registration for the same key is
    refused and the first handler stays. */
module ApiHandlers {
  import opened Java
  import opened Api

  class HandlerResolver<H> {
    var keyOnlyHandlers: map<KeyOnlyHandlerKey, H>
    var keyValueHandlers: map<KeyValueHandlerKey, H>

    constructor()
      ensures keyOnlyHandlers == map[] && keyValueHandlers == map[]
    {
      keyOnlyHandlers := map[];
      keyValueHandlers := map[];
    }

    method RegisterKeyOnlyHandler(operation: CacheRequestMethod, keyClass: JavaClass, handler: H) returns (s: Status)
      modifies this
      ensures var k := KeyOnlyHandlerKey(operation, keyClass);
              && (k in old(keyOnlyHandlers) <==> s == Threw(DuplicateHandlerRegistration))
              && (k in old(keyOnlyHandlers) ==> keyOnlyHandlers == old(keyOnlyHandlers))
              && (k !in old(keyOnlyHandlers) ==> s == Done && keyOnlyHandlers == old(keyOnlyHandlers)[k := handler])
      ensures keyValueHandlers == old(keyValueHandlers)
      ensures s == Done ==> ResolveKeyOnly(operation, Some(Instance(keyClass))) == Normal(handler)
    {
      var k := KeyOnlyHandlerKey(operation, keyClass);
      if k in keyOnlyHandlers {
        return Threw(DuplicateHandlerRegistration);
      }
      keyOnlyHandlers := keyOnlyHandlers[k := handler];
      return Done;
    }

    method RegisterKeyValueHandler(operation: CacheRequestMethod, keyClass: JavaClass, valueClass: JavaClass, handler: H)
      returns (s: Status)
      modifies this
      ensures var k := KeyValueHandlerKey(operation, keyClass, valueClass);
              && (k in old(keyValueHandlers) <==> s == Threw(DuplicateHandlerRegistration))
              && (k in old(keyValueHandlers) ==> keyValueHandlers == old(keyValueHandlers))
              && (k !in old(keyValueHandlers) ==> s == Done && keyValueHandlers == old(keyValueHandlers)[k := handler])
      ensures keyOnlyHandlers == old(keyOnlyHandlers)
      ensures s == Done ==> ResolveKeyValue(operation, Some(Instance(keyClass)), Some(Instance(valueClass))) == Normal(handler)
    {
      var k := KeyValueHandlerKey(operation, keyClass, valueClass);
      if k in keyValueHandlers {
        return Threw(DuplicateHandlerRegistration);
      }
      keyValueHandlers := keyValueHandlers[k := handler];
      return Done;
    }

    /** `resolveHandler(method, key, value)`: the same lookup as `Api.HandlerResolver.ResolveKeyValue`,
        because this class's resolution code is identical to that one's; only
        registration differs. */
    function ResolveKeyValue(operation: CacheRequestMethod, key: Option<Instance>, value: Option<Instance>): (r: Result<H>)
      reads this
      ensures key.None? || value.None? ==> r == Raised(NullPointerException)
      ensures key.Some? && value.Some? ==>
                var k := KeyValueHandlerKey(operation, key.value.klass, value.value.klass);
                && (k in keyValueHandlers <==> r.Normal?)
                && (k in keyValueHandlers ==> r.value == keyValueHandlers[k])
                && (k !in keyValueHandlers ==> r == Raised(HandlerNotFoundException))
    {
      ResolveKeyValueIn(keyValueHandlers, operation, key, value)
    }

    /** `resolveHandler(method, key)`: the same lookup as `Api.HandlerResolver.ResolveKeyOnly`,
        because this class's resolution code is identical to that one's; only
        registration differs. */
    function ResolveKeyOnly(operation: CacheRequestMethod, key: Option<Instance>): (r: Result<H>)
      reads this
      ensures key.None? ==> r == Raised(NullPointerException)
      ensures key.Some? ==>
                var k := KeyOnlyHandlerKey(operation, key.value.klass);
                && (k in keyOnlyHandlers <==> r.Normal?)
                && (k in keyOnlyHandlers ==> r.value == keyOnlyHandlers[k])
                && (k !in keyOnlyHandlers ==> r == Raised(HandlerNotFoundException))
    {
      ResolveKeyOnlyIn(keyOnlyHandlers, operation, key)
    }
  }
  /** The `handlerResolver` bean of the engine configuration: GET and REMOVE
      as key-only handlers for String keys, SET and the web layer's PATCH as
      key-value handlers for String keys and values. The four keys differ,
      so no registration is refused, and each method resolves to its own
      handler. */
  method EngineHandlerResolver<H>(getHandler: H, removeHandler: H, setHandler: H, patchHandler: H)
    returns (resolver: HandlerResolver<H>, statuses: seq<Status>)
    ensures fresh(resolver)
    ensures statuses == [Done, Done, Done, Done]
    ensures resolver.keyOnlyHandlers
            == map[KeyOnlyHandlerKey(Get, StringClass) := getHandler, KeyOnlyHandlerKey(Remove, StringClass) := removeHandler]
    ensures resolver.keyValueHandlers
            == map[KeyValueHandlerKey(Set, StringClass, StringClass) := setHandler,
                   KeyValueHandlerKey(Patch, StringClass, StringClass) := patchHandler]
    ensures resolver.ResolveKeyOnly(Get, Some(Instance(StringClass))) == Normal(getHandler)
    ensures resolver.ResolveKeyOnly(Remove, Some(Instance(StringClass))) == Normal(removeHandler)
    ensures resolver.ResolveKeyValue(Set, Some(Instance(StringClass)), Some(Instance(StringClass))) == Normal(setHandler)
    ensures resolver.ResolveKeyValue(Patch, Some(Instance(StringClass)), Some(Instance(StringClass))) == Normal(patchHandler)
  {
    resolver := new HandlerResolver();
    var s1 := resolver.RegisterKeyOnlyHandler(Get, StringClass, getHandler);
    var s2 := resolver.RegisterKeyOnlyHandler(Remove, StringClass, removeHandler);
    var s3 := resolver.RegisterKeyValueHandler(Set, StringClass, StringClass, setHandler);
    var s4 := resolver.RegisterKeyValueHandler(Patch, StringClass, StringClass, patchHandler);
    statuses := [s1, s2, s3, s4];
  }
}
