/** Jackson's JSON tree, as far as the web layer looks into it, and the
    JSON codec (codec/JsonCodec.java) as four calls that return or throw. */
module JsonNodes {
  import opened Java
  import opened Values

  /** A JSON value; an object node is a finite map from field names (the
      order Jackson keeps fields in is not modelled). */
  datatype JsonNode =
    | NullNode
    | BooleanNode(truth: bool)
    | NumericNode(text: string)
    | TextNode(text: string)
    | ArrayNode(elements: seq<JsonNode>)
    | ObjectNode(fields: map<string, JsonNode>)

  type Fields = map<string, JsonNode>

  /** The cast `(ObjectNode) node`: anything but an object node throws. */
  function AsObjectNode(node: JsonNode): (r: Result<Fields>)
    ensures node.ObjectNode? <==> r.Normal?
    ensures r.Normal? ==> ObjectNode(r.value) == node
    ensures r.Raised? ==> r.ex == ClassCastException
  {
    if node.ObjectNode? then Normal(node.fields) else Raised(ClassCastException)
  }

  /** The JSON codec. Jackson's parser and printer are not modelled: each
      call either returns or throws, as the codec in use decides. */
  datatype JsonCodec = JsonCodec(
    encode: JsonNode -> Result<RequestDataValue>,
    decode: CachedDataValue -> Result<JsonNode>,
    fromString: string -> Result<JsonNode>,
    toString: JsonNode -> Result<string>)

  /** What JsonCodec.java itself guarantees: each call throws only the one
      exception it wraps Jackson's failures in, and `encode` tags the bytes
      with ObjectNode's class. Other codecs (test doubles) may do otherwise. */
  ghost predicate IsJacksonCodec(codec: JsonCodec)
  {
    && (forall n :: codec.encode(n).Raised? ==> codec.encode(n).ex == JsonEncodingFailed)
    && (forall n :: codec.encode(n).Normal? ==> codec.encode(n).value.dataType == ObjectNodeClass)
    && (forall v :: codec.decode(v).Raised? ==> codec.decode(v).ex == JsonDecodingFailed)
    && (forall s :: codec.fromString(s).Raised? ==> codec.fromString(s).ex == JsonDecodingFailed)
    && (forall n :: codec.toString(n).Raised? ==> codec.toString(n).ex == JsonSerializationFailed)
  }
}

/** `JsonUtils.shallowMerge` (com/bcorp/InFlightKv/utils/JsonUtils.java). */
module JsonUtils {
  import opened Java
  import opened JsonNodes

  /** The update's fields replace or extend the main node's. A missing main
      node gives the update, a missing update gives the main node, and two
      missing nodes throw (the copy of a null update). Both arguments are
      ObjectNodes in Java, so the `isObject` test always passes. */
  function ShallowMerge(main: Option<Fields>, update: Option<Fields>): (r: Result<Fields>)
    ensures r.Raised? <==> main.None? && update.None?
    ensures r.Raised? ==> r.ex == NullPointerException
    ensures main.None? && update.Some? ==> r == Normal(update.value)
    ensures main.Some? && update.None? ==> r == Normal(main.value)
    ensures main.Some? && update.Some? ==>
              && r.Normal?
              && r.value.Keys == main.value.Keys + update.value.Keys
              && (forall k :: k in update.value ==> r.value[k] == update.value[k])
              && (forall k :: k in main.value && k !in update.value ==> r.value[k] == main.value[k])
  {
    if main.None? then
      if update.None? then Raised(NullPointerException) else Normal(update.value)
    else if update.None? then Normal(main.value)
    else Normal(main.value + update.value)
  }

  /** Merging the same update a second time changes nothing. */
  lemma ShallowMergeIdempotent(main: Fields, update: Fields)
    ensures var once := ShallowMerge(Some(main), Some(update)).value;
            ShallowMerge(Some(once), Some(update)) == Normal(once)
  {
    var once := ShallowMerge(Some(main), Some(update)).value;
    assert once + update == once;
  }

  /** An empty update is the main node; merging into an empty node is the update. */
  lemma ShallowMergeUnits(fields: Fields)
    ensures ShallowMerge(Some(fields), Some(map[])) == Normal(fields)
    ensures ShallowMerge(Some(map[]), Some(fields)) == Normal(fields)
  {
    assert fields + map[] == fields;
    assert map[] + fields == fields;
  }

  /** Successive updates merge like one update that combines them. */
  lemma ShallowMergeAssociative(main: Fields, first: Fields, second: Fields)
    ensures var combined := ShallowMerge(Some(first), Some(second)).value;
            var stepwise := ShallowMerge(Some(ShallowMerge(Some(main), Some(first)).value), Some(second));
            stepwise == ShallowMerge(Some(main), Some(combined))
  {
    assert (main + first) + second == main + (first + second);
  }
}
