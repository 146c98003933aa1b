/** Key placement across the configured nodes
    (com/bcorp/InFlightKv/service/ClusterService.java, KeyRoutingResult.java
    and config/ClusterConfiguration.java). */
module Cluster {
  import opened Java

  /** The defaults of `inflight-kv.node.id` and `inflight-kv.node.name`. */
  const DEFAULT_NODE_ID := "node-1"
  const DEFAULT_NODE_NAME := "inflight-kv-1"

  /** The port of a local result, which has no configured node behind it. */
  const LOCAL_PORT: Int32 := -1

  /** One configured node; every String property is null until bound. */
  datatype NodeInfo = NodeInfo(
    id: Option<string>,
    name: Option<string>,
    host: Option<string>,
    port: Int32,
    externalUrl: Option<string>,
    internalUrl: Option<string>,
    healthUrl: Option<string>)

  datatype KeyRoutingResult = KeyRoutingResult(
    nodeId: Option<string>,
    nodeName: Option<string>,
    host: Option<string>,
    port: Int32,
    externalUrl: Option<string>,
    shouldRedirect: bool)

  /** What the service is configured with: the node list, which may be
      null, and the identity of the node it runs on. */
  datatype ClusterSettings = ClusterSettings(
    nodes: Option<seq<NodeInfo>>,
    currentNodeId: string,
    currentNodeName: string)

  function DefaultSettings(nodes: Option<seq<NodeInfo>>): (c: ClusterSettings)
    ensures c.nodes == nodes && c.currentNodeId == DEFAULT_NODE_ID && c.currentNodeName == DEFAULT_NODE_NAME
  {
    ClusterSettings(nodes, DEFAULT_NODE_ID, DEFAULT_NODE_NAME)
  }

  /** `String.trim`: drops every leading and trailing char up to U+0020. */
  function TrimStart(s: string): (t: string)
    ensures |t| <= |s| && t == s[|s| - |t|..]
    ensures t != [] ==> t[0] > ' '
    ensures forall i :: 0 <= i < |s| - |t| ==> s[i] <= ' '
  {
    if s != [] && s[0] <= ' ' then TrimStart(s[1..]) else s
  }

  function TrimEnd(s: string): (t: string)
    ensures |t| <= |s| && t == s[..|t|]
    ensures t != [] ==> t[|t| - 1] > ' '
    ensures forall i :: |t| <= i < |s| ==> s[i] <= ' '
  {
    if s != [] && s[|s| - 1] <= ' ' then TrimEnd(s[..|s| - 1]) else s
  }

  predicate IsBlank(s: string)
  {
    forall i :: 0 <= i < |s| ==> s[i] <= ' '
  }

  /** `trim().isEmpty()` holds exactly for the strings of chars up to U+0020. */
  function Trim(s: string): (t: string)
    ensures t == [] <==> IsBlank(s)
  {
    TrimEnd(TrimStart(s))
  }

  /** `getNodeId`: the node index of a key among `count` nodes, from the
      key's `hashCode`, which is a parameter of the model. */
  function NodeIndex(hash: string -> Int32, key: string, count: nat): (i: nat)
    requires count > 0
    ensures i < count
    ensures hash(key) >= 0 ==> i == hash(key) % count
  {
    BucketIndex(hash(key), count)
  }

  function LocalResult(settings: ClusterSettings): (r: KeyRoutingResult)
    ensures r.nodeId == Some(settings.currentNodeId) && r.nodeName == Some(settings.currentNodeName)
    ensures r.host.None? && r.port == LOCAL_PORT && r.externalUrl.None? && !r.shouldRedirect
  {
    KeyRoutingResult(Some(settings.currentNodeId), Some(settings.currentNodeName), None, LOCAL_PORT, None, false)
  }

  /** `routeKey`: a null or blank key is refused; without nodes the key is
      local; otherwise the key's node is chosen by its hash code, and the
      comparison of its id with the current one dereferences that id. */
  function RouteKey(settings: ClusterSettings, hash: string -> Int32, key: Option<string>): (r: Result<KeyRoutingResult>)
    ensures key.None? || IsBlank(key.value) <==> r == Raised(IllegalArgumentException)
    ensures key.Some? && !IsBlank(key.value) && (settings.nodes.None? || settings.nodes.value == []) ==>
              r == Normal(LocalResult(settings))
    ensures key.Some? && !IsBlank(key.value) && settings.nodes.Some? && settings.nodes.value != [] ==>
              var target := settings.nodes.value[NodeIndex(hash, key.value, |settings.nodes.value|)];
              && (target.id.None? <==> r == Raised(NullPointerException))
              && (r.Normal? ==>
                    && r.value.nodeId == target.id && r.value.nodeName == target.name
                    && r.value.host == target.host && r.value.port == target.port
                    && r.value.externalUrl == target.externalUrl
                    && (r.value.shouldRedirect <==> target.id.value != settings.currentNodeId))
  {
    if key.None? || Trim(key.value) == [] then Raised(IllegalArgumentException)
    else if settings.nodes.None? || settings.nodes.value == [] then Normal(LocalResult(settings))
    else
      var nodes := settings.nodes.value;
      var target := nodes[NodeIndex(hash, key.value, |nodes|)];
      if target.id.None? then Raised(NullPointerException)
      else
        Normal(KeyRoutingResult(target.id, target.name, target.host, target.port, target.externalUrl,
                                target.id.value != settings.currentNodeId))
  }

  /** `isKeyOwnedByCurrentNode`: the negation of the redirect flag. */
  function IsKeyOwnedByCurrentNode(settings: ClusterSettings, hash: string -> Int32, key: Option<string>): (r: Result<bool>)
    ensures RouteKey(settings, hash, key).Raised? ==> r == Raised(RouteKey(settings, hash, key).ex)
    ensures RouteKey(settings, hash, key).Normal? ==> r == Normal(!RouteKey(settings, hash, key).value.shouldRedirect)
  {
    match RouteKey(settings, hash, key)
    case Raised(e) => Raised(e)
    case Normal(result) => Normal(!result.shouldRedirect)
  }

  /** The lambda `node.getId().equals(nodeId)` over a stream, stopping at
      the first match: a null id met before the match throws. */
  function FindById(nodes: seq<NodeInfo>, nodeId: string): (r: Result<Option<NodeInfo>>)
    ensures r.Raised? ==> r.ex == NullPointerException
    ensures r.Raised? <==> exists j :: 0 <= j < |nodes| && nodes[j].id.None? &&
                                       forall k :: 0 <= k < j ==> nodes[k].id != Some(nodeId)
    ensures r.Normal? && r.value.Some? ==> r.value.value in nodes && r.value.value.id == Some(nodeId)
    ensures r == Normal(None) <==> forall j :: 0 <= j < |nodes| ==> nodes[j].id.Some? && nodes[j].id.value != nodeId
  {
    if nodes == [] then Normal(None)
    else if nodes[0].id.None? then Raised(NullPointerException)
    else if nodes[0].id.value == nodeId then Normal(Some(nodes[0]))
    else FindById(nodes[1..], nodeId)
  }

  /** `getNodeById`: the configured list is streamed, so a null list throws. */
  function GetNodeById(settings: ClusterSettings, nodeId: string): (r: Result<Option<NodeInfo>>)
    ensures settings.nodes.None? ==> r == Raised(NullPointerException)
    ensures settings.nodes.Some? ==> r == FindById(settings.nodes.value, nodeId)
  {
    if settings.nodes.None? then Raised(NullPointerException) else FindById(settings.nodes.value, nodeId)
  }

  /** The node found is the first one with that id, provided every node
      before it has an id. */
  lemma {:induction false} FindByIdIsFirst(nodes: seq<NodeInfo>, nodeId: string, i: nat)
    requires i < |nodes| && nodes[i].id == Some(nodeId)
    requires forall j :: 0 <= j < i ==> nodes[j].id.Some? && nodes[j].id.value != nodeId
    ensures FindById(nodes, nodeId) == Normal(Some(nodes[i]))
  {
    if i > 0 {
      FindByIdIsFirst(nodes[1..], nodeId, i - 1);
    }
  }

  /** A key that routes at all routes to a configured node. */
  lemma RoutesToConfiguredNode(settings: ClusterSettings, hash: string -> Int32, key: string)
    requires settings.nodes.Some? && settings.nodes.value != []
    requires RouteKey(settings, hash, Some(key)).Normal?
    ensures exists i :: 0 <= i < |settings.nodes.value| &&
              settings.nodes.value[i].id == RouteKey(settings, hash, Some(key)).value.nodeId &&
              settings.nodes.value[i].port == RouteKey(settings, hash, Some(key)).value.port
  {
    var i := NodeIndex(hash, key, |settings.nodes.value|);
    assert settings.nodes.value[i].id == RouteKey(settings, hash, Some(key)).value.nodeId;
  }

  /** With distinct node ids and the current node listed at index `c`, a
      key is owned by the current node exactly when it hashes to index `c`. */
  lemma OwnedIffHashedHere(settings: ClusterSettings, hash: string -> Int32, key: string, c: nat)
    requires !IsBlank(key)
    requires settings.nodes.Some? && c < |settings.nodes.value|
    requires forall i :: 0 <= i < |settings.nodes.value| ==> settings.nodes.value[i].id.Some?
    requires forall i, j :: 0 <= i < j < |settings.nodes.value| ==>
               settings.nodes.value[i].id != settings.nodes.value[j].id
    requires settings.nodes.value[c].id == Some(settings.currentNodeId)
    ensures IsKeyOwnedByCurrentNode(settings, hash, Some(key)) ==
              Normal(NodeIndex(hash, key, |settings.nodes.value|) == c)
  {
    var nodes := settings.nodes.value;
    var i := NodeIndex(hash, key, |nodes|);
    if i < c {
      assert nodes[i].id != nodes[c].id;
    } else if c < i {
      assert nodes[c].id != nodes[i].id;
    }
  }

  /** A node whose id is not among the configured ones owns no key:
      whatever the hash, every key is redirected. */
  lemma UnlistedNodeOwnsNothing(settings: ClusterSettings, hash: string -> Int32, key: string)
    requires !IsBlank(key)
    requires settings.nodes.Some? && settings.nodes.value != []
    requires forall i :: 0 <= i < |settings.nodes.value| ==>
               settings.nodes.value[i].id.Some? && settings.nodes.value[i].id.value != settings.currentNodeId
    ensures IsKeyOwnedByCurrentNode(settings, hash, Some(key)) == Normal(false)
  {
    var i := NodeIndex(hash, key, |settings.nodes.value|);
    assert settings.nodes.value[i].id.Some?;
  }
}
