/** The abstract property-graph store that both the loader and the rules
    engine talk to: nodes keyed by label and `id`, each with a property map,
    and labelled directed edges, each with its `lastupdated` tag. */
module Graph {
  import opened Values

  type Props = map<string, Value>

  /** A node is identified by its label and the value of its `id` property. */
  datatype NodeKey = NodeKey(nodeLabel: string, id: Value)

  datatype Edge = Edge(relLabel: string, src: NodeKey, dst: NodeKey)

  datatype Graph = Graph(nodes: map<NodeKey, Props>, edges: map<Edge, int>)

  const Empty: Graph := Graph(map[], map[])

  /** What every state of the store satisfies: no node is keyed by a null
      id, a node's `id` property is its key's id (so a Cypher match on
      `{id: v}` finds at most the node keyed by v), and no edge dangles. */
  ghost predicate Valid(g: Graph) {
    && (forall k :: k in g.nodes ==> k.id != Null && Get(g.nodes[k], "id") == k.id)
    && (forall e :: e in g.edges ==> e.src in g.nodes && e.dst in g.nodes)
  }

  /** Cypher `MATCH (n:label {id: v})`: the nodes of that label whose `id`
      property equals v (nothing when v is null). */
  ghost function MatchById(g: Graph, nodeLabel: string, v: Value): set<NodeKey> {
    set k | k in g.nodes && k.nodeLabel == nodeLabel && v != Null && Get(g.nodes[k], "id") == v
  }

  /** In a valid store the match by `id` is the key lookup. */
  lemma MatchByIdIsKeyLookup(g: Graph, nodeLabel: string, v: Value)
    requires Valid(g)
    ensures MatchById(g, nodeLabel, v) ==
            if v != Null && NodeKey(nodeLabel, v) in g.nodes then {NodeKey(nodeLabel, v)} else {}
  {
    var m := MatchById(g, nodeLabel, v);
    forall k | k in m ensures k == NodeKey(nodeLabel, v) {
      assert Get(g.nodes[k], "id") == k.id;
    }
    if v != Null && NodeKey(nodeLabel, v) in g.nodes {
      assert NodeKey(nodeLabel, v) in m;
    }
  }

  /** Cypher `DETACH DELETE` of the nodes in `doomed`: they go, and so does
      every edge that touches one of them. */
  function DetachDelete(g: Graph, doomed: set<NodeKey>): (r: Graph)
    ensures r.nodes.Keys == g.nodes.Keys - doomed
    ensures forall k :: k in r.nodes ==> r.nodes[k] == g.nodes[k]
    ensures forall e :: e in r.edges <==> e in g.edges && e.src !in doomed && e.dst !in doomed
    ensures forall e :: e in r.edges ==> r.edges[e] == g.edges[e]
  {
    Graph(map k | k in g.nodes && k !in doomed :: g.nodes[k],
          map e | e in g.edges && e.src !in doomed && e.dst !in doomed :: g.edges[e])
  }

  lemma DetachDeleteValid(g: Graph, doomed: set<NodeKey>)
    requires Valid(g)
    ensures Valid(DetachDelete(g, doomed))
  {
  }

  /** Deleting in two steps is deleting the union. */
  lemma DetachDeleteTwice(g: Graph, a: set<NodeKey>, b: set<NodeKey>)
    ensures DetachDelete(DetachDelete(g, a), b) == DetachDelete(g, a + b)
  {
    var lhs, rhs := DetachDelete(DetachDelete(g, a), b), DetachDelete(g, a + b);
    assert lhs.nodes == rhs.nodes;
    assert lhs.edges == rhs.edges;
  }

  /** Whether some edge of `label` leaves `src` for a node of `dstLabel`:
      Cypher `(src)-[:relLabel]->(:dstLabel)`. */
  ghost predicate HasEdgeTo(g: Graph, src: NodeKey, relLabel: string, dstLabel: string) {
    exists e :: e in g.edges && e.relLabel == relLabel && e.src == src && e.dst.nodeLabel == dstLabel
  }

  /** Whether some edge of `label` reaches `dst` from a node of `srcLabel`:
      Cypher `(dst)<-[:relLabel]-(:srcLabel)`. */
  ghost predicate HasEdgeFrom(g: Graph, dst: NodeKey, relLabel: string, srcLabel: string) {
    exists e :: e in g.edges && e.relLabel == relLabel && e.dst == dst && e.src.nodeLabel == srcLabel
  }
}
