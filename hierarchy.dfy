/**
 * Turning the dashboard's flat node and edge lists into a rooted tree
 * (buildHierarchy in CloudHierarchyD3.jsx).
 *
 * The JavaScript builds a Map from id to a fresh copy of each node, then
 * pushes each edge's target object onto its source's `children` array.
 * Here the Map is a `map<Id, Node>` and a child reference is the child's id:
 * every reference the JavaScript pushes is the one object the Map holds for
 * that id, so the id names it exactly.
 */
module Hierarchy {
  import opened Optional

  type Id = string

  /** One dashboard node. `children` is whatever the input carries (the
      sample data lists child ids there); the built tree replaces it. */
  datatype Node = Node(id: Id, caption: string, kind: string, alerts: int, misconfigs: int, children: seq<Id>)

  datatype Edge = Edge(source: Id, target: Id)

  /** The id of the node returned as the root. */
  const RootId: Id := "cloud"

  /** The ids that occur in a node list. */
  function IdsOf(nodes: seq<Node>): set<Id> {
    set i | 0 <= i < |nodes| :: nodes[i].id
  }

  /** The table after the node pass: `map.set` for each node in order, so a
      later node with the same id replaces an earlier one, and every entry
      starts with an empty child list. */
  function Indexed(nodes: seq<Node>): (m: map<Id, Node>)
    ensures m.Keys == IdsOf(nodes)
    ensures forall id :: id in m ==> m[id].id == id && m[id].children == []
  {
    if |nodes| == 0 then map[]
    else
      var last := nodes[|nodes| - 1];
      Indexed(nodes[..|nodes| - 1])[last.id := last.(children := [])]
  }

  /** The children the edge pass gives node `n`: the target of every edge
      whose source is `n`, in edge order, when both endpoints are `known`. */
  function TargetsOf(edges: seq<Edge>, known: set<Id>, n: Id): (r: seq<Id>)
    ensures forall c :: c in r ==> c in known
    ensures |r| <= |edges|
  {
    if |edges| == 0 then []
    else
      var e := edges[|edges| - 1];
      TargetsOf(edges[..|edges| - 1], known, n)
        + (if e.source == n && e.source in known && e.target in known then [e.target] else [])
  }

  /** The table after the edge pass over `edges`, starting from `base`: every
      node of `base` with its child list replaced by its edge targets. */
  function Linked(base: map<Id, Node>, edges: seq<Edge>): (m: map<Id, Node>)
    ensures m.Keys == base.Keys
  {
    map id | id in base :: base[id].(children := TargetsOf(edges, base.Keys, id))
  }

  /** Before any edge, a table of empty child lists is its own edge pass. */
  lemma LinkedNoEdges(base: map<Id, Node>)
    requires forall id :: id in base ==> base[id].children == []
    ensures Linked(base, []) == base
  {
    var l := Linked(base, []);
    assert forall id :: id in l ==> l[id] == base[id];
  }

  /** One edge of the edge pass on a table: its target is pushed onto its
      source's child list when both ends are in the table. */
  function Pushed(l: map<Id, Node>, e: Edge): (r: map<Id, Node>)
    ensures r.Keys == l.Keys
  {
    if e.source in l && e.target in l
    then l[e.source := l[e.source].(children := l[e.source].children + [e.target])]
    else l
  }

  /** One more edge pushes its target onto its source's list when both ends
      are in the table, and changes nothing otherwise. */
  lemma LinkedStep(base: map<Id, Node>, edges: seq<Edge>, j: nat)
    requires j < |edges|
    ensures Linked(base, edges[..j + 1]) == Pushed(Linked(base, edges[..j]), edges[j])
  {
    var l, e := Linked(base, edges[..j]), edges[j];
    var next, step := Linked(base, edges[..j + 1]), Pushed(l, e);
    assert edges[..j + 1] == edges[..j] + [e];
    TargetsOfSnoc(edges[..j], e, base.Keys);
    forall id | id in next
      ensures next[id] == step[id]
    {
      if id == e.source && e.source in l && e.target in l {
        assert l[id] == base[id].(children := TargetsOf(edges[..j], base.Keys, id));
      } else {
        assert step[id] == l[id];
      }
    }
  }

  /** The node loop of buildHierarchy: `map.set(n.id, {...n, children: []})`
      for each node in turn. */
  method IndexNodes(nodes: seq<Node>) returns (table: map<Id, Node>)
    ensures table == Indexed(nodes)
  {
    table := map[];
    var i := 0;
    while i < |nodes|
      invariant 0 <= i <= |nodes|
      invariant table == Indexed(nodes[..i])
    {
      assert nodes[..i + 1] == nodes[..i] + [nodes[i]];
      IndexedSnoc(nodes[..i], nodes[i]);
      table := table[nodes[i].id := nodes[i].(children := [])];
      i := i + 1;
    }
    assert nodes[..|nodes|] == nodes;
  }

  /** The edge callback of buildHierarchy's edge loop: look up both ends and,
      when both are present, push the target onto the source's children. */
  method LinkEdge(table: map<Id, Node>, e: Edge) returns (next: map<Id, Node>)
    ensures next == Pushed(table, e)
  {
    next := table;
    if e.source in table && e.target in table {
      var parent := table[e.source];
      next := table[e.source := parent.(children := parent.children + [e.target])];
    }
  }

  /** The edge loop of buildHierarchy: push each edge's target onto its
      source's children when both ends are in the table. */
  method LinkEdges(base: map<Id, Node>, edges: seq<Edge>) returns (table: map<Id, Node>)
    requires forall id :: id in base ==> base[id].children == []
    ensures table == Linked(base, edges)
  {
    table := base;
    LinkedNoEdges(base);
    assert edges[..0] == [];
    var j := 0;
    while j < |edges|
      invariant 0 <= j <= |edges|
      invariant table == Linked(base, edges[..j])
    {
      LinkedStep(base, edges, j);
      table := LinkEdge(table, edges[j]);
      j := j + 1;
    }
    assert edges[..|edges|] == edges;
  }

  /** buildHierarchy: the id table it fills, and the node found under "cloud"
      (None plays the JavaScript's undefined, on which the render effect
      returns early). */
  method BuildHierarchy(nodes: seq<Node>, edges: seq<Edge>) returns (table: map<Id, Node>, root: Option<Node>)
    ensures table.Keys == IdsOf(nodes)
    ensures forall id :: id in table ==>
              table[id] == Indexed(nodes)[id].(children := TargetsOf(edges, table.Keys, id))
    ensures root.Some? <==> RootId in table
    ensures root.Some? ==> root.value == table[RootId]
    ensures table == Linked(Indexed(nodes), edges)
  {
    var indexed := IndexNodes(nodes);
    table := LinkEdges(indexed, edges);
    root := if RootId in table then Some(table[RootId]) else None;
  }

  /** The node pass keeps, for every id, the LAST node that carries it, with
      all its fields but `children` unchanged. */
  lemma {:induction false} IndexedLastWins(nodes: seq<Node>, i: nat)
    requires i < |nodes|
    requires forall j :: i < j < |nodes| ==> nodes[j].id != nodes[i].id
    ensures nodes[i].id in Indexed(nodes)
    ensures Indexed(nodes)[nodes[i].id] == nodes[i].(children := [])
  {
    if i < |nodes| - 1 {
      IndexedLastWins(nodes[..|nodes| - 1], i);
    }
  }

  /** Every entry of the table is a copy of some input node carrying that id. */
  lemma {:induction false} IndexedFromInput(nodes: seq<Node>, id: Id)
    requires id in Indexed(nodes)
    ensures exists i :: 0 <= i < |nodes| && nodes[i].id == id
                        && Indexed(nodes)[id] == nodes[i].(children := [])
  {
    var last := nodes[|nodes| - 1];
    if last.id != id {
      var init := nodes[..|nodes| - 1];
      IndexedFromInput(init, id);
      var i :| 0 <= i < |init| && init[i].id == id && Indexed(init)[id] == init[i].(children := []);
      assert nodes[i] == init[i];
    }
  }

  /** The edge pass handles the edge list front to back: the children a list of
      edges gives are those of its first part followed by those of the rest. */
  lemma {:induction false} TargetsOfAppend(front: seq<Edge>, back: seq<Edge>, known: set<Id>, n: Id)
    ensures TargetsOf(front + back, known, n) == TargetsOf(front, known, n) + TargetsOf(back, known, n)
  {
    if |back| == 0 {
      assert front + back == front;
    } else {
      var all := front + back;
      assert all[..|all| - 1] == front + back[..|back| - 1];
      TargetsOfAppend(front, back[..|back| - 1], known, n);
    }
  }

  /** `c` is a child of `n` after the edge pass iff some edge goes from `n` to
      `c` and both ends are ids of the table. */
  lemma {:induction false} TargetsOfMembers(edges: seq<Edge>, known: set<Id>, n: Id, c: Id)
    ensures c in TargetsOf(edges, known, n)
            <==> n in known && c in known && exists i :: 0 <= i < |edges| && edges[i] == Edge(n, c)
  {
    if |edges| > 0 {
      var init := edges[..|edges| - 1];
      TargetsOfMembers(init, known, n, c);
      if c in TargetsOf(init, known, n) {
        var i :| 0 <= i < |init| && init[i] == Edge(n, c);
        assert edges[i] == Edge(n, c);
      }
      if n in known && c in known && exists i :: 0 <= i < |edges| && edges[i] == Edge(n, c) {
        var i :| 0 <= i < |edges| && edges[i] == Edge(n, c);
        if i < |edges| - 1 {
          assert init[i] == Edge(n, c);
        }
      }
    }
  }

  /** When no two nodes share an id, the node pass keeps every node. */
  lemma IndexedDistinct(nodes: seq<Node>)
    requires forall i, j :: 0 <= i < j < |nodes| ==> nodes[i].id != nodes[j].id
    ensures forall i :: 0 <= i < |nodes| ==>
              nodes[i].id in Indexed(nodes) && Indexed(nodes)[nodes[i].id] == nodes[i].(children := [])
  {
    forall i | 0 <= i < |nodes|
      ensures nodes[i].id in Indexed(nodes) && Indexed(nodes)[nodes[i].id] == nodes[i].(children := [])
    {
      IndexedLastWins(nodes, i);
    }
  }

  /** An edge with an endpoint missing from the table changes no child list. */
  lemma UnknownEdgeIgnored(edges: seq<Edge>, e: Edge, known: set<Id>, n: Id)
    requires e.source !in known || e.target !in known
    ensures TargetsOf(edges + [e], known, n) == TargetsOf(edges, known, n)
  {
    TargetsOfAppend(edges, [e], known, n);
    assert [e][..0] == [];
  }

  /** The node pass over one more node. */
  lemma IndexedSnoc(nodes: seq<Node>, x: Node)
    ensures Indexed(nodes + [x]) == Indexed(nodes)[x.id := x.(children := [])]
  {
    assert (nodes + [x])[..|nodes|] == nodes;
  }

  /** The edge pass over one more edge. */
  lemma TargetsOfSnoc(edges: seq<Edge>, e: Edge, known: set<Id>)
    ensures forall n :: TargetsOf(edges + [e], known, n)
              == TargetsOf(edges, known, n)
                 + (if e.source == n && e.source in known && e.target in known then [e.target] else [])
  {
    assert (edges + [e])[..|edges|] == edges;
  }
}
