/**
 * The dashboard card's sample data (DashboardCard01.jsx) carried through both
 * halves of the model: the table buildHierarchy builds from it, the
 * d3.hierarchy entries made from that table, and the initial collapse of the
 * root's children.
 */
module Sample {
  import opened Optional
  import opened Hierarchy
  import opened TreeView

  /** The card's seven nodes. */
  function SampleNodes(): seq<Node> {
    [ Node("cloud", "Cloud", "cloud", 253, 18, ["aws1", "aws2", "gcp", "saas"]),
      Node("aws1", "AWS 1", "aws", 84, 3, ["s3"]),
      Node("aws2", "AWS 2", "aws", 124, 4, ["rds"]),
      Node("gcp", "GCP", "gcp", 28, 9, []),
      Node("saas", "SaaS", "saas", 123, 5, []),
      Node("s3", "S3", "service", 66, 3, []),
      Node("rds", "RDS", "service", 68, 1, []) ]
  }

  /** The card's six edges. */
  function SampleEdges(): seq<Edge> {
    [ Edge("cloud", "aws1"), Edge("cloud", "aws2"), Edge("cloud", "gcp"),
      Edge("cloud", "saas"), Edge("aws1", "s3"), Edge("aws2", "rds") ]
  }

  /** The child list each sample id ends up with. */
  function SampleChildren(n: Id): seq<Id> {
    if n == RootId then ["aws1", "aws2", "gcp", "saas"]
    else if n == "aws1" then ["s3"]
    else if n == "aws2" then ["rds"]
    else []
  }

  /** The table buildHierarchy is expected to build from the sample. */
  function SampleTable(): map<Id, Node> {
    map["cloud" := Node("cloud", "Cloud", "cloud", 253, 18, ["aws1", "aws2", "gcp", "saas"]),
        "aws1" := Node("aws1", "AWS 1", "aws", 84, 3, ["s3"]),
        "aws2" := Node("aws2", "AWS 2", "aws", 124, 4, ["rds"]),
        "gcp" := Node("gcp", "GCP", "gcp", 28, 9, []),
        "saas" := Node("saas", "SaaS", "saas", 123, 5, []),
        "s3" := Node("s3", "S3", "service", 66, 3, []),
        "rds" := Node("rds", "RDS", "service", 68, 1, [])]
  }

  /** The entries d3.hierarchy is expected to start from on the sample. */
  function SampleEntries(): Table {
    map["cloud" := Entry(Some(["aws1", "aws2", "gcp", "saas"]), None),
        "aws1" := Entry(Some(["s3"]), None),
        "aws2" := Entry(Some(["rds"]), None),
        "gcp" := Entry(None, None), "saas" := Entry(None, None),
        "s3" := Entry(None, None), "rds" := Entry(None, None)]
  }

  /** A rank witnessing that the sample tree is acyclic: each node's height. */
  function SampleRank(): map<Id, nat> {
    map["cloud" := 2, "aws1" := 1, "aws2" := 1, "gcp" := 0, "saas" := 0, "s3" := 0, "rds" := 0]
  }

  /** The node pass over the sample keys exactly the seven ids. */
  lemma SampleIndexedKeys()
    ensures Indexed(SampleNodes()).Keys == SampleTable().Keys
  {
    var ns := SampleNodes();
    assert forall i :: 0 <= i < |ns| ==> ns[i].id in SampleTable();
    assert ns[0].id == "cloud" && ns[1].id == "aws1" && ns[2].id == "aws2" && ns[3].id == "gcp"
        && ns[4].id == "saas" && ns[5].id == "s3" && ns[6].id == "rds";
  }

  /** The node pass over the card's nodes, written out: each node under its
      own id with an empty child list. */
  function SampleIndexedTable(): map<Id, Node> {
    map["cloud" := Node("cloud", "Cloud", "cloud", 253, 18, []),
        "aws1" := Node("aws1", "AWS 1", "aws", 84, 3, []),
        "aws2" := Node("aws2", "AWS 2", "aws", 124, 4, []),
        "gcp" := Node("gcp", "GCP", "gcp", 28, 9, []),
        "saas" := Node("saas", "SaaS", "saas", 123, 5, []),
        "s3" := Node("s3", "S3", "service", 66, 3, []),
        "rds" := Node("rds", "RDS", "service", 68, 1, [])]
  }

  lemma SampleIndexed()
    ensures Indexed(SampleNodes()) == SampleIndexedTable()
  {
    var ns := SampleNodes();
    var p0: seq<Node> := [];
    var p1 := p0 + [ns[0]];
    var p2 := p1 + [ns[1]];
    var p3 := p2 + [ns[2]];
    var p4 := p3 + [ns[3]];
    var p5 := p4 + [ns[4]];
    var p6 := p5 + [ns[5]];
    var p7 := p6 + [ns[6]];
    assert p7 == ns;
    IndexedSnoc(p0, ns[0]);
    IndexedSnoc(p1, ns[1]);
    IndexedSnoc(p2, ns[2]);
    IndexedSnoc(p3, ns[3]);
    IndexedSnoc(p4, ns[4]);
    IndexedSnoc(p5, ns[5]);
    IndexedSnoc(p6, ns[6]);
  }

  /** The node pass stores each sample node under its own id with an empty
      child list. */
  lemma SampleIndexedAt(id: Id)
    requires id in SampleTable()
    ensures id in Indexed(SampleNodes())
    ensures Indexed(SampleNodes())[id] == SampleTable()[id].(children := [])
  {
    SampleIndexed();
  }

  /** The edge pass over the sample edges, node by node. */
  lemma SampleTargets(known: set<Id>)
    requires SampleTable().Keys <= known
    ensures forall n :: TargetsOf(SampleEdges(), known, n) == SampleChildren(n)
  {
    var es := SampleEdges();
    var p0: seq<Edge> := [];
    var p1 := p0 + [es[0]];
    var p2 := p1 + [es[1]];
    var p3 := p2 + [es[2]];
    var p4 := p3 + [es[3]];
    var p5 := p4 + [es[4]];
    var p6 := p5 + [es[5]];
    assert p6 == es;
    TargetsOfSnoc(p0, es[0], known);
    TargetsOfSnoc(p1, es[1], known);
    TargetsOfSnoc(p2, es[2], known);
    TargetsOfSnoc(p3, es[3], known);
    TargetsOfSnoc(p4, es[4], known);
    TargetsOfSnoc(p5, es[5], known);
    forall n
      ensures TargetsOf(es, known, n) == SampleChildren(n)
    {
      if n == RootId {
        assert TargetsOf(p4, known, n) == ["aws1", "aws2", "gcp", "saas"];
      }
    }
  }

  /** On the card's sample edges the root's children are the four accounts,
      in edge order. */
  lemma SampleRootChildren(known: set<Id>)
    requires SampleTable().Keys <= known
    ensures TargetsOf(SampleEdges(), known, RootId) == ["aws1", "aws2", "gcp", "saas"]
  {
    SampleTargets(known);
  }

  /** The expected table gives every id the child list the edges make. */
  lemma SampleTableChildren()
    ensures forall id :: id in SampleTable() ==> SampleTable()[id].children == SampleChildren(id)
  {
  }

  /** One entry of the expected table is the indexed sample node with its
      edge targets as children. */
  lemma SampleEntryBuilt(id: Id)
    requires id in SampleTable()
    ensures id in Indexed(SampleNodes())
    ensures SampleTable()[id] == Indexed(SampleNodes())[id].(children := TargetsOf(SampleEdges(), SampleTable().Keys, id))
  {
    var ks := SampleTable().Keys;
    var x := SampleTable()[id];
    SampleTableChildren();
    SampleIndexedAt(id);
    SampleTargets(ks);
    assert x.children == SampleChildren(id);
    assert Indexed(SampleNodes())[id] == x.(children := []);
    assert TargetsOf(SampleEdges(), ks, id) == x.children;
  }

  /** Every entry of the expected table is the indexed sample node with its
      edge targets as children. */
  lemma SampleEntriesBuilt()
    ensures SampleTable().Keys == IdsOf(SampleNodes())
    ensures forall id :: id in SampleTable() ==>
              id in Indexed(SampleNodes())
              && SampleTable()[id] == Indexed(SampleNodes())[id].(children := TargetsOf(SampleEdges(), SampleTable().Keys, id))
  {
    SampleIndexedKeys();
    forall id | id in SampleTable()
      ensures id in Indexed(SampleNodes())
      ensures SampleTable()[id] == Indexed(SampleNodes())[id].(children := TargetsOf(SampleEdges(), SampleTable().Keys, id))
    {
      SampleEntryBuilt(id);
    }
  }

  /** buildHierarchy's table on the sample is the expected one. */
  lemma SampleBuilt()
    ensures Linked(Indexed(SampleNodes()), SampleEdges()) == SampleTable()
  {
    SampleEntriesBuilt();
    var l := Linked(Indexed(SampleNodes()), SampleEdges());
    assert l.Keys == SampleTable().Keys;
    assert forall id :: id in l ==> l[id] == SampleTable()[id];
  }

  /** Wrapping the sample table for d3 makes every built list visible and
      leaves the four leaves without a list. */
  lemma SampleView()
    ensures ViewOf(SampleTable()) == SampleEntries()
  {
    var v := ViewOf(SampleTable());
    assert v.Keys == SampleEntries().Keys;
    assert forall n :: n in v ==> v[n] == SampleEntries()[n];
  }

  /** Node `n`'s share of `Ranked`. */
  ghost predicate RankedAt(t: Table, rank: map<Id, nat>, n: Id)
    requires n in t
  {
    n in rank && Below(t, rank, t[n].children, rank[n]) && Below(t, rank, t[n].hiddenChildren, rank[n])
  }

  /** The sample's entries form a finite acyclic graph. */
  lemma SampleRanked()
    ensures Ranked(SampleEntries(), SampleRank())
  {
    var e, r := SampleEntries(), SampleRank();
    assert RankedAt(e, r, "cloud");
    assert RankedAt(e, r, "aws1");
    assert RankedAt(e, r, "aws2");
    assert RankedAt(e, r, "gcp");
    assert RankedAt(e, r, "saas");
    assert RankedAt(e, r, "s3");
    assert RankedAt(e, r, "rds");
    assert forall n :: n in e ==> RankedAt(e, r, n);
  }

  /** The elements of a four-element list. */
  lemma ElementsOfFour(ks: seq<Id>, a: Id, b: Id, c: Id, d: Id)
    requires ks == [a, b, c, d]
    ensures (set k | k in ks) == {a, b, c, d}
  {
    assert forall k :: k in ks <==> k == a || k == b || k == c || k == d;
  }

  /** After the initial collapse the sample shows the cloud and its four
      accounts; the two services are hidden. */
  lemma SampleInitiallyShown()
    ensures Ranked(SampleEntries(), SampleRank())
    ensures Shown(InitiallyCollapsed(SampleEntries(), SampleRank(), RootId), SampleRank(), RootId)
            == {"cloud", "aws1", "aws2", "gcp", "saas"}
  {
    SampleRanked();
    var ks := ["aws1", "aws2", "gcp", "saas"];
    assert SampleEntries()[RootId].children == Some(ks);
    InitiallyShowsTwoLevels(SampleEntries(), SampleRank(), RootId, ks);
    ElementsOfFour(ks, "aws1", "aws2", "gcp", "saas");
    assert {RootId} + {"aws1", "aws2", "gcp", "saas"} == {"cloud", "aws1", "aws2", "gcp", "saas"};
  }

  /** A client running the widget's set-up on the sample: build the table,
      find the root, wrap the table for d3 and collapse the root's children. */
  method SampleSession() {
    var table, root := BuildHierarchy(SampleNodes(), SampleEdges());
    SampleBuilt();
    assert root == Some(Node("cloud", "Cloud", "cloud", 253, 18, ["aws1", "aws2", "gcp", "saas"]));
    SampleView();
    SampleInitiallyShown();
    var state := new TreeState(ViewOf(table), SampleRank());
    state.CollapseRootChildren(RootId);
    assert Shown(state.nodes, SampleRank(), RootId) == {"cloud", "aws1", "aws2", "gcp", "saas"};
  }
}
