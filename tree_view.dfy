/**
 * The expand / collapse state of the hierarchy diagram (the inner `collapse`
 * and `expand` of CloudHierarchyD3.jsx, the click handler and the initial
 * collapse of the root's children).
 *
 * d3.hierarchy wraps the built tree in node objects whose `children` array is
 * the visible child list; `collapse` parks it in `_children`. The object graph
 * is modelled as a table from node id to an Entry holding both lists, and the
 * objects' in-place updates as updates of that table inside a TreeState.
 */
module TreeView {
  import opened Optional
  import opened Hierarchy

  /** One hierarchy node's two child lists; None is JavaScript's null or
      undefined. `hiddenChildren` is the source's `_children`. */
  datatype Entry = Entry(children: Option<seq<Id>>, hiddenChildren: Option<seq<Id>>)

  type Table = map<Id, Entry>

  /** Every id in `ks` is a node of `t` of rank below `r`. */
  ghost predicate Below(t: Table, rank: map<Id, nat>, ks: Option<seq<Id>>, r: nat) {
    ks.Some? ==> forall k :: k in ks.value ==> k in t && k in rank && rank[k] < r
  }

  /** The child links of `t`, visible or hidden, all lead to nodes of `t` of
      smaller rank: the table is a finite acyclic graph. */
  ghost predicate Ranked(t: Table, rank: map<Id, nat>) {
    forall n :: n in t ==>
      n in rank && Below(t, rank, t[n].children, rank[n]) && Below(t, rank, t[n].hiddenChildren, rank[n])
  }

  /** The nodes d3 draws below and including `x`: those reached from `x`
      through visible child lists (what `root.descendants()` enumerates). */
  ghost function Shown(t: Table, rank: map<Id, nat>, x: Id): set<Id>
    requires Ranked(t, rank) && x in t
    decreases rank[x]
  {
    {x} + (match t[x].children
           case None => {}
           case Some(ks) => set k, y | k in ks && y in Shown(t, rank, k) :: y)
  }

  /** The nodes shown below each of `ks` together. */
  ghost function ShownFrom(t: Table, rank: map<Id, nat>, ks: seq<Id>): set<Id>
    requires Ranked(t, rank) && forall k :: k in ks ==> k in t
  {
    set k, y | k in ks && y in Shown(t, rank, k) :: y
  }

  /** One node's share of `collapse`: a visible list moves to the hidden one. */
  function Hide(e: Entry): Entry {
    if e.children.Some? then Entry(None, e.children) else e
  }

  /** What `expand` does to one node: a hidden list becomes the visible one. */
  function Reveal(e: Entry): Entry {
    if e.hiddenChildren.Some? then Entry(e.hiddenChildren, None) else e
  }

  /** `t` with every node of `s` hidden. */
  function HideAll(t: Table, s: set<Id>): (u: Table)
    ensures u.Keys == t.Keys
  {
    map n | n in t :: if n in s then Hide(t[n]) else t[n]
  }

  /** The table after `collapse(d)`. */
  ghost function Collapsed(t: Table, rank: map<Id, nat>, d: Id): Table
    requires Ranked(t, rank) && d in t
  {
    HideAll(t, Shown(t, rank, d))
  }

  /** The table after `expand(d)`. */
  function Expanded(t: Table, d: Id): Table
    requires d in t
  {
    t[d := Reveal(t[d])]
  }

  /** The table after a click on `d`: collapse when it has visible children,
      expand otherwise. */
  ghost function Clicked(t: Table, rank: map<Id, nat>, d: Id): Table
    requires Ranked(t, rank) && d in t
  {
    if t[d].children.Some? then Collapsed(t, rank, d) else Expanded(t, d)
  }

  /** The table after `root.children?.forEach(collapse)`. */
  ghost function InitiallyCollapsed(t: Table, rank: map<Id, nat>, root: Id): Table
    requires Ranked(t, rank) && root in t
  {
    match t[root].children
    case None => t
    case Some(ks) => HideAll(t, ShownFrom(t, rank, ks))
  }

  /** No node has a visible and a hidden list at once. */
  ghost predicate Exclusive(t: Table) {
    forall n :: n in t ==> !(t[n].children.Some? && t[n].hiddenChildren.Some?)
  }

  /** A node's child list, wherever it is parked. */
  function Listed(e: Entry): Option<seq<Id>> {
    if e.children.Some? then e.children else e.hiddenChildren
  }

  /** The entries d3.hierarchy starts from: every list visible, and a node with
      no children carries no list at all (d3 drops empty child arrays). */
  function ViewOf(tree: map<Id, Node>): (t: Table)
    ensures t.Keys == tree.Keys
    ensures Exclusive(t)
    ensures forall n :: n in t ==> t[n].hiddenChildren == None
    ensures forall n :: n in t ==>
              t[n].children == (if tree[n].children == [] then None else Some(tree[n].children))
  {
    map n | n in tree :: Entry(if tree[n].children == [] then None else Some(tree[n].children), None)
  }

  // ---------------------------------------------------------------------
  // Facts about the visible subtree

  lemma {:induction false} ShownBounds(t: Table, rank: map<Id, nat>, x: Id)
    requires Ranked(t, rank) && x in t
    ensures x in Shown(t, rank, x)
    ensures forall y :: y in Shown(t, rank, x) ==> y in t && rank[y] <= rank[x]
    decreases rank[x]
  {
    if t[x].children.Some? {
      forall k | k in t[x].children.value { ShownBounds(t, rank, k); }
    }
  }

  lemma ShownUnfold(t: Table, rank: map<Id, nat>, x: Id)
    requires Ranked(t, rank) && x in t && t[x].children.Some?
    ensures forall k :: k in t[x].children.value ==> k in t
    ensures Shown(t, rank, x) == {x} + ShownFrom(t, rank, t[x].children.value)
  {
  }

  /** Shown only looks at visible lists. */
  lemma {:induction false} ShownAgree(t: Table, u: Table, rank: map<Id, nat>, x: Id)
    requires Ranked(t, rank) && Ranked(u, rank) && t.Keys == u.Keys && x in t
    requires forall n :: n in t ==> t[n].children == u[n].children
    ensures Shown(t, rank, x) == Shown(u, rank, x)
    decreases rank[x]
  {
    if t[x].children.Some? {
      forall k | k in t[x].children.value
        ensures Shown(t, rank, k) == Shown(u, rank, k)
      {
        ShownAgree(t, u, rank, k);
      }
    }
  }

  /** Every visible child of a node of `s` is in `s`. */
  ghost predicate Closed(t: Table, s: set<Id>) {
    forall n, k :: n in s && n in t && t[n].children.Some? && k in t[n].children.value ==> k in s
  }

  lemma {:induction false} ShownClosed(t: Table, rank: map<Id, nat>, x: Id)
    requires Ranked(t, rank) && x in t
    ensures Closed(t, Shown(t, rank, x))
    decreases rank[x]
  {
    forall n, c | n in Shown(t, rank, x) && n in t && t[n].children.Some? && c in t[n].children.value
      ensures c in Shown(t, rank, x)
    {
      var ks := t[x].children.value;
      if n == x {
        ShownBounds(t, rank, c);
      } else {
        var k :| k in ks && n in Shown(t, rank, k);
        ShownClosed(t, rank, k);
        assert c in Shown(t, rank, k);
      }
    }
  }

  lemma {:induction false} ClosedContainsShown(t: Table, rank: map<Id, nat>, s: set<Id>, y: Id)
    requires Ranked(t, rank) && Closed(t, s) && y in s && y in t
    ensures Shown(t, rank, y) <= s
    decreases rank[y]
  {
    if t[y].children.Some? {
      forall k | k in t[y].children.value { ClosedContainsShown(t, rank, s, k); }
    }
  }

  lemma RankedHideAll(t: Table, rank: map<Id, nat>, s: set<Id>)
    requires Ranked(t, rank)
    ensures Ranked(HideAll(t, s), rank)
  {
  }

  lemma HideAllTwice(t: Table, s1: set<Id>, s2: set<Id>)
    ensures HideAll(HideAll(t, s1), s2) == HideAll(t, s1 + s2)
  {
  }

  /** Hiding a closed set `s` changes what is shown from `b` only inside `s`. */
  lemma {:induction false} ShownAfterHide(t: Table, rank: map<Id, nat>, s: set<Id>, b: Id)
    requires Ranked(t, rank) && Closed(t, s) && b in t
    ensures Ranked(HideAll(t, s), rank)
    ensures Shown(HideAll(t, s), rank, b) + s == Shown(t, rank, b) + s
    decreases rank[b]
  {
    var u := HideAll(t, s);
    RankedHideAll(t, rank, s);
    if b in s {
      ClosedContainsShown(t, rank, s, b);
      assert u[b].children == None;
    } else if t[b].children.Some? {
      var ks := t[b].children.value;
      assert u[b] == t[b];
      forall k | k in ks
        ensures Shown(u, rank, k) + s == Shown(t, rank, k) + s
      {
        ShownAfterHide(t, rank, s, k);
      }
      forall y | y in Shown(t, rank, b) && y !in s
        ensures y in Shown(u, rank, b)
      {
        if y != b {
          var k :| k in ks && y in Shown(t, rank, k);
          assert y in Shown(u, rank, k) + s;
        }
      }
      forall y | y in Shown(u, rank, b) && y !in s
        ensures y in Shown(t, rank, b)
      {
        if y != b {
          var k :| k in ks && y in Shown(u, rank, k);
          assert y in Shown(t, rank, k) + s;
        }
      }
    }
  }

  lemma ShownFromStep(t: Table, rank: map<Id, nat>, ks: seq<Id>, i: nat)
    requires Ranked(t, rank) && i < |ks| && forall k :: k in ks ==> k in t
    ensures ShownFrom(t, rank, ks[..i + 1]) == ShownFrom(t, rank, ks[..i]) + Shown(t, rank, ks[i])
  {
    assert forall k :: k in ks[..i + 1] <==> k in ks[..i] || k == ks[i];
  }

  lemma {:induction false} ShownFromClosed(t: Table, rank: map<Id, nat>, ks: seq<Id>)
    requires Ranked(t, rank) && forall k :: k in ks ==> k in t
    ensures Closed(t, ShownFrom(t, rank, ks))
  {
    forall n, c | n in ShownFrom(t, rank, ks) && n in t && t[n].children.Some? && c in t[n].children.value
      ensures c in ShownFrom(t, rank, ks)
    {
      var k :| k in ks && n in Shown(t, rank, k);
      ShownClosed(t, rank, k);
      assert c in Shown(t, rank, k);
    }
  }

  /** One child's collapse after the earlier siblings' collapses. */
  lemma CollapseAfterHide(t: Table, rank: map<Id, nat>, s: set<Id>, k: Id)
    requires Ranked(t, rank) && Closed(t, s) && k in t
    ensures Ranked(HideAll(t, s), rank)
    ensures Collapsed(HideAll(t, s), rank, k) == HideAll(t, s + Shown(t, rank, k))
  {
    ShownAfterHide(t, rank, s, k);
    HideAllTwice(t, s, Shown(HideAll(t, s), rank, k));
    assert s + Shown(HideAll(t, s), rank, k) == s + Shown(t, rank, k);
  }

  /** What `collapse(d)` amounts to when `d` has visible children `ks`: stash
      the list, collapse the children, clear the visible list. */
  lemma CollapseUnfold(t: Table, rank: map<Id, nat>, d: Id, ks: seq<Id>)
    requires Ranked(t, rank) && d in t && t[d].children == Some(ks)
    ensures Ranked(t[d := t[d].(hiddenChildren := Some(ks))], rank)
    ensures forall k :: k in ks ==> k in t && rank[k] < rank[d]
    ensures var mid := t[d := t[d].(hiddenChildren := Some(ks))];
            var u := HideAll(mid, ShownFrom(mid, rank, ks));
            d in u && u[d := u[d].(children := None)] == Collapsed(t, rank, d)
  {
    var mid := t[d := t[d].(hiddenChildren := Some(ks))];
    assert Ranked(mid, rank);
    forall k | k in ks
      ensures Shown(mid, rank, k) == Shown(t, rank, k)
      ensures d !in Shown(t, rank, k)
    {
      ShownAgree(mid, t, rank, k);
      ShownBounds(t, rank, k);
    }
    assert ShownFrom(mid, rank, ks) == ShownFrom(t, rank, ks);
    assert Shown(t, rank, d) == {d} + ShownFrom(t, rank, ks);
  }

  // ---------------------------------------------------------------------
  // What collapse, expand and a click do

  /** After `collapse(d)` nothing below `d` is drawn, and `d` shows no list. */
  lemma CollapseHidesSubtree(t: Table, rank: map<Id, nat>, d: Id)
    requires Ranked(t, rank) && d in t
    ensures Ranked(Collapsed(t, rank, d), rank)
    ensures Collapsed(t, rank, d)[d].children == None
    ensures Shown(Collapsed(t, rank, d), rank, d) == {d}
  {
    ShownBounds(t, rank, d);
    RankedHideAll(t, rank, Shown(t, rank, d));
  }

  /** `collapse(d)` moves the visible list of every node drawn below and
      including `d` to its hidden list, and leaves every other node as it was. */
  lemma CollapseStashesLists(t: Table, rank: map<Id, nat>, d: Id)
    requires Ranked(t, rank) && d in t
    ensures forall n :: n in Shown(t, rank, d) ==>
              n in t && Collapsed(t, rank, d)[n].children == None
              && (t[n].children.Some? ==> Collapsed(t, rank, d)[n].hiddenChildren == t[n].children)
    ensures forall n :: n in t && n !in Shown(t, rank, d) ==> Collapsed(t, rank, d)[n] == t[n]
  {
    ShownBounds(t, rank, d);
  }

  /** `collapse` loses no node: every node keeps its child list, visible or hidden. */
  lemma CollapseKeepsLists(t: Table, rank: map<Id, nat>, d: Id)
    requires Ranked(t, rank) && d in t
    ensures forall n :: n in t ==> n in Collapsed(t, rank, d) && Listed(Collapsed(t, rank, d)[n]) == Listed(t[n])
  {
  }

  /** Collapsing a leaf or an already collapsed node changes nothing. */
  lemma CollapseWithoutVisibleIsIdentity(t: Table, rank: map<Id, nat>, d: Id)
    requires Ranked(t, rank) && d in t && t[d].children == None
    ensures Collapsed(t, rank, d) == t
  {
    assert Shown(t, rank, d) == {d};
  }

  /** `collapse` is idempotent. */
  lemma CollapseIdempotent(t: Table, rank: map<Id, nat>, d: Id)
    requires Ranked(t, rank) && d in t
    ensures Ranked(Collapsed(t, rank, d), rank)
    ensures Collapsed(Collapsed(t, rank, d), rank, d) == Collapsed(t, rank, d)
  {
    CollapseHidesSubtree(t, rank, d);
    CollapseWithoutVisibleIsIdentity(Collapsed(t, rank, d), rank, d);
  }

  /** `expand(d)` turns a hidden list into the visible one and touches no other node. */
  lemma ExpandRestoresHidden(t: Table, d: Id)
    requires d in t
    ensures var x := Expanded(t, d);
            && x.Keys == t.Keys
            && (t[d].hiddenChildren.Some? ==> x[d] == Entry(t[d].hiddenChildren, None))
            && (t[d].hiddenChildren == None ==> x == t)
            && (forall n :: n in t && n != d ==> x[n] == t[n])
  {
  }

  /** `expand` is idempotent. */
  lemma ExpandIdempotent(t: Table, d: Id)
    requires d in t
    ensures Expanded(Expanded(t, d), d) == Expanded(t, d)
  {
  }

  /** Collapsing `d` and expanding it again gives `d` back its child list,
      and exactly one level below `d` is drawn. */
  lemma ExpandAfterCollapse(t: Table, rank: map<Id, nat>, d: Id, ks: seq<Id>)
    requires Ranked(t, rank) && d in t && t[d].children == Some(ks)
    ensures Ranked(Collapsed(t, rank, d), rank)
    ensures Ranked(Expanded(Collapsed(t, rank, d), d), rank)
    ensures Expanded(Collapsed(t, rank, d), d)[d] == Entry(Some(ks), None)
    ensures Shown(Expanded(Collapsed(t, rank, d), d), rank, d) == {d} + (set k | k in ks)
  {
    ExpandedChildrenLeaves(t, rank, d, ks);
    var x := Expanded(Collapsed(t, rank, d), d);
    ShownUnfold(x, rank, d);
    assert ShownFrom(x, rank, ks) == set k | k in ks;
  }

  /** After collapse then expand of `d`, each child of `d` is drawn alone. */
  lemma ExpandedChildrenLeaves(t: Table, rank: map<Id, nat>, d: Id, ks: seq<Id>)
    requires Ranked(t, rank) && d in t && t[d].children == Some(ks)
    ensures Ranked(Collapsed(t, rank, d), rank)
    ensures Ranked(Expanded(Collapsed(t, rank, d), d), rank)
    ensures Expanded(Collapsed(t, rank, d), d)[d] == Entry(Some(ks), None)
    ensures forall k :: k in ks ==>
              k in t && Shown(Expanded(Collapsed(t, rank, d), d), rank, k) == {k}
  {
    ExpandKeepsDeeperCollapsed(t, rank, d);
    var x := Expanded(Collapsed(t, rank, d), d);
    assert Ranked(x, rank);
    forall k | k in ks
      ensures k in t && Shown(x, rank, k) == {k}
    {
      assert rank[k] < rank[d];
      ShownBounds(t, rank, k);
      assert k in Shown(t, rank, d);
      assert x[k].children == None;
    }
  }

  /** Expanding a collapsed node leaves every deeper node collapsed. */
  lemma ExpandKeepsDeeperCollapsed(t: Table, rank: map<Id, nat>, d: Id)
    requires Ranked(t, rank) && d in t
    ensures Ranked(Collapsed(t, rank, d), rank)
    ensures forall n :: n in Shown(t, rank, d) && n != d ==>
              n in t && Expanded(Collapsed(t, rank, d), d)[n] == Hide(t[n])
  {
    CollapseHidesSubtree(t, rank, d);
    ShownBounds(t, rank, d);
  }

  /** Two clicks on an expanded node give it back the list it started with. */
  lemma ClickTwiceRestores(t: Table, rank: map<Id, nat>, d: Id)
    requires Ranked(t, rank) && d in t && t[d].children.Some? && t[d].hiddenChildren == None
    ensures Ranked(Clicked(t, rank, d), rank)
    ensures Clicked(Clicked(t, rank, d), rank, d)[d] == t[d]
  {
    CollapseHidesSubtree(t, rank, d);
  }

  /** A click keeps every node's list in exactly one place and loses none. */
  lemma ClickKeepsLists(t: Table, rank: map<Id, nat>, d: Id)
    requires Ranked(t, rank) && d in t && Exclusive(t)
    ensures var c := Clicked(t, rank, d);
            && Ranked(c, rank) && Exclusive(c) && c.Keys == t.Keys
            && forall n :: n in t ==> Listed(c[n]) == Listed(t[n])
  {
    RankedHideAll(t, rank, Shown(t, rank, d));
    assert Ranked(Expanded(t, d), rank);
  }

  /** The initial collapse leaves the root itself expanded. */
  lemma InitiallyKeepsRoot(t: Table, rank: map<Id, nat>, root: Id)
    requires Ranked(t, rank) && root in t
    ensures Ranked(InitiallyCollapsed(t, rank, root), rank)
    ensures root in InitiallyCollapsed(t, rank, root) && InitiallyCollapsed(t, rank, root)[root] == t[root]
  {
    if t[root].children.Some? {
      var ks := t[root].children.value;
      RankedHideAll(t, rank, ShownFrom(t, rank, ks));
      forall k | k in ks
        ensures root !in Shown(t, rank, k)
      {
        ShownBounds(t, rank, k);
      }
    }
  }

  /** After the initial collapse the drawn nodes are exactly the root and its
      direct children. */
  lemma InitiallyShowsTwoLevels(t: Table, rank: map<Id, nat>, root: Id, ks: seq<Id>)
    requires Ranked(t, rank) && root in t && t[root].children == Some(ks)
    ensures Ranked(InitiallyCollapsed(t, rank, root), rank)
    ensures Shown(InitiallyCollapsed(t, rank, root), rank, root) == {root} + (set k | k in ks)
  {
    var s := ShownFrom(t, rank, ks);
    var c := HideAll(t, s);
    InitiallyKeepsRoot(t, rank, root);
    forall k | k in ks
      ensures k in s && c[k].children == None && Shown(c, rank, k) == {k}
    {
      ShownBounds(t, rank, k);
    }
    ShownUnfold(c, rank, root);
    assert ShownFrom(c, rank, ks) == set k | k in ks;
  }

  // ---------------------------------------------------------------------
  // The state the click handler mutates

  class TreeState {
    /** The hierarchy's node objects, by id. */
    var nodes: Table
    /** A rank for every node that strictly falls along child links. */
    ghost const rank: map<Id, nat>

    ghost predicate Valid()
      reads this
    {
      Ranked(nodes, rank)
    }

    constructor (t: Table, ghost r: map<Id, nat>)
      requires Ranked(t, r)
      ensures Valid() && nodes == t && rank == r
    {
      nodes := t;
      rank := r;
    }

    /** `collapse(d)`: stash `d`'s visible list, collapse each child in turn,
        then clear the visible list. */
    method Collapse(d: Id)
      requires Valid() && d in nodes
      modifies this`nodes
      ensures Valid()
      ensures nodes == Collapsed(old(nodes), rank, d)
      decreases rank[d], 1
    {
      ghost var t0 := nodes;
      var e := nodes[d];
      if e.children.Some? {
        var ks := e.children.value;
        CollapseUnfold(t0, rank, d, ks);
        nodes := nodes[d := e.(hiddenChildren := e.children)];
        CollapseAll(ks, rank[d]);
        nodes := nodes[d := nodes[d].(children := None)];
        RankedHideAll(t0, rank, Shown(t0, rank, d));
      } else {
        assert Shown(t0, rank, d) == {d};
      }
    }

    /** `ks.forEach(collapse)`, for children of a node of rank `bound`. */
    method CollapseAll(ks: seq<Id>, ghost bound: nat)
      requires Valid() && forall k :: k in ks ==> k in nodes && rank[k] < bound
      modifies this`nodes
      ensures Valid()
      ensures nodes == HideAll(old(nodes), ShownFrom(old(nodes), rank, ks))
      decreases bound, 0
    {
      ghost var t0 := nodes;
      var i := 0;
      while i < |ks|
        invariant 0 <= i <= |ks|
        invariant Valid()
        invariant nodes == HideAll(t0, ShownFrom(t0, rank, ks[..i]))
      {
        ShownFromClosed(t0, rank, ks[..i]);
        CollapseAfterHide(t0, rank, ShownFrom(t0, rank, ks[..i]), ks[i]);
        Collapse(ks[i]);
        ShownFromStep(t0, rank, ks, i);
        i := i + 1;
      }
      assert ks[..|ks|] == ks;
    }

    /** `expand(d)`: a hidden list becomes visible again, one level only. */
    method Expand(d: Id)
      requires Valid() && d in nodes
      modifies this`nodes
      ensures Valid()
      ensures nodes == Expanded(old(nodes), d)
    {
      if nodes[d].hiddenChildren.Some? {
        nodes := nodes[d := Entry(nodes[d].hiddenChildren, None)];
      }
    }

    /** The click handler's state change (the redraw that follows is left out). */
    method Click(d: Id)
      requires Valid() && d in nodes
      modifies this`nodes
      ensures Valid()
      ensures nodes == Clicked(old(nodes), rank, d)
    {
      if nodes[d].children.Some? {
        Collapse(d);
      } else {
        Expand(d);
      }
    }

    /** Before the first draw every child of the root is collapsed. */
    method CollapseRootChildren(root: Id)
      requires Valid() && root in nodes
      modifies this`nodes
      ensures Valid()
      ensures nodes == InitiallyCollapsed(old(nodes), rank, root)
    {
      if nodes[root].children.Some? {
        CollapseAll(nodes[root].children.value, rank[root]);
      }
    }
  }
}
