/**
 * The small pure choices the hierarchy diagram makes for each node and link
 * (CloudHierarchyD3.jsx): the severity colour of an alert count, the circle
 * fill, the cursor, the two badges and the ids that tie a link's stroke to
 * its gradient.
 */
module Styling {
  import opened Hierarchy
  import opened TreeView

  // ---------------------------------------------------------------------
  // Severity colour

  const HighColor := "#D32F2F"
  const MediumColor := "#F57C00"
  const LowColor := "#FBC02D"
  const NoneColor := "#9E9E9E"

  /** getSeverityColor: four bands of alert counts, tested from the top. */
  function SeverityColor(alerts: int): (c: string)
    ensures c == HighColor <==> alerts >= 100
    ensures c == MediumColor <==> 50 <= alerts < 100
    ensures c == LowColor <==> 0 < alerts < 50
    ensures c == NoneColor <==> alerts <= 0
  {
    if alerts >= 100 then HighColor
    else if alerts >= 50 then MediumColor
    else if alerts > 0 then LowColor
    else NoneColor
  }

  /** The order of the bands, lowest first. */
  function Level(color: string): nat {
    if color == HighColor then 3
    else if color == MediumColor then 2
    else if color == LowColor then 1
    else 0
  }

  /** More alerts never give a lower band. */
  lemma SeverityMonotone(a: int, b: int)
    requires a <= b
    ensures Level(SeverityColor(a)) <= Level(SeverityColor(b))
  {
  }

  // ---------------------------------------------------------------------
  // Circle fill and the radial gradients it refers to

  /** The node types the diagram defines a radial gradient for (the keys of `nodeColors`). */
  const NodeTypes: seq<string> := ["cloud", "aws", "gcp", "saas", "service"]

  /** The id of the radial gradient defined for a node type. */
  function RadialId(kind: string): (r: string)
    ensures |r| == 7 + |kind| && r[..7] == "radial-" && r[7..] == kind
  {
    "radial-" + kind
  }

  /** The radial gradient ids placed in the SVG defs. */
  function DefinedRadialIds(): set<string> {
    set i | 0 <= i < |NodeTypes| :: RadialId(NodeTypes[i])
  }

  /** A circle's fill: the severity colour when the toggle is on, the
      radial gradient of the node's type otherwise. */
  function Fill(useSeverityColors: bool, alerts: int, kind: string): (f: string)
    ensures useSeverityColors ==> f == SeverityColor(alerts)
  {
    if useSeverityColors then SeverityColor(alerts) else "url(#radial-" + kind + ")"
  }

  lemma PrefixCancel(p: string, a: string, b: string)
    requires p + a == p + b
    ensures a == b
  {
    assert a == (p + a)[|p|..];
    assert b == (p + b)[|p|..];
  }

  /** Only a known type has its radial gradient defined. */
  lemma DefinedRadialIsKnown(kind: string)
    requires RadialId(kind) in DefinedRadialIds()
    ensures kind in NodeTypes
  {
    var i :| 0 <= i < |NodeTypes| && RadialId(NodeTypes[i]) == RadialId(kind);
    assert NodeTypes[i] == RadialId(NodeTypes[i])[7..];
    assert kind == RadialId(kind)[7..];
  }

  /** Every known type has its radial gradient defined. */
  lemma KnownRadialIsDefined(kind: string)
    requires kind in NodeTypes
    ensures RadialId(kind) in DefinedRadialIds()
  {
    var i :| 0 <= i < |NodeTypes| && NodeTypes[i] == kind;
    assert RadialId(NodeTypes[i]) in DefinedRadialIds();
  }

  /** Without severity colours the fill is a url reference to the radial id. */
  lemma FillNamesRadial(alerts: int, kind: string)
    ensures Fill(false, alerts, kind) == "url(#" + RadialId(kind) + ")"
  {
    var u, rd := "url(#", "radial-";
    assert u + rd == "url(#radial-";
    assert (u + rd) + kind == u + (rd + kind);
    assert ((u + rd) + kind) + ")" == (u + (rd + kind)) + ")";
  }

  /** Without severity colours a fill names the radial gradient of the node's
      type, and that gradient exists iff the type is one of the known types. */
  lemma FillRefersToRadial(alerts: int, kind: string)
    ensures Fill(false, alerts, kind) == "url(#" + RadialId(kind) + ")"
    ensures RadialId(kind) in DefinedRadialIds() <==> kind in NodeTypes
  {
    FillNamesRadial(alerts, kind);
    if RadialId(kind) in DefinedRadialIds() {
      DefinedRadialIsKnown(kind);
    }
    if kind in NodeTypes {
      KnownRadialIsDefined(kind);
    }
  }

  // ---------------------------------------------------------------------
  // Cursor

  /** "pointer" on a node with a child list, visible or hidden. */
  function Cursor(e: Entry): (c: string)
    ensures c == "pointer" <==> e.children.Some? || e.hiddenChildren.Some?
    ensures c == "pointer" || c == "default"
  {
    if e.children.Some? || e.hiddenChildren.Some? then "pointer" else "default"
  }

  /** The cursor is fixed when a node is first drawn; a click never changes
      which cursor a node should have. */
  lemma CursorStableUnderClick(t: Table, rank: map<Id, nat>, d: Id)
    requires Ranked(t, rank) && d in t
    ensures forall n :: n in t ==> n in Clicked(t, rank, d) && Cursor(Clicked(t, rank, d)[n]) == Cursor(t[n])
  {
  }

  /** A node d3 draws as a leaf shows the default cursor. */
  lemma LeafCursor(tree: map<Id, Node>, n: Id)
    requires n in tree
    ensures Cursor(ViewOf(tree)[n]) == (if tree[n].children == [] then "default" else "pointer")
  {
  }

  // ---------------------------------------------------------------------
  // Badges

  /** The foreignObject holding a badge, relative to the node's centre. */
  datatype Badge = Badge(x: int, y: int, width: int, height: int, icon: string, iconClass: string, labelKey: string)

  const BadgeWidth := 50

  /** renderBadgeWithForeignObject's geometry and content for a badge kind;
      every kind other than "alert" is drawn as the misconfiguration badge. */
  function BadgeFor(kind: string): (b: Badge)
    ensures b.width == BadgeWidth && b.height == 40 && b.y == -46
    ensures kind == "alert" ==> b.labelKey == "alerts" && b.x + b.width < 0
    ensures kind != "alert" ==> b.labelKey == "misconfigs" && b.x > 0
  {
    var isAlert := kind == "alert";
    Badge(if isAlert then -BadgeWidth - 5 else 5, -46, BadgeWidth, 40,
          if isAlert then "\U{f071}" else "\U{f1de}",
          if isAlert then "badge-icon-alert" else "badge-icon-misconfig",
          if isAlert then "alerts" else "misconfigs")
  }

  /** The number a badge shows for a node (`d.data[labelKey]`). */
  function BadgeCount(b: Badge, n: Node): (r: int)
    ensures b.labelKey == "alerts" ==> r == n.alerts
    ensures b.labelKey == "misconfigs" ==> r == n.misconfigs
  {
    if b.labelKey == "alerts" then n.alerts else n.misconfigs
  }

  /** The alert badge sits left of the node and the misconfiguration badge
      right of it, mirror images with a 10-unit gap, each showing its own count. */
  lemma BadgesMirror(n: Node)
    ensures var a, m := BadgeFor("alert"), BadgeFor("misconfig");
            && a.x + a.width == -m.x && a.x == -(m.x + m.width)
            && a.x + a.width < m.x && m.x - (a.x + a.width) == 10
            && BadgeCount(a, n) == n.alerts && BadgeCount(m, n) == n.misconfigs
  {
  }

  // ---------------------------------------------------------------------
  // Link gradients

  /** The id given to the gradient made for the link source -> target. */
  function GradientId(source: Id, target: Id): (r: string)
    ensures |r| == 10 + |source| + |target|
    ensures r[..9] == "gradient-" && r[9..9 + |source|] == source
            && r[9 + |source|] == '-' && r[10 + |source|..] == target
  {
    "gradient-" + source + "-" + target
  }

  /** The stroke a link path is drawn with, written out as the source does. */
  function LinkStroke(source: Id, target: Id): (r: string)
    ensures |r| == 16 + |source| + |target|
    ensures r[..14] == "url(#gradient-" && r[14..14 + |source|] == source
            && r[14 + |source|] == '-' && r[15 + |source|..|r| - 1] == target && r[|r| - 1] == ')'
  {
    "url(#gradient-" + source + "-" + target + ")"
  }

  /** A link's stroke names exactly the gradient made for that link. */
  lemma LinkStrokeMatchesGradient(source: Id, target: Id)
    ensures LinkStroke(source, target) == "url(#" + GradientId(source, target) + ")"
  {
    assert "url(#gradient-" == "url(#" + "gradient-";
  }

  /** The gradients made for a list of links, in order. */
  function GradientIds(links: seq<(Id, Id)>): (r: seq<string>)
    ensures |r| == |links|
    ensures forall i :: 0 <= i < |links| ==> r[i] == GradientId(links[i].0, links[i].1)
  {
    if |links| == 0 then [] else GradientIds(links[..|links| - 1]) + [GradientId(links[|links| - 1].0, links[|links| - 1].1)]
  }

  predicate NoHyphen(s: string) {
    '-' !in s
  }

  lemma FirstHyphen(a: string, b: string, c: string, d: string)
    requires NoHyphen(a) && NoHyphen(c) && a + "-" + b == c + "-" + d
    ensures a == c && b == d
  {
    var x := a + "-" + b;
    var y := c + "-" + d;
    assert x[|a|] == '-' && y[|c|] == '-';
    assert forall i :: 0 <= i < |a| ==> x[i] == a[i] && x[i] != '-';
    assert forall i :: 0 <= i < |c| ==> y[i] == c[i] && y[i] != '-';
    assert |a| == |c|;
    assert a == x[..|a|];
    assert c == x[..|c|];
    assert b == x[|a| + 1..];
    assert d == x[|c| + 1..];
  }

  /** For ids without hyphens, different links get different gradient ids. */
  lemma GradientIdInjective(s1: Id, t1: Id, s2: Id, t2: Id)
    requires NoHyphen(s1) && NoHyphen(s2)
    requires GradientId(s1, t1) == GradientId(s2, t2)
    ensures s1 == s2 && t1 == t2
  {
    assert GradientId(s1, t1) == "gradient-" + (s1 + "-" + t1);
    assert GradientId(s2, t2) == "gradient-" + (s2 + "-" + t2);
    PrefixCancel("gradient-", s1 + "-" + t1, s2 + "-" + t2);
    FirstHyphen(s1, t1, s2, t2);
  }

  /** Ids with hyphens can collide: two different links then share one id. */
  lemma GradientIdCollision()
    ensures GradientId("a-b", "c") == GradientId("a", "b-c")
  {
  }

  lemma UrlCancel(a: string, b: string)
    requires "url(#" + a + ")" == "url(#" + b + ")"
    ensures a == b
  {
    var x, y := "url(#" + a + ")", "url(#" + b + ")";
    assert a == x[5..|x| - 1];
    assert b == y[5..|y| - 1];
  }

  /** Among the gradients made for distinct links with hyphen-free source ids,
      the one a link's stroke names is that link's own gradient and no other. */
  lemma StrokeFindsOwnGradient(links: seq<(Id, Id)>, i: nat, j: nat)
    requires i < |links| && j < |links|
    requires forall k :: 0 <= k < |links| ==> NoHyphen(links[k].0)
    requires forall a, b :: 0 <= a < b < |links| ==> links[a] != links[b]
    ensures LinkStroke(links[i].0, links[i].1) == "url(#" + GradientIds(links)[j] + ")" <==> i == j
  {
    var (s, t) := links[i];
    LinkStrokeMatchesGradient(s, t);
    var ids := GradientIds(links);
    if LinkStroke(s, t) == "url(#" + ids[j] + ")" {
      UrlCancel(GradientId(s, t), ids[j]);
      GradientIdInjective(s, t, links[j].0, links[j].1);
      assert links[i] == links[j];
    }
  }
}
