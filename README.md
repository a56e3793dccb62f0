# Cloud hierarchy widget: tree state and zoom controller

This project models the logic behind a dashboard widget. The widget draws a
cloud-resource hierarchy as a collapsible tree: cloud, then accounts, then
services, each node carrying alert and misconfiguration counts. It also has
a pan/zoom helper with "+" and "-" buttons. Rendering is left to D3 and
React. The model covers five parts:

- `Hierarchy` (`hierarchy.dfy`): `buildHierarchy`. It turns the flat node
  and edge lists into an id table whose child lists follow the edges, and
  returns the node with id `"cloud"`. It is written as a method with the
  source's two loops. Two specification functions describe it: `Indexed`
  (the node pass) and `TargetsOf` (the edge pass).
- `TreeView` (`tree_view.dfy`): the expand/collapse state machine. The
  d3.hierarchy node objects become a table from node id to an `Entry`.
  An `Entry` holds the visible list (`children`) and the hidden list
  (`_children`, here `hiddenChildren`). `TreeState` holds that table and
  updates it in place:
  - `Collapse` recurses through the subtree, like the source.
  - `Expand` restores one level.
  - `Click` toggles between the two.
  - `CollapseRootChildren` is the initial collapse.

  Each method is proved against a specification function. `Shown` is the
  set of nodes reachable through visible lists, i.e. what d3 draws.
  `Collapsed` hides every node of `Shown` with `HideAll`, and
  `InitiallyCollapsed` hides the nodes shown below each of the root's
  children (`ShownFrom`). `Expanded` is a one-entry update that reveals a
  hidden list. `Clicked` picks `Collapsed` or `Expanded`. Lemmas state what
  the source promises about these functions.
- `Styling` (`styling.dfy`): the severity colour bands, the circle fill, the
  cursor, the badge geometry and the link gradient ids.
- `Sample` (`sample.dfy`): the dashboard card's sample nodes and edges
  taken through both halves. The table `BuildHierarchy` builds, the
  d3.hierarchy entries made from it (`ViewOf`), the rank that makes them
  acyclic, and the nodes drawn after the initial collapse are all stated
  outright.
- `Zoom` (`zoom.dfy`): the `zoomRef.current` record as the class
  `ZoomController`, with `setupZoom`, the zoom-event handler,
  `setCurrentTransform`, `zoomIn` and `zoomOut`.

Notes on how the model reads the code:

- Acyclicity: the table is acyclic through a ghost `rank` map. Every child
  link, visible or hidden, leads to a node of smaller rank. This is what
  makes the recursive `collapse` terminate.
- Source order in `collapse`: the source stashes `_children` before it
  recurses and clears `children` after. The model keeps that order.
- The zoom buttons do not read `zoomRef.current.currentTransform`. They read
  the transform d3 stores on the svg element, `d3.zoomTransform(svgRef.current)`
  (useD3Zoom.js:62 and :78). So `ZoomIn` and `ZoomOut` take that transform as
  a parameter.
- The zoom handler (useD3Zoom.js:29-35) records any transform it receives.
  "+" caps its target scale at 5 and "-" floors it at 0.5; from any scale in
  [0.5, 5] both stay in that range (`ButtonsStayInRange`). Gesture zooms
  are clamped to the same range by d3, through `scaleExtent([0.5, 5])` on
  useD3Zoom.js:26, which is part of the d3 zoom behaviour left out below.

## Model

| member | source | states |
|---|---|---|
| Hierarchy.BuildHierarchy | src/partials/dashboard/CloudHierarchyD3.jsx:33-42 | the table has exactly the input ids; each entry is the indexed node with `children` replaced by the targets of its edges (both ends known, edge order), i.e. the table is `Linked(Indexed(nodes), edges)`; the root is the "cloud" entry if present, None otherwise |
| Hierarchy.Indexed | src/partials/dashboard/CloudHierarchyD3.jsx:35 | the node pass keys every input id, and every entry carries its own id and a fresh empty child list |
| Hierarchy.IndexedLastWins | src/partials/dashboard/CloudHierarchyD3.jsx:35 | for duplicate ids the last node wins; apart from `children`, its fields are copied unchanged |
| Hierarchy.IndexedFromInput | src/partials/dashboard/CloudHierarchyD3.jsx:35 | every entry is a copy of some input node with that id, children emptied |
| Hierarchy.TargetsOf | src/partials/dashboard/CloudHierarchyD3.jsx:36-40 | every child pushed is a known id; a node gets at most one child per edge |
| Hierarchy.TargetsOfAppend | src/partials/dashboard/CloudHierarchyD3.jsx:36-40 | the edge pass runs front to back: an edge list split in two gives the first part's children followed by the rest's |
| Hierarchy.TargetsOfMembers | src/partials/dashboard/CloudHierarchyD3.jsx:36-39 | c is a child of n iff some edge runs n to c and both ids are in the table |
| Hierarchy.UnknownEdgeIgnored | src/partials/dashboard/CloudHierarchyD3.jsx:37-39 | an edge with an unknown source or target changes no child list |
| TreeView.ViewOf | src/partials/dashboard/CloudHierarchyD3.jsx:135 | the starting entries keep every id; each node's visible list is its built child list, or none when that list is empty; no node has a hidden list |
| TreeView.TreeState.Collapse | src/partials/dashboard/CloudHierarchyD3.jsx:154-160 | the new table is `Collapsed(old table, d)`: every node drawn below and including d has its visible list moved to hidden; all other nodes are unchanged; the table stays acyclic |
| TreeView.TreeState.CollapseAll | src/partials/dashboard/CloudHierarchyD3.jsx:157 | collapsing each child in turn hides exactly the union of their drawn subtrees |
| TreeView.TreeState.Expand | src/partials/dashboard/CloudHierarchyD3.jsx:162-167 | the new table is the old one with d's hidden list made visible and every other node unchanged |
| TreeView.TreeState.Click | src/partials/dashboard/CloudHierarchyD3.jsx:248-251 | a node with a visible list is collapsed, any other node is expanded |
| TreeView.TreeState.CollapseRootChildren | src/partials/dashboard/CloudHierarchyD3.jsx:145 | the new table is the old one with every drawn subtree under the root's children collapsed |
| TreeView.CollapseHidesSubtree | src/partials/dashboard/CloudHierarchyD3.jsx:154-160 | after collapse(d) the table is still acyclic, d has no visible list, and only d is drawn from d |
| TreeView.CollapseStashesLists | src/partials/dashboard/CloudHierarchyD3.jsx:154-160 | every node that was drawn below and including d has no visible list after collapse(d) and keeps its old list as its hidden list; every other node is untouched |
| TreeView.CollapseKeepsLists | src/partials/dashboard/CloudHierarchyD3.jsx:154-160 | no node is lost: every node keeps its child list, visible or hidden |
| TreeView.CollapseWithoutVisibleIsIdentity | src/partials/dashboard/CloudHierarchyD3.jsx:155 | collapsing a leaf or an already collapsed node changes nothing |
| TreeView.CollapseIdempotent | src/partials/dashboard/CloudHierarchyD3.jsx:154-160 | collapse applied twice equals collapse applied once |
| TreeView.ExpandRestoresHidden | src/partials/dashboard/CloudHierarchyD3.jsx:162-167 | expand(d) makes d's hidden list visible and clears the hidden one; with no hidden list nothing changes; other nodes are untouched |
| TreeView.ExpandIdempotent | src/partials/dashboard/CloudHierarchyD3.jsx:162-167 | expand applied twice equals expand applied once |
| TreeView.ExpandAfterCollapse | src/partials/dashboard/CloudHierarchyD3.jsx:154-167 | expand(collapse(d)) gives d back its original list with no hidden list; the drawn nodes from d are then exactly d and its direct children |
| TreeView.ExpandKeepsDeeperCollapsed | src/partials/dashboard/CloudHierarchyD3.jsx:154-167 | after expand(collapse(d)) every node that was drawn strictly below d stays collapsed |
| TreeView.ClickTwiceRestores | src/partials/dashboard/CloudHierarchyD3.jsx:248-251 | two clicks on an expanded node restore its entry |
| TreeView.ClickKeepsLists | src/partials/dashboard/CloudHierarchyD3.jsx:248-251 | a click keeps the table acyclic; it also keeps no node with both a visible and a hidden list; and every node keeps its child list |
| TreeView.InitiallyKeepsRoot | src/partials/dashboard/CloudHierarchyD3.jsx:144-145 | the initial collapse keeps the table acyclic and leaves the root's own entry unchanged |
| TreeView.InitiallyShowsTwoLevels | src/partials/dashboard/CloudHierarchyD3.jsx:144-145 | when the root has children, the drawn nodes after the initial collapse are exactly the root and its direct children |
| Styling.SeverityColor | src/partials/dashboard/CloudHierarchyD3.jsx:25-30 | four bands: high iff alerts >= 100, medium iff 50 <= alerts < 100, low iff 0 < alerts < 50, none iff alerts <= 0 |
| Styling.SeverityMonotone | src/partials/dashboard/CloudHierarchyD3.jsx:25-30 | a larger alert count never gets a lower band |
| Styling.Fill | src/partials/dashboard/CloudHierarchyD3.jsx:284-288 | with the severity toggle on, the fill is the severity colour of the node's alerts |
| Styling.RadialId | src/partials/dashboard/CloudHierarchyD3.jsx:86 | a type's radial gradient id is `radial-` followed by the type itself, so different types get different ids |
| Styling.FillRefersToRadial | src/partials/dashboard/CloudHierarchyD3.jsx:82-89 | with the toggle off, the fill is `url(#radial-<type>)`; that gradient is defined iff the type is one of cloud, aws, gcp, saas, service |
| Styling.FillNamesRadial | src/partials/dashboard/CloudHierarchyD3.jsx:284-288 | with the toggle off, the fill is `url(#` around the type's radial gradient id |
| Styling.DefinedRadialIsKnown | src/partials/dashboard/CloudHierarchyD3.jsx:82-86 | a radial gradient id among the defs belongs to one of the nodeColors types |
| Styling.KnownRadialIsDefined | src/partials/dashboard/CloudHierarchyD3.jsx:82-86 | every nodeColors type has its radial gradient among the defs |
| Styling.Cursor | src/partials/dashboard/CloudHierarchyD3.jsx:245-247 | "pointer" iff the node has a visible or a hidden list, "default" otherwise |
| Styling.CursorStableUnderClick | src/partials/dashboard/CloudHierarchyD3.jsx:245-251 | a click never changes any node's cursor |
| Styling.LeafCursor | src/partials/dashboard/CloudHierarchyD3.jsx:245-247 | a node with no children starts with the default cursor, any other with the pointer |
| Styling.BadgeFor | src/partials/dashboard/CloudHierarchyD3.jsx:170-182 | badges are 50 by 40 at y = -46; the "alert" badge lies left of the node and shows `alerts`; every other kind lies right and shows `misconfigs` |
| Styling.BadgeCount | src/partials/dashboard/CloudHierarchyD3.jsx:191 | a badge shows the node field its key names: `alerts` for the "alerts" key, `misconfigs` for the "misconfigs" key |
| Styling.BadgesMirror | src/partials/dashboard/CloudHierarchyD3.jsx:170-191 | the two badges mirror each other about the node's centre with a 10-unit gap; each shows its own count |
| Styling.GradientId | src/partials/dashboard/CloudHierarchyD3.jsx:217 | a link's gradient id is `gradient-`, then the source id, a hyphen, and the target id |
| Styling.GradientIds | src/partials/dashboard/CloudHierarchyD3.jsx:216-220 | one gradient per link, in link order, with id `gradient-<source>-<target>` |
| Styling.LinkStroke | src/partials/dashboard/CloudHierarchyD3.jsx:390 | a link's stroke is `url(#gradient-`, then the source id, a hyphen, the target id and `)` |
| Styling.LinkStrokeMatchesGradient | src/partials/dashboard/CloudHierarchyD3.jsx:388-391 | the stroke template of a link names exactly the gradient id made for that link |
| Styling.GradientIdInjective | src/partials/dashboard/CloudHierarchyD3.jsx:217 | when source ids contain no hyphen, different links get different gradient ids |
| Styling.GradientIdCollision | src/partials/dashboard/CloudHierarchyD3.jsx:217 | with hyphens in ids two different links can share a gradient id |
| Styling.StrokeFindsOwnGradient | src/partials/dashboard/CloudHierarchyD3.jsx:216-220 | among distinct links with hyphen-free source ids, a link's stroke names its own gradient and no other |
| Hierarchy.IndexNodes | src/partials/dashboard/CloudHierarchyD3.jsx:35 | the node loop's table is exactly the node pass `Indexed(nodes)` |
| Hierarchy.LinkEdges | src/partials/dashboard/CloudHierarchyD3.jsx:36-40 | starting from a table of empty child lists, the edge loop's table is exactly `Linked(base, edges)`: every entry of the base with its edge targets as children |
| Hierarchy.LinkedNoEdges | src/partials/dashboard/CloudHierarchyD3.jsx:35-36 | before the first edge the edge pass leaves a table of empty child lists as it is |
| Hierarchy.LinkedStep | src/partials/dashboard/CloudHierarchyD3.jsx:37-39 | one more edge appends its target to its source's list when both ends are in the table, and otherwise leaves the table unchanged |
| Hierarchy.LinkEdge | src/partials/dashboard/CloudHierarchyD3.jsx:36-39 | the edge callback gives `Pushed(table, e)`: the table with e's target added to the end of e's source's children when both ends are present, the table unchanged otherwise |
| Hierarchy.IndexedDistinct | src/partials/dashboard/CloudHierarchyD3.jsx:35 | when no two nodes share an id, every node is in the table with its fields unchanged and an empty child list |
| Sample.SampleIndexed | src/partials/dashboard/CloudHierarchyD3.jsx:35 | on the card's seven nodes the node pass keys each node under its own id with an empty child list |
| Sample.SampleTargets | src/partials/dashboard/DashboardCard01.jsx:140-147 | on the card's edges the edge pass gives cloud the four accounts in edge order, aws1 gets s3, aws2 gets rds, and every other id gets nothing |
| Sample.SampleRootChildren | src/partials/dashboard/DashboardCard01.jsx:140-147 | on the card's sample edges the root's children are aws1, aws2, gcp, saas, in that order |
| Sample.SampleEntriesBuilt | src/partials/dashboard/CloudHierarchyD3.jsx:33-41 | every entry of the expected sample table is the indexed card node with its edge targets as children |
| Sample.SampleBuilt | src/partials/dashboard/DashboardCard01.jsx:109-148 | buildHierarchy's table on the card's data is the expected seven-node table |
| Sample.SampleView | src/partials/dashboard/CloudHierarchyD3.jsx:135 | d3.hierarchy's starting entries on the sample: cloud, aws1 and aws2 show their lists, the four leaves have none, nothing is hidden |
| Sample.SampleRanked | src/partials/dashboard/CloudHierarchyD3.jsx:135 | the sample's entries are acyclic, with each node ranked by its height |
| Sample.SampleInitiallyShown | src/partials/dashboard/CloudHierarchyD3.jsx:144-145 | after the initial collapse the sample draws exactly cloud, aws1, aws2, gcp and saas |
| Zoom.ZoomInScale | src/utils/useD3Zoom.js:63 | the new scale is min(k * 1.2, 5): never above 5 and never above k * 1.2, equal to one of them |
| Zoom.ZoomOutScale | src/utils/useD3Zoom.js:79 | the new scale is max(k * 0.8, 0.5): never below 0.5 and never below k * 0.8, equal to one of them |
| Zoom.ButtonsStayInRange | src/utils/useD3Zoom.js:58-85 | for any positive k <= 5, "+" gives a scale in [k, 5]; for any k >= 0.5, "-" gives a scale in [0.5, k] |
| Zoom.ButtonsMove | src/utils/useD3Zoom.js:58-85 | for k > 0, "+" strictly enlarges below 5 and "-" strictly shrinks above 0.5 |
| Zoom.Rescaled | src/utils/useD3Zoom.js:64-66 | identity translated by (x, y) and then scaled by s has scale s and the translation (x, y) unchanged |
| Zoom.ZoomController.constructor | src/utils/useD3Zoom.js:10-15 | the record starts with no zoom, svg or content and the identity transform |
| Zoom.ZoomController.SetupZoom | src/utils/useD3Zoom.js:20-46 | with either element missing nothing changes; otherwise it installs the behaviour and both selections and resets the transform to the identity |
| Zoom.ZoomController.OnZoom | src/utils/useD3Zoom.js:29-35 | the handler records the event's transform, whatever its source |
| Zoom.ZoomController.SetCurrentTransform | src/utils/useD3Zoom.js:51-53 | the transform becomes t, and no other field changes |
| Zoom.ZoomController.ZoomIn | src/utils/useD3Zoom.js:58-69 | None iff svg or zoom is unset; otherwise the target keeps the current translation and has scale ZoomInScale(k); since set-up fills all three handles at once, a target is returned exactly when the content selection is set too |
| Zoom.ZoomController.ZoomOut | src/utils/useD3Zoom.js:74-85 | None iff svg or zoom is unset; otherwise the target keeps the current translation and has scale ZoomOutScale(k); since set-up fills all three handles at once, a target is returned exactly when the content selection is set too |

## Left out

- D3 rendering: SVG and DOM construction, the drop-shadow filter, gradient
  colours, tooltips, badge HTML, icons, transitions and easing. These are
  presentation and foreign library calls. The click handler's `update(d)`
  redraw is part of this.
- The `d3.tree()` layout, vertical centering and the `diagonal` path. These
  are float coordinate arithmetic inside a library.
- d3.hierarchy itself. `ViewOf` models only how it treats child arrays.
  Given a shared child (a graph that is not a tree), d3.hierarchy makes a
  separate copy per parent. The id-keyed table cannot hold those copies.
- Cyclic edge lists. On a cycle reachable from "cloud", d3.hierarchy loops
  forever. But d3.hierarchy is handed only the root object, so it never
  wraps a node that no path from "cloud" reaches. `ViewOf` keeps every id of
  the table, and `TreeState` requires the ghost rank over all of them. So
  the model also rules out cycles among unreachable nodes, which the widget
  draws without trouble (it shows only the reachable part).
- React plumbing: hooks, the size guard of the render effect, the severity
  checkbox state and the menubar JSX. The root lookup that the render effect
  tests first is in `BuildHierarchy`.
- Alert counts are integers. A missing or non-numeric count, where every
  comparison in `getSeverityColor` is false (grey), is not modelled.
- Zoom scales are exact reals. Floating-point rounding of `k * 1.2` and
  `k * 0.8` is not modelled.
- The d3 zoom behaviour: `scaleExtent`, gestures, the wheel and double-click
  unbinding, and the animated `zoom.transform` call. `ZoomIn` and `ZoomOut`
  return the transform they would hand to it. The zoom events that the
  animation fires reach the model through `OnZoom`.
- Hiding the tooltip and moving the content group in the zoom handler.
  These are DOM effects.
- Styling.GradientIdInjective: proved only for hyphen-free source ids,
  because ids with hyphens really do collide (`GradientIdCollision`).
- The line chart, card chrome and JSX of DashboardCard01.jsx. Only its
  sample data is used, as `SampleNodes` and `SampleEdges`. The card's leaf
  nodes carry no `children` field; the model gives them an empty list, which
  buildHierarchy overwrites either way.
