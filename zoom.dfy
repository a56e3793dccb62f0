/**
 * The pan / zoom helper of useD3Zoom.js: the record `zoomRef.current`, the
 * set-up that fills it, the zoom-event handler and `setCurrentTransform` that
 * update its transform, and the zoom buttons' clamped rescaling.
 *
 * The DOM elements, d3 selections and the d3 zoom behaviour are opaque
 * handles. JavaScript numbers are modelled as reals: the buttons only
 * multiply by a constant and clamp.
 */
module Zoom {
  import opened Optional

  /** A d3 zoom transform: scale k and translation (x, y). */
  datatype Transform = Transform(k: real, x: real, y: real)

  /** d3.zoomIdentity. */
  const Identity := Transform(1.0, 0.0, 0.0)

  /** A DOM element (what `svgRef.current` / `contentRef.current` hold). */
  datatype Element = Element(handle: nat)

  /** `d3.select(element)`. */
  datatype Selection = Selection(element: Element)

  /** A d3 zoom behaviour made by `d3.zoom()`. */
  datatype Behavior = Behavior(handle: nat)

  /** What the behaviour hands the handler: the new transform, and whether a
      user gesture (`sourceEvent`) caused it. */
  datatype ZoomEvent = ZoomEvent(transform: Transform, fromGesture: bool)

  const MaxScale: real := 5.0
  const MinScale: real := 0.5

  /** The scale after the "+" button: k * 1.2, capped at 5. */
  function ZoomInScale(k: real): (r: real)
    ensures r <= MaxScale
    ensures r <= k * 1.2 && (r == k * 1.2 || r == MaxScale)
  {
    if k * 1.2 < MaxScale then k * 1.2 else MaxScale
  }

  /** The scale after the "-" button: k * 0.8, floored at 0.5. */
  function ZoomOutScale(k: real): (r: real)
    ensures r >= MinScale
    ensures r >= k * 0.8 && (r == k * 0.8 || r == MinScale)
  {
    if k * 0.8 > MinScale then k * 0.8 else MinScale
  }

  /** "+" never shrinks a positive scale up to 5; "-" never grows a scale of
      at least 0.5. */
  lemma ButtonsStayInRange(k: real)
    ensures 0.0 < k <= MaxScale ==> k <= ZoomInScale(k) <= MaxScale
    ensures MinScale <= k ==> MinScale <= ZoomOutScale(k) <= k
  {
  }

  /** Below the cap "+" strictly enlarges, above the floor "-" strictly shrinks. */
  lemma ButtonsMove(k: real)
    requires 0.0 < k
    ensures k < MaxScale ==> k < ZoomInScale(k)
    ensures k > MinScale ==> ZoomOutScale(k) < k
  {
  }

  /** d3's `transform.translate(x, y)`: the offset is taken in the
      transform's own scaled units. */
  function Translate(t: Transform, x: real, y: real): Transform {
    Transform(t.k, t.x + t.k * x, t.y + t.k * y)
  }

  /** d3's `transform.scale(s)`: multiplies the scale, keeps the translation. */
  function Scale(t: Transform, s: real): Transform {
    Transform(t.k * s, t.x, t.y)
  }

  /** `zoomIdentity.translate(current.x, current.y).scale(s)`, as the buttons
      build it: the translation of `current` with the scale replaced by `s`. */
  function Rescaled(current: Transform, s: real): (t: Transform)
    ensures t.k == s && t.x == current.x && t.y == current.y
  {
    Scale(Translate(Identity, current.x, current.y), s)
  }

  /** The contents of `zoomRef.current`. */
  class ZoomController {
    var zoom: Option<Behavior>
    var svg: Option<Selection>
    var content: Option<Selection>
    var currentTransform: Transform

    /** The record is filled all at once: either nothing is set or all three
        handles are. */
    ghost predicate Valid()
      reads this
    {
      zoom.Some? == svg.Some? && svg.Some? == content.Some?
    }

    /** `useRef({ zoom: null, svg: null, content: null, currentTransform: zoomIdentity })`. */
    constructor ()
      ensures Valid()
      ensures zoom == None && svg == None && content == None && currentTransform == Identity
    {
      zoom, svg, content := None, None, None;
      currentTransform := Identity;
    }

    /** setupZoom: with both elements present, install a fresh behaviour and
        both selections and reset the transform; otherwise change nothing.
        The behaviour's listener is `OnZoom`; attaching it to the element is
        d3's business. */
    method SetupZoom(svgElement: Option<Element>, contentElement: Option<Element>, behavior: Behavior)
      requires Valid()
      modifies this
      ensures Valid()
      ensures svgElement.None? || contentElement.None? ==>
                zoom == old(zoom) && svg == old(svg) && content == old(content)
                && currentTransform == old(currentTransform)
      ensures svgElement.Some? && contentElement.Some? ==>
                zoom == Some(behavior) && svg == Some(Selection(svgElement.value))
                && content == Some(Selection(contentElement.value)) && currentTransform == Identity
    {
      if svgElement.None? || contentElement.None? {
        return;
      }
      zoom := Some(behavior);
      svg := Some(Selection(svgElement.value));
      content := Some(Selection(contentElement.value));
      currentTransform := Identity;
    }

    /** The zoom handler: record the event's transform, whatever caused it.
        (Hiding the tooltip and moving the content group are DOM effects.) */
    method OnZoom(event: ZoomEvent)
      requires Valid()
      modifies this`currentTransform
      ensures Valid()
      ensures currentTransform == event.transform
    {
      currentTransform := event.transform;
    }

    /** setCurrentTransform: replace the transform and nothing else. */
    method SetCurrentTransform(t: Transform)
      requires Valid()
      modifies this`currentTransform
      ensures Valid()
      ensures currentTransform == t
    {
      currentTransform := t;
    }

    /** zoomIn: from the transform d3 keeps on the svg element (`current`,
        read with d3.zoomTransform), the transform to animate to, or None when
        set-up has not run. Set-up fills every handle at once (`Valid`), so a
        target comes back exactly when the content selection is set as well.
        The animation itself is d3's. */
    method ZoomIn(current: Transform) returns (target: Option<Transform>)
      requires Valid()
      ensures target.None? <==> svg.None? || zoom.None?
      ensures target.Some? ==> target.value == Rescaled(current, ZoomInScale(current.k))
      ensures target.Some? <==> content.Some?
    {
      if svg.None? || zoom.None? {
        return None;
      }
      var newScale := ZoomInScale(current.k);
      target := Some(Rescaled(current, newScale));
    }

    /** zoomOut: as zoomIn, with the scale shrunk and floored. */
    method ZoomOut(current: Transform) returns (target: Option<Transform>)
      requires Valid()
      ensures target.None? <==> svg.None? || zoom.None?
      ensures target.Some? ==> target.value == Rescaled(current, ZoomOutScale(current.k))
      ensures target.Some? <==> content.Some?
    {
      if svg.None? || zoom.None? {
        return None;
      }
      var newScale := ZoomOutScale(current.k);
      target := Some(Rescaled(current, newScale));
    }
  }

  /** A client: before set-up the buttons do nothing; after it, a "+" press
      whose animation ends in a zoom event leaves a scale of at most 5 with
      the translation unmoved. */
  method ButtonsAfterSetup(svgElement: Element, contentElement: Element, behavior: Behavior, current: Transform)
  {
    var z := new ZoomController();
    var early := z.ZoomIn(current);
    assert early == None;
    z.SetupZoom(Some(svgElement), Some(contentElement), behavior);
    assert z.currentTransform == Identity;
    var target := z.ZoomIn(current);
    assert target.Some?;
    z.OnZoom(ZoomEvent(target.value, false));
    assert z.currentTransform.k <= MaxScale;
    assert z.currentTransform.x == current.x && z.currentTransform.y == current.y;
  }
}
