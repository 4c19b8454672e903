/** The containment test that decides whether a tentative placement fits,
    the overflow measured on each edge, and the auto-fit correction of the
    vertical offset. */
module Collision {
  import opened Alignment
  import opened Coordinates
  import opened Containers

  /** `_getViewportSize`: the document's client size when the container is
      the window, otherwise the size of the container's bounding box. */
  function ViewportSize(container: ContainerRef, docClient: Size, containerSize: Size): Size {
    if IsWindow(container) then docClient else containerSize
  }

  /** The width and height a pin may reach: one pixel short of the far edge,
      unless pin and base are aligned on that edge (equality at the right or
      bottom edge otherwise misbehaves in browsers). */
  function Bounds(vs: Size, align: string): Size
    requires WellFormed(align)
  {
    Size(if IsRightAligned(align) then vs.width else vs.width - 1.0,
         if IsBottomAligned(align) then vs.height else vs.height - 1.0)
  }

  /** How far each edge of the pin is inside the container's bounds; a
      negative value is an overflow. */
  datatype Edges = Edges(top: real, right: real, bottom: real, left: real)

  /** `_getViewportOffset`: the room left on each side; across each axis the
      two margins and the pin make up the bounds exactly. */
  function ViewportOffset(vs: Size, rect: Rect, size: Size, align: string): (e: Edges)
    requires WellFormed(align)
    ensures e.left == rect.left && e.top == rect.top
    ensures e.left + size.width + e.right == Bounds(vs, align).width
    ensures e.top + size.height + e.bottom == Bounds(vs, align).height
  {
    var b := Bounds(vs, align);
    Edges(rect.top, b.width - (rect.left + size.width), b.height - (rect.top + size.height), rect.left)
  }

  /** `_isInViewport`: the pin lies inside the bounds on all four sides, or,
      in auto-fit mode, on the top and bottom only. Equivalently, no edge
      measured by `_getViewportOffset` overflows. */
  function InViewport(autoFit: bool, vs: Size, rect: Rect, size: Size, align: string): (r: bool)
    requires WellFormed(align)
    ensures var e := ViewportOffset(vs, rect, size, align);
      r <==> 0.0 <= e.top && 0.0 <= e.bottom && (autoFit || (0.0 <= e.left && 0.0 <= e.right))
  {
    var b := Bounds(vs, align);
    if autoFit then
      rect.top >= 0.0 && rect.top + size.height <= b.height
    else
      rect.left >= 0.0 && rect.left + size.width <= b.width
      && rect.top >= 0.0 && rect.top + size.height <= b.height
  }

  /** A pin flush with the container's right edge fits exactly when the
      alignment is right-aligned: the one-pixel allowance at work. */
  lemma FlushRightFitsOnlyWhenRightAligned(vs: Size, rect: Rect, size: Size, align: string)
    requires WellFormed(align)
    requires rect.left + size.width == vs.width
    ensures !IsRightAligned(align) ==> !InViewport(false, vs, rect, size, align)
    ensures IsRightAligned(align) && 0.0 <= rect.left && 0.0 <= rect.top && rect.top + size.height <= vs.height - 1.0
            ==> InViewport(false, vs, rect, size, align)
  {
  }

  /** Auto-fit ignores horizontal overflow: moving the pin sideways never
      changes the verdict. */
  lemma AutoFitIgnoresHorizontal(vs: Size, rect: Rect, size: Size, align: string, left: real)
    requires WellFormed(align)
    ensures InViewport(true, vs, rect, size, align) == InViewport(true, vs, rect.(left := left), size, align)
  {
  }

  /** `_calPinOffset`: the configured offset, except that in auto-fit mode
      inside a real container a pin overflowing the container vertically gets
      its vertical offset replaced so that it follows the base inside the
      scrolling container: minus the base's top, and minus its height too
      when the pin's vertical anchor is `t`. */
  function CalPinOffset(offset: Point, autoFit: bool, container: ContainerRef, align: string,
                        baseRect: Rect, pinRect: Rect, vs: Size): (r: Point)
    ensures r.left == offset.left
    ensures !autoFit || IsWindow(container) || align == "" ==> r == offset
    ensures 0.0 <= pinRect.top && pinRect.top + pinRect.height <= vs.height ==> r == offset
    ensures autoFit && !IsWindow(container) && align != ""
            && (pinRect.top < 0.0 || pinRect.top + pinRect.height > vs.height)
            ==> r.top == -baseRect.top - (if align[0] == 't' then baseRect.height else 0.0)
  {
    if autoFit && align != "" && !IsWindow(container)
       && (pinRect.top < 0.0 || pinRect.top + pinRect.height > vs.height)
    then
      // pinAlign.charAt(0) is the first character unless the pin code is empty
      var anchoredTop := align[0] == 't';
      offset.(top := -baseRect.top - (if anchoredTop then baseRect.height else 0.0))
    else
      offset
  }
}
