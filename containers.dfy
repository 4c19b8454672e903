/** The reference frame of a placement: the container resolved from the base
    element's ancestors, and the rectangle of an element relative to it,
    accumulated along the element's offsetParent chain. */
module Containers {
  import opened Coordinates

  /** The computed `position` style of an element. */
  datatype CssPosition = Static | Relative | Absolute | Fixed | Sticky

  /** One ancestor on a parentNode walk. */
  datatype DomNode = DomNode(position: CssPosition, isBody: bool)

  /** The container `getContainer` resolves: document.body, the ancestor at
      the given depth of the walk, or null when the walk ran off the top of a
      detached tree. */
  datatype ContainerRef = Body | Ancestor(depth: nat) | Detached

  /** `!container || container === document.body`: the container is the
      window, measured by the document's client size. */
  predicate IsWindow(c: ContainerRef) {
    c.Body? || c.Detached?
  }

  /** `getContainer`. `path` is the node `findNode` resolved followed by its
      parentNode ancestors; an empty path means `findNode` found nothing. The
      walk stops at the first node that is not static, or at a static body.
      A null parentNode is read as not static, so a walk that leaves the tree
      returns null. */
  method GetContainer(path: seq<DomNode>) returns (c: ContainerRef)
    ensures c.Ancestor? ==> c.depth < |path| && path[c.depth].position != Static && !path[c.depth].isBody
    ensures c.Ancestor? ==> forall j :: 0 <= j < c.depth ==> path[j].position == Static && !path[j].isBody
    ensures c == Body <==> |path| == 0 || exists k :: 0 <= k < |path| && path[k].isBody
                                                    && forall j :: 0 <= j < k ==> path[j].position == Static && !path[j].isBody
    ensures c == Detached ==> |path| > 0 && forall j :: 0 <= j < |path| ==> path[j].position == Static && !path[j].isBody
  {
    if |path| == 0 {
      // findNode found nothing: document.body, static or not
      return Body;
    }
    var i := 0;
    while i < |path| && path[i].position == Static
      invariant 0 <= i <= |path|
      invariant forall j :: 0 <= j < i ==> path[j].position == Static && !path[j].isBody
    {
      if path[i].isBody {
        return Body;
      }
      i := i + 1;
    }
    if i == |path| {
      c := Detached;
    } else if path[i].isBody {
      c := Body;
    } else {
      c := Ancestor(i);
      assert !exists k :: 0 <= k < |path| && path[k].isBody && forall j :: 0 <= j < k ==> path[j].position == Static && !path[j].isBody by {
        forall k | 0 <= k < |path| && path[k].isBody
          ensures !forall j :: 0 <= j < k ==> path[j].position == Static && !path[j].isBody
        {
          assert k > i;
        }
      }
    }
  }

  /** One element of an offsetParent chain, as `_getElementRect` reads it:
      its offsets within its offset parent, its own scroll, whether it is
      document.body and whether it is the container. */
  datatype Box = Box(offsetTop: Num, offsetLeft: Num, scrollTop: Num, scrollLeft: Num,
                     isBody: bool, isContainer: bool)

  datatype Rect = Rect(top: real, left: real, width: real, height: real)

  /** The scroll of chain[i]'s offset parent, counted unless it is the body. */
  function ParentScroll(chain: seq<Box>, i: nat): Point
    requires i < |chain|
  {
    if i + 1 < |chain| && !chain[i + 1].isBody
    then Point(OrZero(chain[i + 1].scrollLeft), OrZero(chain[i + 1].scrollTop))
    else Point(0.0, 0.0)
  }

  /** The offsets accumulated from chain[i] upwards, less the scroll of the
      offset parents passed, up to (not past) the container. */
  function NetOffset(chain: seq<Box>, i: nat): Point
    requires i < |chain|
    decreases |chain| - i
  {
    var scroll := ParentScroll(chain, i);
    var rest := if i + 1 < |chain| && !chain[i + 1].isContainer then NetOffset(chain, i + 1) else Point(0.0, 0.0);
    Point(OrZero(chain[i].offsetLeft) - scroll.left + rest.left,
          OrZero(chain[i].offsetTop) - scroll.top + rest.top)
  }

  /** The rectangle of chain[0] relative to the container; in the window the
      document scroll (`documentElement.scrollX || body.scrollX`) is taken off. */
  function ElementRect(chain: seq<Box>, size: Size, treatAsWindow: bool, docScroll: Point, bodyScroll: Point): Rect
    requires |chain| > 0
  {
    var net := NetOffset(chain, 0);
    Rect(net.top - (if treatAsWindow then JsOr(docScroll.top, bodyScroll.top) else 0.0),
         net.left - (if treatAsWindow then JsOr(docScroll.left, bodyScroll.left) else 0.0),
         size.width, size.height)
  }

  /** `_getElementRect`: the do-while walk up the offsetParent chain. The
      first element is always counted, even when it is the container. */
  method GetElementRect(chain: seq<Box>, size: Size, treatAsWindow: bool, docScroll: Point, bodyScroll: Point)
    returns (r: Rect)
    requires |chain| > 0
    ensures r == ElementRect(chain, size, treatAsWindow, docScroll, bodyScroll)
  {
    var offsetTop, offsetLeft, scrollTop, scrollLeft := 0.0, 0.0, 0.0, 0.0;
    var i := 0;
    while true
      invariant 0 <= i < |chain|
      invariant offsetLeft - scrollLeft + NetOffset(chain, i).left == NetOffset(chain, 0).left
      invariant offsetTop - scrollTop + NetOffset(chain, i).top == NetOffset(chain, 0).top
      decreases |chain| - i
    {
      if chain[i].offsetTop.Finite? {
        offsetTop := offsetTop + chain[i].offsetTop.v;
      }
      if chain[i].offsetLeft.Finite? {
        offsetLeft := offsetLeft + chain[i].offsetLeft.v;
      }
      if i + 1 < |chain| {
        if chain[i + 1].scrollLeft.Finite? && !chain[i + 1].isBody {
          scrollLeft := scrollLeft + chain[i + 1].scrollLeft.v;
        }
        if chain[i + 1].scrollTop.Finite? && !chain[i + 1].isBody {
          scrollTop := scrollTop + chain[i + 1].scrollTop.v;
        }
      }
      if i + 1 == |chain| || chain[i + 1].isContainer {
        break;
      }
      i := i + 1;
    }
    var windowTop := if treatAsWindow then JsOr(docScroll.top, bodyScroll.top) else 0.0;
    var windowLeft := if treatAsWindow then JsOr(docScroll.left, bodyScroll.left) else 0.0;
    r := Rect(offsetTop - scrollTop - windowTop, offsetLeft - scrollLeft - windowLeft, size.width, size.height);
  }

  /** Two chains that agree from position i upwards accumulate the same offset
      from there. */
  lemma {:induction false} NetOffsetAgree(a: seq<Box>, b: seq<Box>, i: nat)
    requires i < |a| == |b|
    requires forall j :: i <= j < |a| ==> a[j] == b[j]
    ensures NetOffset(a, i) == NetOffset(b, i)
    decreases |a| - i
  {
    if i + 1 < |a| {
      NetOffsetAgree(a, b, i + 1);
    }
  }

  /** Moving the element itself within its offset parent moves its rectangle
      by the same amount and changes nothing else: the rectangle of a pin is
      its own `left`/`top` plus a constant of the page. */
  lemma RectFollowsOwnOffset(chain: seq<Box>, dx: real, dy: real, size: Size, treatAsWindow: bool,
                             docScroll: Point, bodyScroll: Point)
    requires |chain| > 0 && chain[0].offsetLeft.Finite? && chain[0].offsetTop.Finite?
    ensures var moved := [chain[0].(offsetLeft := Finite(chain[0].offsetLeft.v + dx),
                                    offsetTop := Finite(chain[0].offsetTop.v + dy))] + chain[1..];
      var r := ElementRect(chain, size, treatAsWindow, docScroll, bodyScroll);
      ElementRect(moved, size, treatAsWindow, docScroll, bodyScroll) == r.(left := r.left + dx, top := r.top + dy)
  {
    var moved := [chain[0].(offsetLeft := Finite(chain[0].offsetLeft.v + dx),
                            offsetTop := Finite(chain[0].offsetTop.v + dy))] + chain[1..];
    if 1 < |chain| {
      NetOffsetAgree(chain, moved, 1);
    }
  }

  /** The walk never looks past the container: cutting the chain just above
      the first container (at position k above the element) leaves the
      accumulated offset of every element below it unchanged. */
  lemma {:induction false} NetOffsetStopsAtContainer(chain: seq<Box>, k: nat, i: nat)
    requires 0 < k < |chain| && chain[k].isContainer
    requires i < k
    ensures NetOffset(chain, i) == NetOffset(chain[..k + 1], i)
    decreases k - i
  {
    if i + 1 < k {
      NetOffsetStopsAtContainer(chain, k, i + 1);
    }
  }

  /** Boxes above the container do not affect an element's rectangle. */
  lemma RectIgnoresAboveContainer(chain: seq<Box>, k: nat, size: Size, treatAsWindow: bool,
                                  docScroll: Point, bodyScroll: Point)
    requires 0 < k < |chain| && chain[k].isContainer
    ensures ElementRect(chain, size, treatAsWindow, docScroll, bodyScroll)
         == ElementRect(chain[..k + 1], size, treatAsWindow, docScroll, bodyScroll)
  {
    NetOffsetStopsAtContainer(chain, k, 0);
  }
}
