/** Pixel arithmetic of the placement engine: anchor points inside a box, page
    offsets of boxes, and the clamping of a fallback coordinate. Pixels are
    exact reals, so the centre of an odd-sized box is not rounded. */
module Coordinates {
  import Alignment

  /** A number read from the page; the engine guards several reads with
      `isNaN` (an `svg` node has no `offsetTop`, for instance). */
  datatype Num = Finite(v: real) | NaN

  /** The value of a guarded read: `isNaN(x) ? 0 : x`, or `parseFloat(x) || 0`. */
  function OrZero(n: Num): real {
    match n
    case Finite(v) => v
    case NaN => 0.0
  }

  /** JavaScript's `a || b` on numbers: `b` when `a` is zero. */
  function JsOr(a: real, b: real): real {
    if a != 0.0 then a else b
  }

  datatype Point = Point(left: real, top: real)

  datatype Size = Size(width: real, height: real)

  /** Is ch one of the anchor letters `_xyConverter` understands (its
      patterns carry the `i` flag, so upper case works too)? */
  predicate IsAnchorChar(ch: char) {
    ch in {'t', 'l', 'c', 'b', 'r', 'T', 'L', 'C', 'B', 'R'}
  }

  predicate IsDigit(ch: char) {
    '0' <= ch <= '9'
  }

  /** `_xyConverter`: the distance of the anchor from the near edge along one
      axis: 0% of the size for t/l, 50% for c, 100% for b/r. No pattern
      rewrites a digit, which `parseFloat` then reads as its own value; any
      other character parses as NaN and becomes 0. */
  function XyConverter(ch: char, size: real): (r: real)
    ensures ch in {'t', 'l', 'T', 'L'} ==> r == 0.0
    ensures ch in {'c', 'C'} ==> r == size / 2.0
    ensures ch in {'b', 'r', 'B', 'R'} ==> r == size
    ensures IsDigit(ch) ==> r == (ch as int - '0' as int) as real
    ensures !IsAnchorChar(ch) && !IsDigit(ch) ==> r == 0.0
    ensures IsAnchorChar(ch) && 0.0 <= size ==> 0.0 <= r <= size
  {
    if ch in {'t', 'l', 'T', 'L'} then 0.0
    else if ch in {'c', 'C'} then size / 2.0
    else if ch in {'b', 'r', 'B', 'R'} then size
    else if IsDigit(ch) then (ch as int - '0' as int) as real
    else 0.0
  }

  /** `_normalizeXY`: the anchor point of a code inside a box of the given
      size; the second letter picks the horizontal anchor (left edge, centre,
      right edge), the first the vertical one (top edge, centre, bottom edge). */
  function NormalizeXY(code: string, size: Size): (p: Point)
    requires |code| >= 2
    ensures code[1] in {'l', 'L'} ==> p.left == 0.0
    ensures code[1] in {'c', 'C'} ==> p.left == size.width / 2.0
    ensures code[1] in {'r', 'R'} ==> p.left == size.width
    ensures code[0] in {'t', 'T'} ==> p.top == 0.0
    ensures code[0] in {'c', 'C'} ==> p.top == size.height / 2.0
    ensures code[0] in {'b', 'B'} ==> p.top == size.height
    ensures IsAnchorChar(code[1]) && 0.0 <= size.width ==> 0.0 <= p.left <= size.width
    ensures IsAnchorChar(code[0]) && 0.0 <= size.height ==> 0.0 <= p.top <= size.height
  {
    Point(XyConverter(code[1], size.width), XyConverter(code[0], size.height))
  }

  /** Flipping an anchor letter to the opposite side measures the same point
      from the other edge: this is why the mirrored and flipped alignments
      are the geometric reflections of the request. */
  lemma AnchorOfOpposite(ch: char, size: real)
    requires ch in {'t', 'c', 'b', 'l', 'r'}
    ensures XyConverter(Alignment.Opposite(ch), size) == size - XyConverter(ch, size)
  {
  }

  /** `_getElementOffset`: the page offset of a box from its viewport-relative
      rectangle, optionally without the page scroll (for fixed contexts). */
  function ElementOffset(clientRect: Point, ignoreScroll: bool, pageOffset: Point, docClientEdge: Point): Point {
    Point(clientRect.left + (if ignoreScroll then 0.0 else pageOffset.left) - docClientEdge.left,
          clientRect.top + (if ignoreScroll then 0.0 else pageOffset.top) - docClientEdge.top)
  }

  /** `_makeElementInViewport`: clamp one coordinate of the fallback position.
      A negative value becomes 0 for a fixed pin, the larger of the document's
      and the body's scroll when the pin's offset parent is a static body,
      and otherwise stays as it is. */
  function MakeElementInViewport(n: real, isPinFixed: bool, parentIsStaticBody: bool,
                                 docScroll: real, bodyScroll: real): (r: real)
    ensures 0.0 <= n ==> r == n
    ensures !isPinFixed && !parentIsStaticBody ==> r == n
    ensures isPinFixed ==> 0.0 <= r
    ensures n < 0.0 && isPinFixed ==> r == 0.0
    ensures n < 0.0 && !isPinFixed && parentIsStaticBody ==> r == (if docScroll >= bodyScroll then docScroll else bodyScroll)
    ensures 0.0 <= docScroll && 0.0 <= bodyScroll ==> n <= r
    ensures 0.0 <= docScroll && 0.0 <= bodyScroll && parentIsStaticBody ==> 0.0 <= r
  {
    if n < 0.0 then
      if isPinFixed then 0.0
      else if parentIsStaticBody then (if docScroll >= bodyScroll then docScroll else bodyScroll)
      else n
    else n
  }

  /** Clamping twice is clamping once. */
  lemma MakeElementInViewportIdempotent(n: real, isPinFixed: bool, parentIsStaticBody: bool,
                                        docScroll: real, bodyScroll: real)
    ensures var once := MakeElementInViewport(n, isPinFixed, parentIsStaticBody, docScroll, bodyScroll);
      MakeElementInViewport(once, isPinFixed, parentIsStaticBody, docScroll, bodyScroll) == once
  {
  }
}
