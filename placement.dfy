/** The placement engine: the `Position` object, its search over candidate
    alignments and the style it writes on the pin.

    Every read of the page is replaced by a `Geometry` snapshot, fixed for
    one placement. The only state that changes is the pin's inline style,
    a `PinElement` object. The pin's offset within its offset parent is its
    effective style `left`/`top` plus a constant of the page (`pinMargin`);
    with `left: auto` and a `right`, the effective left is what that `right`
    leaves: parent width - right - pin width. */
module Placement {
  import opened Alignment
  import opened Coordinates
  import opened Containers
  import opened Collision

  datatype Option<T> = None | Some(value: T)

  /** What `setPosition` ends with: nothing to place (the pin is the
      viewport sentinel), an alignment reported, or the TypeError raised when
      the fallback's offset measures the viewport sentinel as a base. */
  datatype Outcome = NoPin | Placed(align: string) | Threw

  /** A length of the pin's inline style. */
  datatype StyleLength = Unset | Auto | Px(v: real)

  /** The positioning styles of the pin. */
  datatype Style = Style(position: CssPosition, left: StyleLength, top: StyleLength, right: StyleLength)

  /** The pin element, whose inline style the engine writes. */
  class PinElement {
    var position: CssPosition
    var left: StyleLength
    var top: StyleLength
    var right: StyleLength

    constructor (s: Style)
      ensures Current() == s
    {
      position, left, top, right := s.position, s.left, s.top, s.right;
    }

    function Current(): Style
      reads this
    {
      Style(position, left, top, right)
    }
  }

  /** The pin handle: an element, or the viewport sentinel (nothing to place). */
  datatype PinTarget = PinViewport | PinNode(el: PinElement)

  /** The base handle: the viewport sentinel, or an element as the page shows
      it: its size, its viewport-relative corner, its inline `left`/`top`
      (parsed), its computed position, and its offsetParent chain (the
      element's own box first). */
  datatype BaseTarget =
    | BaseViewport
    | BaseNode(size: Size, clientRect: Point, styleLeft: Num, styleTop: Num,
               position: CssPosition, box: Box, ancestors: seq<Box>)

  /** What the page shows during one placement. The pin's offset parent is
      `pinAncestors[0]` (none: the document element stands in); the `parent`
      fields describe `offsetParent || documentElement`. */
  datatype Geometry = Geometry(
    docClient: Size,            // documentElement.clientWidth / clientHeight
    pageOffset: Point,          // window.pageXOffset || documentElement.scrollLeft, and Y
    docClientEdge: Point,       // documentElement.clientLeft || body.clientLeft || 0, and top
    docScroll: Point,           // documentElement.scrollLeft / scrollTop
    bodyScroll: Point,          // body.scrollLeft / scrollTop
    containerSize: Size,        // the container's bounding box size
    pinSize: Size,              // the pin's offsetWidth / offsetHeight
    pinMargin: Point,           // the pin's offsetLeft/Top less its effective style left/top
    pinAncestors: seq<Box>,     // the pin's offsetParent chain, nearest first
    parentPosition: CssPosition,
    parentClientRect: Point,
    parentBorder: Point,        // border-left-width / border-top-width
    parentWidth: real)

  /** The configuration one `Position` object holds. */
  datatype Config = Config(base: BaseTarget, pinFollow: bool, container: ContainerRef, autoFit: bool,
                           align: string, offset: Point, needAdjust: bool, isRtl: bool)

  // ---------------------------------------------------------------------
  // The geometry of one candidate

  predicate ParentIsStaticBody(g: Geometry) {
    |g.pinAncestors| > 0 && g.pinAncestors[0].isBody && g.parentPosition == Static
  }

  /** `_getParentOffset`: the page offset of the pin's offset parent's padding
      box; a static body sits at the origin. */
  function ParentOffset(g: Geometry): Point {
    var corner := if ParentIsStaticBody(g) then Point(0.0, 0.0)
                  else ElementOffset(g.parentClientRect, false, g.pageOffset, g.docClientEdge);
    Point(corner.left + g.parentBorder.left, corner.top + g.parentBorder.top)
  }

  /** `_getParentScrollOffset`: the scroll of the pin's offset parent, unless
      there is none or it is the body. */
  function ParentScrollOffset(g: Geometry): Point {
    if |g.pinAncestors| > 0 && !g.pinAncestors[0].isBody
    then Point(OrZero(g.pinAncestors[0].scrollLeft), OrZero(g.pinAncestors[0].scrollTop))
    else Point(0.0, 0.0)
  }

  predicate IsBaseFixed(base: BaseTarget) {
    base.BaseNode? && base.position == Fixed
  }

  function BaseSize(c: Config, g: Geometry): Size {
    if c.base.BaseViewport? then g.docClient else c.base.size
  }

  /** The base's offset: its inline `left`/`top` when pin and base are both
      fixed; nothing when a fixed pin does not follow the base (dialogs);
      the page scroll for the viewport; otherwise its page offset, without
      the page scroll when a fixed pin follows it. */
  function BaseOffset(c: Config, g: Geometry, isPinFixed: bool): Point {
    if isPinFixed && IsBaseFixed(c.base) then Point(OrZero(c.base.styleLeft), OrZero(c.base.styleTop))
    else if isPinFixed && !c.pinFollow then Point(0.0, 0.0)
    else if c.base.BaseViewport? then g.pageOffset
    else ElementOffset(c.base.clientRect, isPinFixed && c.pinFollow, g.pageOffset, g.docClientEdge)
  }

  /** The `left`/`top` that puts the pin's anchor of `align` on the base's. */
  function CandidatePosition(c: Config, g: Geometry, align: string, isPinFixed: bool): Point
    requires WellFormed(align)
  {
    var pinPoint := NormalizeXY(align[0..2], g.pinSize);
    var basePoint := NormalizeXY(align[3..5], BaseSize(c, g));
    var parent := ParentOffset(g);
    var scroll := ParentScrollOffset(g);
    var base := BaseOffset(c, g, isPinFixed);
    Point(base.left + basePoint.left - parent.left - pinPoint.left + scroll.left,
          base.top + basePoint.top - parent.top - pinPoint.top + scroll.top)
  }

  // ---------------------------------------------------------------------
  // The pin's style and where it puts the pin

  /** The `position: absolute` the engine forces on a pin that is not fixed. */
  function Forced(s: Style): Style {
    if s.position != Fixed then s.(position := Absolute) else s
  }

  /** `_setPinElementPostion`: `left`/`top` plus the offset, or in
      right-to-left mode `left: auto` and the `right` that leaves the pin's
      left edge at `left` (the horizontal offset then pushes leftwards). */
  function WritePosition(isRtl: bool, g: Geometry, s: Style, p: Point, offset: Point): Style {
    if !isRtl then s.(left := Px(p.left + offset.left), top := Px(p.top + offset.top))
    else s.(left := Auto, right := Px(g.parentWidth - (p.left + g.pinSize.width) + offset.left),
            top := Px(p.top + offset.top))
  }

  /** The pin's left within its offset parent: `left`, or for a `right`
      length the parent's width less `right` and the pin's width. This takes
      the width the write measures (the parent's border box) as the box
      `right` is measured from, which holds for a parent without borders or
      a vertical scrollbar. */
  function EffectiveLeft(g: Geometry, s: Style): real {
    if s.left.Px? then s.left.v
    else if s.right.Px? then g.parentWidth - s.right.v - g.pinSize.width
    else 0.0
  }

  function EffectiveTop(s: Style): real {
    if s.top.Px? then s.top.v else 0.0
  }

  /** The pin's offsetParent chain under style s. */
  function PinChain(g: Geometry, s: Style): seq<Box> {
    [Box(Finite(EffectiveTop(s) + g.pinMargin.top), Finite(EffectiveLeft(g, s) + g.pinMargin.left),
         Finite(0.0), Finite(0.0), false, false)] + g.pinAncestors
  }

  /** The pin's rectangle relative to the container under style s. */
  function PinRect(c: Config, g: Geometry, s: Style): Rect {
    ElementRect(PinChain(g, s), g.pinSize, IsWindow(c.container), g.docScroll, g.bodyScroll)
  }

  /** The base's rectangle relative to the container (only read for an
      element base). */
  function BaseRect(c: Config, g: Geometry): Rect {
    match c.base
    case BaseViewport => Rect(0.0, 0.0, 0.0, 0.0)
    case BaseNode(size, _, _, _, _, box, ancestors) =>
      ElementRect([box] + ancestors, size, IsWindow(c.container), g.docScroll, g.bodyScroll)
  }

  function ContainerViewport(c: Config, g: Geometry): Size {
    ViewportSize(c.container, g.docClient, g.containerSize)
  }

  // ---------------------------------------------------------------------
  // The search

  predicate IsPinFixed(s0: Style) { s0.position == Fixed }

  /** The style after trying `align`, starting from the pin's style s0. */
  function Tried(c: Config, g: Geometry, s0: Style, align: string): Style
    requires WellFormed(align)
  {
    WritePosition(c.isRtl, g, Forced(s0), CandidatePosition(c, g, align, IsPinFixed(s0)), c.offset)
  }

  /** Does the pin fit the container when placed by `align`? */
  predicate Fits(c: Config, g: Geometry, s0: Style, align: string)
    requires WellFormed(align)
  {
    InViewport(c.autoFit, ContainerViewport(c, g), PinRect(c, g, Tried(c, g, s0, align)), g.pinSize, align)
  }

  predicate AllWellFormed(cands: seq<string>) {
    forall j :: 0 <= j < |cands| ==> WellFormed(cands[j])
  }

  /** None of the first n candidates fits. */
  predicate NoneFits(c: Config, g: Geometry, s0: Style, cands: seq<string>, n: nat)
    requires AllWellFormed(cands) && n <= |cands|
  {
    forall j :: 0 <= j < n ==> !Fits(c, g, s0, cands[j])
  }

  lemma NoneFitsExtend(c: Config, g: Geometry, s0: Style, cands: seq<string>, n: nat)
    requires AllWellFormed(cands) && n < |cands|
    requires NoneFits(c, g, s0, cands, n) && !Fits(c, g, s0, cands[n])
    ensures NoneFits(c, g, s0, cands, n + 1)
  {
  }

  /** The containment verdict of each candidate, in order. */
  function Verdicts(c: Config, g: Geometry, s0: Style, cands: seq<string>): seq<bool>
    requires AllWellFormed(cands)
  {
    seq(|cands|, j requires 0 <= j < |cands| => Fits(c, g, s0, cands[j]))
  }

  /** The first position from i on whose verdict is a fit, if any. */
  function FirstFit(v: seq<bool>, i: nat): (k: Option<nat>)
    requires i <= |v|
    ensures k.Some? ==> i <= k.value < |v| && v[k.value] && forall j :: i <= j < k.value ==> !v[j]
    ensures k.None? ==> forall j :: i <= j < |v| ==> !v[j]
    decreases |v| - i
  {
    if i == |v| then None
    else if v[i] then Some(i)
    else FirstFit(v, i + 1)
  }

  /** The search finds k when the verdict at k is a fit and none before is. */
  lemma FirstFitIs(v: seq<bool>, k: nat)
    requires k < |v| && v[k] && forall j :: 0 <= j < k ==> !v[j]
    ensures FirstFit(v, 0) == Some(k)
  {
  }

  /** The search finds nothing when no verdict is a fit. */
  lemma FirstFitNone(v: seq<bool>)
    requires forall j :: 0 <= j < |v| ==> !v[j]
    ensures FirstFit(v, 0) == None
  {
  }

  /** The provisional result recorded for the first candidate: its position,
      pulled left by the overflow at the right edge when adjusting (and not
      auto-fitting). */
  function Provisional(c: Config, g: Geometry, s0: Style, align: string): Point
    requires WellFormed(align)
  {
    var p := CandidatePosition(c, g, align, IsPinFixed(s0));
    if c.needAdjust && !c.autoFit then
      var right := ViewportOffset(ContainerViewport(c, g), PinRect(c, g, Tried(c, g, s0, align)), g.pinSize, align).right;
      Point(if right < 0.0 then p.left + right else p.left, p.top)
    else p
  }

  /** `_makeElementInViewport` on both axes. */
  function Clamped(g: Geometry, s0: Style, p: Point): Point {
    Point(MakeElementInViewport(p.left, IsPinFixed(s0), ParentIsStaticBody(g), g.docScroll.left, g.bodyScroll.left),
          MakeElementInViewport(p.top, IsPinFixed(s0), ParentIsStaticBody(g), g.docScroll.top, g.bodyScroll.top))
  }

  /** The style written when no candidate fits: the first candidate's
      provisional position, clamped, with the auto-fit offset of the first
      candidate measured against the pin as the last try left it. */
  function FallbackStyle(c: Config, g: Geometry, s0: Style, cands: seq<string>): Style
    requires AllWellFormed(cands) && |cands| > 0
  {
    var last := Tried(c, g, s0, cands[|cands| - 1]);
    WritePosition(c.isRtl, g, last, Clamped(g, s0, Provisional(c, g, s0, cands[0])), FallbackOffset(c, g, s0, cands))
  }

  /** The offset of the fallback write: `_calPinOffset` of the first
      candidate, measured with the pin where the last try left it. */
  function FallbackOffset(c: Config, g: Geometry, s0: Style, cands: seq<string>): Point
    requires AllWellFormed(cands) && |cands| > 0
  {
    CalPinOffset(c.offset, c.autoFit, c.container, cands[0], BaseRect(c, g),
                 PinRect(c, g, Tried(c, g, s0, cands[|cands| - 1])), ContainerViewport(c, g))
  }

  /** One placement from the pin's style s0: the alignment reported and the
      style left on the pin. */
  function PlacementOf(c: Config, g: Geometry, s0: Style): (string, Style)
    requires WellFormed(c.align)
  {
    var cands := Candidates(c.align, c.isRtl, c.needAdjust);
    CandidatesWellFormed(c.align, c.isRtl, c.needAdjust);
    match FirstFit(Verdicts(c, g, s0, cands), 0)
    case Some(k) => (cands[k], Tried(c, g, s0, cands[k]))
    case None => (cands[0], FallbackStyle(c, g, s0, cands))
  }

  /** Does the placement fall back, no candidate fitting? */
  predicate FallsBack(c: Config, g: Geometry, s0: Style)
    requires WellFormed(c.align)
  {
    var cands := Candidates(c.align, c.isRtl, c.needAdjust);
    CandidatesWellFormed(c.align, c.isRtl, c.needAdjust);
    FirstFit(Verdicts(c, g, s0, cands), 0).None?
  }

  /** `_calPinOffset` measures the base only in auto-fit mode inside a real
      container; the viewport sentinel is a string, and `_getSize` testing
      `'offsetWidth' in` it throws. */
  predicate FallbackMeasuresViewport(c: Config) {
    c.autoFit && !IsWindow(c.container) && c.base.BaseViewport?
  }

  /** The style the last try leaves on the pin. */
  function LastTried(c: Config, g: Geometry, s0: Style): Style
    requires WellFormed(c.align)
  {
    var cands := Candidates(c.align, c.isRtl, c.needAdjust);
    CandidatesWellFormed(c.align, c.isRtl, c.needAdjust);
    Tried(c, g, s0, cands[|cands| - 1])
  }

  /** The placement falls back exactly when no candidate fits. */
  lemma FallsBackIffNoneFits(c: Config, g: Geometry, s0: Style)
    requires WellFormed(c.align)
    ensures var cands := Candidates(c.align, c.isRtl, c.needAdjust);
      AllWellFormed(cands) && (FallsBack(c, g, s0) <==> NoneFits(c, g, s0, cands, |cands|))
  {
    var cands := Candidates(c.align, c.isRtl, c.needAdjust);
    CandidatesWellFormed(c.align, c.isRtl, c.needAdjust);
    FirstFitOfVerdicts(c, g, s0, cands);
    var f := FirstFit(Verdicts(c, g, s0, cands), 0);
    if f.Some? {
      assert Fits(c, g, s0, cands[f.value]);
    }
  }

  /** What the search knows after i turns: none of those candidates fits,
      and the pin's style is still the forced one or, after a turn, the last
      try's, the first candidate's provisional result being recorded. */
  predicate SearchedUpTo(c: Config, g: Geometry, s0: Style, cands: seq<string>, i: nat, cur: Style, first: Point)
    requires AllWellFormed(cands) && |cands| > 0 && i <= |cands|
  {
    && NoneFits(c, g, s0, cands, i)
    && cur.position == Forced(s0).position
    && (!c.isRtl ==> cur.right == s0.right)
    && (i > 0 ==> cur == Tried(c, g, s0, cands[i - 1]) && first == Provisional(c, g, s0, cands[0]))
  }

  /** A miss extends what the search knows by one turn. */
  lemma SearchStep(c: Config, g: Geometry, s0: Style, cands: seq<string>, i: nat, cur: Style, first: Point,
                   next: Style, provisional: Point)
    requires AllWellFormed(cands) && i < |cands| && SearchedUpTo(c, g, s0, cands, i, cur, first)
    requires next == Tried(c, g, s0, cands[i]) && !Fits(c, g, s0, cands[i])
    requires i == 0 ==> provisional == Provisional(c, g, s0, cands[0])
    ensures SearchedUpTo(c, g, s0, cands, i + 1, next, if i == 0 then provisional else first)
  {
    NoneFitsExtend(c, g, s0, cands, i);
  }

  /** How the search ends: at a candidate that fits, none before it fitting,
      with the pin where that candidate put it; or with none fitting, the pin
      where the last try left it and the first candidate's provisional result
      recorded. */
  predicate SearchResult(c: Config, g: Geometry, s0: Style, cands: seq<string>, found: Option<nat>,
                         cur: Style, first: Point)
    requires AllWellFormed(cands) && |cands| > 0
  {
    match found
    case Some(k) =>
      k < |cands| && Fits(c, g, s0, cands[k]) && NoneFits(c, g, s0, cands, k) && cur == Tried(c, g, s0, cands[k])
    case None =>
      NoneFits(c, g, s0, cands, |cands|) && cur == Tried(c, g, s0, cands[|cands| - 1])
      && first == Provisional(c, g, s0, cands[0])
  }

  /** A fit after i misses ends the search there. */
  lemma SearchFound(c: Config, g: Geometry, s0: Style, cands: seq<string>, i: nat, cur: Style, first: Point,
                    next: Style)
    requires AllWellFormed(cands) && i < |cands| && SearchedUpTo(c, g, s0, cands, i, cur, first)
    requires next == Tried(c, g, s0, cands[i]) && Fits(c, g, s0, cands[i])
    ensures SearchResult(c, g, s0, cands, Some(i), next, first)
  {
  }

  /** Missing every candidate ends the search with nothing found. */
  lemma SearchExhausted(c: Config, g: Geometry, s0: Style, cands: seq<string>, cur: Style, first: Point)
    requires AllWellFormed(cands) && |cands| > 0 && SearchedUpTo(c, g, s0, cands, |cands|, cur, first)
    ensures SearchResult(c, g, s0, cands, None, cur, first)
  {
  }

  /** Writing a candidate over a style that already has the forced position
      (and, left-to-right, the original `right`) gives that candidate's try. */
  lemma RewriteIsTried(c: Config, g: Geometry, s0: Style, cur: Style, align: string)
    requires WellFormed(align)
    requires cur.position == Forced(s0).position && (!c.isRtl ==> cur.right == s0.right)
    ensures WritePosition(c.isRtl, g, cur, CandidatePosition(c, g, align, IsPinFixed(s0)), c.offset)
            == Tried(c, g, s0, align)
  {
  }

  /** The provisional result from the measured position and rectangle. */
  lemma ProvisionalOfMeasured(c: Config, g: Geometry, s0: Style, align: string, p: Point, rect: Rect)
    requires WellFormed(align)
    requires p == CandidatePosition(c, g, align, IsPinFixed(s0))
    requires rect == PinRect(c, g, Tried(c, g, s0, align))
    ensures Provisional(c, g, s0, align)
         == if c.needAdjust && !c.autoFit then
              var right := ViewportOffset(ContainerViewport(c, g), rect, g.pinSize, align).right;
              Point(if right < 0.0 then p.left + right else p.left, p.top)
            else p
  {
  }

  /** The containment verdict on the measured rectangle is the candidate's. */
  lemma FitsOfMeasured(c: Config, g: Geometry, s0: Style, align: string, rect: Rect)
    requires WellFormed(align) && rect == PinRect(c, g, Tried(c, g, s0, align))
    ensures Fits(c, g, s0, align) == InViewport(c.autoFit, ContainerViewport(c, g), rect, g.pinSize, align)
  {
  }

  /** What the search over the verdicts finds, in terms of the candidates. */
  lemma FirstFitOfVerdicts(c: Config, g: Geometry, s0: Style, cands: seq<string>)
    requires AllWellFormed(cands)
    ensures var f := FirstFit(Verdicts(c, g, s0, cands), 0);
      && (f.Some? ==> f.value < |cands| && Fits(c, g, s0, cands[f.value]) && NoneFits(c, g, s0, cands, f.value))
      && (f.None? ==> NoneFits(c, g, s0, cands, |cands|))
  {
    var v := Verdicts(c, g, s0, cands);
    var f := FirstFit(v, 0);
    if f.Some? {
      assert v[f.value];
      forall j | 0 <= j < f.value ensures !Fits(c, g, s0, cands[j]) {
        assert !v[j];
      }
    } else {
      forall j | 0 <= j < |cands| ensures !Fits(c, g, s0, cands[j]) {
        assert !v[j];
      }
    }
  }

  /** First fit wins: when candidate k fits and none before it does, the
      placement reports k and leaves the pin where k put it. */
  lemma PlacementOfFirstFit(c: Config, g: Geometry, s0: Style, k: nat)
    requires WellFormed(c.align)
    requires var cands := Candidates(c.align, c.isRtl, c.needAdjust);
      AllWellFormed(cands) && k < |cands| && Fits(c, g, s0, cands[k]) && NoneFits(c, g, s0, cands, k)
    ensures var cands := Candidates(c.align, c.isRtl, c.needAdjust);
      PlacementOf(c, g, s0) == (cands[k], Tried(c, g, s0, cands[k]))
  {
    var cands := Candidates(c.align, c.isRtl, c.needAdjust);
    var v := Verdicts(c, g, s0, cands);
    assert v[k];
    assert forall j :: 0 <= j < k ==> !v[j];
    FirstFitIs(v, k);
  }

  /** When no candidate fits, the first is reported and the fallback written. */
  lemma PlacementOfNoneFits(c: Config, g: Geometry, s0: Style)
    requires WellFormed(c.align)
    requires var cands := Candidates(c.align, c.isRtl, c.needAdjust);
      AllWellFormed(cands) && NoneFits(c, g, s0, cands, |cands|)
    ensures var cands := Candidates(c.align, c.isRtl, c.needAdjust);
      PlacementOf(c, g, s0) == (cands[0], FallbackStyle(c, g, s0, cands))
  {
    var cands := Candidates(c.align, c.isRtl, c.needAdjust);
    var v := Verdicts(c, g, s0, cands);
    assert forall j :: 0 <= j < |v| ==> !v[j];
    FirstFitNone(v);
  }

  // ---------------------------------------------------------------------
  // The engine object

  /** `Position`: the configuration of one placement, fixed at construction. */
  class Position {
    const pinElement: PinTarget
    const baseElement: BaseTarget
    const pinFollowBaseElementWhenFixed: bool
    const container: ContainerRef
    const autoFit: bool
    const align: string
    const offset: Point
    const needAdjust: bool
    const isRtl: bool

    function Settings(): Config {
      Config(baseElement, pinFollowBaseElementWhenFixed, container, autoFit, align, offset, needAdjust, isRtl)
    }

    /** The constructor: resolves the container from the ancestors of the
        node found for it, and applies the defaults ("tl tl", [0, 0], false). */
    constructor (pin: PinTarget, base: BaseTarget, pinFollow: bool, containerPath: seq<DomNode>,
                 fit: Option<bool>, requested: string, nudge: Option<Point>, adjust: Option<bool>, rtl: Option<bool>)
      ensures pinElement == pin && baseElement == base && pinFollowBaseElementWhenFixed == pinFollow
      ensures align == (if requested == "" then "tl tl" else requested)
      ensures offset == (if nudge.Some? then nudge.value else Point(0.0, 0.0))
      ensures autoFit == (fit.Some? && fit.value)
      ensures needAdjust == (adjust.Some? && adjust.value)
      ensures isRtl == (rtl.Some? && rtl.value)
      ensures container.Ancestor? ==> container.depth < |containerPath|
                                      && containerPath[container.depth].position != Static
                                      && !containerPath[container.depth].isBody
      ensures container.Ancestor? ==> forall j :: 0 <= j < container.depth
                                        ==> containerPath[j].position == Static && !containerPath[j].isBody
      ensures container == Body <==> |containerPath| == 0
                                     || exists k {:trigger containerPath[k]} :: 0 <= k < |containerPath| && containerPath[k].isBody
                                          && forall j :: 0 <= j < k ==> containerPath[j].position == Static && !containerPath[j].isBody
      ensures container == Detached ==> |containerPath| > 0
                                        && forall j :: 0 <= j < |containerPath| ==> containerPath[j].position == Static && !containerPath[j].isBody
    {
      var resolved := GetContainer(containerPath);
      pinElement := pin;
      baseElement := base;
      pinFollowBaseElementWhenFixed := pinFollow;
      container := resolved;
      autoFit := fit.Some? && fit.value;
      align := if requested == "" then "tl tl" else requested;
      offset := if nudge.Some? then nudge.value else Point(0.0, 0.0);
      needAdjust := adjust.Some? && adjust.value;
      isRtl := rtl.Some? && rtl.value;
    }

    /** `_setPinElementPostion`. */
    method SetPinElementPosition(pin: PinElement, g: Geometry, p: Point, nudge: Point)
      modifies pin
      ensures pin.Current() == WritePosition(isRtl, g, old(pin.Current()), p, nudge)
    {
      if !isRtl {
        pin.left := Px(p.left + nudge.left);
        pin.top := Px(p.top + nudge.top);
        return;
      }
      var right := g.parentWidth - (p.left + g.pinSize.width);
      pin.left := Auto;
      pin.right := Px(right + nudge.left);
      pin.top := Px(p.top + nudge.top);
    }

    /** `_getElementRect(pinElement, container)` on the pin as styled now. */
    method MeasurePin(pin: PinElement, g: Geometry) returns (r: Rect)
      ensures r == PinRect(Settings(), g, pin.Current())
    {
      r := GetElementRect(PinChain(g, pin.Current()), g.pinSize, IsWindow(container), g.docScroll, g.bodyScroll);
    }

    /** `setPosition`: try the candidates in order, writing each on the pin,
        and stop at the first that fits; if none does, write the clamped
        provisional position of the first and report the first. Working out
        that fallback's offset throws when it has to measure the viewport
        sentinel as the base; the pin then keeps the last try. */
    method SetPosition(g: Geometry) returns (result: Outcome)
      requires WellFormed(align)
      modifies if pinElement.PinNode? then {pinElement.el} else {}
      ensures pinElement.PinViewport? ==> result == NoPin
      ensures pinElement.PinNode? ==>
        var s0 := old(pinElement.el.Current());
        var (chosen, style) := PlacementOf(Settings(), g, s0);
        if FallsBack(Settings(), g, s0) && FallbackMeasuresViewport(Settings())
        then result == Threw && pinElement.el.Current() == LastTried(Settings(), g, s0)
        else result == Placed(chosen) && pinElement.el.Current() == style
    {
      if pinElement.PinViewport? {
        return NoPin;
      }
      var pin := pinElement.el;
      var expected := ExpectedAlign(align, isRtl, needAdjust);
      CandidatesWellFormed(align, isRtl, needAdjust);
      ghost var s0 := pin.Current();
      var isPinFixed := pin.position == Fixed;
      if !isPinFixed {
        pin.position := Absolute;
      }
      var found, first := Search(pin, g, s0, expected, isPinFixed);
      FallsBackIffNoneFits(Settings(), g, s0);
      if found.Some? {
        PlacementOfFirstFit(Settings(), g, s0, found.value);
        return Placed(expected[found.value]);
      }
      if autoFit && !IsWindow(container) && baseElement.BaseViewport? {
        return Threw;
      }
      PlacementOfNoneFits(Settings(), g, s0);
      WriteFallback(pin, g, s0, expected, first, isPinFixed);
      return Placed(expected[0]);
    }

    /** The loop of `setPosition`: write each candidate on the pin in turn
        and stop at the first that fits, recording the provisional result of
        the first that does not. */
    method Search(pin: PinElement, g: Geometry, ghost s0: Style, expected: seq<string>, isPinFixed: bool)
      returns (found: Option<nat>, first: Point)
      requires AllWellFormed(expected) && |expected| > 0 && isPinFixed == IsPinFixed(s0)
      requires pin.Current() == Forced(s0)
      modifies pin
      ensures SearchResult(Settings(), g, s0, expected, found, pin.Current(), first)
    {
      first := Point(0.0, 0.0);
      var i := 0;
      while i < |expected|
        invariant i <= |expected|
        invariant SearchedUpTo(Settings(), g, s0, expected, i, pin.Current(), first)
      {
        var fits;
        fits, first := TryCandidate(pin, g, s0, expected, i, first, isPinFixed);
        if fits {
          return Some(i), first;
        }
        i := i + 1;
      }
      SearchExhausted(Settings(), g, s0, expected, pin.Current(), first);
      return None, first;
    }

    /** One turn of the search: write the position of candidate i on the pin,
        measure the pin where it now is and test it against the container; a
        fit ends the search, a miss on the first turn records the candidate's
        provisional result (`!firstPositionResult` holds exactly then, as
        every later turn follows a miss). */
    method TryCandidate(pin: PinElement, g: Geometry, ghost s0: Style, expected: seq<string>, i: nat,
                        first: Point, isPinFixed: bool)
      returns (fits: bool, next: Point)
      requires AllWellFormed(expected) && i < |expected| && isPinFixed == IsPinFixed(s0)
      requires SearchedUpTo(Settings(), g, s0, expected, i, pin.Current(), first)
      modifies pin
      ensures fits ==> SearchResult(Settings(), g, s0, expected, Some(i), pin.Current(), next)
      ensures !fits ==> SearchedUpTo(Settings(), g, s0, expected, i + 1, pin.Current(), next)
    {
      ghost var before := pin.Current();
      var a := expected[i];
      var p := CandidatePosition(Settings(), g, a, isPinFixed);
      RewriteIsTried(Settings(), g, s0, pin.Current(), a);
      SetPinElementPosition(pin, g, p, offset);
      var rect := MeasurePin(pin, g);
      FitsOfMeasured(Settings(), g, s0, a, rect);
      fits := InViewport(autoFit, ViewportSize(container, g.docClient, g.containerSize), rect, g.pinSize, a);
      next := first;
      if fits {
        SearchFound(Settings(), g, s0, expected, i, before, first, pin.Current());
        return;
      }
      if i == 0 {
        next := RecordProvisional(g, s0, a, p, rect);
      }
      SearchStep(Settings(), g, s0, expected, i, before, first, pin.Current(), next);
    }

    /** `firstPositionResult`: the position of the first candidate that did
        not fit, pulled in by its overflow at the right edge when adjusting. */
    method RecordProvisional(g: Geometry, ghost s0: Style, a: string, p: Point, rect: Rect) returns (first: Point)
      requires WellFormed(a)
      requires p == CandidatePosition(Settings(), g, a, IsPinFixed(s0))
      requires rect == PinRect(Settings(), g, Tried(Settings(), g, s0, a))
      ensures first == Provisional(Settings(), g, s0, a)
    {
      ProvisionalOfMeasured(Settings(), g, s0, a, p, rect);
      if needAdjust && !autoFit {
        var right := ViewportOffset(ViewportSize(container, g.docClient, g.containerSize), rect, g.pinSize, a).right;
        first := Point(if right < 0.0 then p.left + right else p.left, p.top);
      } else {
        first := p;
      }
    }

    /** The end of `setPosition` when no candidate fitted: clamp the recorded
        position, work out the first candidate's offset, write both. */
    method WriteFallback(pin: PinElement, g: Geometry, ghost s0: Style, expected: seq<string>,
                         first: Point, isPinFixed: bool)
      requires AllWellFormed(expected) && |expected| > 0
      requires isPinFixed == IsPinFixed(s0)
      requires pin.Current() == Tried(Settings(), g, s0, expected[|expected| - 1])
      requires first == Provisional(Settings(), g, s0, expected[0])
      modifies pin
      ensures pin.Current() == FallbackStyle(Settings(), g, s0, expected)
    {
      var inViewportLeft := MakeElementInViewport(first.left, isPinFixed, ParentIsStaticBody(g),
                                                  g.docScroll.left, g.bodyScroll.left);
      var inViewportTop := MakeElementInViewport(first.top, isPinFixed, ParentIsStaticBody(g),
                                                 g.docScroll.top, g.bodyScroll.top);
      var pinRect := MeasurePin(pin, g);
      var baseRect := Rect(0.0, 0.0, 0.0, 0.0);
      if baseElement.BaseNode? {
        baseRect := GetElementRect([baseElement.box] + baseElement.ancestors, baseElement.size,
                                   IsWindow(container), g.docScroll, g.bodyScroll);
      }
      var vs := ViewportSize(container, g.docClient, g.containerSize);
      var nudge := CalPinOffset(offset, autoFit, container, expected[0], baseRect, pinRect, vs);
      SetPinElementPosition(pin, g, Point(inViewportLeft, inViewportTop), nudge);
    }
  }

  /** `Position.place`: construct an engine and place once. */
  method Place(pin: PinTarget, base: BaseTarget, pinFollow: bool, containerPath: seq<DomNode>,
               fit: Option<bool>, requested: string, nudge: Option<Point>, adjust: Option<bool>, rtl: Option<bool>,
               g: Geometry)
    returns (result: Outcome)
    requires requested == "" || WellFormed(requested)
    modifies if pin.PinNode? then {pin.el} else {}
    ensures pin.PinViewport? ==> result == NoPin
    ensures pin.PinNode? ==> result != NoPin
    ensures result == Threw ==> fit.Some? && fit.value && base.BaseViewport?
  {
    var engine := new Position(pin, base, pinFollow, containerPath, fit, requested, nudge, adjust, rtl);
    assert WellFormed("tl tl");
    result := engine.SetPosition(g);
  }
}
