/** What one placement promises: the reported alignment is the first
    candidate that fits (or the first candidate), the pin ends up where that
    candidate puts it (or at the clamped fallback), the fallback's horizontal
    adjustment lands on the container's right bound, right-to-left output
    leaves the pin where left-to-right output of the mirrored request with
    the negated horizontal offset would (when the offset parent has no
    borders or scrollbar, which the model's right-anchored edge assumes),
    and placing twice on an unchanged page changes nothing. */
module PlacementProperties {
  import opened Alignment
  import opened Coordinates
  import opened Containers
  import opened Collision
  import opened Placement

  /** The pin's rectangle moves exactly as its effective left and top do:
      the rest of the offsetParent chain is a constant of the page. */
  lemma PinRectFollowsStyle(c: Config, g: Geometry, s: Style, t: Style)
    ensures PinRect(c, g, t).left == PinRect(c, g, s).left + (EffectiveLeft(g, t) - EffectiveLeft(g, s))
    ensures PinRect(c, g, t).top == PinRect(c, g, s).top + (EffectiveTop(t) - EffectiveTop(s))
    ensures PinRect(c, g, t).width == g.pinSize.width && PinRect(c, g, t).height == g.pinSize.height
  {
    var chain := PinChain(g, s);
    var dx := EffectiveLeft(g, t) - EffectiveLeft(g, s);
    var dy := EffectiveTop(t) - EffectiveTop(s);
    RectFollowsOwnOffset(chain, dx, dy, g.pinSize, IsWindow(c.container), g.docScroll, g.bodyScroll);
    var moved := [chain[0].(offsetLeft := Finite(chain[0].offsetLeft.v + dx),
                            offsetTop := Finite(chain[0].offsetTop.v + dy))] + chain[1..];
    assert moved == PinChain(g, t);
  }

  /** The parent scroll a candidate position adds is the one the offset walk
      subtracts at the pin's own box, whatever the pin's style. */
  lemma ParentScrollAgreesWithWalk(g: Geometry, s: Style)
    ensures ParentScrollOffset(g) == ParentScroll(PinChain(g, s), 0)
  {
    var chain := PinChain(g, s);
    assert chain[1..] == g.pinAncestors;
  }

  /** Where a write leaves the pin's left edge: `left + offset` left to
      right; right to left the `right` written leaves the left edge at
      `left - offset`, the pin's right edge `right` short of the parent's. */
  lemma WrittenLeftEdge(isRtl: bool, g: Geometry, s: Style, p: Point, offset: Point)
    ensures var w := WritePosition(isRtl, g, s, p, offset);
      && EffectiveLeft(g, w) == (if isRtl then p.left - offset.left else p.left + offset.left)
      && EffectiveTop(w) == p.top + offset.top
      && (isRtl ==> w.left == Auto && w.right.Px?
                    && w.right.v + EffectiveLeft(g, w) + g.pinSize.width == g.parentWidth)
      && (!isRtl ==> w.right == s.right)
      && w.position == s.position
  {
  }

  /** A parent 500px wide, a computed left of 50 and a pin 100px wide give
      `right: 350px` and `left: auto`. */
  lemma RightToLeftScenario(g: Geometry, s: Style)
    requires g.parentWidth == 500.0 && g.pinSize.width == 100.0
    ensures WritePosition(true, g, s, Point(50.0, 0.0), Point(0.0, 0.0)).right == Px(350.0)
    ensures WritePosition(true, g, s, Point(50.0, 0.0), Point(0.0, 0.0)).left == Auto
  {
  }

  /** Base at page offset (100, 100), 50x20; pin 30x10 under a static body;
      "tl bl" puts the pin's top-left at (100, 120), the base's bottom-left. */
  lemma BottomLeftScenario(c: Config, g: Geometry)
    requires c.base.BaseNode? && c.base.size == Size(50.0, 20.0)
    requires ElementOffset(c.base.clientRect, false, g.pageOffset, g.docClientEdge) == Point(100.0, 100.0)
    requires g.pinSize == Size(30.0, 10.0)
    requires ParentOffset(g) == Point(0.0, 0.0) && ParentScrollOffset(g) == Point(0.0, 0.0)
    ensures WellFormed("tl bl") && CandidatePosition(c, g, "tl bl", false) == Point(100.0, 120.0)
  {
    assert WellFormed("tl bl");
    assert "tl bl"[0..2] == "tl" && "tl bl"[3..5] == "bl";
  }

  /** The reported alignment is one of the candidates; without adjustment it
      is the request (mirrored right to left). */
  lemma PlacementReportsCandidate(c: Config, g: Geometry, s0: Style)
    requires WellFormed(c.align)
    ensures PlacementOf(c, g, s0).0 in Candidates(c.align, c.isRtl, c.needAdjust)
    ensures !c.needAdjust ==> PlacementOf(c, g, s0).0 == Requested(c.align, c.isRtl)
  {
    var cands := Candidates(c.align, c.isRtl, c.needAdjust);
    CandidatesWellFormed(c.align, c.isRtl, c.needAdjust);
    var f := FirstFit(Verdicts(c, g, s0, cands), 0);
    if f.Some? {
      assert PlacementOf(c, g, s0).0 == cands[f.value];
    }
  }

  /** If any candidate fits, the first that fits is reported, and the pin is
      left where it fits: the containment test holds of the written style. */
  lemma FitPlacementIsContained(c: Config, g: Geometry, s0: Style, k: nat)
    requires WellFormed(c.align)
    requires var cands := Candidates(c.align, c.isRtl, c.needAdjust);
      k < |cands| && AllWellFormed(cands) && Fits(c, g, s0, cands[k])
    ensures var cands := Candidates(c.align, c.isRtl, c.needAdjust);
      var (chosen, style) := PlacementOf(c, g, s0);
      exists j :: 0 <= j <= k && chosen == cands[j] && NoneFits(c, g, s0, cands, j)
                 && InViewport(c.autoFit, ContainerViewport(c, g), PinRect(c, g, style), g.pinSize, cands[j])
  {
    var cands := Candidates(c.align, c.isRtl, c.needAdjust);
    var v := Verdicts(c, g, s0, cands);
    assert v[k];
    FirstFitOfVerdicts(c, g, s0, cands);
    var j := FirstFit(v, 0).value;
    PlacementOfFirstFit(c, g, s0, j);
  }

  /** The pin ends up `absolute` unless it was `fixed`. */
  lemma PlacementForcesAbsolute(c: Config, g: Geometry, s0: Style)
    requires WellFormed(c.align)
    ensures PlacementOf(c, g, s0).1.position == (if s0.position == Fixed then Fixed else Absolute)
  {
    var cands := Candidates(c.align, c.isRtl, c.needAdjust);
    CandidatesWellFormed(c.align, c.isRtl, c.needAdjust);
    var f := FirstFit(Verdicts(c, g, s0, cands), 0);
  }

  /** When nothing fits, the reported alignment is the first candidate, and
      the written left and top are the clamped provisional position of the
      first candidate plus the fallback offset; that offset keeps the
      configured horizontal offset. */
  lemma FallbackPlacement(c: Config, g: Geometry, s0: Style)
    requires WellFormed(c.align) && !c.isRtl
    requires var cands := Candidates(c.align, c.isRtl, c.needAdjust);
      AllWellFormed(cands) && NoneFits(c, g, s0, cands, |cands|)
    ensures var cands := Candidates(c.align, c.isRtl, c.needAdjust);
      var (chosen, style) := PlacementOf(c, g, s0);
      var clamped := Clamped(g, s0, Provisional(c, g, s0, cands[0]));
      && chosen == cands[0]
      && style.left == Px(clamped.left + c.offset.left)
      && style.top == Px(clamped.top + FallbackOffset(c, g, s0, cands).top)
  {
    PlacementOfNoneFits(c, g, s0);
  }

  /** The clamped fallback stays on the page: for a fixed pin, or a pin
      whose offset parent is a static body (with scroll offsets that are not
      negative), neither written coordinate is less than its offset. */
  lemma FallbackNotNegative(c: Config, g: Geometry, s0: Style)
    requires WellFormed(c.align) && !c.isRtl
    requires var cands := Candidates(c.align, c.isRtl, c.needAdjust);
      AllWellFormed(cands) && NoneFits(c, g, s0, cands, |cands|)
    requires IsPinFixed(s0)
             || (ParentIsStaticBody(g) && 0.0 <= g.docScroll.left && 0.0 <= g.bodyScroll.left
                 && 0.0 <= g.docScroll.top && 0.0 <= g.bodyScroll.top)
    ensures var cands := Candidates(c.align, c.isRtl, c.needAdjust);
      var style := PlacementOf(c, g, s0).1;
      && style.left.Px? && style.top.Px?
      && style.left.v - c.offset.left >= 0.0
      && style.top.v - FallbackOffset(c, g, s0, cands).top >= 0.0
  {
    FallbackPlacement(c, g, s0);
  }

  /** With `needAdjust` (and not auto-fit), when no candidate fits and the
      first overflows on the right, the fallback pulls the pin left by the
      overflow: unless clamping intervenes, its right edge then lies exactly
      on the container's right bound. */
  lemma AdjustedFallbackMeetsRightBound(c: Config, g: Geometry, s0: Style)
    requires WellFormed(c.align) && c.needAdjust && !c.autoFit
    requires var cands := Candidates(c.align, c.isRtl, c.needAdjust);
      AllWellFormed(cands) && NoneFits(c, g, s0, cands, |cands|)
    requires var a := Candidates(c.align, c.isRtl, c.needAdjust)[0];
      ViewportOffset(ContainerViewport(c, g), PinRect(c, g, Tried(c, g, s0, a)), g.pinSize, a).right < 0.0
      && Provisional(c, g, s0, a).left >= 0.0
    ensures var a := Candidates(c.align, c.isRtl, c.needAdjust)[0];
      PinRect(c, g, PlacementOf(c, g, s0).1).left + g.pinSize.width == Bounds(ContainerViewport(c, g), a).width
  {
    var cands := Candidates(c.align, c.isRtl, c.needAdjust);
    var a := cands[0];
    PlacementOfNoneFits(c, g, s0);
    var first := Tried(c, g, s0, a);
    var last := Tried(c, g, s0, cands[|cands| - 1]);
    var p := CandidatePosition(c, g, a, IsPinFixed(s0));
    var right := ViewportOffset(ContainerViewport(c, g), PinRect(c, g, first), g.pinSize, a).right;
    var shifted := Clamped(g, s0, Provisional(c, g, s0, a));
    assert shifted.left == p.left + right;
    var offset := FallbackOffset(c, g, s0, cands);
    assert offset.left == c.offset.left;
    var final := WritePosition(c.isRtl, g, last, shifted, offset);
    assert PlacementOf(c, g, s0).1 == final;
    WrittenLeftEdge(c.isRtl, g, Forced(s0), p, c.offset);
    WrittenLeftEdge(c.isRtl, g, last, shifted, offset);
    assert EffectiveLeft(g, final) == EffectiveLeft(g, first) + right;
    PinRectFollowsStyle(c, g, first, final);
  }

  /** Tries depend on the pin's earlier style only through what the writes
      keep: the forced position, and left to right the `right` length. */
  lemma TriedIgnoresOverwritten(c: Config, g: Geometry, s0: Style, s1: Style, a: string)
    requires WellFormed(a)
    requires Forced(s0).position == Forced(s1).position
    requires !c.isRtl ==> s0.right == s1.right
    ensures Tried(c, g, s0, a) == Tried(c, g, s1, a)
  {
  }

  /** Two starting styles that agree on what the writes keep give every
      candidate the same verdict. */
  lemma VerdictsIgnoreOverwritten(c: Config, g: Geometry, s0: Style, s1: Style, cands: seq<string>)
    requires AllWellFormed(cands)
    requires Forced(s0).position == Forced(s1).position
    requires !c.isRtl ==> s0.right == s1.right
    ensures Verdicts(c, g, s0, cands) == Verdicts(c, g, s1, cands)
  {
    forall j | 0 <= j < |cands|
      ensures Verdicts(c, g, s0, cands)[j] == Verdicts(c, g, s1, cands)[j]
    {
      TriedIgnoresOverwritten(c, g, s0, s1, cands[j]);
    }
  }

  /** The fallback, too, depends only on what the writes keep. */
  lemma FallbackIgnoresOverwritten(c: Config, g: Geometry, s0: Style, s1: Style, cands: seq<string>)
    requires AllWellFormed(cands) && |cands| > 0
    requires Forced(s0).position == Forced(s1).position
    requires !c.isRtl ==> s0.right == s1.right
    ensures FallbackStyle(c, g, s0, cands) == FallbackStyle(c, g, s1, cands)
  {
    assert IsPinFixed(s0) == IsPinFixed(s1);
    TriedIgnoresOverwritten(c, g, s0, s1, cands[0]);
    TriedIgnoresOverwritten(c, g, s0, s1, cands[|cands| - 1]);
    assert Provisional(c, g, s0, cands[0]) == Provisional(c, g, s1, cands[0]);
    assert FallbackOffset(c, g, s0, cands) == FallbackOffset(c, g, s1, cands);
  }

  /** The starting style matters only through what the writes keep. */
  lemma PlacementIgnoresOverwritten(c: Config, g: Geometry, s0: Style, s1: Style)
    requires WellFormed(c.align)
    requires Forced(s0).position == Forced(s1).position
    requires !c.isRtl ==> s0.right == s1.right
    ensures PlacementOf(c, g, s0) == PlacementOf(c, g, s1)
  {
    var cands := Candidates(c.align, c.isRtl, c.needAdjust);
    CandidatesWellFormed(c.align, c.isRtl, c.needAdjust);
    VerdictsIgnoreOverwritten(c, g, s0, s1, cands);
    FirstFitOfVerdicts(c, g, s0, cands);
    FirstFitOfVerdicts(c, g, s1, cands);
    var f := FirstFit(Verdicts(c, g, s0, cands), 0);
    if f.Some? {
      PlacementOfFirstFit(c, g, s0, f.value);
      PlacementOfFirstFit(c, g, s1, f.value);
      TriedIgnoresOverwritten(c, g, s0, s1, cands[f.value]);
    } else {
      PlacementOfNoneFits(c, g, s0);
      PlacementOfNoneFits(c, g, s1);
      FallbackIgnoresOverwritten(c, g, s0, s1, cands);
    }
  }

  /** The style a placement leaves keeps what the writes keep of the style
      it started from. */
  lemma PlacementKeepsWhatWritesKeep(c: Config, g: Geometry, s0: Style)
    requires WellFormed(c.align)
    ensures var s1 := PlacementOf(c, g, s0).1;
      Forced(s1).position == Forced(s0).position && (!c.isRtl ==> s1.right == s0.right)
  {
    var cands := Candidates(c.align, c.isRtl, c.needAdjust);
    CandidatesWellFormed(c.align, c.isRtl, c.needAdjust);
    PlacementForcesAbsolute(c, g, s0);
    FirstFitOfVerdicts(c, g, s0, cands);
    var f := FirstFit(Verdicts(c, g, s0, cands), 0);
    if f.Some? {
      PlacementOfFirstFit(c, g, s0, f.value);
    } else {
      PlacementOfNoneFits(c, g, s0);
      var last := Tried(c, g, s0, cands[|cands| - 1]);
      assert !c.isRtl ==> last.right == s0.right;
    }
  }

  /** Placing again on an unchanged page reports the same alignment and
      writes the same style. */
  lemma PlacementIdempotent(c: Config, g: Geometry, s0: Style)
    requires WellFormed(c.align)
    ensures PlacementOf(c, g, PlacementOf(c, g, s0).1) == PlacementOf(c, g, s0)
  {
    PlacementKeepsWhatWritesKeep(c, g, s0);
    PlacementIgnoresOverwritten(c, g, s0, PlacementOf(c, g, s0).1);
  }

  // ---------------------------------------------------------------------
  // Right to left against left to right

  /** The left-to-right configuration a right-to-left one mirrors: the
      request flipped left/right up front (as the search itself does) and
      the horizontal offset negated (a right-to-left write pushes leftwards). */
  function Ltr(c: Config): Config {
    c.(isRtl := false, align := ReplaceAlignDir(c.align, FlipHorizontal),
       offset := Point(-c.offset.left, c.offset.top))
  }

  /** Each try puts the pin on the same rectangle in both modes. */
  lemma RtlTriedAgrees(c: Config, g: Geometry, s0: Style, a: string)
    requires c.isRtl && WellFormed(a)
    ensures PinRect(c, g, Tried(c, g, s0, a)) == PinRect(Ltr(c), g, Tried(Ltr(c), g, s0, a))
  {
    var rtl, ltr := Tried(c, g, s0, a), Tried(Ltr(c), g, s0, a);
    assert EffectiveLeft(g, rtl) == EffectiveLeft(g, ltr) && EffectiveTop(rtl) == EffectiveTop(ltr);
    assert PinChain(g, rtl) == PinChain(g, ltr);
  }

  /** Hence every candidate gets the same verdict in both modes. */
  lemma RtlVerdictsAgree(c: Config, g: Geometry, s0: Style, cands: seq<string>)
    requires c.isRtl && AllWellFormed(cands)
    ensures Verdicts(c, g, s0, cands) == Verdicts(Ltr(c), g, s0, cands)
  {
    forall j | 0 <= j < |cands|
      ensures Fits(c, g, s0, cands[j]) == Fits(Ltr(c), g, s0, cands[j])
    {
      RtlTriedAgrees(c, g, s0, cands[j]);
    }
  }

  /** The fallback's provisional position and offset in both modes: the
      same position, and offsets that differ only in the horizontal sign. */
  lemma RtlFallbackInputsAgree(c: Config, g: Geometry, s0: Style, cands: seq<string>)
    requires c.isRtl && AllWellFormed(cands) && |cands| > 0
    ensures Provisional(c, g, s0, cands[0]) == Provisional(Ltr(c), g, s0, cands[0])
    ensures FallbackOffset(c, g, s0, cands).left == -FallbackOffset(Ltr(c), g, s0, cands).left
    ensures FallbackOffset(c, g, s0, cands).top == FallbackOffset(Ltr(c), g, s0, cands).top
  {
    RtlProvisionalAgrees(c, g, s0, cands[0]);
    RtlTriedAgrees(c, g, s0, cands[|cands| - 1]);
  }

  /** A candidate's provisional result is the same in both modes. */
  lemma RtlProvisionalAgrees(c: Config, g: Geometry, s0: Style, a: string)
    requires c.isRtl && WellFormed(a)
    ensures Provisional(c, g, s0, a) == Provisional(Ltr(c), g, s0, a)
  {
    RtlTriedAgrees(c, g, s0, a);
  }

  /** The fallback write puts the pin on the same rectangle in both modes. */
  lemma RtlFallbackAgrees(c: Config, g: Geometry, s0: Style, cands: seq<string>)
    requires c.isRtl && AllWellFormed(cands) && |cands| > 0
    ensures PinRect(c, g, FallbackStyle(c, g, s0, cands)) == PinRect(Ltr(c), g, FallbackStyle(Ltr(c), g, s0, cands))
  {
    var l := Ltr(c);
    RtlFallbackInputsAgree(c, g, s0, cands);
    var p := Clamped(g, s0, Provisional(c, g, s0, cands[0]));
    WrittenLeftEdge(true, g, Tried(c, g, s0, cands[|cands| - 1]), p, FallbackOffset(c, g, s0, cands));
    WrittenLeftEdge(false, g, Tried(l, g, s0, cands[|cands| - 1]), p, FallbackOffset(l, g, s0, cands));
    assert PinChain(g, FallbackStyle(c, g, s0, cands)) == PinChain(g, FallbackStyle(l, g, s0, cands));
  }

  /** Right-to-left output reports the alignment, and leaves the pin on the
      rectangle, that left-to-right output of the mirrored request with the
      negated horizontal offset would; only the CSS property differs
      (`right` instead of `left`). */
  lemma RtlPlacementMirrorsLtr(c: Config, g: Geometry, s0: Style)
    requires c.isRtl && WellFormed(c.align)
    ensures WellFormed(Ltr(c).align)
    ensures PlacementOf(c, g, s0).0 == PlacementOf(Ltr(c), g, s0).0
    ensures PinRect(c, g, PlacementOf(c, g, s0).1) == PinRect(Ltr(c), g, PlacementOf(Ltr(c), g, s0).1)
    ensures FallsBack(c, g, s0) == FallsBack(Ltr(c), g, s0)
  {
    var l := Ltr(c);
    ReplaceKeepsWellFormed(c.align, FlipHorizontal);
    var cands := Candidates(c.align, c.isRtl, c.needAdjust);
    assert Candidates(l.align, l.isRtl, l.needAdjust) == cands;
    CandidatesWellFormed(c.align, c.isRtl, c.needAdjust);
    RtlVerdictsAgree(c, g, s0, cands);
    match FirstFit(Verdicts(c, g, s0, cands), 0)
    case Some(k) =>
      RtlTriedAgrees(c, g, s0, cands[k]);
    case None =>
      RtlFallbackAgrees(c, g, s0, cands);
  }
}
