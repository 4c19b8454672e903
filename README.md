# Overlay placement engine, modelled in Dafny

This project models the `Position` engine of the overlay component
(`src/overlay/utils/position.js`). The engine places a *pin* element, such as
a popup, against a *base* element, such as its trigger. The alignment says which
anchor of the pin touches which anchor of the base. For example, `"tl bl"` puts
the pin's top-left corner on the base's bottom-left corner.

`setPosition` builds a list of candidate alignments: the request (mirrored
left/right in right-to-left mode), followed, when `needAdjust` is set, by its
vertical flip, horizontal flip, centre-to-left and centre-to-right rewrites and
diagonal flip. It writes each candidate's position on the pin's inline style in
turn and returns the first candidate for which the pin lies inside its
container. The container check applies a one-pixel margin at the right and bottom
edges, waived on an edge where pin and base are aligned, and auto-fit checks only the vertical extent. If no candidate
fits, the engine writes the first candidate's provisional position. When
`needAdjust` is set and `autoFit` is not, that position is pulled left by its
right-edge overflow. A negative
coordinate is then raised to 0 for a fixed pin, or to the larger of the
document's and the body's scroll when the pin's offset parent is a static body;
any other coordinate is kept. The engine then reports the first candidate. When
auto-fit is on inside a real container, working out that fallback's offset
measures the base, and for the viewport as base the source throws a
`TypeError`; the model reports this as `Threw`.

The files:

- `align.dfy` (`Alignment`): alignment codes, the regular-expression rewrites
  of `_replaceAlignDir`, and the candidate list of `_getExpectedAlign` (a method
  building the list by pushes, proved equal to the function `Candidates`).
- `coordinates.dfy` (`Coordinates`): anchor points (`_xyConverter`,
  `_normalizeXY`), page offsets, and the clamp `_makeElementInViewport`.
- `containers.dfy` (`Containers`): `getContainer` (a loop up the ancestors)
  and `_getElementRect` (a do-while loop up the offsetParent chain), each
  proved against a specification.
- `collision.dfy` (`Collision`): `_getViewportOffset`, `_isInViewport`, and
  `_calPinOffset`.
- `placement.dfy` (`Placement`): the pin as a mutable object whose style the
  engine writes, the `Position` class with its constructor, `setPosition` and
  `_setPinElementPostion`, and `Position.place`. `SetPosition` is proved against
  the specification function `PlacementOf`.
- `placement_properties.dfy` (`PlacementProperties`): what one placement
  promises: first fit wins, the pin fits where it is left, the fallback stays
  on the page, the adjusted fallback meets the right bound, right-to-left output
  leaves the pin on the rectangle that left-to-right output of the mirrored
  request with the negated horizontal offset would (for an offset parent
  without borders or scrollbar; see "Left out"), and placing twice changes
  nothing.

Everything the engine reads from the page is a `Geometry` snapshot that stays
fixed for one placement. The pin's offset within its offset parent is its
effective inline `left`/`top` plus a constant of the page (`pinMargin`). So
moving the pin by its style moves its measured rectangle by the same amount
(`PinRectFollowsStyle`). Pixels are exact reals.

## Model

| member | source | states |
|---|---|---|
| Alignment.ReplaceFrom | src/overlay/utils/position.js:427-431 | the left-to-right scan of a global replace: same length as the suffix scanned, each character rewritten exactly where the pattern matches |
| Alignment.ReplaceAlignDir | src/overlay/utils/position.js:427-431 | the rewrite keeps the length, replaces every matched character through the map, and leaves every unmatched character as it was |
| Alignment.ExpectedAlign | src/overlay/utils/position.js:400-424 | the list pushed is exactly the candidate list: the (mirrored) request, then the fallbacks in their fixed order |
| Alignment.CandidatesWithoutAdjust | src/overlay/utils/position.js:400-403 | without needAdjust the list is the single request, mirrored only in right-to-left mode |
| Alignment.CandidatesShape | src/overlay/utils/position.js:402-421 | with needAdjust the length is 2 + [t or b] + [l or r] + 2·[c]; the request comes first and the diagonal flip last |
| Alignment.CornerCandidates | src/overlay/utils/position.js:402-421 | a corner alignment yields exactly request, vertical flip, horizontal flip and diagonal flip |
| Alignment.ReplaceKeepsWellFormed | src/overlay/utils/position.js:427-431 | each rewrite the engine uses maps a well-formed alignment to a well-formed one |
| Alignment.CandidatesWellFormed | src/overlay/utils/position.js:400-424 | every candidate of a well-formed request is well-formed |
| Alignment.CentreKeepsVertical | src/overlay/utils/position.js:411-412 | the centre rewrite never touches the vertical character of either code |
| Alignment.CentreOnlyVerticalRepeats | src/overlay/utils/position.js:410-413 | when the only `c` is vertical, the two centre rewrites return the alignment unchanged |
| Alignment.CentreLeftCandidates | src/overlay/utils/position.js:400-424 | "cl cl" with adjustment gives ["cl cl", "cr cr", "cl cl", "cl cl", "cr cr"] |
| Alignment.CentreLeftMentions | src/overlay/utils/position.js:404-413 | "cl cl" passes the left/right and centre tests but not the top/bottom test |
| Alignment.CentreLeftRewrites | src/overlay/utils/position.js:407-421 | the horizontal and diagonal flips of "cl cl" are "cr cr"; both centre rewrites leave it unchanged |
| Alignment.MirrorInvolution | src/overlay/utils/position.js:401 | mirroring left/right twice gives back any string |
| Alignment.DiagonalIsBothFlips | src/overlay/utils/position.js:414-421 | the diagonal fallback equals the vertical flip of the horizontal flip |
| Alignment.FlipsChangeAlignedEdge | src/overlay/utils/position.js:433-443 | a horizontal flip undoes right alignment and a vertical flip undoes bottom alignment; each flip keeps the other axis's alignment |
| Coordinates.XyConverter | src/overlay/utils/position.js:325-335 | `t`/`l` give 0, `c` gives size/2 and `b`/`r` give size, in either case; a digit, which no pattern rewrites, gives its own value; any other character gives 0; a letter's anchor lies within [0, size] for a non-negative size |
| Coordinates.NormalizeXY | src/overlay/utils/position.js:315-323 | the second letter picks the horizontal anchor (`l` the left edge, `c` the centre, `r` the right edge) and the first the vertical one (`t`, `c`, `b`); for anchor letters the point lies inside the box |
| Coordinates.AnchorOfOpposite | src/overlay/utils/position.js:325-335 | the opposite letter measures the same distance from the other edge |
| Coordinates.MakeElementInViewport | src/overlay/utils/position.js:289-305 | non-negative values are kept; a negative value becomes exactly 0 for a fixed pin, exactly the larger of the document's and the body's scroll under a static body, and stays otherwise; with non-negative scrolls it never decreases a value |
| Coordinates.MakeElementInViewportIdempotent | src/overlay/utils/position.js:289-305 | clamping twice is clamping once |
| Containers.GetContainer | src/overlay/utils/position.js:101-121 | the result is the nearest non-static ancestor that is not the body; the body when the walk reaches the body first, or nothing was found; null when every node is static |
| Containers.GetElementRect | src/overlay/utils/position.js:38-79 | the do-while loop computes the offsetParent-chain rectangle `ElementRect` |
| Containers.NetOffsetAgree | src/overlay/utils/position.js:46-64 | the walk from a position depends only on the boxes from there up |
| Containers.RectFollowsOwnOffset | src/overlay/utils/position.js:38-79 | moving an element within its offset parent moves its rectangle by the same amount and nothing else |
| Containers.NetOffsetStopsAtContainer | src/overlay/utils/position.js:46-64 | the walk never reads past the container |
| Containers.RectIgnoresAboveContainer | src/overlay/utils/position.js:38-79 | boxes above the container do not affect an element's rectangle |
| Collision.InViewport | src/overlay/utils/position.js:446-470 | the pin fits exactly when no edge measured by `_getViewportOffset` overflows; in auto-fit mode only top and bottom count |
| Collision.ViewportOffset | src/overlay/utils/position.js:472-486 | the left and top margins are the rectangle's own; across each axis the two margins and the pin exactly fill the bounds, which are one pixel short unless pin and base align on that edge |
| Collision.FlushRightFitsOnlyWhenRightAligned | src/overlay/utils/position.js:451-455 | a pin flush with the right edge fits only when pin and base are right-aligned |
| Collision.AutoFitIgnoresHorizontal | src/overlay/utils/position.js:457-461 | in auto-fit mode moving the pin sideways never changes the verdict |
| Collision.CalPinOffset | src/overlay/utils/position.js:234-250 | the horizontal offset is never changed; the configured offset is returned unless auto-fit applies in a real container and the pin overflows vertically; the new vertical offset is minus the base's top, less its height for a `t` anchor |
| Placement.NoneFitsExtend | src/overlay/utils/position.js:173-219 | a candidate that fails extends the run of failures |
| Placement.FirstFit | src/overlay/utils/position.js:173-207 | the search stops at the first verdict that is a fit, every earlier verdict being a miss; it finds nothing only when every verdict is a miss |
| Placement.FirstFitIs | src/overlay/utils/position.js:173-207 | a fit at k with misses before it is what the search finds |
| Placement.FirstFitNone | src/overlay/utils/position.js:221-231 | with no fit the search finds nothing |
| Placement.FirstFitOfVerdicts | src/overlay/utils/position.js:173-219 | what the search finds, stated for the candidates: the candidate found fits and none before it does; finding nothing means none fits |
| Placement.RewriteIsTried | src/overlay/utils/position.js:204 | writing a candidate over any earlier try leaves the same style as writing it over the start |
| Placement.PlacementOfFirstFit | src/overlay/utils/position.js:173-207 | when candidate k fits and none before it does, k is reported and the pin left where k put it |
| Placement.FallsBackIffNoneFits | src/overlay/utils/position.js:173-231 | the placement falls back exactly when no candidate fits |
| Placement.PlacementOfNoneFits | src/overlay/utils/position.js:221-231 | when no candidate fits, the first is reported and the clamped fallback written |
| Placement.Position.constructor | src/overlay/utils/position.js:124-134 | the defaults "tl tl", [0, 0] and false; the container is the one `getContainer` resolves: the nearest non-static ancestor below the body, the body, or null |
| Placement.Position.SetPinElementPosition | src/overlay/utils/position.js:489-509 | the pin's style becomes `left + offset`, `top + offset`; right to left `left: auto` with the `right` computed from the parent width |
| Placement.Position.MeasurePin | src/overlay/utils/position.js:448 | the rectangle measured is the pin's rectangle under its current style |
| Placement.Position.SetPosition | src/overlay/utils/position.js:151-232 | nothing for the viewport pin; a throw, with the pin where the last try left it, exactly when nothing fits and auto-fit inside a real container would measure the viewport as base; otherwise the alignment reported and the style left on the pin are those of `PlacementOf` on the style the pin had |
| Placement.Position.Search | src/overlay/utils/position.js:173-219 | the loop stops at a candidate that fits with none before it fitting, leaving the pin where that candidate put it; otherwise none fits, the pin is where the last try left it, and the recorded position is the first candidate's provisional result |
| Placement.Position.TryCandidate | src/overlay/utils/position.js:174-218 | one turn either ends the search at candidate i, which fits with none before it fitting and the pin where i put it, or adds candidate i to the run of misses, the pin left at i's try and the first candidate's provisional result recorded |
| Placement.Position.WriteFallback | src/overlay/utils/position.js:221-229 | the fallback write leaves the fallback style |
| Placement.Place | src/overlay/utils/position.js:149 | the viewport pin gets nothing; a node pin gets an alignment or a throw, and a throw only with auto-fit on and the viewport as base |
| PlacementProperties.PinRectFollowsStyle | src/overlay/utils/position.js:38-79 | the pin's rectangle moves exactly as its effective left and top do |
| PlacementProperties.ParentScrollAgreesWithWalk | src/overlay/utils/position.js:270-287 | the parent scroll a candidate position adds is the one the rectangle walk subtracts at the pin's own box |
| PlacementProperties.WrittenLeftEdge | src/overlay/utils/position.js:489-509 | after a write the pin's left edge is `left + offset`, or `left - offset` right to left, where the `right` written leaves it; the position is kept, and left to right the `right` too |
| PlacementProperties.RightToLeftScenario | src/overlay/utils/position.js:499-508 | a parent 500 wide, left 50 and a pin 100 wide give `right: 350px`, `left: auto` |
| PlacementProperties.BottomLeftScenario | src/overlay/utils/position.js:186-202 | base at (100, 100), 50×20, and "tl bl" put the pin at (100, 120) |
| PlacementProperties.PlacementReportsCandidate | src/overlay/utils/position.js:151-232 | the reported alignment is a candidate; without needAdjust it is the (mirrored) request |
| PlacementProperties.FitPlacementIsContained | src/overlay/utils/position.js:204-207 | if some candidate fits, an equal or earlier one is reported, none before it fits, and the pin as left passes the containment test |
| PlacementProperties.PlacementForcesAbsolute | src/overlay/utils/position.js:160-165 | the pin ends up `absolute` unless it was `fixed` |
| PlacementProperties.FallbackPlacement | src/overlay/utils/position.js:221-231 | left to right, when nothing fits, the first candidate is reported and the written left/top are the clamped provisional position plus the fallback offset |
| PlacementProperties.FallbackNotNegative | src/overlay/utils/position.js:221-223 | left to right, the clamped fallback of a fixed pin, or of one under a static body with non-negative document and body scrolls, is not negative before the offset |
| PlacementProperties.AdjustedFallbackMeetsRightBound | src/overlay/utils/position.js:209-214 | the adjusted fallback's right edge lies exactly on the container's right bound, when the first candidate overflows on the right and the clamp leaves the shifted left unchanged |
| PlacementProperties.TriedIgnoresOverwritten | src/overlay/utils/position.js:173-204 | a try depends on the earlier style only through the forced position and, left to right, the `right` length |
| PlacementProperties.VerdictsIgnoreOverwritten | src/overlay/utils/position.js:173-219 | so does every candidate's containment verdict |
| PlacementProperties.FallbackIgnoresOverwritten | src/overlay/utils/position.js:221-229 | so does the fallback |
| PlacementProperties.PlacementIgnoresOverwritten | src/overlay/utils/position.js:151-232 | so does the whole placement |
| PlacementProperties.PlacementKeepsWhatWritesKeep | src/overlay/utils/position.js:160-165 | a placement keeps the forced position and, left to right, the `right` length |
| PlacementProperties.PlacementIdempotent | src/overlay/utils/position.js:151-232 | placing again on an unchanged page reports the same alignment and writes the same style |
| PlacementProperties.RtlTriedAgrees | src/overlay/utils/position.js:489-509 | a right-to-left try puts the pin on the rectangle a left-to-right try with the negated horizontal offset does |
| PlacementProperties.RtlVerdictsAgree | src/overlay/utils/position.js:173-207 | every candidate gets the same containment verdict in both modes |
| PlacementProperties.RtlProvisionalAgrees | src/overlay/utils/position.js:208-218 | a candidate's provisional result is the same in both modes |
| PlacementProperties.RtlFallbackInputsAgree | src/overlay/utils/position.js:208-229 | the fallback's provisional position is the same in both modes, and its offset differs only in the sign of the horizontal part |
| PlacementProperties.RtlFallbackAgrees | src/overlay/utils/position.js:221-229 | the fallback write puts the pin on the same rectangle in both modes |
| PlacementProperties.RtlPlacementMirrorsLtr | src/overlay/utils/position.js:151-232 | right-to-left output reports the alignment, leaves the pin on the rectangle, and falls back exactly when, left-to-right output of the mirrored request with the negated horizontal offset would |

## Left out

- Reading the page (`getBoundingClientRect`, `dom.getStyle`, the offsetParent chains, `window.pageXOffset`, client sizes, border widths) is the `Geometry` snapshot and the `BaseTarget` fields. Browser layout is not modelled. The snapshot is assumed to agree with the container the constructor resolved.
- `_getSize`, `_normalizeElement`, `_normalizePosition`, `_getParentOffset`, `_getElementOffset` and `_getViewportSize` read the page. They appear only as the arithmetic they perform on the snapshot (`ParentOffset`, `ElementOffset`, `BaseOffset`, `CandidatePosition`, `ViewportSize`), without contracts of their own. `_getParentScrollOffset` is `ParentScrollOffset`, stated through `ParentScrollAgreesWithWalk`.
- `_isRightAligned` and `_isBottomAligned` are the predicates `IsRightAligned` and `IsBottomAligned`. Their meaning is stated where they are used: `FlipsChangeAlignedEdge`, `FlushRightFitsOnlyWhenRightAligned` and `ViewportOffset`.
- `ProvisionalOfMeasured`, `FitsOfMeasured`, `RewriteIsTried` and the method `RecordProvisional` are proof steps that connect the loop's measurements to the specification functions. `SearchedUpTo`, `SearchResult`, `SearchStep`, `SearchFound` and `SearchExhausted` state the search loop's invariant and its two exits; their content is that of `Search`'s row.
- `findNode` is not part of this model. `getContainer` receives the node it found followed by that node's ancestors. The server-side branch taken when there is no `document` is left out, because it is environment detection.
- `getContainer` assumes that reading the `position` of a null parent does not give `static`. A walk that runs off a detached tree therefore returns null, which is treated as the window.
- Floating-point rounding is not modelled: pixels are exact reals.
- Placement.Position.SetPosition, Placement.Place: require a well-formed alignment ("<v><h> <v><h>" in lower case); the design leaves malformed alignments undefined and the model excludes them. In the source, a missing code or one shorter than two characters throws a TypeError, because `split('')[1]` is undefined (`_normalizeXY` and `_xyConverter`, src/overlay/utils/position.js:316 and 326-327). An upper-case code such as "TL BL" is placed: `_xyConverter`'s case-insensitive patterns read its anchors (src/overlay/utils/position.js:327-329), but `_getExpectedAlign`'s patterns (src/overlay/utils/position.js:404-415) and `_isRightAligned`/`_isBottomAligned` (src/overlay/utils/position.js:436 and 442) match lower case only, so such a code gets no flipped candidates and no aligned-edge waiver of the one-pixel margin.
- The `TypeError` that `_getSize` raises for the viewport sentinel is the outcome `Threw`. The model does not carry the exception further. `PlacementOf` still gives a fallback for that case, but `SetPosition` reports `Threw` there instead.
- Placement.Place: states only which targets get a result. The result and the written style are stated by `SetPosition` on the constructed engine.
- A fallback upper bound of the clamp, within the container size, is not something the code does: `_makeElementInViewport` only raises negative values. The model follows the code.
- PlacementProperties.RtlPlacementMirrorsLtr (and `RtlTriedAgrees`, `RtlFallbackAgrees`): the model puts a right-anchored pin's left edge at the offset parent's width less `right` and the pin's width. That width is the border-box width the write itself measures (`_getElementRect` of the offset parent). A browser measures `right` from the offset parent's padding edge. With borders or a vertical scrollbar on the offset parent, the real pin therefore sits further left, by the right and left border widths or the scrollbar's width. The equivalence holds only for an offset parent with neither. Right-to-left output also writes different CSS properties (`right` instead of `left`), which behave differently when the parent's width later changes.
- The pin's style is modelled by the four properties the engine writes (`position`, `left`, `top`, `right`). Other inline styles are untouched by the engine and are not represented.
