/** Alignment codes of the overlay placement engine.

    A code is two characters: a vertical anchor (`t`op, `c`entre, `b`ottom)
    followed by a horizontal one (`l`eft, `c`entre, `r`ight). An alignment is
    the string "<pin code> <base code>", e.g. "tl bl": the top-left corner of
    the pin touches the bottom-left corner of the base. When the requested
    alignment overflows its container, the engine tries a fixed list of
    rewritten alignments; this module builds that list. */
module Alignment {

  predicate IsVertical(ch: char) { ch == 't' || ch == 'c' || ch == 'b' }

  predicate IsHorizontal(ch: char) { ch == 'l' || ch == 'c' || ch == 'r' }

  /** A well-formed alignment "<pin> <base>". The engine does not validate its
      input; everything that splits an alignment at the space needs this. */
  predicate WellFormed(a: string) {
    |a| == 5 && IsVertical(a[0]) && IsHorizontal(a[1]) && a[2] == ' '
    && IsVertical(a[3]) && IsHorizontal(a[4])
  }

  /** The regular expressions the engine rewrites alignments with, each with
      its replacement map. */
  datatype Pattern =
    | FlipVertical      // /t|b/g     with {t: 'b', b: 't'}
    | FlipHorizontal    // /l|r/g     with {l: 'r', r: 'l'}
    | FlipBoth          // /l|r|t|b/g with all four swaps
    | Centre(to: char)  // /c(?= |$)/g with {c: to}

  /** Does the pattern match the single character at position i of s? The
      centre pattern only matches a `c` followed by a space or the end of
      the string, i.e. the horizontal character of a code. */
  predicate Matches(p: Pattern, s: string, i: nat)
    requires i < |s|
  {
    match p
    case FlipVertical => s[i] == 't' || s[i] == 'b'
    case FlipHorizontal => s[i] == 'l' || s[i] == 'r'
    case FlipBoth => s[i] == 't' || s[i] == 'b' || s[i] == 'l' || s[i] == 'r'
    case Centre(_) => s[i] == 'c' && (i + 1 == |s| || s[i + 1] == ' ')
  }

  /** The opposite side on the same axis: t <-> b, l <-> r. */
  function Opposite(ch: char): char {
    if ch == 't' then 'b'
    else if ch == 'b' then 't'
    else if ch == 'l' then 'r'
    else if ch == 'r' then 'l'
    else ch
  }

  /** The replacement map applied to a matched character. */
  function Substitute(p: Pattern, ch: char): char {
    match p
    case Centre(to) => to
    case _ => Opposite(ch)
  }

  /** What one character of s becomes under the rewrite. */
  function RewriteAt(p: Pattern, s: string, i: nat): char
    requires i < |s|
  {
    if Matches(p, s, i) then Substitute(p, s[i]) else s[i]
  }

  /** The rewritten suffix s[k..], scanned left to right as String.replace
      does with a global pattern. */
  function ReplaceFrom(s: string, p: Pattern, k: nat): (r: string)
    requires k <= |s|
    ensures |r| == |s| - k
    ensures forall i :: 0 <= i < |r| ==> r[i] == RewriteAt(p, s, k + i)
    decreases |s| - k
  {
    if k == |s| then [] else [RewriteAt(p, s, k)] + ReplaceFrom(s, p, k + 1)
  }

  /** `_replaceAlignDir`: rewrite every match of the pattern through its map,
      leaving every other character untouched. */
  function ReplaceAlignDir(s: string, p: Pattern): (r: string)
    ensures |r| == |s|
    ensures forall i {:trigger r[i]} :: 0 <= i < |s| && !Matches(p, s, i) ==> r[i] == s[i]
    ensures forall i {:trigger r[i]} :: 0 <= i < |s| && Matches(p, s, i) ==> r[i] == Substitute(p, s[i])
  {
    ReplaceFrom(s, p, 0)
  }

  /** `/[chs]/g.test(s)`: some character of s is one of chs. */
  predicate Mentions(s: string, chs: set<char>) {
    exists i :: 0 <= i < |s| && s[i] in chs
  }

  /** The requested alignment as the search starts: mirrored left/right in
      right-to-left mode. */
  function Requested(align: string, isRtl: bool): string {
    if isRtl then ReplaceAlignDir(align, FlipHorizontal) else align
  }

  /** The candidate alignments the placement search tries, in order: the
      request, then (when adjusting) its vertical flip, its horizontal flip,
      its centre-to-left and centre-to-right rewrites, and its diagonal flip
      last; each rewrite only when the request mentions what it rewrites. */
  function Candidates(align: string, isRtl: bool, needAdjust: bool): seq<string> {
    var a := Requested(align, isRtl);
    if !needAdjust then [a]
    else
      [a]
      + (if Mentions(a, {'t', 'b'}) then [ReplaceAlignDir(a, FlipVertical)] else [])
      + (if Mentions(a, {'l', 'r'}) then [ReplaceAlignDir(a, FlipHorizontal)] else [])
      + (if Mentions(a, {'c'}) then [ReplaceAlignDir(a, Centre('l'))] else [])
      + (if Mentions(a, {'c'}) then [ReplaceAlignDir(a, Centre('r'))] else [])
      + [ReplaceAlignDir(a, FlipBoth)]
  }

  /** `_getExpectedAlign`: builds the candidate list by pushing onto it. */
  method ExpectedAlign(align: string, isRtl: bool, needAdjust: bool) returns (expected: seq<string>)
    ensures expected == Candidates(align, isRtl, needAdjust)
  {
    var a := if isRtl then ReplaceAlignDir(align, FlipHorizontal) else align;
    expected := [a];
    if needAdjust {
      var tb, lr, c := Mentions(a, {'t', 'b'}), Mentions(a, {'l', 'r'}), Mentions(a, {'c'});
      if tb {
        expected := expected + [ReplaceAlignDir(a, FlipVertical)];
      }
      if lr {
        expected := expected + [ReplaceAlignDir(a, FlipHorizontal)];
      }
      if c {
        expected := expected + [ReplaceAlignDir(a, Centre('l'))];
        expected := expected + [ReplaceAlignDir(a, Centre('r'))];
      }
      expected := expected + [ReplaceAlignDir(a, FlipBoth)];
    }
  }

  /** `_isRightAligned`: the pin's and the base's right edges coincide. */
  predicate IsRightAligned(a: string)
    requires WellFormed(a)
  {
    a[1] == 'r' && a[1] == a[4]
  }

  /** `_isBottomAligned`: the pin's and the base's bottom edges coincide. */
  predicate IsBottomAligned(a: string)
    requires WellFormed(a)
  {
    a[0] == 'b' && a[0] == a[3]
  }

  function B2N(b: bool): nat { if b then 1 else 0 }

  // ---------------------------------------------------------------------
  // Properties of the candidate list

  /** Without `needAdjust` only the (possibly mirrored) request is tried. */
  lemma CandidatesWithoutAdjust(align: string, isRtl: bool)
    ensures Candidates(align, isRtl, false) == [Requested(align, isRtl)]
    ensures !isRtl ==> Candidates(align, isRtl, false) == [align]
  {
  }

  /** With `needAdjust` the list has one entry for the request, one per axis
      mentioned, two for a centre, and the diagonal flip; the request comes
      first and the diagonal flip last. */
  lemma CandidatesShape(align: string, isRtl: bool)
    ensures var a := Requested(align, isRtl);
      var c := Candidates(align, isRtl, true);
      && |c| == 2 + B2N(Mentions(a, {'t', 'b'})) + B2N(Mentions(a, {'l', 'r'})) + 2 * B2N(Mentions(a, {'c'}))
      && c[0] == a
      && c[|c| - 1] == ReplaceAlignDir(a, FlipBoth)
  {
  }

  /** A corner alignment (no centre anywhere) yields exactly four candidates:
      the request, its vertical flip, its horizontal flip, its diagonal. */
  lemma CornerCandidates(align: string, isRtl: bool)
    requires WellFormed(align)
    requires align[0] != 'c' && align[1] != 'c' && align[3] != 'c' && align[4] != 'c'
    ensures var a := Requested(align, isRtl);
      Candidates(align, isRtl, true)
      == [a, ReplaceAlignDir(a, FlipVertical), ReplaceAlignDir(a, FlipHorizontal), ReplaceAlignDir(a, FlipBoth)]
  {
    var a := Requested(align, isRtl);
    assert a[0] == align[0] && a[1] != 'c';
    assert Mentions(a, {'t', 'b'});
    assert Mentions(a, {'l', 'r'}) by { assert a[1] in {'l', 'r'}; }
    assert !Mentions(a, {'c'}) by {
      forall i | 0 <= i < |a| ensures a[i] !in {'c'} {
        assert i == 0 || i == 1 || i == 2 || i == 3 || i == 4;
      }
    }
  }

  /** Every rewrite maps a well-formed alignment to a well-formed one. */
  lemma ReplaceKeepsWellFormed(a: string, p: Pattern)
    requires WellFormed(a)
    requires p.Centre? ==> p.to == 'l' || p.to == 'r'
    ensures WellFormed(ReplaceAlignDir(a, p))
  {
    var r := ReplaceAlignDir(a, p);
    assert !Matches(p, a, 2);
    if p.Centre? {
      assert !Matches(p, a, 0) && !Matches(p, a, 3);
    }
  }

  /** All candidates of a well-formed request are well-formed. */
  lemma CandidatesWellFormed(align: string, isRtl: bool, needAdjust: bool)
    requires WellFormed(align)
    ensures forall k :: 0 <= k < |Candidates(align, isRtl, needAdjust)| ==> WellFormed(Candidates(align, isRtl, needAdjust)[k])
  {
    var a := Requested(align, isRtl);
    if isRtl { ReplaceKeepsWellFormed(align, FlipHorizontal); }
    ReplaceKeepsWellFormed(a, FlipVertical);
    ReplaceKeepsWellFormed(a, FlipHorizontal);
    ReplaceKeepsWellFormed(a, Centre('l'));
    ReplaceKeepsWellFormed(a, Centre('r'));
    ReplaceKeepsWellFormed(a, FlipBoth);
  }

  /** The centre pattern never touches the vertical character of a code. */
  lemma CentreKeepsVertical(a: string, to: char)
    requires WellFormed(a)
    ensures var r := ReplaceAlignDir(a, Centre(to));
      r[0] == a[0] && r[3] == a[3] && r[2] == ' '
  {
    assert !Matches(Centre(to), a, 0) && !Matches(Centre(to), a, 3);
    assert !Matches(Centre(to), a, 2);
  }

  /** A `c` that is only vertical ("cl cl") passes the `/c/` test but is not
      rewritten, so the centre substitutions repeat the alignment. */
  lemma CentreOnlyVerticalRepeats(a: string, to: char)
    requires WellFormed(a) && a[1] != 'c' && a[4] != 'c'
    ensures ReplaceAlignDir(a, Centre(to)) == a
  {
    var r := ReplaceAlignDir(a, Centre(to));
    forall i | 0 <= i < 5 ensures r[i] == a[i] {
      assert !Matches(Centre(to), a, i);
    }
  }

  /** The concrete instance: "cl cl" with adjustment tries the request three
      times and its horizontal flip twice. */
  lemma CentreLeftCandidates()
    ensures Candidates("cl cl", false, true) == ["cl cl", "cr cr", "cl cl", "cl cl", "cr cr"]
  {
    var a := "cl cl";
    CentreLeftMentions();
    CentreLeftRewrites();
    assert Candidates(a, false, true) == [a] + [] + ["cr cr"] + [a] + [a] + ["cr cr"];
  }

  /** Which letters "cl cl" mentions. */
  lemma CentreLeftMentions()
    ensures !Mentions("cl cl", {'t', 'b'}) && Mentions("cl cl", {'l', 'r'}) && Mentions("cl cl", {'c'})
  {
    var a := "cl cl";
    forall i | 0 <= i < |a| ensures a[i] !in {'t', 'b'} {
      assert i == 0 || i == 1 || i == 2 || i == 3 || i == 4;
    }
    assert a[1] in {'l', 'r'};
    assert a[0] in {'c'};
  }

  /** The rewrites of "cl cl". */
  lemma CentreLeftRewrites()
    ensures WellFormed("cl cl")
    ensures ReplaceAlignDir("cl cl", FlipHorizontal) == "cr cr"
    ensures ReplaceAlignDir("cl cl", FlipBoth) == "cr cr"
    ensures ReplaceAlignDir("cl cl", Centre('l')) == "cl cl"
    ensures ReplaceAlignDir("cl cl", Centre('r')) == "cl cl"
  {
    var a := "cl cl";
    assert WellFormed(a);
    CentreOnlyVerticalRepeats(a, 'l');
    CentreOnlyVerticalRepeats(a, 'r');
    assert Matches(FlipHorizontal, a, 1) && Matches(FlipHorizontal, a, 4);
    assert !Matches(FlipHorizontal, a, 0) && !Matches(FlipHorizontal, a, 2) && !Matches(FlipHorizontal, a, 3);
    assert Matches(FlipBoth, a, 1) && Matches(FlipBoth, a, 4);
    assert !Matches(FlipBoth, a, 0) && !Matches(FlipBoth, a, 2) && !Matches(FlipBoth, a, 3);
  }

  /** Mirroring left/right twice gives back any string: the right-to-left
      request of a right-to-left request is the original. */
  lemma MirrorInvolution(s: string)
    ensures ReplaceAlignDir(ReplaceAlignDir(s, FlipHorizontal), FlipHorizontal) == s
  {
    var m := ReplaceAlignDir(s, FlipHorizontal);
    var mm := ReplaceAlignDir(m, FlipHorizontal);
    forall i | 0 <= i < |s| ensures mm[i] == s[i] {
      if Matches(FlipHorizontal, s, i) {
        assert Matches(FlipHorizontal, m, i);
      } else {
        assert !Matches(FlipHorizontal, m, i);
      }
    }
  }

  /** The diagonal fallback is the vertical flip of the horizontal flip. */
  lemma DiagonalIsBothFlips(s: string)
    ensures ReplaceAlignDir(s, FlipBoth) == ReplaceAlignDir(ReplaceAlignDir(s, FlipHorizontal), FlipVertical)
  {
    var h := ReplaceAlignDir(s, FlipHorizontal);
    var hv := ReplaceAlignDir(h, FlipVertical);
    var d := ReplaceAlignDir(s, FlipBoth);
    forall i | 0 <= i < |s| ensures d[i] == hv[i] {
      if s[i] == 'l' || s[i] == 'r' {
        assert Matches(FlipHorizontal, s, i) && !Matches(FlipVertical, h, i);
      } else if s[i] == 't' || s[i] == 'b' {
        assert !Matches(FlipHorizontal, s, i) && Matches(FlipVertical, h, i);
      } else {
        assert !Matches(FlipHorizontal, s, i) && !Matches(FlipVertical, h, i);
      }
    }
  }

  /** The horizontal flip of a right-aligned pair is never right-aligned, and
      the vertical flip of a bottom-aligned pair is never bottom-aligned, so
      the one-pixel allowance at the far edge goes with the flip. */
  lemma FlipsChangeAlignedEdge(a: string)
    requires WellFormed(a)
    ensures WellFormed(ReplaceAlignDir(a, FlipHorizontal)) && WellFormed(ReplaceAlignDir(a, FlipVertical))
    ensures IsRightAligned(a) ==> !IsRightAligned(ReplaceAlignDir(a, FlipHorizontal))
    ensures IsBottomAligned(a) ==> !IsBottomAligned(ReplaceAlignDir(a, FlipVertical))
    ensures IsRightAligned(a) <==> IsRightAligned(ReplaceAlignDir(a, FlipVertical))
    ensures IsBottomAligned(a) <==> IsBottomAligned(ReplaceAlignDir(a, FlipHorizontal))
  {
    ReplaceKeepsWellFormed(a, FlipHorizontal);
    ReplaceKeepsWellFormed(a, FlipVertical);
    assert Matches(FlipHorizontal, a, 1) <==> a[1] == 'l' || a[1] == 'r';
    assert Matches(FlipVertical, a, 0) <==> a[0] == 't' || a[0] == 'b';
    assert !Matches(FlipHorizontal, a, 0) && !Matches(FlipHorizontal, a, 3);
    assert !Matches(FlipVertical, a, 1) && !Matches(FlipVertical, a, 4);
  }
}
