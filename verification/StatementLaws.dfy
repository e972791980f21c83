/** Splitting loses nothing but spaces and the semicolons it cuts at, and is stable. */
module StatementLaws {
  import opened Statements
  import opened Unicode
  import opened Wrappers

  // -------------------------------------------------------------------- where the scan cuts

  /** The state in which the scan from `i` meets position `p`, unless it steps over it. */
  ghost function Visited(s: string, i: nat, st: State, p: nat): Option<State>
    requires p < |s|
    decreases |s| - i
  {
    if i > p then None
    else if i == p then Some(st)
    else var (st', i') := Step(s, i, st); Visited(s, i', st', p)
  }

  /** A semicolon the scan meets outside literals and BEGIN blocks. */
  ghost predicate CutFrom(s: string, i: nat, st: State, p: nat)
    requires p < |s|
  {
    Visited(s, i, st, p).Some? && IsCut(s, p, Visited(s, i, st, p).value)
  }

  lemma {:induction false} FirstCutIsCut(s: string, i: nat, st: State)
    requires FirstCut(s, i, st) < |s|
    ensures CutFrom(s, i, st, FirstCut(s, i, st))
    decreases |s| - i
  {
    if !IsCut(s, i, st) {
      var (st', i') := Step(s, i, st);
      FirstCutIsCut(s, i', st');
    }
  }

  lemma {:induction false} NoCutBefore(s: string, i: nat, st: State, p: nat)
    requires p < FirstCut(s, i, st)
    ensures !CutFrom(s, i, st, p)
    decreases |s| - i
  {
    if i < p {
      var (st', i') := Step(s, i, st);
      NoCutBefore(s, i', st', p);
    }
  }

  lemma {:induction false} VisitedPast(s: string, i: nat, st: State, p: nat)
    requires FirstCut(s, i, st) < p < |s|
    ensures Visited(s, i, st, p) == Visited(s, FirstCut(s, i, st) + 1, AFTER_CUT, p)
    decreases |s| - i
  {
    if IsCut(s, i, st) {
      CutStep(s, i, st);
    } else {
      var (st', i') := Step(s, i, st);
      VisitedPast(s, i', st', p);
    }
  }

  // ------------------------------------------------------------------------ nothing is lost

  ghost function Emitted(s: string, lo: nat, hi: nat): seq<Range>
    requires lo <= hi <= |s|
  {
    var r := Trimmed(s, lo, hi);
    if r.lo < r.hi then [r] else []
  }

  /** Where the statements are. */
  ghost function RangesFrom(s: string, start: nat, cut: nat, next: nat -> nat): seq<Range>
    requires start <= cut <= |s| && Cutter(|s|, next)
    decreases |s| - cut
  {
    if cut < |s| then Emitted(s, start, cut) + RangesFrom(s, cut + 1, next(cut + 1), next)
    else Emitted(s, start, cut)
  }

  ghost function Ranges(s: string): seq<Range> {
    RangesFrom(s, 0, FirstCut(s, 0, INIT), NextCut(s))
  }

  ghost predicate IsTrimmed(s: string, start: nat, r: Range) {
    start <= r.lo < r.hi <= |s| && !IsSpace(s[r.lo]) && !IsSpace(s[r.hi - 1])
  }

  /** Trimmed, not empty, one after the other, none before `start`. */
  ghost predicate InOrder(s: string, start: nat, ranges: seq<Range>) {
    && (forall k :: 0 <= k < |ranges| ==> IsTrimmed(s, start, ranges[k]))
    && forall j, k :: 0 <= j < k < |ranges| ==> ranges[j].hi <= ranges[k].lo
  }

  ghost predicate Inside(p: nat, ranges: seq<Range>) {
    exists k :: 0 <= k < |ranges| && ranges[k].lo <= p < ranges[k].hi
  }

  ghost predicate AreTexts(s: string, ranges: seq<Range>, texts: seq<string>) {
    && |texts| == |ranges|
    && forall k :: 0 <= k < |ranges| ==>
       ranges[k].lo <= ranges[k].hi <= |s| && texts[k] == s[ranges[k].lo..ranges[k].hi]
  }

  lemma {:induction false} RangesInOrder(s: string, start: nat, cut: nat, next: nat -> nat)
    requires start <= cut <= |s| && Cutter(|s|, next)
    ensures InOrder(s, start, RangesFrom(s, start, cut, next))
    decreases |s| - cut
  {
    if cut < |s| {
      RangesInOrder(s, cut + 1, next(cut + 1), next);
      Prepend(s, start, cut, Emitted(s, start, cut), RangesFrom(s, cut + 1, next(cut + 1), next));
    }
  }

  lemma Prepend(s: string, start: nat, cut: nat, first: seq<Range>, rest: seq<Range>)
    requires start <= cut < |s| && first == Emitted(s, start, cut) && InOrder(s, cut + 1, rest)
    ensures InOrder(s, start, first + rest)
  {
    var all := first + rest;
    forall k | 0 <= k < |all| ensures IsTrimmed(s, start, all[k]) {
      if k >= |first| {
        assert all[k] == rest[k - |first|];
      }
    }
    forall j, k | 0 <= j < k < |all| ensures all[j].hi <= all[k].lo {
      assert all[k] == rest[k - |first|];
      if j >= |first| {
        assert all[j] == rest[j - |first|];
      }
    }
  }

  lemma {:induction false} RangesAreTexts(s: string, start: nat, cut: nat, next: nat -> nat)
    requires start <= cut <= |s| && Cutter(|s|, next)
    ensures AreTexts(s, RangesFrom(s, start, cut, next), SplitFrom(s, start, cut, next))
    decreases |s| - cut
  {
    if cut < |s| {
      RangesAreTexts(s, cut + 1, next(cut + 1), next);
      OneMoreText(s, Trimmed(s, start, cut), RangesFrom(s, cut + 1, next(cut + 1), next),
                  SplitFrom(s, cut + 1, next(cut + 1), next));
    }
  }

  lemma OneMoreText(s: string, r: Range, ranges: seq<Range>, texts: seq<string>)
    requires AreTexts(s, ranges, texts) && r.lo <= r.hi <= |s|
    ensures AreTexts(s, [r] + ranges, [s[r.lo..r.hi]] + texts) && [] + ranges == ranges && [] + texts == texts
  {
  }

  /** A position in none of the statements is a space or a cut, and a cut is in none. */
  ghost predicate Explained(s: string, p: nat, ranges: seq<Range>, isCut: bool)
    requires p < |s|
  {
    (!Inside(p, ranges) ==> IsSpace(s[p]) || isCut) && (isCut ==> !Inside(p, ranges))
  }

  lemma ExplainedUpToCut(s: string, i: nat, st: State, p: nat)
    requires i <= p < |s| && p <= FirstCut(s, i, st)
    ensures Explained(s, p, Emitted(s, i, FirstCut(s, i, st)), CutFrom(s, i, st, p))
  {
    var cut := FirstCut(s, i, st);
    if p < cut {
      NoCutBefore(s, i, st, p);
      InsideEmitted(s, i, cut, p);
    } else {
      FirstCutIsCut(s, i, st);
    }
  }

  lemma CutPast(s: string, i: nat, st: State, p: nat)
    requires FirstCut(s, i, st) < p < |s|
    ensures CutFrom(s, i, st, p) == CutFrom(s, FirstCut(s, i, st) + 1, AFTER_CUT, p)
  {
    VisitedPast(s, i, st, p);
  }

  /** The same of the first statement and of those after it, the cuts after it given. */
  lemma ExplainedHere(s: string, start: nat, cut: nat, next: nat -> nat, p: nat, isCut: bool)
    requires start <= p < |s| && start <= cut <= |s| && Cutter(|s|, next)
    requires p <= cut ==> Explained(s, p, Emitted(s, start, cut), isCut)
    requires p > cut ==> Explained(s, p, RangesFrom(s, cut + 1, next(cut + 1), next), isCut)
    ensures Explained(s, p, RangesFrom(s, start, cut, next), isCut)
  {
    if p > cut {
      ExplainedAfter(s, p, Emitted(s, start, cut), RangesFrom(s, cut + 1, next(cut + 1), next), isCut);
    } else if cut < |s| {
      RangesInOrder(s, cut + 1, next(cut + 1), next);
      ExplainedBefore(s, p, cut, Emitted(s, start, cut), RangesFrom(s, cut + 1, next(cut + 1), next), isCut);
    }
  }

  /** The next cuts are those of the scan. */
  ghost predicate CutsOf(s: string, next: nat -> nat) {
    forall k :: next(k) == FirstCut(s, k, AFTER_CUT)
  }

  lemma NextAt(s: string, next: nat -> nat, k: nat)
    requires CutsOf(s, next)
    ensures next(k) == FirstCut(s, k, AFTER_CUT)
  {
  }

  lemma OmittedStep(s: string, i: nat, st: State, p: nat, cut: nat, next: nat -> nat)
    requires i <= p < |s| && Cutter(|s|, next) && cut == FirstCut(s, i, st)
    requires p > cut ==> Explained(s, p, RangesFrom(s, cut + 1, next(cut + 1), next), CutFrom(s, cut + 1, AFTER_CUT, p))
    ensures Explained(s, p, RangesFrom(s, i, cut, next), CutFrom(s, i, st, p))
  {
    if p > cut {
      CutPast(s, i, st, p);
    } else {
      ExplainedUpToCut(s, i, st, p);
    }
    ExplainedHere(s, i, cut, next, p, CutFrom(s, i, st, p));
  }

  lemma {:induction false} Omitted(s: string, i: nat, st: State, p: nat, cut: nat, next: nat -> nat)
    requires i <= p < |s| && Cutter(|s|, next) && CutsOf(s, next) && cut == FirstCut(s, i, st)
    ensures Explained(s, p, RangesFrom(s, i, cut, next), CutFrom(s, i, st, p))
    decreases |s| - i
  {
    if p > cut {
      NextAt(s, next, cut + 1);
      Omitted(s, cut + 1, AFTER_CUT, p, next(cut + 1), next);
    }
    OmittedStep(s, i, st, p, cut, next);
  }

  lemma ExplainedAfter(s: string, p: nat, first: seq<Range>, rest: seq<Range>, isCut: bool)
    requires p < |s| && Explained(s, p, rest, isCut) && forall k :: 0 <= k < |first| ==> first[k].hi <= p
    ensures Explained(s, p, first + rest, isCut)
  {
    InsideRest(p, first, rest);
  }

  lemma ExplainedBefore(s: string, p: nat, cut: nat, first: seq<Range>, rest: seq<Range>, isCut: bool)
    requires p < |s| && Explained(s, p, first, isCut) && p <= cut && InOrder(s, cut + 1, rest)
    ensures Explained(s, p, first + rest, isCut)
  {
    InsideFirst(s, p, cut, first, rest);
  }

  lemma InsideRest(p: nat, first: seq<Range>, rest: seq<Range>)
    requires forall k :: 0 <= k < |first| ==> first[k].hi <= p
    ensures Inside(p, first + rest) <==> Inside(p, rest)
  {
    var all := first + rest;
    if Inside(p, rest) {
      var k :| 0 <= k < |rest| && rest[k].lo <= p < rest[k].hi;
      assert all[|first| + k] == rest[k];
    }
    if Inside(p, all) {
      var k :| 0 <= k < |all| && all[k].lo <= p < all[k].hi;
      assert k >= |first| && all[k] == rest[k - |first|];
    }
  }

  lemma InsideFirst(s: string, p: nat, cut: nat, first: seq<Range>, rest: seq<Range>)
    requires p <= cut && InOrder(s, cut + 1, rest)
    ensures Inside(p, first + rest) <==> Inside(p, first)
  {
    var all := first + rest;
    if Inside(p, first) {
      var k :| 0 <= k < |first| && first[k].lo <= p < first[k].hi;
      assert all[k] == first[k];
    }
    if Inside(p, all) {
      var k :| 0 <= k < |all| && all[k].lo <= p < all[k].hi;
      assert all[k] == first[k];
    }
  }

  lemma InsideEmitted(s: string, start: nat, cut: nat, p: nat)
    requires start <= p < cut <= |s|
    ensures !Inside(p, Emitted(s, start, cut)) ==> IsSpace(s[p])
  {
    var r := Trimmed(s, start, cut);
    if r.lo <= p < r.hi {
      assert Emitted(s, start, cut)[0] == r;
    }
  }

  /**
   The statements are the texts of ranges of the input that are not empty, trimmed
   and in order, and what they leave out is exactly spaces and the semicolons met
   outside literals and BEGIN blocks.
   */
  lemma SplitIsLossless(s: string)
    ensures AreTexts(s, Ranges(s), Split(s)) && InOrder(s, 0, Ranges(s))
    ensures forall p :: 0 <= p < |s| ==> Explained(s, p, Ranges(s), CutFrom(s, 0, INIT, p))
  {
    RangesAreTexts(s, 0, FirstCut(s, 0, INIT), NextCut(s));
    RangesInOrder(s, 0, FirstCut(s, 0, INIT), NextCut(s));
    forall p | 0 <= p < |s| ensures Explained(s, p, Ranges(s), CutFrom(s, 0, INIT, p)) {
      Omitted(s, 0, INIT, p, FirstCut(s, 0, INIT), NextCut(s));
    }
  }

  // ----------------------------------------------------------------------------- stability

  /** The scan goes on the same way from either state. */
  ghost predicate Alike(st: State, st': State) {
    st.mode == st'.mode && st.depth == st'.depth && RegexMayStart(st.prev) == RegexMayStart(st'.prev)
  }

  /** What can stand next to a statement: the ends, a space, a semicolon. */
  ghost predicate Gap(s: string, p: int) {
    0 <= p < |s| ==> IsSpace(s[p]) || s[p] == ';'
  }

  lemma Slices(s: string, lo: nat, hi: nat, j: nat, n: nat)
    requires lo <= hi <= |s| && j + n <= hi - lo
    ensures s[lo..hi][j..j + n] == s[lo + j..lo + j + n]
  {
    var t := s[lo..hi];
    assert forall k :: 0 <= k < |t| ==> t[k] == s[lo + k];
  }

  /** No letter of a keyword is a space or a semicolon, so a keyword does not reach past the end. */
  lemma SameKeyword(s: string, lo: nat, hi: nat, j: nat, kw: string)
    requires lo + j < hi <= |s| && Gap(s, hi)
    requires forall k :: 0 <= k < |kw| ==> 'A' <= kw[k] <= 'Z'
    ensures KeywordAt(s[lo..hi], j, kw) == KeywordAt(s, lo + j, kw)
  {
    var t := s[lo..hi];
    if j + |kw| <= |t| {
      Slices(s, lo, hi, j, |kw|);
    } else if lo + j + |kw| <= |s| {
      var u := Uppers(s[lo + j..lo + j + |kw|]);
      assert u[hi - lo - j] == Upper(s[hi]);
    }
  }

  lemma SameWordStart(s: string, lo: nat, hi: nat, j: nat)
    requires lo + j < hi <= |s| && Gap(s, lo - 1)
    ensures WordStartsAt(s[lo..hi], j) == WordStartsAt(s, lo + j)
  {
  }

  lemma SameDepth(s: string, lo: nat, hi: nat, j: nat, depth: nat)
    requires lo + j < hi <= |s| && Gap(s, lo - 1) && Gap(s, hi)
    ensures DepthAfter(s[lo..hi], j, depth) == DepthAfter(s, lo + j, depth)
  {
    SameWordStart(s, lo, hi, j);
    SameKeyword(s, lo, hi, j, "BEGIN");
    SameKeyword(s, lo, hi, j, "END");
  }

  /** A step inside a statement is the same step of the whole input. */
  lemma SameStep(s: string, lo: nat, hi: nat, j: nat, st: State, st': State)
    requires lo + j < hi <= |s| && Gap(s, lo - 1) && Gap(s, hi) && Alike(st, st')
    ensures Step(s, lo + j, st).1 == lo + Step(s[lo..hi], j, st').1
    ensures Alike(Step(s, lo + j, st).0, Step(s[lo..hi], j, st').0)
  {
    if st.mode.Normal? {
      SameDepth(s, lo, hi, j, st.depth);
    }
  }

  /** If the input is not cut within a statement, neither is the statement. */
  lemma {:induction false} StatementUncut(s: string, lo: nat, hi: nat, j: nat, st: State, st': State)
    requires lo <= hi <= |s| && Gap(s, lo - 1) && Gap(s, hi) && Alike(st, st')
    requires FirstCut(s, lo + j, st) >= hi
    ensures FirstCut(s[lo..hi], j, st') == hi - lo
    decreases |s| - j
  {
    if lo + j < hi {
      SameStep(s, lo, hi, j, st, st');
      var (st1, i1) := Step(s, lo + j, st);
      var (st2, j2) := Step(s[lo..hi], j, st');
      StatementUncut(s, lo, hi, j2, st1, st2);
    }
  }

  /** Nothing but spaces since the statement before. */
  ghost predicate Fresh(st: State) {
    st.mode.Normal? && st.depth == 0 && !RegexMayStart(st.prev)
  }

  lemma SpaceStep(s: string, i: nat, st: State)
    requires i < |s| && IsSpace(s[i]) && Fresh(st)
    ensures Step(s, i, st).1 == i + 1 && Fresh(Step(s, i, st).0)
  {
    assert !WordStartsAt(s, i);
  }

  lemma {:induction false} SpacesStayFresh(s: string, i: nat, lo: nat, st: State) returns (st': State)
    requires i <= lo <= |s| && Fresh(st) && forall p :: i <= p < lo ==> IsSpace(s[p])
    ensures Fresh(st') && FirstCut(s, lo, st') == FirstCut(s, i, st)
    decreases lo - i
  {
    if i < lo {
      SpaceStep(s, i, st);
      st' := SpacesStayFresh(s, i + 1, lo, Step(s, i, st).0);
    } else {
      st' := st;
    }
  }

  lemma TrimmedWhole(t: string)
    requires |t| > 0 && !IsSpace(t[0]) && !IsSpace(t[|t| - 1])
    ensures Statement(t, 0, |t|) == [t]
  {
    assert t[0..|t|] == t;
  }

  /** A statement between cuts splits into just itself. */
  lemma StatementStable(s: string, start: nat, st: State, r: Range)
    requires start <= |s| && Fresh(st) && Gap(s, start - 1)
    requires r == Trimmed(s, start, FirstCut(s, start, st)) && r.lo < r.hi
    ensures FirstCut(s[r.lo..r.hi], 0, INIT) == r.hi - r.lo
  {
    var st' := SpacesStayFresh(s, start, r.lo, st);
    GapsAround(s, start, FirstCut(s, start, st), r);
    StatementUncut(s, r.lo, r.hi, 0, st', INIT);
  }

  lemma GapsAround(s: string, start: nat, cut: nat, r: Range)
    requires start <= cut <= |s| && Gap(s, start - 1) && Gap(s, cut) && r == Trimmed(s, start, cut)
    ensures Gap(s, r.lo - 1) && Gap(s, r.hi)
  {
  }

  lemma UncutSplits(t: string, next: nat -> nat)
    requires |t| > 0 && !IsSpace(t[0]) && !IsSpace(t[|t| - 1]) && Cutter(|t|, next)
    ensures SplitFrom(t, 0, |t|, next) == [t]
  {
    TrimmedWhole(t);
  }

  ghost predicate Each(texts: seq<string>, good: string -> bool) {
    forall k :: 0 <= k < |texts| ==> good(texts[k])
  }

  ghost function Unsplit(): string -> bool {
    t => Split(t) == [t]
  }

  lemma FirstUnsplit(s: string, start: nat, st: State, cut: nat)
    requires start <= |s| && Fresh(st) && Gap(s, start - 1) && cut == FirstCut(s, start, st)
    ensures Each(Statement(s, start, cut), Unsplit())
  {
    var r := Trimmed(s, start, cut);
    if r.lo < r.hi {
      StatementStable(s, start, st, r);
      UncutSplits(s[r.lo..r.hi], NextCut(s[r.lo..r.hi]));
    }
  }

  lemma EachFrom(s: string, start: nat, cut: nat, next: nat -> nat, good: string -> bool)
    requires start <= cut <= |s| && Cutter(|s|, next) && Each(Statement(s, start, cut), good)
    requires cut < |s| ==> Each(SplitFrom(s, cut + 1, next(cut + 1), next), good)
    ensures Each(SplitFrom(s, start, cut, next), good)
  {
  }

  lemma {:induction false} UnsplitFrom(s: string, start: nat, st: State, cut: nat, next: nat -> nat)
    requires start <= |s| && Fresh(st) && Gap(s, start - 1) && cut == FirstCut(s, start, st)
    requires Cutter(|s|, next) && CutsOf(s, next)
    ensures Each(SplitFrom(s, start, cut, next), Unsplit())
    decreases |s| - start
  {
    if cut < |s| {
      NextAt(s, next, cut + 1);
      UnsplitFrom(s, cut + 1, AFTER_CUT, next(cut + 1), next);
    }
    FirstUnsplit(s, start, st, cut);
    EachFrom(s, start, cut, next, Unsplit());
  }

  /** Splitting any statement again returns just that statement. */
  lemma SplitIsStable(s: string, t: string)
    requires t in Split(s)
    ensures Split(t) == [t]
  {
    UnsplitFrom(s, 0, INIT, FirstCut(s, 0, INIT), NextCut(s));
  }
}
