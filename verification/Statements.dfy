/**
 Splitting a batch of statements at semicolons, outside literals and BEGIN blocks.
 The source scans bytes and trims characters; here both work on characters, none
 of those outside ASCII being a quote, a keyword letter or a space to the scanner.
 */
module Statements {
  import opened Unicode
  import opened Wrappers

  // ------------------------------------------------------------------------- characters

  predicate IsAsciiSpace(c: char) {
    c == ' ' || '\t' <= c <= '\r'
  }

  predicate IsLetter(c: char) {
    'a' <= c <= 'z' || 'A' <= c <= 'Z'
  }

  predicate IsIdentStart(c: char) {
    IsLetter(c) || c == '_'
  }

  predicate IsIdentContinue(c: char) {
    IsLetter(c) || '0' <= c <= '9' || c == '_'
  }

  function Upper(c: char): char {
    if 'a' <= c <= 'z' then c - 'a' + 'A' else c
  }

  function Uppers(s: string): (u: string)
    ensures |u| == |s| && forall i :: 0 <= i < |s| ==> u[i] == Upper(s[i])
  {
    seq(|s|, i requires 0 <= i < |s| => Upper(s[i]))
  }

  /** `kw` at `i`, in any case, and no identifier going on after it. */
  predicate KeywordAt(s: string, i: nat, kw: string) {
    && i + |kw| <= |s| && Uppers(s[i..i + |kw|]) == kw
    && (i + |kw| < |s| ==> !IsIdentContinue(s[i + |kw|]))
  }

  predicate WordStartsAt(s: string, i: nat)
    requires i < |s|
  {
    IsIdentStart(s[i]) && (i == 0 || !IsIdentContinue(s[i - 1]))
  }

  // ------------------------------------------------------------------------- the scanner

  datatype Mode = Normal | Single | Double | Regex

  datatype State = State(mode: Mode, depth: nat, prev: Option<char>)

  const INIT := State(Normal, 0, None)
  const AFTER_CUT := State(Normal, 0, Some(';'))

  /** A slash after one of these starts a regular expression. */
  predicate RegexMayStart(prev: Option<char>) {
    prev.Some? && prev.value in "~(,="
  }

  predicate IsCut(s: string, i: nat, st: State)
    requires i < |s|
  {
    st.mode.Normal? && s[i] == ';' && st.depth == 0
  }

  /** Inside quotes `q`: a doubled quote stays inside. */
  function QuotedStep(s: string, i: nat, st: State, q: char): (State, nat)
    requires i < |s|
  {
    if s[i] != q then (st, i + 1)
    else if i + 1 < |s| && s[i + 1] == q then (st, i + 2)
    else (State(Normal, st.depth, Some(q)), i + 1)
  }

  function RegexStep(s: string, i: nat, st: State): (State, nat)
    requires i < |s|
  {
    if s[i] == '\\' then (st, i + 2)
    else if s[i] == '/' then (State(Normal, st.depth, Some('/')), i + 1)
    else (st, i + 1)
  }

  function ModeAfter(c: char, prev: Option<char>): Mode {
    if c == '\'' then Single
    else if c == '"' then Double
    else if c == '/' && RegexMayStart(prev) then Regex
    else Normal
  }

  function DepthAfter(s: string, i: nat, depth: nat): nat
    requires i < |s|
  {
    if !WordStartsAt(s, i) then depth
    else if KeywordAt(s, i, "BEGIN") then depth + 1
    else if depth > 0 && KeywordAt(s, i, "END") then depth - 1
    else depth
  }

  function NormalStep(s: string, i: nat, st: State): (State, nat)
    requires i < |s|
  {
    (State(ModeAfter(s[i], st.prev), DepthAfter(s, i, st.depth), if IsAsciiSpace(s[i]) then st.prev else Some(s[i])),
     i + 1)
  }

  function Step(s: string, i: nat, st: State): (r: (State, nat))
    requires i < |s|
    ensures r.1 > i
  {
    match st.mode
    case Normal => NormalStep(s, i, st)
    case Single => QuotedStep(s, i, st, '\'')
    case Double => QuotedStep(s, i, st, '"')
    case Regex => RegexStep(s, i, st)
  }

  /** Where the scan next cuts, or the end. */
  function FirstCut(s: string, i: nat, st: State): (cut: nat)
    ensures cut <= |s| && (i <= |s| ==> i <= cut) && (i >= |s| ==> cut == |s|)
    ensures cut < |s| ==> s[cut] == ';'
    decreases |s| - i
  {
    if i >= |s| then |s|
    else if IsCut(s, i, st) then i
    else var (st', i') := Step(s, i, st); FirstCut(s, i', st')
  }

  // ----------------------------------------------------------------------- the statements

  datatype Range = Range(lo: nat, hi: nat)

  /** Past the spaces at the front of `s[lo..hi]`. */
  function SkipSpaces(s: string, lo: nat, hi: nat): (r: nat)
    requires lo <= hi <= |s|
    ensures lo <= r <= hi && (r < hi ==> !IsSpace(s[r]))
    ensures forall p :: lo <= p < r ==> IsSpace(s[p])
    decreases hi - lo
  {
    if lo < hi && IsSpace(s[lo]) then SkipSpaces(s, lo + 1, hi) else lo
  }

  function DropSpaces(s: string, lo: nat, hi: nat): (r: nat)
    requires lo <= hi <= |s|
    ensures lo <= r <= hi && (lo < r ==> !IsSpace(s[r - 1]))
    ensures forall p :: r <= p < hi ==> IsSpace(s[p])
    decreases hi - lo
  {
    if lo < hi && IsSpace(s[hi - 1]) then DropSpaces(s, lo, hi - 1) else hi
  }

  function Trimmed(s: string, lo: nat, hi: nat): (r: Range)
    requires lo <= hi <= |s|
    ensures lo <= r.lo <= r.hi <= hi
    ensures r.lo < r.hi ==> !IsSpace(s[r.lo]) && !IsSpace(s[r.hi - 1])
    ensures forall p :: lo <= p < r.lo || r.hi <= p < hi ==> IsSpace(s[p])
  {
    var l := SkipSpaces(s, lo, hi);
    Range(l, DropSpaces(s, l, hi))
  }

  /** The statement between `lo` and `hi`, if any is left after trimming. */
  function Statement(s: string, lo: nat, hi: nat): seq<string>
    requires lo <= hi <= |s|
  {
    var r := Trimmed(s, lo, hi);
    if r.lo < r.hi then [s[r.lo..r.hi]] else []
  }

  /** From each position, where the text is cut next: at or after it, or at the end. */
  ghost predicate Cutter(len: nat, next: nat -> nat) {
    forall i :: 0 <= i <= len ==> i <= next(i) <= len
  }

  function NextCut(s: string): (next: nat -> nat)
    ensures Cutter(|s|, next) && forall i :: next(i) == FirstCut(s, i, AFTER_CUT)
  {
    i => FirstCut(s, i, AFTER_CUT)
  }

  /** The statements from `start` on, the first of them ending at `cut` and the others where `next` says. */
  ghost function SplitFrom(s: string, start: nat, cut: nat, next: nat -> nat): seq<string>
    requires start <= cut <= |s| && Cutter(|s|, next)
    decreases |s| - cut
  {
    if cut < |s| then Statement(s, start, cut) + SplitFrom(s, cut + 1, next(cut + 1), next)
    else Statement(s, start, cut)
  }

  ghost function Split(s: string): seq<string> {
    SplitFrom(s, 0, FirstCut(s, 0, INIT), NextCut(s))
  }

  lemma CutStep(s: string, i: nat, st: State)
    requires i < |s| && IsCut(s, i, st)
    ensures Step(s, i, st) == (AFTER_CUT, i + 1)
  {
    assert !WordStartsAt(s, i);
  }

  lemma CutSplits(s: string, start: nat, cut: nat, before: seq<string>, next: nat -> nat)
    requires start <= cut < |s| && Cutter(|s|, next)
    ensures before + SplitFrom(s, start, cut, next) ==
            (before + Statement(s, start, cut)) + SplitFrom(s, cut + 1, next(cut + 1), next)
  {
  }

  method Trim(s: string, lo: nat, hi: nat) returns (r: Range)
    requires lo <= hi <= |s|
    ensures r == Trimmed(s, lo, hi)
  {
    var l, h := lo, hi;
    while l < hi && IsSpace(s[l])
      invariant lo <= l <= hi && SkipSpaces(s, l, hi) == SkipSpaces(s, lo, hi)
    {
      l := l + 1;
    }
    while l < h && IsSpace(s[h - 1])
      invariant l <= h <= hi && DropSpaces(s, l, h) == DropSpaces(s, l, hi)
    {
      h := h - 1;
    }
    return Range(l, h);
  }

  /** One more statement, trimmed, unless nothing is left of it. */
  method Push(statements: seq<string>, s: string, lo: nat, hi: nat) returns (more: seq<string>)
    requires lo <= hi <= |s|
    ensures more == statements + Statement(s, lo, hi)
  {
    var r := Trim(s, lo, hi);
    more := statements;
    if r.lo < r.hi {
      more := more + [s[r.lo..r.hi]];
    }
  }

  /** One turn of the scan: what is found already and what will be found stay the same. */
  method ScanOne(s: string, start: nat, i: nat, st: State, statements: seq<string>, ghost next: nat -> nat)
    returns (start': nat, i': nat, st': State, statements': seq<string>)
    requires start <= i < |s| && Cutter(|s|, next) && forall k :: next(k) == FirstCut(s, k, AFTER_CUT)
    ensures start' <= i' && start' <= |s| && i < i'
    ensures statements' + SplitFrom(s, start', FirstCut(s, i', st'), next) ==
            statements + SplitFrom(s, start, FirstCut(s, i, st), next)
  {
    start', i', st', statements' := start, Step(s, i, st).1, Step(s, i, st).0, statements;
    if IsCut(s, i, st) {
      CutStep(s, i, st);
      CutSplits(s, start, i, statements, next);
      statements' := Push(statements, s, start, i);
      start' := i + 1;
    }
  }

  method SplitStatements(s: string) returns (statements: seq<string>)
    ensures statements == Split(s)
  {
    statements := [];
    var start, i, st := 0, 0, INIT;
    ghost var next := NextCut(s);
    while i < |s|
      invariant 0 <= start <= i && start <= |s|
      invariant statements + SplitFrom(s, start, FirstCut(s, i, st), next) == Split(s)
      decreases |s| - i
    {
      start, i, st, statements := ScanOne(s, start, i, st, statements, next);
    }
    statements := Push(statements, s, start, |s|);
  }
}
