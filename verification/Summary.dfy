/**
 Cleaning of the compaction model's raw output: scratchpad removal, unwrapping of the summary block,
 neutralizing of echoed control tags, collapsing of blank lines.
 */
module Summary {
  import opened Text
  import opened Sequences
  import opened Tags

  const SUMMARY := "<summary>"
  const SUMMARY_END := "</summary>"
  const ANALYSIS := "<analysis>"
  const ANALYSIS_END := "</analysis>"
  const REQUEST := "<summary_request>"
  const REQUEST_END := "</summary_request>"

  /** The tags that must not reach the next turn, in the order in which they are neutralized. */
  const CONTROL_TAGS: seq<string> := [SUMMARY_END, SUMMARY, ANALYSIS_END, ANALYSIS, REQUEST_END, REQUEST]

  const LABEL := "Summary:\n"
  const TRIPLE := "\n\n\n"
  const DOUBLE := "\n\n"

  predicate AllTags(tags: seq<string>) {
    forall i :: 0 <= i < |tags| ==> IsTag(tags[i])
  }

  lemma ControlTagsAreTags()
    ensures AllTags(CONTROL_TAGS)
    ensures forall t :: t in CONTROL_TAGS ==> IsTag(t)
  {
    SummaryTags();
    AnalysisTags();
    RequestTags();
  }

  lemma SummaryTags()
    ensures IsTag(SUMMARY) && IsTag(SUMMARY_END)
  {
  }

  lemma AnalysisTags()
    ensures IsTag(ANALYSIS) && IsTag(ANALYSIS_END)
  {
  }

  lemma RequestTags()
    ensures IsTag(REQUEST) && IsTag(REQUEST_END)
  {
  }

  // ----- the transformation, step by step

  /** An `<analysis>` block is drafting scratchpad if nothing but blanks precedes it, at the top or in the summary. */
  predicate IsLeading(s: string, start: nat)
    requires start <= |s|
  {
    match Find(s, SUMMARY)
    case Some(sp) => start < sp || (sp + |SUMMARY| <= start && AllBlank(s[sp + |SUMMARY|..start]))
    case None => AllBlank(s[..start])
  }

  /** One round of scratchpad removal: nothing to do, a closed block removed, or an unclosed one cut off. */
  datatype AnalysisStep = Done | Closed(rest: string) | Unclosed(rest: string)

  function StepAnalysis(s: string): (step: AnalysisStep)
    ensures step.Closed? ==> |step.rest| < |s|
  {
    match Find(s, ANALYSIS)
    case None => Done
    case Some(start) =>
      if !IsLeading(s, start) then Done
      else match FindFrom(s, ANALYSIS_END, start)
        case Some(end) => Closed(s[..start] + s[end + |ANALYSIS_END|..])
        case None => Unclosed(s[..start] + s[SummaryOrEnd(s, start)..])
  }

  /** Remove leading `<analysis>` blocks; an unclosed one goes up to the summary, or to the end. */
  function DropAnalysis(s: string): (r: string)
    decreases |s|
  {
    match StepAnalysis(s)
    case Done => s
    case Closed(rest) => DropAnalysis(rest)
    case Unclosed(rest) => rest
  }

  function SummaryOrEnd(s: string, start: nat): (n: nat)
    requires start <= |s|
    ensures start <= n <= |s|
  {
    match FindFrom(s, SUMMARY, start)
    case Some(sp) => sp
    case None => |s|
  }

  function TrimDecoration(s: string): string {
    if s != "" && s[0] in {'#', '*', '-', '>', ' ', '\t'} then TrimDecoration(s[1..]) else s
  }

  predicate StartsNumbered(s: string) {
    var lead := TrimDecoration(s);
    lead != "" && '0' <= lead[0] <= '9'
  }

  /** An untagged scratchpad goes up to its last closing tag. */
  function CutScratchpad(s: string): string {
    match RFind(s, ANALYSIS_END)
    case Some(pos) => if StartsNumbered(s) then s else TrimStart(s[pos + |ANALYSIS_END|..])
    case None => s
  }

  /** A leftover wrapper in front is opened. */
  function Opened(s: string): string {
    if SUMMARY <= s then TrimStart(s[|SUMMARY|..]) else s
  }

  /** Peel an untagged scratchpad and a leftover wrapper off the inside of the summary block. */
  function StripScratchpad(inner: string): string {
    Opened(CutScratchpad(Trim(inner)))
  }

  /** `<summary>…</summary>` becomes `Summary:` and the peeled inside. */
  function Unwrap(s: string): string {
    match (Find(s, SUMMARY), RFind(s, SUMMARY_END))
    case (Some(start), Some(end)) =>
      if start + |SUMMARY| <= end then Relabel(s, start, end) else s
    case _ => s
  }

  function Relabel(s: string, start: nat, end: nat): string
    requires start + |SUMMARY| <= end && end + |SUMMARY_END| <= |s|
  {
    s[..start] + LABEL + StripScratchpad(Trim(s[start + |SUMMARY|..end])) + s[end + |SUMMARY_END|..]
  }

  /** The tag with a zero-width space after its `<`. */
  function Defuse(t: string): string
    requires t != ""
  {
    "<" + [ZERO_WIDTH_SPACE] + t[1..]
  }

  function Neutralize(s: string, tags: seq<string>): string
    requires AllTags(tags)
    decreases |tags|
  {
    if tags == [] then s else Neutralize(Replace(s, tags[0], Defuse(tags[0])), tags[1..])
  }

  function Collapse(s: string): (r: string)
    decreases |s|
  {
    if Find(s, TRIPLE).None? then s
    else
      ReplaceTripleShrinks(s);
      Collapse(Replace(s, TRIPLE, DOUBLE))
  }

  /** All control tags neutralized. */
  function Defused(s: string): string {
    ControlTagsAreTags();
    Neutralize(s, CONTROL_TAGS)
  }

  function Format(summary: string): string {
    Trim(Collapse(Defused(Unwrap(DropAnalysis(summary)))))
  }

  // ----- the loops of the program compute it

  /** In either order, `<analysis>` and `<summary>` stand at different places. */
  lemma AnalysisBesideSummary(s: string, i: nat, j: nat)
    requires OccursAt(s, ANALYSIS, i) && OccursAt(s, SUMMARY, j)
    ensures i != j
  {
    OccursChars(s, ANALYSIS, i);
    OccursChars(s, SUMMARY, j);
    assert s[i + 1] == 'a' && s[j + 1] == 's';
  }

  lemma {:induction false} ReplaceTripleShrinks(s: string)
    ensures |Replace(s, TRIPLE, DOUBLE)| <= |s|
    ensures Contains(s, TRIPLE) ==> |Replace(s, TRIPLE, DOUBLE)| < |s|
    decreases |s|
  {
    match Find(s, TRIPLE)
    case None =>
    case Some(k) =>
      ReplaceTripleShrinks(s[k + 3..]);
  }

  method LeadsAt(result: string, start: nat) returns (leading: bool)
    requires OccursAt(result, ANALYSIS, start)
    ensures leading == IsLeading(result, start)
  {
    var summaryAt := Find(result, SUMMARY);
    if summaryAt.Some? {
      AnalysisBesideSummary(result, start, summaryAt.value);
      if start < summaryAt.value {
        leading := true;
      } else {
        TagsDoNotOverlap(result, SUMMARY, summaryAt.value, ANALYSIS, start);
        leading := Trim(result[summaryAt.value + |SUMMARY|..start]) == "";
      }
    } else {
      leading := Trim(result[..start]) == "";
    }
  }

  method AnalysisRound(result: string) returns (step: AnalysisStep)
    ensures step == StepAnalysis(result)
  {
    var found := Find(result, ANALYSIS);
    if found.None? {
      return Done;
    }
    var start := found.value;
    var leading := LeadsAt(result, start);
    if !leading {
      return Done;
    }
    var closer := FindFrom(result, ANALYSIS_END, start);
    if closer.None? {
      return Unclosed(result[..start] + result[SummaryOrEnd(result, start)..]);
    }
    return Closed(result[..start] + result[closer.value + |ANALYSIS_END|..]);
  }

  /** The program's first loop, which removes scratchpad blocks in place. */
  method RemoveLeadingAnalysis(summary: string) returns (result: string)
    ensures result == DropAnalysis(summary)
  {
    result := summary;
    while true
      invariant DropAnalysis(result) == DropAnalysis(summary)
      decreases |result|
    {
      var step := AnalysisRound(result);
      if step.Done? {
        break;
      }
      result := step.rest;
      if step.Unclosed? {
        break;
      }
    }
  }

  method UnwrapSummary(s: string) returns (result: string)
    ensures result == Unwrap(s)
  {
    result := s;
    var openAt, closeAt := Find(s, SUMMARY), RFind(s, SUMMARY_END);
    if openAt.Some? && closeAt.Some? && closeAt.value > openAt.value {
      SummaryTags();
      TagsDoNotOverlap(s, SUMMARY, openAt.value, SUMMARY_END, closeAt.value);
      var before, after := s[..openAt.value], s[closeAt.value + |SUMMARY_END|..];
      var inner := StripScratchpad(Trim(s[openAt.value + |SUMMARY|..closeAt.value]));
      result := before + LABEL + inner + after;
      assert result == Relabel(s, openAt.value, closeAt.value);
    }
  }

  method CollapseBlankLines(s: string) returns (result: string)
    ensures result == Collapse(s)
  {
    result := s;
    while Find(result, TRIPLE).Some?
      invariant Collapse(result) == Collapse(s)
      decreases |result|
    {
      ReplaceTripleShrinks(result);
      result := Replace(result, TRIPLE, DOUBLE);
    }
  }

  method FormatCompactSummary(summary: string) returns (result: string)
    ensures result == Format(summary)
    ensures forall t :: t in CONTROL_TAGS ==> !Contains(result, t)
    ensures !Contains(result, TRIPLE) && Trimmed(result)
  {
    result := RemoveLeadingAnalysis(summary);
    result := UnwrapSummary(result);
    result := Defused(result);
    result := CollapseBlankLines(result);
    result := Trim(result);
    FormatIsInert(summary);
  }

  // ----- no live tag survives

  lemma DefusedSeparates(p: string, t: string)
    requires IsTag(p) && IsTag(t)
    ensures Separates(Defuse(p), t)
  {
    forall x: string, y: string, j: nat | OccursAt(x + Defuse(p) + y, t, j)
      ensures j + |t| <= |x| || |x| + |Defuse(p)| <= j
    {
      var d, s := Defuse(p), x + Defuse(p) + y;
      var k := |x|;
      OccursChars(s, t, j);
      assert s[k] == '<' && s[k + 1] == ZERO_WIDTH_SPACE;
      assert forall i :: k + 1 < i < k + |d| ==> s[i] == p[i - k - 1];
      assert s[j] == '<' && s[j + |t| - 1] != '<';
    }
  }

  lemma NewlinesSeparate(t: string)
    requires IsTag(t)
    ensures Separates(DOUBLE, t)
  {
    forall x: string, y: string, j: nat | OccursAt(x + DOUBLE + y, t, j)
      ensures j + |t| <= |x| || |x| + |DOUBLE| <= j
    {
      var s := x + DOUBLE + y;
      var k := |x|;
      OccursChars(s, t, j);
      assert s[k] == '\n' && s[k + 1] == '\n';
    }
  }

  lemma {:induction false} NeutralizeClears(s: string, tags: seq<string>, t: string)
    requires AllTags(tags) && IsTag(t)
    requires Contains(Neutralize(s, tags), t)
    ensures Contains(s, t) && t !in tags
    decreases |tags|
  {
    if tags != [] {
      var p := tags[0];
      NeutralizeClears(Replace(s, p, Defuse(p)), tags[1..], t);
      DefusedSeparates(p, t);
      ReplaceCreatesNothing(s, p, Defuse(p), t);
    }
  }

  lemma {:induction false} CollapseCreatesNoTag(s: string, t: string)
    requires IsTag(t) && Contains(Collapse(s), t)
    ensures Contains(s, t)
    decreases |s|
  {
    if Contains(s, TRIPLE) {
      ReplaceTripleShrinks(s);
      CollapseCreatesNoTag(Replace(s, TRIPLE, DOUBLE), t);
      NewlinesSeparate(t);
      ReplaceCreatesNothing(s, TRIPLE, DOUBLE, t);
    }
  }

  lemma {:induction false} CollapseLeavesNoTriple(s: string)
    ensures !Contains(Collapse(s), TRIPLE)
    decreases |s|
  {
    if Contains(s, TRIPLE) {
      ReplaceTripleShrinks(s);
      CollapseLeavesNoTriple(Replace(s, TRIPLE, DOUBLE));
    }
  }

  /** For every input: no control tag, no triple line break and no outer blank is left. */
  lemma FormatIsInert(summary: string)
    ensures forall t :: t in CONTROL_TAGS ==> !Contains(Format(summary), t)
    ensures !Contains(Format(summary), TRIPLE) && Trimmed(Format(summary))
  {
    ControlTagsAreTags();
    CleanIsInert(Unwrap(DropAnalysis(summary)), CONTROL_TAGS);
  }

  /** The last three steps, for any list of tags. */
  lemma CleanIsInert(s: string, tags: seq<string>)
    requires AllTags(tags)
    ensures var r := Trim(Collapse(Neutralize(s, tags)));
      Trimmed(r) && !Contains(r, TRIPLE) && forall t :: t in tags ==> !Contains(r, t)
  {
    var n := Neutralize(s, tags);
    var c := Collapse(n);
    forall t | t in tags
      ensures !Contains(Trim(c), t)
    {
      TrimContains(c, t);
      if Contains(c, t) {
        CollapseCreatesNoTag(n, t);
        NeutralizeClears(s, tags, t);
      }
    }
    CollapseLeavesNoTriple(n);
    TrimContains(c, TRIPLE);
  }

  lemma {:induction false} NeutralizeUnchanged(s: string, tags: seq<string>)
    requires AllTags(tags) && forall i :: 0 <= i < |tags| ==> !Contains(s, tags[i])
    ensures Neutralize(s, tags) == s
    decreases |tags|
  {
    if tags != [] {
      NeutralizeUnchanged(s, tags[1..]);
    }
  }

  /** A clean summary passes through untouched, so formatting twice is formatting once. */
  lemma FormatIsIdempotent(summary: string)
    ensures Format(Format(summary)) == Format(summary)
  {
    var s := Format(summary);
    FormatIsInert(summary);
    ControlTagsAreTags();
    assert ANALYSIS in CONTROL_TAGS && SUMMARY in CONTROL_TAGS;
    assert DropAnalysis(s) == s && Unwrap(s) == s;
    assert forall i :: 0 <= i < |CONTROL_TAGS| ==> CONTROL_TAGS[i] in CONTROL_TAGS;
    NeutralizeUnchanged(s, CONTROL_TAGS);
    assert Collapse(s) == s;
    TrimOfTrimmed(s);
  }

  // ----- nothing else is lost

  /** The text without zero-width spaces: what a reader sees. */
  function Visible(s: string): string {
    if s == "" then ""
    else if s[0] == ZERO_WIDTH_SPACE then Visible(s[1..])
    else [s[0]] + Visible(s[1..])
  }

  lemma {:induction false} VisibleConcat(a: string, b: string)
    ensures Visible(a + b) == Visible(a) + Visible(b)
  {
    if a == "" {
      assert a + b == b;
    } else {
      VisibleConcat(a[1..], b);
      ConsFront(a, b);
      Assoc([a[0]], Visible(a[1..]), Visible(b));
    }
  }

  lemma {:induction false} ReplaceKeepsVisible(s: string, p: string)
    requires IsTag(p)
    ensures Visible(Replace(s, p, Defuse(p))) == Visible(s)
    decreases |s|
  {
    if Contains(s, p) {
      var before, rest := ReplaceCut(s, p, Defuse(p));
      var tail := Replace(rest, p, Defuse(p));
      ReplaceKeepsVisible(rest, p);
      VisibleConcat("<" + [ZERO_WIDTH_SPACE], p[1..]);
      VisibleConcat("<", p[1..]);
      assert p == "<" + p[1..];
      VisibleConcat(before + p, rest);
      VisibleConcat(before, p);
      VisibleConcat(before + Defuse(p), tail);
      VisibleConcat(before, Defuse(p));
    }
  }

  /** Neutralizing changes nothing that can be seen. */
  lemma {:induction false} NeutralizeKeepsVisible(s: string, tags: seq<string>)
    requires AllTags(tags)
    ensures Visible(Neutralize(s, tags)) == Visible(s)
    decreases |tags|
  {
    if tags != [] {
      ReplaceKeepsVisible(s, tags[0]);
      NeutralizeKeepsVisible(Replace(s, tags[0], Defuse(tags[0])), tags[1..]);
    }
  }

  /** One pass that keeps at most two line breaks of every run. */
  function Squeeze(s: string): string {
    if s == "" then ""
    else if TRIPLE <= s then Squeeze(s[1..])
    else [s[0]] + Squeeze(s[1..])
  }

  lemma {:induction false} SqueezeForgetsOne(x: string, y: string)
    ensures Squeeze(x + TRIPLE + y) == Squeeze(x + DOUBLE + y)
  {
    var a, b := x + TRIPLE + y, x + DOUBLE + y;
    if x == "" {
      assert a[1..] == b;
    } else {
      SqueezeForgetsOne(x[1..], y);
      assert a[1..] == x[1..] + TRIPLE + y && b[1..] == x[1..] + DOUBLE + y;
      assert a[0] == b[0] && a[1] == b[1] && a[2] == b[2];
      assert (TRIPLE <= a) == (TRIPLE <= b);
    }
  }

  lemma {:induction false} SqueezeAfterReplace(x: string, s: string)
    ensures Squeeze(x + Replace(s, TRIPLE, DOUBLE)) == Squeeze(x + s)
    decreases |s|
  {
    if Contains(s, TRIPLE) {
      var before, rest := ReplaceCut(s, TRIPLE, DOUBLE);
      var tail := Replace(rest, TRIPLE, DOUBLE);
      SqueezeForgetsOne(x + before, rest);
      SqueezeAfterReplace(x + before + DOUBLE, rest);
      Front(x, before, TRIPLE, rest);
      Front(x, before, DOUBLE, tail);
    }
  }

  lemma {:induction false} SqueezeUnchanged(s: string)
    requires !Contains(s, TRIPLE)
    ensures Squeeze(s) == s
  {
    if s != "" {
      if TRIPLE <= s {
        assert OccursAt(s, TRIPLE, 0);
      }
      SliceContains(s, 1, |s|, TRIPLE);
      assert s[1..|s|] == s[1..];
      SqueezeUnchanged(s[1..]);
    }
  }

  /** The repeated whole-string replacement computes the single pass. */
  lemma {:induction false} CollapseIsSqueeze(s: string)
    ensures Collapse(s) == Squeeze(s)
    decreases |s|
  {
    if Contains(s, TRIPLE) {
      ReplaceTripleShrinks(s);
      CollapseIsSqueeze(Replace(s, TRIPLE, DOUBLE));
      SqueezeAfterReplace("", s);
      assert "" + s == s && "" + Replace(s, TRIPLE, DOUBLE) == Replace(s, TRIPLE, DOUBLE);
    } else {
      SqueezeUnchanged(s);
    }
  }

  // ----- trimmed text stays trimmed

  predicate SameEnds(a: string, b: string) {
    a != "" && b != "" && a[0] == b[0] && a[|a| - 1] == b[|b| - 1]
  }

  lemma EndsTransitive(a: string, b: string, c: string)
    requires SameEnds(a, b) && SameEnds(b, c)
    ensures SameEnds(a, c)
  {
  }

  lemma {:induction false} ReplaceKeepsEnds(s: string, pat: string, rep: string)
    requires s != "" && SameEnds(pat, rep)
    ensures SameEnds(s, Replace(s, pat, rep))
    decreases |s|
  {
    if Contains(s, pat) {
      var before, rest := ReplaceCut(s, pat, rep);
      if rest != "" {
        ReplaceKeepsEnds(rest, pat, rep);
      } else {
        assert Replace(rest, pat, rep) == "";
      }
    }
  }

  lemma DefuseKeepsEnds(t: string)
    requires IsTag(t)
    ensures SameEnds(t, Defuse(t))
  {
  }

  lemma {:induction false} NeutralizeKeepsEnds(s: string, tags: seq<string>)
    requires s != "" && AllTags(tags)
    ensures SameEnds(s, Neutralize(s, tags))
    decreases |tags|
  {
    if tags != [] {
      DefuseKeepsEnds(tags[0]);
      var r := Replace(s, tags[0], Defuse(tags[0]));
      ReplaceKeepsEnds(s, tags[0], Defuse(tags[0]));
      NeutralizeKeepsEnds(r, tags[1..]);
      EndsTransitive(s, r, Neutralize(r, tags[1..]));
    }
  }

  lemma {:induction false} CollapseKeepsEnds(s: string)
    requires s != ""
    ensures SameEnds(s, Collapse(s))
    decreases |s|
  {
    if Contains(s, TRIPLE) {
      ReplaceTripleShrinks(s);
      ReplaceKeepsEnds(s, TRIPLE, DOUBLE);
      CollapseKeepsEnds(Replace(s, TRIPLE, DOUBLE));
      EndsTransitive(s, Replace(s, TRIPLE, DOUBLE), Collapse(s));
    }
  }

  /** The first character of a trimmed numbered text is neither blank nor `<`. */
  lemma NumberedFirst(t: string)
    requires StartsNumbered(t) && Trimmed(t)
    ensures t != "" && t[0] != '<' && !IsBlank(t[0])
  {
  }

  lemma LabelledIsTrimmed(l: string, t: string)
    requires l != "" && !IsBlank(l[0]) && t != "" && Trimmed(t)
    ensures Trimmed(l + t)
  {
  }

  /** The last three steps on a trimmed text: trimming has nothing left to do. */
  lemma CleanCore(core: string, tags: seq<string>)
    requires core != "" && Trimmed(core) && AllTags(tags)
    ensures Trim(Collapse(Neutralize(core, tags))) == Squeeze(Neutralize(core, tags))
  {
    NeutralizeKeepsEnds(core, tags);
    var n := Neutralize(core, tags);
    CollapseKeepsEnds(n);
    TrimOfTrimmed(Collapse(n));
    CollapseIsSqueeze(n);
  }

  // ----- no closing tag is left by the peel

  /** An untagged scratchpad inside the summary goes up to its last closer, unless a numbered section comes first. */
  lemma PeelLeavesNoCloser(inner: string)
    requires !StartsNumbered(Trim(inner))
    ensures !Contains(StripScratchpad(inner), ANALYSIS_END)
  {
    var s0 := Trim(inner);
    var found := RFind(s0, ANALYSIS_END);
    if found.Some? {
      var cut := s0[found.value + |ANALYSIS_END|..];
      NoneBehind(s0, ANALYSIS_END, found.value);
      PeelRest(TrimStart(cut));
      SuffixWithout(cut, TrimStart(cut), ANALYSIS_END);
    } else {
      PeelRest(s0);
    }
  }

  lemma NoneBehind(s: string, c: string, pos: nat)
    requires RFind(s, c) == Some(pos) && c != ""
    ensures !Contains(s[pos + |c|..], c)
  {
    var tail := s[pos + |c|..];
    if Contains(tail, c) {
      var k: nat :| OccursAt(tail, c, k);
      assert s[pos + |c|..|s|] == tail;
      OccursInSlice(s, pos + |c|, |s|, c, k);
    }
  }

  lemma SuffixWithout(s: string, r: string, c: string)
    requires |r| <= |s| && r == s[|s| - |r|..] && !Contains(s, c)
    ensures !Contains(r, c)
  {
    assert s[|s| - |r|..|s|] == r;
    SliceContains(s, |s| - |r|, |s|, c);
  }

  /** Unwrapping a leftover opener takes a suffix. */
  lemma PeelRest(s: string)
    ensures var r := if SUMMARY <= s then TrimStart(s[|SUMMARY|..]) else s;
      !Contains(s, ANALYSIS_END) ==> !Contains(r, ANALYSIS_END)
  {
    if SUMMARY <= s && !Contains(s, ANALYSIS_END) {
      SuffixWithout(s, s[|SUMMARY|..], ANALYSIS_END);
      SuffixWithout(s[|SUMMARY|..], TrimStart(s[|SUMMARY|..]), ANALYSIS_END);
    }
  }
}
