/**
 What becomes of every part of the model's raw output: which text is dropped, which is kept, and where it ends up.
 Stated on texts put together from their parts, whatever the parts are.
 */
module SummaryContents {
  import opened Text
  import opened Sequences
  import opened Tags
  import opened Summary

  // ----- neutralizing

  lemma RestSeparate(x: string, rest: string, b: string, p: string)
    requires Separate(x + rest, b, p)
    ensures Separate(rest, b, p)
  {
    Assoc(x, rest, b);
    forall j: nat | OccursAt(rest + b, p, j)
      ensures j + |p| <= |rest| || |rest| <= j
    {
      OccursRight(x, rest + b, p, j);
      assert OccursAt((x + rest) + b, p, |x| + j);
    }
  }

  lemma ReplaceAt(before: string, p: string, rest: string, rep: string)
    requires p != "" && Find(before + p + rest, p) == Some(|before|)
    ensures Replace(before + p + rest, p, rep) == before + rep + Replace(rest, p, rep)
  {
    var s := before + p + rest;
    assert s[..|before|] == before && s[|before| + |p|..] == rest;
  }

  /** Replacing in a text of two parts, if no occurrence lies across. */
  lemma {:induction false} ReplaceConcat(a: string, b: string, p: string, rep: string)
    requires p != "" && Separate(a, b, p)
    ensures Replace(a + b, p, rep) == Replace(a, p, rep) + Replace(b, p, rep)
    decreases |a|
  {
    if Contains(a, p) {
      var before, rest := ReplaceCut(a, p, rep);
      InLeftPart(a, b, p, |before|);
      RestSeparate(before + p, rest, b, p);
      ReplaceConcat(rest, b, p, rep);
      Assoc(before + p, rest, b);
      ReplaceAt(before, p, rest + b, rep);
      Assoc(before + rep, Replace(rest, p, rep), Replace(b, p, rep));
    } else {
      InRightPart(a, b, p);
      if Contains(b, p) {
        var before, rest := ReplaceCut(b, p, rep);
        Front(a, before, p, rest);
        ReplaceAt(a + before, p, rest, rep);
        Front(a, before, rep, Replace(rest, p, rep));
      }
    }
  }

  ghost predicate ApartAll(a: string, b: string, tags: seq<string>) {
    forall i :: 0 <= i < |tags| ==> Apart(a, b, tags[i])
  }

  lemma ApartStays(a: string, b: string, a': string, b': string, tags: seq<string>)
    requires ApartAll(a, b, tags) && (a' == a == "" || SameEnds(a, a')) && (b' == b == "" || SameEnds(b, b'))
    ensures ApartAll(a', b', tags)
  {
  }

  lemma ReplacedEnds(s: string, t: string)
    requires IsTag(t)
    ensures var r := Replace(s, t, Defuse(t)); r == s == "" || SameEnds(s, r)
  {
    if s != "" {
      DefuseKeepsEnds(t);
      ReplaceKeepsEnds(s, t, Defuse(t));
    }
  }

  /** Neutralizing works on the parts of a text separately, unless a tag lies across. */
  lemma {:induction false} NeutralizeConcat(a: string, b: string, tags: seq<string>)
    requires AllTags(tags) && ApartAll(a, b, tags)
    ensures Neutralize(a + b, tags) == Neutralize(a, tags) + Neutralize(b, tags)
    decreases |tags|
  {
    if tags != [] {
      var t := tags[0];
      forall j: nat | OccursAt(a + b, t, j)
        ensures j + |t| <= |a| || |a| <= j
      {
        NoneAcross(a, b, t, j);
      }
      ReplaceConcat(a, b, t, Defuse(t));
      ReplacedEnds(a, t);
      ReplacedEnds(b, t);
      var a', b' := Replace(a, t, Defuse(t)), Replace(b, t, Defuse(t));
      ApartStays(a, b, a', b', tags);
      NeutralizeConcat(a', b', tags[1..]);
    }
  }

  lemma DefusedTagIsFree(t: string, p: string)
    requires IsTag(t) && IsTag(p)
    ensures !Contains(Defuse(t), p)
  {
    DefusedSeparates(t, p);
    assert "" + Defuse(t) + "" == Defuse(t);
  }

  lemma ReplaceWhole(t: string, rep: string)
    requires t != ""
    ensures Replace(t, t, rep) == rep
  {
    assert t[0..0 + |t|] == t && OccursAt(t, t, 0);
    FindIs(t, t, 0);
    assert t[..0] == "" && t[0 + |t|..] == "" && Replace("", t, rep) == "";
    assert "" + rep + "" == rep;
  }

  lemma {:induction false} NeutralizeTag(t: string, tags: seq<string>)
    requires AllTags(tags) && t in tags
    ensures Neutralize(t, tags) == Defuse(t)
    decreases |tags|
  {
    if tags[0] == t {
      ReplaceWhole(t, Defuse(t));
      forall i | 0 <= i < |tags[1..]|
        ensures !Contains(Defuse(t), tags[1..][i])
      {
        DefusedTagIsFree(t, tags[i + 1]);
      }
      NeutralizeUnchanged(Defuse(t), tags[1..]);
    } else {
      var i :| 0 <= i < |tags| && tags[i] == t;
      TagInTag(tags[0], t);
      assert tags[1..][i - 1] == t;
      NeutralizeTag(t, tags[1..]);
    }
  }

  /** No control tag. */
  predicate Clean(s: string) {
    forall i :: 0 <= i < |CONTROL_TAGS| ==> Find(s, CONTROL_TAGS[i]).None?
  }

  /** A control tag gets a zero-width space behind its `<`, wherever it stands; what is left and right of it is treated
      as it would be alone. */
  lemma TagIsNeutralized(x: string, t: string, y: string)
    requires t in CONTROL_TAGS
    ensures t != "" && Defused(x + t + y) == Defused(x) + ("<\U{200B}" + t[1..]) + Defused(y)
  {
    ControlTagsAreTags();
    Assoc(x, t, y);
    NeutralizeConcat(x, t + y, CONTROL_TAGS);
    NeutralizeConcat(t, y, CONTROL_TAGS);
    NeutralizeTag(t, CONTROL_TAGS);
    Assoc(Defused(x), Defuse(t), Defused(y));
    DefuseIs(t);
  }

  lemma DefuseIs(t: string)
    requires t != ""
    ensures Defuse(t) == "<\U{200B}" + t[1..]
  {
    assert "<" + [ZERO_WIDTH_SPACE] == "<\U{200B}";
  }

  /** Text without control tags is not touched. */
  lemma CleanIsUntouched(s: string)
    requires Clean(s)
    ensures Defused(s) == s
  {
    ControlTagsAreTags();
    NeutralizeUnchanged(s, CONTROL_TAGS);
  }

  // ----- what the peel leaves

  lemma TrimStartIs(a: string, s: string)
    requires AllBlank(a) && Trimmed(s)
    ensures TrimStart(a + s) == s
  {
    var t := a + s;
    var n := BlankPrefix(t);
    if s != "" {
      assert t[|a|] == s[0];
    }
    assert n == |a|;
  }

  /** `rest` is what the peel leaves of the inside: all of it if that starts with a numbered section or quotes no
      closing analysis tag, else what stands behind the last one. */
  ghost predicate Leaves(inner: string, rest: string) {
    if StartsNumbered(Trim(inner)) || !Contains(inner, ANALYSIS_END) then rest == inner
    else !Contains(rest, ANALYSIS_END) && exists x :: inner == x + ANALYSIS_END + rest
  }

  /** `body` is `rest` without a leftover wrapper in front. */
  ghost predicate Opens(rest: string, body: string) {
    || (body == rest && !(SUMMARY <= Trim(rest)))
    || exists pad :: AllBlank(pad) && rest == pad + SUMMARY + body
  }

  lemma TrimAfter(core: string, c: string)
    requires Trimmed(core) && AllBlank(c)
    ensures Trim(core + c) == core
  {
    TrimIs("", core, c);
    assert "" + core + c == core + c;
  }

  lemma TrimBetween(front: string, a: string, t: string, c: string)
    requires front != "" && Trimmed(front) && t != "" && Trimmed(t) && AllBlank(c)
    ensures Trim(front + (a + t + c)) == front + (a + t)
  {
    var core := front + (a + t);
    assert core[0] == front[0] && core[|core| - 1] == t[|t| - 1];
    TrimAfter(core, c);
    Assoc(front, a + t, c);
  }

  /** Trimming behind a trimmed front. */
  lemma TrimSplit(front: string, s: string) returns (a: string, c: string)
    requires front != "" && Trimmed(front)
    ensures AllBlank(a) && AllBlank(c) && s == a + Trim(s) + c
    ensures Trim(front + s) == if Trim(s) == "" then front else front + (a + Trim(s))
  {
    a, c := TrimParts(s);
    if Trim(s) == "" {
      TrimAfter(front, s);
    } else {
      TrimBetween(front, a, Trim(s), c);
    }
  }

  lemma CutFront(front: string, s: string)
    ensures front <= front + s && (front + s)[|front|..] == s
  {
  }

  /** Cutting the front off again. */
  lemma BehindFront(front: string, s: string) returns (tail: string)
    requires front != "" && Trimmed(front)
    ensures Trim(front + s) == front + tail && TrimStart(tail) == Trim(s)
    ensures forall t :: !Contains(s, t) ==> !Contains(tail, t)
  {
    var a, c := TrimSplit(front, s);
    if Trim(s) == "" {
      tail := "";
      assert front + "" == front;
      assert s[..0] == "";
    } else {
      tail := a + Trim(s);
      TrimStartIs(a, Trim(s));
      assert s[0..|tail|] == tail;
    }
    forall t | !Contains(s, t)
      ensures !Contains(tail, t)
    {
      assert s[0..|tail|] == tail;
      SliceContains(s, 0, |tail|, t);
    }
  }

  lemma TrimBehind(pad: string, s: string)
    requires AllBlank(pad)
    ensures Trim(pad + s) == Trim(s)
  {
    TrimPadded(pad, s, "");
    assert pad + s + "" == pad + s;
  }

  lemma WrapperIsOpened(rest: string, body: string)
    requires Opens(rest, body)
    ensures Opened(Trim(rest)) == Trim(body)
  {
    if pad :| AllBlank(pad) && rest == pad + SUMMARY + body {
      SummaryTags();
      Assoc(pad, SUMMARY, body);
      TrimBehind(pad, SUMMARY + body);
      var tail := BehindFront(SUMMARY, body);
      CutFront(SUMMARY, tail);
    }
  }

  lemma PadFirst(pad: string, a: string, b: string, c: string)
    ensures (pad + a) + b + c == pad + (a + b + c)
  {
  }

  lemma CloserIsCut(inner: string, x: string, rest: string) returns (k: nat)
    requires inner == x + ANALYSIS_END + rest && !Contains(rest, ANALYSIS_END)
    ensures RFind(Trim(inner), ANALYSIS_END) == Some(k)
    ensures TrimStart(Trim(inner)[k + |ANALYSIS_END|..]) == Trim(rest)
  {
    var pad, lead := SplitBlanks(x);
    PadFirst(pad, lead, ANALYSIS_END, rest);
    var core := lead + ANALYSIS_END + rest;
    TrimBehind(pad, core);
    assert Trim(inner) == Trim(core);
    CloserBehindLead(lead, rest);
    k := |lead|;
  }

  lemma SplitBlanks(x: string) returns (pad: string, lead: string)
    ensures x == pad + lead && AllBlank(pad) && (lead == "" || !IsBlank(lead[0]))
  {
    var n := BlankPrefix(x);
    pad, lead := x[..n], x[n..];
  }

  lemma CloserBehindLead(lead: string, rest: string)
    requires !Contains(rest, ANALYSIS_END) && (lead == "" || !IsBlank(lead[0]))
    ensures var s0 := Trim(lead + ANALYSIS_END + rest);
      RFind(s0, ANALYSIS_END) == Some(|lead|) && TrimStart(s0[|lead| + |ANALYSIS_END|..]) == Trim(rest)
  {
    AnalysisTags();
    var front := lead + ANALYSIS_END;
    assert front[0] == (if lead == "" then '<' else lead[0]) && front[|front| - 1] == '>';
    var tail := BehindFront(front, rest);
    LastTag(lead, ANALYSIS_END, tail);
    CutFront(front, tail);
  }

  /** The peel of a summary's inside, whatever it holds: trimmed, without scratchpad and wrapper. */
  lemma PeelIs(inner: string, rest: string, body: string)
    requires Leaves(inner, rest) && Opens(rest, body)
    ensures StripScratchpad(Trim(inner)) == Trim(body)
  {
    TrimOfTrimmed(Trim(inner));
    WrapperIsOpened(rest, body);
    if !StartsNumbered(Trim(inner)) && Contains(inner, ANALYSIS_END) {
      var x :| inner == x + ANALYSIS_END + rest;
      var k := CloserIsCut(inner, x, rest);
      PeelCuts(Trim(inner), k);
    } else {
      TrimContains(inner, ANALYSIS_END);
      PeelKeeps(Trim(inner));
    }
  }

  lemma PeelCuts(s: string, k: nat)
    requires !StartsNumbered(s) && RFind(s, ANALYSIS_END) == Some(k)
    ensures CutScratchpad(s) == TrimStart(s[k + |ANALYSIS_END|..])
  {
  }

  lemma PeelKeeps(s: string)
    requires StartsNumbered(s) || RFind(s, ANALYSIS_END).None?
    ensures CutScratchpad(s) == s
  {
  }

  // ----- the summary block

  /** The text does not open with a scratchpad block. */
  predicate NoScratchpadFirst(s: string) { !(ANALYSIS <= TrimStart(s)) }

  lemma OpensWithScratchpad(s: string, k: nat)
    requires OccursAt(s, ANALYSIS, k) && AllBlank(s[..k])
    ensures ANALYSIS <= TrimStart(s)
  {
    OccursChars(s, ANALYSIS, k);
    assert s[k + 0] == ANALYSIS[0] == '<';
    BlanksBefore(s, k);
    assert s[k..][..|ANALYSIS|] == s[k..k + |ANALYSIS|];
  }

  lemma BlanksBefore(s: string, k: nat)
    requires k < |s| && AllBlank(s[..k]) && !IsBlank(s[k])
    ensures TrimStart(s) == s[k..]
  {
    forall i | 0 <= i < k
      ensures IsBlank(s[i])
    {
      assert s[..k][i] == s[i];
    }
    assert BlankPrefix(s) == k;
  }

  lemma FirstIsNotBlank(s: string, k: nat)
    requires NoScratchpadFirst(s) && OccursAt(s, ANALYSIS, k)
    ensures !AllBlank(s[..k])
  {
    if AllBlank(s[..k]) {
      OpensWithScratchpad(s, k);
    }
  }

  /** Nothing is dropped in front of the summary if no scratchpad stands before it or opens it. */
  lemma BlockIsKept(before: string, inner: string, after: string)
    requires !Contains(before, ANALYSIS) && !Contains(before, SUMMARY) && NoScratchpadFirst(inner)
    ensures var s := before + SUMMARY + inner + SUMMARY_END + after; DropAnalysis(s) == s
  {
    var s := before + SUMMARY + inner + SUMMARY_END + after;
    SummaryTags();
    AnalysisTags();
    Regroup5(before, SUMMARY, inner, SUMMARY_END, after);
    FirstTag(before, SUMMARY, inner + SUMMARY_END + after);
    var found := Find(s, ANALYSIS);
    if found.Some? {
      AnalysisInside(before, inner, after, found.value);
      BehindSummary(s, |before|, found.value);
    }
    KeptUnlessLeading(s);
  }

  lemma BehindSummary(s: string, sp: nat, k: nat)
    requires Find(s, SUMMARY) == Some(sp) && sp + |SUMMARY| <= k <= |s| && !AllBlank(s[sp + |SUMMARY|..k])
    ensures !IsLeading(s, k)
  {
  }

  lemma KeptUnlessLeading(s: string)
    requires Find(s, ANALYSIS).Some? ==> !IsLeading(s, Find(s, ANALYSIS).value)
    ensures DropAnalysis(s) == s
  {
  }

  lemma AnalysisInside(before: string, inner: string, after: string, k: nat)
    requires !Contains(before, ANALYSIS) && NoScratchpadFirst(inner)
    requires OccursAt(before + SUMMARY + inner + SUMMARY_END + after, ANALYSIS, k)
    ensures var s, n := before + SUMMARY + inner + SUMMARY_END + after, |before| + |SUMMARY|;
      n <= k && !AllBlank(s[n..k])
  {
    var s, n := before + SUMMARY + inner + SUMMARY_END + after, |before| + |SUMMARY|;
    SummaryTags();
    AnalysisTags();
    var behind := inner + SUMMARY_END + after;
    TagInTag(ANALYSIS, SUMMARY);
    assert SUMMARY[1] != ANALYSIS[1];
    JoinFree(before, SUMMARY, ANALYSIS);
    assert s == (before + SUMMARY) + behind;
    NoneAcross(before + SUMMARY, behind, ANALYSIS, k);
    if k + |ANALYSIS| <= n {
      OccursLeft(before + SUMMARY, behind, ANALYSIS, k);
      assert false;
    } else {
      OccursRight(before + SUMMARY, behind, ANALYSIS, k - n);
      InsideBlock(inner, after, k - n);
      assert s[n..k] == behind[..k - n];
    }
  }

  lemma InsideBlock(inner: string, after: string, k: nat)
    requires NoScratchpadFirst(inner) && OccursAt(inner + SUMMARY_END + after, ANALYSIS, k)
    ensures !AllBlank((inner + SUMMARY_END + after)[..k])
  {
    var s, behind := inner + SUMMARY_END + after, SUMMARY_END + after;
    SummaryTags();
    AnalysisTags();
    Assoc(inner, SUMMARY_END, after);
    ClosesFirst(after);
    NoneAcross(inner, behind, ANALYSIS, k);
    if k + |ANALYSIS| <= |inner| {
      OccursLeft(inner, behind, ANALYSIS, k);
      FirstIsNotBlank(inner, k);
      FrontOf(inner, behind, k);
    } else {
      BehindCloser(s, inner, behind, k);
    }
  }

  lemma FrontOf(a: string, b: string, k: nat)
    requires k <= |a|
    ensures (a + b)[..k] == a[..k]
  {
  }

  lemma ClosesFirst(after: string)
    ensures SUMMARY_END <= SUMMARY_END + after && (SUMMARY_END + after)[0] == '<' && (SUMMARY_END + after)[1] == '/'
  {
  }

  lemma BehindCloser(s: string, inner: string, behind: string, k: nat)
    requires s == inner + behind && |behind| >= 2 && behind[0] == '<' && behind[1] == '/'
    requires |inner| <= k && OccursAt(s, ANALYSIS, k)
    ensures !AllBlank(s[..k])
  {
    OccursChars(s, ANALYSIS, k);
    assert s[k + 1] == ANALYSIS[1] == 'a';
    assert s[|inner|] == '<' && s[|inner| + 1] == '/';
    assert s[..k][|inner|] == '<';
  }

  lemma UnwrapAt(s: string, start: nat, end: nat)
    requires Find(s, SUMMARY) == Some(start) && RFind(s, SUMMARY_END) == Some(end) && start + |SUMMARY| <= end
    ensures end + |SUMMARY_END| <= |s| && Unwrap(s) == Relabel(s, start, end)
  {
  }

  lemma FindsBlock(before: string, o: string, inner: string, c: string, after: string)
    requires IsTag(o) && IsTag(c) && !Contains(before, o) && !Contains(after, c)
    ensures var s := before + o + inner + c + after;
      Find(s, o) == Some(|before|) && RFind(s, c) == Some(|before| + |o| + |inner|)
  {
    Regroup5(before, o, inner, c, after);
    FirstTag(before, o, inner + c + after);
    LastTag(before + o + inner, c, after);
  }

  lemma UnwrapIs(before: string, inner: string, after: string)
    requires !Contains(before, SUMMARY) && !Contains(after, SUMMARY_END)
    ensures Unwrap(before + SUMMARY + inner + SUMMARY_END + after)
      == before + LABEL + StripScratchpad(Trim(inner)) + after
  {
    SummaryTags();
    FindsBlock(before, SUMMARY, inner, SUMMARY_END, after);
    UnwrapParts(before + SUMMARY + inner + SUMMARY_END + after, before, inner, after);
  }

  lemma UnwrapParts(s: string, before: string, inner: string, after: string)
    requires s == before + SUMMARY + inner + SUMMARY_END + after
    requires Find(s, SUMMARY) == Some(|before|)
    requires RFind(s, SUMMARY_END) == Some(|before| + |SUMMARY| + |inner|)
    ensures Unwrap(s) == before + LABEL + StripScratchpad(Trim(inner)) + after
  {
    UnwrapAt(s, |before|, |before| + |SUMMARY| + |inner|);
    RelabelIs(s, before, inner, after);
  }

  /** The three parts around two delimiters. */
  lemma Parts5(s: string, a: string, o: string, b: string, c: string, d: string)
    requires s == a + o + b + c + d
    ensures |a| + |o| + |b| + |c| <= |s| && s[..|a|] == a && s[|a| + |o|..|a| + |o| + |b|] == b
    ensures s[|a| + |o| + |b| + |c|..] == d
  {
    Regroup5(a, o, b, c, d);
    Assoc(a, o, b + c + d);
    CutFront(a, o + (b + c + d));
    Assoc(a + o + b, c, d);
    Middle(a + o, b, c + d);
    CutFront(a + o + b + c, d);
  }

  lemma RelabelIs(s: string, before: string, inner: string, after: string)
    requires s == before + SUMMARY + inner + SUMMARY_END + after
    ensures var start, end := |before|, |before| + |SUMMARY| + |inner|;
      && end + |SUMMARY_END| <= |s|
      && Relabel(s, start, end) == before + LABEL + StripScratchpad(Trim(inner)) + after
  {
    Parts5(s, before, SUMMARY, inner, SUMMARY_END, after);
  }

  // ----- main results

  lemma FormatIs(summary: string)
    ensures Format(summary) == Trim(Squeeze(Defused(Unwrap(DropAnalysis(summary)))))
  {
    CollapseIsSqueeze(Defused(Unwrap(DropAnalysis(summary))));
  }

  /** The summary block keeps its body: whatever stands in front of it and behind it stays in its place, the tags become
      the label, and of the inside only scratchpad and wrapper go. Any inside has such a `rest` and `body`. */
  lemma SummaryKeepsBody(before: string, inner: string, rest: string, body: string, after: string)
    requires !Contains(before, ANALYSIS) && !Contains(before, SUMMARY) && !Contains(after, SUMMARY_END)
    requires NoScratchpadFirst(inner) && Leaves(inner, rest) && Opens(rest, body)
    ensures Format(before + SUMMARY + inner + SUMMARY_END + after)
      == Trim(Squeeze(Defused(before + LABEL + Trim(body) + after)))
  {
    FormatIs(before + SUMMARY + inner + SUMMARY_END + after);
    BlockIsKept(before, inner, after);
    UnwrapIs(before, inner, after);
    PeelIs(inner, rest, body);
  }

  lemma CleanHas(s: string, t: string)
    requires Clean(s) && t in CONTROL_TAGS
    ensures !Contains(s, t)
  {
  }

  lemma CleanTags(s: string)
    requires Clean(s)
    ensures !Contains(s, SUMMARY) && !Contains(s, SUMMARY_END) && !Contains(s, ANALYSIS) && !Contains(s, ANALYSIS_END)
  {
    CleanHas(s, SUMMARY);
    CleanHas(s, SUMMARY_END);
    CleanHas(s, ANALYSIS);
    CleanHas(s, ANALYSIS_END);
  }

  lemma PrefixContains(s: string, t: string)
    requires t <= s
    ensures Contains(s, t)
  {
    assert s[0..|t|] == t;
    assert OccursAt(s, t, 0);
  }

  lemma LabelledIsClean(body: string)
    requires Clean(body)
    ensures Clean(LABEL + Trim(body))
  {
    ControlTagsAreTags();
    forall i | 0 <= i < |CONTROL_TAGS|
      ensures Find(LABEL + Trim(body), CONTROL_TAGS[i]).None?
    {
      var t := CONTROL_TAGS[i];
      assert t in CONTROL_TAGS;
      TrimContains(body, t);
      LabelIsFree(t);
      JoinFree(LABEL, Trim(body), t);
    }
  }

  lemma LabelIsFree(t: string)
    requires IsTag(t)
    ensures !Contains(LABEL, t) && LABEL[|LABEL| - 1] !in t
  {
    assert forall i :: 0 <= i < |LABEL| ==> LABEL[i] != '<';
    if Contains(LABEL, t) {
      var j: nat :| OccursAt(LABEL, t, j);
      OccursChars(LABEL, t, j);
    }
  }

  /** Nothing around the summary block. */
  lemma AloneIsKept(inner: string, rest: string, body: string)
    requires NoScratchpadFirst(inner) && Leaves(inner, rest) && Opens(rest, body)
    ensures Format(SUMMARY + inner + SUMMARY_END) == Trim(Squeeze(Defused(LABEL + Trim(body))))
  {
    NoneInEmpty(ANALYSIS);
    NoneInEmpty(SUMMARY);
    NoneInEmpty(SUMMARY_END);
    SummaryKeepsBody("", inner, rest, body, "");
    NoFrame(SUMMARY, inner, SUMMARY_END);
    NoMargins(LABEL, Trim(body));
  }

  lemma LoneSummary(inner: string, rest: string, body: string)
    requires NoScratchpadFirst(inner) && Leaves(inner, rest) && Opens(rest, body) && Clean(body)
    ensures Format(SUMMARY + inner + SUMMARY_END) == Trim(Squeeze(LABEL + Trim(body)))
  {
    AloneIsKept(inner, rest, body);
    LabelledIsClean(body);
    CleanIsUntouched(LABEL + Trim(body));
  }

  lemma NoFrame(o: string, inner: string, c: string)
    ensures "" + o + inner + c + "" == o + inner + c
  {
  }

  lemma NoMargins(l: string, t: string)
    ensures "" + l + t + "" == l + t
  {
  }

  lemma CleanOpens(body: string)
    requires Clean(body)
    ensures Opens(body, body)
  {
    CleanTags(body);
    TrimContains(body, SUMMARY);
    if SUMMARY <= Trim(body) {
      PrefixContains(Trim(body), SUMMARY);
    }
  }

  /** A summary without control tags inside comes out whole behind the label, numbered or not. */
  lemma CleanSummaryIsKept(body: string)
    requires Clean(body)
    ensures Format(SUMMARY + body + SUMMARY_END) == Trim(Squeeze(LABEL + Trim(body)))
  {
    CleanTags(body);
    CleanOpens(body);
    NoneFirst(body);
    LoneSummary(body, body, body);
  }

  lemma NoneFirst(s: string)
    requires !Contains(s, ANALYSIS)
    ensures NoScratchpadFirst(s)
  {
    if ANALYSIS <= TrimStart(s) {
      PrefixContains(TrimStart(s), ANALYSIS);
      SuffixWithout(s, TrimStart(s), ANALYSIS);
    }
  }

  lemma LeavesBehind(x: string, y: string)
    requires !Contains(y, ANALYSIS_END) && !StartsNumbered(Trim(x + ANALYSIS_END + y))
    ensures Leaves(x + ANALYSIS_END + y, y)
  {
    PartFree(x, ANALYSIS_END, ANALYSIS_END);
    assert OccursAt(ANALYSIS_END, ANALYSIS_END, 0);
    PartFree(x + ANALYSIS_END, y, ANALYSIS_END);
  }

  /** A scratchpad without an opening tag goes up to its last closing tag; what stands behind that stays. */
  lemma TextBehindScratchpadIsKept(x: string, y: string)
    requires Clean(y) && !StartsNumbered(Trim(x + ANALYSIS_END + y)) && NoScratchpadFirst(x + ANALYSIS_END + y)
    ensures Format(SUMMARY + (x + ANALYSIS_END + y) + SUMMARY_END) == Trim(Squeeze(LABEL + Trim(y)))
  {
    CleanTags(y);
    CleanOpens(y);
    LeavesBehind(x, y);
    LoneSummary(x + ANALYSIS_END + y, y, y);
  }

  /** Text without a summary block and without scratchpad in front passes through: neutralized, squeezed, trimmed. */
  lemma UntaggedTextIsKept(t: string)
    requires !Contains(t, ANALYSIS) || (!Contains(t, SUMMARY) && NoScratchpadFirst(t))
    requires forall i: nat, j: nat :: OccursAt(t, SUMMARY, i) && OccursAt(t, SUMMARY_END, j) ==> j < i
    ensures Format(t) == Trim(Squeeze(Defused(t)))
    ensures Clean(t) ==> Format(t) == Trim(Squeeze(t))
  {
    FormatIs(t);
    if Contains(t, ANALYSIS) {
      FirstIsNotBlank(t, Find(t, ANALYSIS).value);
    }
    assert DropAnalysis(t) == t;
    assert Unwrap(t) == t;
    if Clean(t) {
      CleanIsUntouched(t);
    }
  }

  lemma NumberedOpens(body: string)
    requires StartsNumbered(Trim(body))
    ensures NoScratchpadFirst(body) && Opens(body, body)
  {
    var a, c := TrimParts(body);
    NumberedFirst(Trim(body));
    assert body[|a|] == Trim(body)[0];
    assert BlankPrefix(body) == |a|;
    assert TrimStart(body)[0] == Trim(body)[0];
    assert ANALYSIS[0] == '<' && SUMMARY[0] == '<';
  }

  /** A body that starts with a numbered section is emitted whole, whatever tags it quotes later on. */
  lemma NumberedSummaryIsKept(body: string)
    requires StartsNumbered(Trim(body))
    ensures Format(SUMMARY + body + SUMMARY_END) == Squeeze(Defused(LABEL + Trim(body)))
  {
    NumberedOpens(body);
    AloneIsKept(body, body, body);
    NumberedFirst(Trim(body));
    LabelledIsTrimmed(LABEL, Trim(body));
    ControlTagsAreTags();
    CleanCore(LABEL + Trim(body), CONTROL_TAGS);
    CollapseIsSqueeze(Defused(LABEL + Trim(body)));
  }

  // ----- scratchpad in front

  /** A scratchpad behind `u` counts as leading: only blanks come before it, or the summary comes later, or it stands
      first in the summary. */
  predicate Leads(u: string, behind: string) {
    match Find(u, SUMMARY)
    case Some(sp) => AllBlank(u[sp + |SUMMARY|..])
    case None => AllBlank(u) || Find(behind, SUMMARY).Some?
  }

  lemma LeadsIsLeading(u: string, behind: string)
    requires !Contains(u, ANALYSIS)
    ensures var s := u + ANALYSIS + behind;
      Find(s, ANALYSIS) == Some(|u|) && (IsLeading(s, |u|) <==> Leads(u, behind))
  {
    var s := u + ANALYSIS + behind;
    AnalysisTags();
    SummaryTags();
    FirstTag(u, ANALYSIS, behind);
    assert s[..|u|] == u;
    Assoc(u, ANALYSIS, behind);
    match Find(u, SUMMARY) {
      case Some(sp) =>
        InLeftPart(u, ANALYSIS + behind, SUMMARY, sp);
        assert s[sp + |SUMMARY|..|u|] == u[sp + |SUMMARY|..];
      case None =>
        TagInTag(SUMMARY, ANALYSIS);
        assert SUMMARY[1] != ANALYSIS[1];
        SummaryBehind(u + ANALYSIS, behind, u, s);
    }
  }

  lemma SummaryBehind(front: string, behind: string, u: string, s: string)
    requires front == u + ANALYSIS && s == front + behind && !Contains(u, SUMMARY) && !Contains(ANALYSIS, SUMMARY)
    ensures match Find(behind, SUMMARY)
      case Some(k) => Find(s, SUMMARY) == Some(|front| + k)
      case None => Find(s, SUMMARY) == None
  {
    SummaryTags();
    JoinFree(u, ANALYSIS, SUMMARY);
    forall j: nat | OccursAt(front + behind, SUMMARY, j)
      ensures j + |SUMMARY| <= |front| || |front| <= j
    {
      NoneAcross(front, behind, SUMMARY, j);
    }
    InRightPart(front, behind, SUMMARY);
  }

  /** A leading scratchpad block makes no difference to the output, wherever it leads. */
  lemma ScratchpadIsDropped(u: string, a: string, t: string)
    requires !Contains(u, ANALYSIS) && !Contains(a, ANALYSIS_END) && Leads(u, a + ANALYSIS_END + t)
    ensures Format(u + ANALYSIS + a + ANALYSIS_END + t) == Format(u + t)
  {
    var behind := a + ANALYSIS_END + t;
    var s := u + ANALYSIS + behind;
    assert u + ANALYSIS + a + ANALYSIS_END + t == s;
    LeadsIsLeading(u, behind);
    AnalysisTags();
    TagsDiffer();
    FirstBehind(u, ANALYSIS, a, ANALYSIS_END, t);
    var end := |u| + |ANALYSIS| + |a|;
    assert s[..|u|] == u && s[end + |ANALYSIS_END|..] == t;
    assert StepAnalysis(s) == Closed(u + t);
    assert DropAnalysis(s) == DropAnalysis(u + t);
  }

  lemma TagsDiffer()
    ensures ANALYSIS != ANALYSIS_END
  {
    assert ANALYSIS[1] != ANALYSIS_END[1];
  }

  /** One that is never closed goes up to the summary, or to the end. */
  lemma UnclosedScratchpadIsDropped(u: string, x: string, y: string)
    requires !Contains(u, ANALYSIS) && !Contains(x + y, ANALYSIS_END) && Leads(u, x + y)
    requires !Contains(x, SUMMARY) && (y == "" || SUMMARY <= y) && !Contains(u + y, ANALYSIS)
    ensures Format(u + ANALYSIS + x + y) == Format(u + y)
  {
    var s := u + ANALYSIS + (x + y);
    assert u + ANALYSIS + x + y == s;
    UnclosedStep(s, u, x, y);
    assert DropAnalysis(s) == u + y && DropAnalysis(u + y) == u + y;
  }

  lemma UnclosedStep(s: string, u: string, x: string, y: string)
    requires s == u + ANALYSIS + (x + y) && !Contains(u, ANALYSIS) && !Contains(x + y, ANALYSIS_END)
    requires Leads(u, x + y) && !Contains(x, SUMMARY) && (y == "" || SUMMARY <= y)
    ensures StepAnalysis(s) == Unclosed(u + y)
  {
    LeadsIsLeading(u, x + y);
    NeverClosed(s, u, x + y);
    NextSummary(u, x, y);
    var n := SummaryOrEnd(s, |u|);
    assert s[..|u|] == u && s[n..] == y;
  }

  lemma NeverClosed(s: string, u: string, behind: string)
    requires s == u + ANALYSIS + behind && !Contains(behind, ANALYSIS_END)
    ensures FindFrom(s, ANALYSIS_END, |u|) == None
  {
    AnalysisTags();
    TagInTag(ANALYSIS_END, ANALYSIS);
    TagsDiffer();
    JoinFree(ANALYSIS, behind, ANALYSIS_END);
    Assoc(u, ANALYSIS, behind);
    FindBehind(s, u, ANALYSIS + behind, ANALYSIS_END);
  }

  lemma NextSummary(u: string, x: string, y: string)
    requires !Contains(x, SUMMARY) && (y == "" || SUMMARY <= y)
    ensures SummaryOrEnd(u + ANALYSIS + (x + y), |u|) == |u| + |ANALYSIS| + |x|
  {
    SummaryTags();
    AnalysisTags();
    TagInTag(SUMMARY, ANALYSIS);
    JoinFree(ANALYSIS, x, SUMMARY);
    Assoc(u, ANALYSIS, x + y);
    Assoc(ANALYSIS, x, y);
    if y == "" {
      assert ANALYSIS + x + y == ANALYSIS + x;
    } else {
      var z := y[|SUMMARY|..];
      assert y == SUMMARY + z;
      FirstTag(ANALYSIS + x, SUMMARY, z);
      assert ANALYSIS + x + y == ANALYSIS + x + SUMMARY + z;
    }
    FindBehind(u + ANALYSIS + (x + y), u, ANALYSIS + (x + y), SUMMARY);
  }
}
