/** Tags in texts that are put together from parts: they cannot overlap or lie across, so their places are known. */
module Tags {
  import opened Text
  import opened Sequences

  const ZERO_WIDTH_SPACE := '\U{200B}'

  /** The shape all tags share: one `<`, in front, one `>`, at the end, and neither a line break nor a sentinel
      inside. */
  predicate IsTag(t: string) {
    && |t| >= 2 && t[0] == '<' && t[|t| - 1] == '>'
    && (forall i :: 1 <= i < |t| ==> t[i] != '<')
    && (forall i :: 0 <= i < |t| - 1 ==> t[i] != '>')
    && (forall i :: 0 <= i < |t| ==> t[i] != '\n' && t[i] != ZERO_WIDTH_SPACE)
  }

  /** Two tags cannot overlap, so text between them is well delimited. */
  lemma TagsDoNotOverlap(s: string, p: string, i: nat, q: string, j: nat)
    requires IsTag(p) && IsTag(q) && OccursAt(s, p, i) && OccursAt(s, q, j) && i < j
    ensures i + |p| <= j
  {
    OccursChars(s, p, i);
    OccursChars(s, q, j);
    assert s[j] == '<';
  }

  /** No tag can lie across the place where the two texts meet. */
  predicate Apart(a: string, b: string, t: string) {
    a == "" || b == "" || a[|a| - 1] == '>' || b[0] == '<' || a[|a| - 1] !in t || b[0] !in t
  }

  lemma Across(a: string, b: string, t: string, j: nat)
    requires IsTag(t) && OccursAt(a + b, t, j) && j < |a| < j + |t|
    ensures !Apart(a, b, t)
  {
    var s, m := a + b, |a| - j;
    OccursChars(s, t, j);
    assert s[j + m] == t[m] && s[j + (m - 1)] == t[m - 1];
    assert b[0] == t[m] && a[|a| - 1] == t[m - 1];
  }

  lemma NoneAcross(a: string, b: string, t: string, j: nat)
    requires IsTag(t) && Apart(a, b, t) && OccursAt(a + b, t, j)
    ensures j + |t| <= |a| || |a| <= j
  {
    if j < |a| < j + |t| {
      Across(a, b, t, j);
    }
  }

  lemma JoinFree(a: string, b: string, t: string)
    requires IsTag(t) && Apart(a, b, t) && !Contains(a, t) && !Contains(b, t)
    ensures !Contains(a + b, t)
  {
    if Contains(a + b, t) {
      var j: nat :| OccursAt(a + b, t, j);
      NoneAcross(a, b, t, j);
      if j + |t| <= |a| {
        OccursLeft(a, b, t, j);
      } else {
        OccursRight(a, b, t, j - |a|);
        assert false;
      }
    }
  }

  lemma PartFree(a: string, b: string, t: string)
    ensures Contains(a, t) || Contains(b, t) ==> Contains(a + b, t)
  {
    assert (a + b)[0..|a|] == a && (a + b)[|a|..|a + b|] == b;
    SliceContains(a + b, 0, |a|, t);
    SliceContains(a + b, |a|, |a + b|, t);
  }

  /** One tag is no part of another. */
  lemma TagInTag(p: string, t: string)
    requires IsTag(p) && IsTag(t)
    ensures Contains(t, p) <==> p == t
  {
    if Contains(t, p) {
      var j: nat :| OccursAt(t, p, j);
      OccursChars(t, p, j);
      assert t[j] == '<' && t[j + |p| - 1] == '>';
      assert j == 0 && |p| == |t| && t[0..0 + |p|] == t;
    }
    assert OccursAt(t, t, 0);
  }

  /** The first occurrence of a tag, behind a text without it. */
  lemma FirstTag(a: string, t: string, b: string)
    requires IsTag(t) && !Contains(a, t)
    ensures Find(a + t + b, t) == Some(|a|)
  {
    var s := a + t + b;
    assert s[|a|..|a| + |t|] == t;
    assert s == a + (t + b);
    forall j: nat | j < |a|
      ensures !OccursAt(s, t, j)
    {
      if OccursAt(s, t, j) {
        NoneAcross(a, t + b, t, j);
        OccursLeft(a, t + b, t, j);
      }
    }
    FindIs(s, t, |a|);
  }

  /** The last one, in front of a text without it. */
  lemma LastTag(a: string, t: string, b: string)
    requires IsTag(t) && !Contains(b, t)
    ensures RFind(a + t + b, t) == Some(|a|)
  {
    var s := a + t + b;
    assert s[|a|..|a| + |t|] == t;
    OccursChars(s, t, |a|);
    forall j: nat | |a| < j
      ensures !OccursAt(s, t, j)
    {
      if OccursAt(s, t, j) {
        TagsDoNotOverlap(s, t, |a|, t, j);
        OccursRight(a + t, b, t, j - |a + t|);
        assert false;
      }
    }
    RFindIs(s, t, |a|);
  }

  lemma InLeftPart(a: string, b: string, p: string, k: nat)
    requires Find(a, p) == Some(k)
    ensures Find(a + b, p) == Some(k)
  {
    forall j: nat | j < k
      ensures !OccursAt(a + b, p, j)
    {
      OccursLeft(a, b, p, j);
    }
    OccursLeft(a, b, p, k);
    FindIs(a + b, p, k);
  }

  /** Occurrences in a text of two parts, if none lies across. */
  ghost predicate Separate(a: string, b: string, p: string) {
    forall j: nat :: OccursAt(a + b, p, j) ==> j + |p| <= |a| || |a| <= j
  }

  lemma InRightPart(a: string, b: string, p: string)
    requires Separate(a, b, p) && !Contains(a, p)
    ensures Find(a + b, p) == match Find(b, p) case Some(k) => Some(|a| + k) case None => None
  {
    forall j: nat | OccursAt(a + b, p, j)
      ensures |a| <= j && OccursAt(b, p, j - |a|)
    {
      if j + |p| <= |a| {
        OccursLeft(a, b, p, j);
      } else {
        OccursRight(a, b, p, j - |a|);
      }
    }
    if Find(b, p).Some? {
      var k := Find(b, p).value;
      OccursRight(a, b, p, k);
      FindIs(a + b, p, |a| + k);
    } else {
      assert !Contains(a + b, p);
    }
  }

  lemma FindFromIs(s: string, t: string, from: nat, k: nat)
    requires from <= k && OccursAt(s, t, k) && forall j: nat :: from <= j < k ==> !OccursAt(s, t, j)
    ensures FindFrom(s, t, from) == Some(k)
  {
    var r := FindFrom(s, t, from);
    assert r.Some?;
  }

  lemma NoneFrom(s: string, t: string, from: nat)
    requires forall j: nat :: from <= j ==> !OccursAt(s, t, j)
    ensures FindFrom(s, t, from) == None
  {
  }

  /** Searching from the end of a front. */
  lemma FindBehind(s: string, u: string, tail: string, t: string)
    requires t != "" && s == u + tail
    ensures FindFrom(s, t, |u|) == match Find(tail, t) case Some(k) => Some(|u| + k) case None => None
  {
    forall j: nat | |u| <= j
      ensures OccursAt(s, t, j) <==> OccursAt(tail, t, j - |u|)
    {
      OccursRight(u, tail, t, j - |u|);
    }
    var found := Find(tail, t);
    if found.Some? {
      FindFromIs(s, t, |u|, |u| + found.value);
    } else {
      NoneFrom(s, t, |u|);
    }
  }

  lemma BehindFirst(u: string, o: string, a: string, c: string, t: string)
    ensures u + o + (a + c + t) == u + (o + a + c + t)
  {
  }

  /** The first closing tag behind a text and an opening one. */
  lemma FirstBehind(u: string, o: string, a: string, c: string, t: string)
    requires IsTag(o) && IsTag(c) && o != c && !Contains(a, c)
    ensures FindFrom(u + o + (a + c + t), c, |u|) == Some(|u| + |o| + |a|)
  {
    TagInTag(c, o);
    JoinFree(o, a, c);
    FirstTag(o + a, c, t);
    BehindFirst(u, o, a, c, t);
    FindBehind(u + o + (a + c + t), u, o + a + c + t, c);
  }

  lemma NoneInEmpty(t: string)
    requires t != ""
    ensures !Contains("", t)
  {
  }
}
