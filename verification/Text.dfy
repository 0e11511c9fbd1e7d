/**
 String searching, trimming and replacing, with the meaning of the Rust standard library's
 `find`, `rfind`, `trim` and `replace`. Positions count characters.
 */
module Text {
  import opened Sequences

  datatype Option<+T> = None | Some(value: T)

  /** `pat` occurs in `s` at position `k`. */
  predicate OccursAt(s: string, pat: string, k: nat) {
    k + |pat| <= |s| && s[k..k + |pat|] == pat
  }

  ghost predicate Contains(s: string, pat: string) {
    exists k: nat :: OccursAt(s, pat, k)
  }

  /** Leftmost occurrence at or after `from`. */
  function FindFrom(s: string, pat: string, from: nat): (r: Option<nat>)
    ensures r.Some? ==> from <= r.value && OccursAt(s, pat, r.value)
    ensures r.Some? ==> forall k: nat :: from <= k < r.value ==> !OccursAt(s, pat, k)
    ensures r.None? ==> forall k: nat :: from <= k ==> !OccursAt(s, pat, k)
    decreases |s| - from
  {
    if from + |pat| > |s| then None
    else if OccursAt(s, pat, from) then Some(from)
    else FindFrom(s, pat, from + 1)
  }

  /** Leftmost occurrence of `pat` in `s`. */
  function Find(s: string, pat: string): (r: Option<nat>)
    ensures r.Some? ==> OccursAt(s, pat, r.value)
    ensures r.Some? ==> forall k: nat :: k < r.value ==> !OccursAt(s, pat, k)
    ensures r.Some? <==> Contains(s, pat)
  {
    FindFrom(s, pat, 0)
  }

  /** Rightmost occurrence that starts before `bound`. */
  function RFindBefore(s: string, pat: string, bound: nat): (r: Option<nat>)
    ensures r.Some? ==> r.value < bound && OccursAt(s, pat, r.value)
    ensures r.Some? ==> forall k: nat :: r.value < k < bound ==> !OccursAt(s, pat, k)
    ensures r.None? ==> forall k: nat :: k < bound ==> !OccursAt(s, pat, k)
    decreases bound
  {
    if bound == 0 then None
    else if OccursAt(s, pat, bound - 1) then Some(bound - 1)
    else RFindBefore(s, pat, bound - 1)
  }

  /** Rightmost occurrence of `pat` in `s`. */
  function RFind(s: string, pat: string): (r: Option<nat>)
    ensures r.Some? ==> OccursAt(s, pat, r.value)
    ensures r.Some? ==> forall k: nat :: r.value < k ==> !OccursAt(s, pat, k)
    ensures r.Some? <==> Contains(s, pat)
  {
    RFindBefore(s, pat, |s| + 1)
  }

  /** An occurrence is determined by its position: the leftmost one is what `Find` returns. */
  lemma FindIs(s: string, pat: string, k: nat)
    requires OccursAt(s, pat, k)
    requires forall j: nat :: j < k ==> !OccursAt(s, pat, j)
    ensures Find(s, pat) == Some(k)
  {
    var r := Find(s, pat);
    assert Contains(s, pat);
    if r.value < k {} else if k < r.value {}
  }

  lemma RFindIs(s: string, pat: string, k: nat)
    requires OccursAt(s, pat, k)
    requires forall j: nat :: k < j ==> !OccursAt(s, pat, j)
    ensures RFind(s, pat) == Some(k)
  {
    var r := RFind(s, pat);
    assert Contains(s, pat);
    if r.value < k {} else if k < r.value {}
  }

  lemma FindPrefix(a: string, y: string)
    ensures Find(a + y, a) == Some(0)
  {
    assert (a + y)[0..|a|] == a;
    FindIs(a + y, a, 0);
  }

  lemma RFindSuffix(x: string, b: string)
    ensures RFind(x + b, b) == Some(|x|)
  {
    assert (x + b)[|x|..|x| + |b|] == b;
    RFindIs(x + b, b, |x|);
  }

  /** An occurrence, character by character. */
  lemma OccursChars(s: string, pat: string, k: nat)
    requires OccursAt(s, pat, k)
    ensures forall i :: 0 <= i < |pat| ==> s[k + i] == pat[i]
    ensures forall j :: k <= j < k + |pat| ==> s[j] == pat[j - k]
  {
    forall i | 0 <= i < |pat|
      ensures s[k + i] == pat[i]
    {
      assert s[k..k + |pat|][i] == pat[i];
    }
  }

  lemma OccursInSlice(s: string, lo: nat, hi: nat, pat: string, k: nat)
    requires lo <= hi <= |s|
    ensures OccursAt(s[lo..hi], pat, k) <==> k + |pat| <= hi - lo && OccursAt(s, pat, lo + k)
  {
    if k + |pat| <= hi - lo {
      var a, b := s[lo..hi][k..k + |pat|], s[lo + k..lo + k + |pat|];
      assert |a| == |b| && forall i :: 0 <= i < |pat| ==> a[i] == b[i];
      assert a == b;
    }
  }

  lemma SliceContains(s: string, lo: nat, hi: nat, pat: string)
    requires lo <= hi <= |s|
    ensures Contains(s[lo..hi], pat) ==> Contains(s, pat)
  {
    if Contains(s[lo..hi], pat) {
      var k: nat :| OccursAt(s[lo..hi], pat, k);
      OccursInSlice(s, lo, hi, pat, k);
      assert OccursAt(s, pat, lo + k);
    }
  }

  // ----- trimming

  /** Unicode White_Space, as `char::is_whitespace` has it; U+200B is not in it. */
  predicate IsBlank(c: char) {
    || '\U{0009}' <= c <= '\U{000D}'
    || c == ' ' || c == '\U{0085}' || c == '\U{00A0}' || c == '\U{1680}'
    || '\U{2000}' <= c <= '\U{200A}'
    || c == '\U{2028}' || c == '\U{2029}' || c == '\U{202F}' || c == '\U{205F}' || c == '\U{3000}'
  }

  /** How many leading characters are blank. */
  function BlankPrefix(s: string): (n: nat)
    ensures n <= |s| && (n < |s| ==> !IsBlank(s[n]))
    ensures forall i :: 0 <= i < n ==> IsBlank(s[i])
  {
    if |s| == 0 || !IsBlank(s[0]) then 0 else 1 + BlankPrefix(s[1..])
  }

  /** Where the trailing blanks begin. */
  function BlankSuffix(s: string): (n: nat)
    ensures n <= |s| && (n > 0 ==> !IsBlank(s[n - 1]))
    ensures forall i :: n <= i < |s| ==> IsBlank(s[i])
  {
    if |s| == 0 || !IsBlank(s[|s| - 1]) then |s| else BlankSuffix(s[..|s| - 1])
  }

  function TrimStart(s: string): (r: string)
    ensures |r| <= |s| && r == s[|s| - |r|..]
    ensures r != "" ==> !IsBlank(r[0])
  {
    s[BlankPrefix(s)..]
  }

  predicate Trimmed(s: string) {
    s == "" || (!IsBlank(s[0]) && !IsBlank(s[|s| - 1]))
  }

  predicate AllBlank(s: string) {
    forall i :: 0 <= i < |s| ==> IsBlank(s[i])
  }

  function Trim(s: string): (r: string)
    ensures Trimmed(r) && |r| <= |s|
    ensures r == "" <==> AllBlank(s)
  {
    var lo, hi := BlankPrefix(s), BlankSuffix(s);
    if lo == |s| then "" else s[lo..hi]
  }

  /** `Trim` is the slice from the first to the last character that is not blank. */
  lemma TrimIs(a: string, s: string, b: string)
    requires AllBlank(a) && AllBlank(b) && Trimmed(s)
    ensures Trim(a + s + b) == s
  {
    var t := a + s + b;
    var lo, hi := BlankPrefix(t), BlankSuffix(t);
    if s == "" {
      assert AllBlank(t);
    } else {
      assert t[|a|] == s[0] && t[|a| + |s| - 1] == s[|s| - 1];
      assert lo == |a| && hi == |a| + |s|;
      assert t[lo..hi] == s;
    }
  }

  lemma TrimOfTrimmed(s: string)
    requires Trimmed(s)
    ensures Trim(s) == s
  {
    TrimIs("", s, "");
    assert "" + s + "" == s;
  }

  /** A string is its trimmed part between two blank strings. */
  lemma TrimParts(s: string) returns (a: string, b: string)
    ensures AllBlank(a) && AllBlank(b) && s == a + Trim(s) + b
  {
    var lo, hi := BlankPrefix(s), BlankSuffix(s);
    if lo == |s| {
      a, b := s, "";
      assert s == s + "" + "";
    } else {
      a, b := s[..lo], s[hi..];
      assert s == s[..lo] + s[lo..hi] + s[hi..];
    }
  }

  lemma TrimContains(s: string, pat: string)
    ensures Contains(Trim(s), pat) ==> Contains(s, pat)
  {
    var a, b := TrimParts(s);
    assert s[|a|..|a| + |Trim(s)|] == Trim(s);
    SliceContains(s, |a|, |a| + |Trim(s)|, pat);
  }

  /** Blank padding on either side does not change what `Trim` returns. */
  lemma TrimPadded(a: string, s: string, b: string)
    requires AllBlank(a) && AllBlank(b)
    ensures Trim(a + s + b) == Trim(s)
  {
    var a', b' := TrimParts(s);
    Pad(a, a', Trim(s), b', b);
    assert AllBlank(a + a') && AllBlank(b' + b);
    TrimIs(a + a', Trim(s), b' + b);
  }

  // ----- replacing

  /** Every non-overlapping occurrence of `pat`, from the left, becomes `rep`. */
  function Replace(s: string, pat: string, rep: string): (r: string)
    requires pat != ""
    decreases |s|
  {
    match Find(s, pat)
    case None => s
    case Some(k) => s[..k] + rep + Replace(s[k + |pat|..], pat, rep)
  }

  /** A string with an occurrence, cut at the leftmost one, and what replacing makes of the pieces. */
  lemma ReplaceCut(s: string, pat: string, rep: string) returns (before: string, rest: string)
    requires pat != "" && Contains(s, pat)
    ensures s == before + pat + rest && |rest| < |s| && Find(s, pat) == Some(|before|)
    ensures Replace(s, pat, rep) == before + rep + Replace(rest, pat, rep)
  {
    var k := Find(s, pat).value;
    before, rest := s[..k], s[k + |pat|..];
    assert s == s[..k] + s[k..k + |pat|] + s[k + |pat|..];
  }

  /** No occurrence of `t` can touch an inserted `r`, whatever stands around it. */
  ghost predicate Separates(r: string, t: string) {
    forall x: string, y: string, j: nat :: OccursAt(x + r + y, t, j) ==> j + |t| <= |x| || |x| + |r| <= j
  }

  lemma OccursLeft(x: string, y: string, t: string, j: nat)
    requires j + |t| <= |x|
    ensures OccursAt(x + y, t, j) <==> OccursAt(x, t, j)
  {
    assert (x + y)[j..j + |t|] == x[j..j + |t|];
  }

  lemma OccursRight(x: string, y: string, t: string, j: nat)
    ensures OccursAt(x + y, t, |x| + j) <==> OccursAt(y, t, j)
  {
    if j + |t| <= |y| {
      assert (x + y)[|x| + j..|x| + j + |t|] == y[j..j + |t|];
    }
  }

  /** What a replacement that keeps clear of `t` leaves: `t` only where it stood before, and never `pat` itself. */
  lemma {:induction false} ReplaceCreatesNothing(s: string, pat: string, rep: string, t: string)
    requires pat != "" && t != "" && Separates(rep, t)
    requires Contains(Replace(s, pat, rep), t)
    ensures Contains(s, t) && t != pat
    decreases |s|
  {
    var j: nat :| OccursAt(Replace(s, pat, rep), t, j);
    if Contains(s, pat) {
      var before, rest := ReplaceCut(s, pat, rep);
      var tail := Replace(rest, pat, rep);
      assert OccursAt(before + rep + tail, t, j);
      if j + |t| <= |before| {
        Assoc(before, rep, tail);
        OccursLeft(before, rep + tail, t, j);
        Assoc(before, pat, rest);
        OccursLeft(before, pat + rest, t, j);
        assert OccursAt(s, t, j);
        NotBeforeFirst(s, pat, before, j, t);
      } else {
        OccursRight(before + rep, tail, t, j - |before + rep|);
        ReplaceCreatesNothing(rest, pat, rep, t);
        var k: nat :| OccursAt(rest, t, k);
        OccursRight(before + pat, rest, t, k);
        assert OccursAt(s, t, |before + pat| + k);
      }
    }
  }

  /** Whatever occurs before the first occurrence of `pat` is not `pat`. */
  lemma NotBeforeFirst(s: string, pat: string, before: string, j: nat, t: string)
    requires Find(s, pat) == Some(|before|) && j < |before| && OccursAt(s, t, j)
    ensures t != pat
  {
  }
}
