/** Extraction of what the user typed, and which user items count as real turns. */
module UserQuery {
  import opened Text
  import opened Conversation
  import opened Sequences

  const SYSTEM_TAGS: seq<string> := [
    "user_info", "project_layout", "git_status", "fork-context", "system-reminder", "agent-memory",
    "system_reminder", "background_context", "command-name", "command-message", "command-args"]

  const QUERY := "<user_query>"
  const QUERY_END := "</user_query>"
  const AUTO_CONTINUE := "__auto_continue__"
  const AUTO_CONTINUE_PROMPT :=
    "Continue the conversation from where it left off without asking the user any further questions. "
    + "Resume directly - do not acknowledge the summary, do not recap what was happening, do not preface with "
    + "\"I'll continue\" or similar.\nPick up the last task as if the break never happened."

  function Opener(tag: string): string { "<" + tag + ">" }

  function Closer(tag: string): string { "</" + tag + ">" }

  /** `s` without its first block, if the first opener has a closer behind it. */
  function CutBlock(s: string, open: string, close: string): (r: Option<string>)
    requires open != "" && close != ""
    ensures r.Some? ==> |r.value| < |s|
  {
    match Find(s, open)
    case None => None
    case Some(start) =>
      match FindFrom(s, close, start)
      case None => None
      case Some(end) => Some(s[..start] + s[end + |close|..])
  }

  /** `s` without its blocks; an unclosed opener stays. */
  function StripBlocks(s: string, open: string, close: string): (r: string)
    requires open != "" && close != ""
    ensures |r| <= |s| && (CutBlock(s, open, close).Some? ==> |r| < |s|)
    decreases |s|
  {
    match CutBlock(s, open, close)
    case None => s
    case Some(rest) => StripBlocks(rest, open, close)
  }

  predicate HasBlock(s: string, tag: string) {
    CutBlock(s, Opener(tag), Closer(tag)).Some?
  }

  function StripTag(s: string, tag: string): (r: string)
    ensures |r| <= |s|
  {
    StripBlocks(s, Opener(tag), Closer(tag))
  }

  function StripTags(s: string, tags: seq<string>): (r: string)
    ensures |r| <= |s|
    decreases |tags|
  {
    if tags == [] then s else StripTags(StripTag(s, tags[0]), tags[1..])
  }

  function StripSystemTags(s: string): string {
    Trim(StripTags(s, SYSTEM_TAGS))
  }

  /** The inner loop: remove the blocks of one tag in place. */
  method RemoveBlocks(text: string, open: string, close: string) returns (result: string)
    requires open != "" && close != ""
    ensures result == StripBlocks(text, open, close)
  {
    result := text;
    var cut := CutBlock(result, open, close);
    while cut.Some?
      invariant cut == CutBlock(result, open, close)
      invariant StripBlocks(result, open, close) == StripBlocks(text, open, close)
      decreases |result|
    {
      result := cut.value;
      cut := CutBlock(result, open, close);
    }
  }

  method RemoveTags(text: string, tags: seq<string>) returns (result: string)
    ensures result == StripTags(text, tags)
  {
    result := text;
    for t := 0 to |tags|
      invariant StripTags(result, tags[t..]) == StripTags(text, tags)
    {
      CutOne(tags, t);
      result := RemoveBlocks(result, Opener(tags[t]), Closer(tags[t]));
    }
  }

  method RemoveSystemTags(text: string) returns (result: string)
    ensures result == StripSystemTags(text)
  {
    result := RemoveTags(text, SYSTEM_TAGS);
    result := Trim(result);
  }

  function ExtractUserQuery(text: string): string {
    match Find(text, QUERY)
    case None => StripSystemTags(text)
    case Some(start) =>
      match FindFrom(text, QUERY_END, start + |QUERY|)
      case None => StripSystemTags(text)
      case Some(end) => StripSystemTags(Trim(text[start + |QUERY|..end]))
  }

  predicate IsSyntheticQuery(q: string) {
    q == "" || q == AUTO_CONTINUE || q == AUTO_CONTINUE_PROMPT
  }

  /** The text parts of a user item, joined by line breaks. */
  function JoinText(parts: seq<ContentPart>): string {
    if parts == [] then ""
    else if parts[0].ImagePart? then JoinText(parts[1..])
    else if exists i :: 1 <= i < |parts| && parts[i].TextPart? then parts[0].text + "\n" + JoinText(parts[1..])
    else parts[0].text
  }

  predicate HasImage(parts: seq<ContentPart>) {
    exists i :: 0 <= i < |parts| && parts[i].ImagePart?
  }

  /** The query text of a user item. */
  function QueryOf(item: Item): string {
    if item.User? then ExtractUserQuery(JoinText(item.parts)) else ""
  }

  predicate IsRealUserTurn(item: Item) {
    item.User? && item.reason.None? && (HasImage(item.parts) || !IsSyntheticQuery(QueryOf(item)))
  }

  function WrapUserQuery(text: string): string {
    QUERY + "\n" + text + "\n" + QUERY_END
  }

  // ----- what stripping leaves alone

  lemma {:induction false} StripTagsFixed(s: string, tags: seq<string>)
    ensures StripTags(s, tags) == s <==> forall i :: 0 <= i < |tags| ==> !HasBlock(s, tags[i])
    decreases |tags|
  {
    if tags != [] {
      StripTagShrinks(s, tags[0]);
      StripTagsFixed(s, tags[1..]);
      assert forall i :: 0 < i < |tags| ==> tags[i] == tags[1..][i - 1];
      assert |StripTags(StripTag(s, tags[0]), tags[1..])| <= |StripTag(s, tags[0])|;
    }
  }

  /** No closed block of the tag is left, even where removing one joined the pieces of another. */
  lemma {:induction false} StripBlocksClears(s: string, open: string, close: string)
    requires open != "" && close != ""
    ensures CutBlock(StripBlocks(s, open, close), open, close).None?
    decreases |s|
  {
    var cut := CutBlock(s, open, close);
    if cut.Some? {
      StripBlocksClears(cut.value, open, close);
    }
  }

  lemma StripTagShrinks(s: string, tag: string)
    ensures HasBlock(s, tag) ==> |StripTag(s, tag)| < |s|
  {
  }

  lemma {:induction false} StripTagsShrinks(s: string, tags: seq<string>)
    ensures StripTags(s, tags) == s || |StripTags(s, tags)| < |s|
    decreases |tags|
  {
    if tags != [] {
      StripTagShrinks(s, tags[0]);
      StripTagsShrinks(StripTag(s, tags[0]), tags[1..]);
    }
  }

  /** No tag has a closed block in `q`. */
  predicate BlockFree(q: string, tags: seq<string>) {
    forall i :: 0 <= i < |tags| ==> !HasBlock(q, tags[i])
  }

  lemma StripTrimFixed(q: string, tags: seq<string>)
    requires Trimmed(q)
    ensures Trim(StripTags(q, tags)) == q <==> BlockFree(q, tags)
  {
    StripTagsFixed(q, tags);
    TrimOfTrimmed(q);
  }

  // ----- unwrapping what was wrapped

  /** An occurrence of a text without line breaks lies on one side of a line break. */
  lemma NoBreakInside(s: string, c: string, k: nat, h: nat)
    requires OccursAt(s, c, k) && h < |s| && s[h] == '\n' && forall i :: 0 <= i < |c| ==> c[i] != '\n'
    ensures h < k || k + |c| <= h
  {
    OccursChars(s, c, k);
  }

  /** The first closer after a line break: inside the text up to the next line break, or right behind that one. */
  lemma FirstCloser(s: string, lo: nat, hi: nat, c: string, at: nat)
    requires c != "" && forall i :: 0 <= i < |c| ==> c[i] != '\n'
    requires 0 < lo <= hi < |s| && s[lo - 1] == '\n' && s[hi] == '\n' && OccursAt(s, c, hi + 1)
    requires lo - 1 <= at && OccursAt(s, c, at) && forall k: nat :: lo - 1 <= k < at ==> !OccursAt(s, c, k)
    ensures lo <= at && (at < hi || at == hi + 1)
    ensures Contains(s[lo..hi], c) <==> at < hi
  {
    NoBreakInside(s, c, at, lo - 1);
    NoBreakInside(s, c, at, hi);
    if at <= hi {
      OccursInSlice(s, lo, hi, c, at - lo);
    } else {
      NoneBetween(s, lo, hi, c);
    }
  }

  lemma NoneBetween(s: string, lo: nat, hi: nat, c: string)
    requires lo <= hi <= |s| && forall k: nat :: lo <= k <= hi ==> !OccursAt(s, c, k)
    ensures !Contains(s[lo..hi], c)
  {
    if Contains(s[lo..hi], c) {
      var k: nat :| OccursAt(s[lo..hi], c, k);
      OccursInSlice(s, lo, hi, c, k);
      assert false;
    }
  }

  lemma LeadingBlankIsTrimmed(s: string)
    requires s != "" && IsBlank(s[0])
    ensures |Trim(s)| < |s|
  {
    var a, b := TrimParts(s);
    assert Trim(s) != s;
  }

  /** Wrapping and extracting gives the query back exactly if it holds neither the closing tag nor a system block. */
  lemma UnwrapIsInverse(q: string)
    requires Trimmed(q)
    ensures ExtractUserQuery(WrapUserQuery(q)) == q <==> !Contains(q, QUERY_END) && BlockFree(q, SYSTEM_TAGS)
  {
    var inner := ExtractWrapped(q);
    StripTrimFixed(q, SYSTEM_TAGS);
    assert |StripSystemTags(inner)| <= |inner|;
  }

  /** What extraction finds between the tags: the query, or less if it quotes the closing tag. */
  lemma ExtractWrapped(q: string) returns (inner: string)
    requires Trimmed(q)
    ensures ExtractUserQuery(WrapUserQuery(q)) == StripSystemTags(inner)
    ensures if Contains(q, QUERY_END) then |inner| < |q| else inner == q
  {
    WrappedLayout(QUERY, q, QUERY_END);
    FindPrefix(QUERY, "\n" + q + "\n" + QUERY_END);
    var s, n := WrapUserQuery(q), |QUERY|;
    var end := CloserOf(s, n, q, QUERY_END);
    ExtractIs(s, n, end);
    inner := Trim(s[n..end]);
    if end <= n + |q| {
      ShortInner(s, n, end);
    } else {
      PaddedInner(s, n, q);
    }
  }

  /** A query that does not come back whole comes back shorter. */
  lemma UnwrapShrinks(q: string)
    requires Trimmed(q)
    ensures var e := ExtractUserQuery(WrapUserQuery(q)); e == q || |e| < |q|
  {
    var inner := ExtractWrapped(q);
    assert |StripSystemTags(inner)| <= |inner|;
    StripTagsShrinks(q, SYSTEM_TAGS);
    TrimOfTrimmed(q);
  }

  lemma ExtractIs(text: string, n: nat, end: nat)
    requires n >= |QUERY| && Find(text, QUERY) == Some(n - |QUERY|) && FindFrom(text, QUERY_END, n) == Some(end)
    ensures ExtractUserQuery(text) == StripSystemTags(Trim(text[n..end]))
  {
  }

  lemma WrappedLayout(o: string, q: string, c: string)
    ensures var s := o + "\n" + q + "\n" + c;
      && s == o + ("\n" + q + "\n" + c) && |s| == |o| + |q| + |c| + 2
      && s[|o|] == '\n' && s[|o| + 1..|o| + 1 + |q|] == q && s[|o| + 1 + |q|] == '\n'
      && OccursAt(s, c, |o| + 2 + |q|)
  {
    var s := o + "\n" + q + "\n" + c;
    assert s == o + ("\n" + q + "\n" + c);
    assert s[|o| + 2 + |q|..|o| + 2 + |q| + |c|] == c;
  }

  lemma CloserOf(s: string, n: nat, q: string, c: string) returns (end: nat)
    requires c != "" && forall i :: 0 <= i < |c| ==> c[i] != '\n'
    requires n + |q| + 2 <= |s| && s[n] == '\n' && s[n + 1..n + 1 + |q|] == q && s[n + 1 + |q|] == '\n'
    requires OccursAt(s, c, n + 2 + |q|)
    ensures FindFrom(s, c, n) == Some(end) && n < end <= |s|
    ensures end <= n + |q| || end == n + |q| + 2
    ensures Contains(q, c) <==> end <= n + |q|
  {
    end := FindFrom(s, c, n).value;
    FirstCloser(s, n + 1, n + 1 + |q|, c, end);
  }

  lemma ShortInner(s: string, n: nat, end: nat)
    requires n < end <= |s| && s[n] == '\n'
    ensures |Trim(s[n..end])| < end - n
  {
    assert s[n..end][0] == s[n];
    LeadingBlankIsTrimmed(s[n..end]);
  }

  lemma PaddedInner(s: string, n: nat, q: string)
    requires n + |q| + 2 <= |s| && s[n] == '\n' && s[n + 1..n + 1 + |q|] == q && s[n + 1 + |q|] == '\n'
    requires Trimmed(q)
    ensures Trim(s[n..n + |q| + 2]) == q
  {
    var a, b := [s[n]], [s[n + 1 + |q|]];
    assert s[n..n + |q| + 2] == a + s[n + 1..n + 1 + |q|] + b;
    TrimPadded(a, q, b);
    TrimOfTrimmed(q);
  }
}
