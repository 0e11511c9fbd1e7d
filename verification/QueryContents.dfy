/**
 What stays of a message: removing a block takes the block and nothing else, so what the runtime injected goes, what the
 user typed around it stays, in its order, and only that decides whether a turn is a real one.
 */
module QueryContents {
  import opened Text
  import opened Sequences
  import opened Tags
  import opened Conversation
  import opened UserQuery

  /** A name that makes tags: `<name>` and `</name>`. */
  predicate IsName(name: string) {
    name != "" && name[0] != '/' && IsPlain(name)
  }

  /** No angle bracket, line break or sentinel. */
  predicate IsPlain(s: string) {
    forall i :: 0 <= i < |s| ==> s[i] != '<' && s[i] != '>' && s[i] != '\n' && s[i] != ZERO_WIDTH_SPACE
  }

  lemma Bracketed(s: string)
    requires IsPlain(s)
    ensures IsTag("<" + s + ">")
  {
    var t := "<" + s + ">";
    assert |t| == |s| + 2 && t[0] == '<' && t[|s| + 1] == '>';
    assert forall i :: 1 <= i < |t| - 1 ==> t[i] == s[i - 1];
  }

  lemma NameMakesTags(name: string)
    requires IsName(name)
    ensures IsTag(Opener(name)) && IsTag(Closer(name)) && Opener(name) != Closer(name)
  {
    Bracketed(name);
    Bracketed("/" + name);
    assert Closer(name) == "<" + ("/" + name) + ">";
    OpenersDiffer(name, name);
  }

  lemma OpenersDiffer(p: string, q: string)
    requires IsName(p) && IsName(q)
    ensures Opener(p) != Closer(q) && (p != q ==> Opener(p) != Opener(q))
  {
    assert Opener(p)[1] == p[0] && Closer(q)[1] == '/';
    assert Opener(p)[1..|p| + 1] == p && (Opener(p) == Opener(q) ==> Opener(q)[1..|p| + 1] == q);
  }

  // ----- one block

  /** Removing a block leaves what stands in front of it and what stands behind it, joined. */
  lemma BlockIsCut(x: string, name: string, y: string, z: string)
    requires IsName(name) && !Contains(x, Opener(name)) && !Contains(y, Closer(name))
    ensures StripTag(x + Opener(name) + y + Closer(name) + z, name) == StripTag(x + z, name)
  {
    var o, c := Opener(name), Closer(name);
    var s := x + o + (y + c + z);
    assert x + o + y + c + z == s;
    NameMakesTags(name);
    FirstTag(x, o, y + c + z);
    FirstBehind(x, o, y, c, z);
    CutIs(s, x, o, y, c, z);
  }

  lemma CutParts(x: string, o: string, y: string, c: string, z: string)
    ensures var s := x + o + (y + c + z);
      |x| + |o| + |y| + |c| <= |s| && s[..|x|] == x && s[|x| + |o| + |y| + |c|..] == z
  {
  }

  lemma CutAt(s: string, o: string, c: string, start: nat, end: nat)
    requires o != "" && c != "" && Find(s, o) == Some(start) && FindFrom(s, c, start) == Some(end)
    ensures CutBlock(s, o, c) == Some(s[..start] + s[end + |c|..])
  {
  }

  lemma CutIs(s: string, x: string, o: string, y: string, c: string, z: string)
    requires s == x + o + (y + c + z) && o != "" && c != ""
    requires Find(s, o) == Some(|x|) && FindFrom(s, c, |x|) == Some(|x| + |o| + |y|)
    ensures CutBlock(s, o, c) == Some(x + z)
  {
    CutParts(x, o, y, c, z);
    CutAt(s, o, c, |x|, |x| + |o| + |y|);
  }

  // ----- a message with any number of blocks

  /** An injected block and the text behind it. */
  datatype Block = Block(name: string, content: string, behind: string)

  function BlockText(b: Block): string { Opener(b.name) + b.content + Closer(b.name) }

  /** The message: a text, and blocks with the text behind each. */
  function Rendered(head: string, blocks: seq<Block>): string
    decreases |blocks|
  {
    if blocks == [] then head else head + BlockText(blocks[0]) + Rendered(blocks[0].behind, blocks[1..])
  }

  /** The message without its blocks. */
  function Typed(head: string, blocks: seq<Block>): string
    decreases |blocks|
  {
    if blocks == [] then head else head + Typed(blocks[0].behind, blocks[1..])
  }

  predicate AllNames(names: seq<string>) {
    forall i :: 0 <= i < |names| ==> IsName(names[i])
  }

  ghost predicate NoOpener(s: string, names: seq<string>) {
    forall i :: 0 <= i < |names| ==> !Contains(s, Opener(names[i]))
  }

  /** The blocks are named by `names`, and their contents neither close them nor open another one. */
  ghost predicate BlocksOf(blocks: seq<Block>, names: seq<string>) {
    forall i :: 0 <= i < |blocks| ==>
      && blocks[i].name in names && NoOpener(blocks[i].content, names)
      && !Contains(blocks[i].content, Closer(blocks[i].name))
  }

  /** The message without the blocks of one name; texts that meet are joined. */
  function WithoutName(head: string, blocks: seq<Block>, name: string): (r: (string, seq<Block>))
    decreases |blocks|
  {
    if blocks == [] then (head, [])
    else
      var b := blocks[0];
      if b.name == name then WithoutName(head + b.behind, blocks[1..], name)
      else
        var (h, rest) := WithoutName(b.behind, blocks[1..], name);
        (head, [Block(b.name, b.content, h)] + rest)
  }

  lemma {:induction false} WithoutNameKeeps(head: string, blocks: seq<Block>, name: string, names: seq<string>)
    requires BlocksOf(blocks, names)
    ensures var (h, rest) := WithoutName(head, blocks, name);
      && Typed(h, rest) == Typed(head, blocks) && BlocksOf(rest, names)
      && forall i :: 0 <= i < |rest| ==> rest[i].name != name
    decreases |blocks|
  {
    if blocks != [] {
      var b := blocks[0];
      assert BlocksOf(blocks[1..], names);
      if b.name == name {
        WithoutNameKeeps(head + b.behind, blocks[1..], name, names);
        TypedHead(head, b.behind, blocks[1..]);
      } else {
        WithoutNameKeeps(b.behind, blocks[1..], name, names);
        var (h, rest) := WithoutName(b.behind, blocks[1..], name);
        Cons(Block(b.name, b.content, h), rest);
      }
    }
  }

  lemma TypedHead(x: string, y: string, blocks: seq<Block>)
    ensures Typed(x + y, blocks) == x + Typed(y, blocks)
  {
    if blocks != [] {
      Assoc(x, y, Typed(blocks[0].behind, blocks[1..]));
    }
  }

  lemma RenderedHead(x: string, y: string, blocks: seq<Block>)
    ensures Rendered(x + y, blocks) == x + Rendered(y, blocks)
  {
    if blocks != [] {
      Assoc(x, y, BlockText(blocks[0]));
      Assoc(x, y + BlockText(blocks[0]), Rendered(blocks[0].behind, blocks[1..]));
    }
  }

  /** A front that ends with a tag, if it is not empty. */
  predicate EndsTagged(q: string) { q == "" || q[|q| - 1] == '>' }

  lemma BlockTextIs(b: Block, name: string)
    requires IsName(b.name) && IsName(name) && b.name != name && !Contains(b.content, Opener(name))
    ensures !Contains(BlockText(b), Opener(name)) && BlockText(b) != ""
    ensures BlockText(b)[0] == '<' && BlockText(b)[|BlockText(b)| - 1] == '>'
  {
    var o := Opener(name);
    NameMakesTags(name);
    NameMakesTags(b.name);
    OpenersDiffer(name, b.name);
    TagInTag(o, Opener(b.name));
    TagInTag(o, Closer(b.name));
    JoinFree(Opener(b.name), b.content, o);
    JoinFree(Opener(b.name) + b.content, Closer(b.name), o);
  }

  /** Stripping one tag removes exactly its blocks. */
  lemma {:induction false} OneTagGoes(
    q: string, head: string, blocks: seq<Block>, name: string, names: seq<string>)
    requires AllNames(names) && name in names && BlocksOf(blocks, names)
    requires EndsTagged(q) && !Contains(q, Opener(name)) && !Contains(Typed(head, blocks), Opener(name))
    ensures var (h, rest) := WithoutName(head, blocks, name);
      StripTag(q + Rendered(head, blocks), name) == q + Rendered(h, rest)
    decreases |blocks|
  {
    var o := Opener(name);
    assert IsName(name);
    NameMakesTags(name);
    if blocks == [] {
      JoinFree(q, head, o);
    } else {
      var b := blocks[0];
      var more := blocks[1..];
      var behind := Typed(b.behind, more);
      PartFree(head, behind, o);
      JoinFree(q, head, o);
      assert BlocksOf(more, names) && IsName(b.name);
      if b.name == name {
        SameTagGoes(q, head, b, more);
        TypedHead(head, b.behind, more);
        OneTagGoes(q, head + b.behind, more, name, names);
      } else {
        var i :| 0 <= i < |names| && names[i] == name;
        BlockTextIs(b, name);
        JoinFree(q + head, BlockText(b), o);
        OneTagGoes(q + head + BlockText(b), b.behind, more, name, names);
        OtherTagStays(q, head, b, more, name);
      }
    }
  }

  lemma SameTagGoes(q: string, head: string, b: Block, more: seq<Block>)
    requires IsName(b.name) && !Contains(q + head, Opener(b.name)) && !Contains(b.content, Closer(b.name))
    ensures StripTag(q + Rendered(head, [b] + more), b.name) == StripTag(q + Rendered(head + b.behind, more), b.name)
  {
    Cons(b, more);
    var tail := Rendered(b.behind, more);
    RenderedHead(head, b.behind, more);
    BlockIsCut(q + head, b.name, b.content, tail);
    Spread(q, head, Opener(b.name), b.content, Closer(b.name), tail);
    Assoc(q, head, tail);
  }

  lemma Spread(q: string, h: string, o: string, y: string, c: string, z: string)
    ensures q + (h + (o + y + c) + z) == (q + h) + o + y + c + z
  {
  }

  lemma OtherTagStays(q: string, head: string, b: Block, more: seq<Block>, name: string)
    requires b.name != name
    ensures var (h, rest) := WithoutName(head, [b] + more, name);
      var (h', rest') := WithoutName(b.behind, more, name);
      && q + Rendered(head, [b] + more) == q + head + BlockText(b) + Rendered(b.behind, more)
      && q + Rendered(h, rest) == q + head + BlockText(b) + Rendered(h', rest')
  {
    Cons(b, more);
    var (h', rest') := WithoutName(b.behind, more, name);
    Cons(Block(b.name, b.content, h'), rest');
    Front(q, head, BlockText(b), Rendered(b.behind, more));
    Front(q, head, BlockText(b), Rendered(h', rest'));
  }

  /** Stripping all tags removes exactly the blocks, in whatever order they stand. */
  lemma {:induction false} AllTagsGo(head: string, blocks: seq<Block>, names: seq<string>)
    requires AllNames(names) && BlocksOf(blocks, names) && NoOpener(Typed(head, blocks), names)
    ensures StripTags(Rendered(head, blocks), names) == Typed(head, blocks)
    decreases |names|
  {
    if names == [] {
      assert blocks == [];
    } else {
      var (h, rest) := WithoutName(head, blocks, names[0]);
      FirstTagGoes(head, blocks, names);
      WithoutNameKeeps(head, blocks, names[0], names);
      FewerNames(rest, names);
      assert forall i :: 0 <= i < |names[1..]| ==> names[1..][i] == names[i + 1];
      AllTagsGo(h, rest, names[1..]);
    }
  }

  lemma FirstTagGoes(head: string, blocks: seq<Block>, names: seq<string>)
    requires names != [] && AllNames(names) && BlocksOf(blocks, names) && NoOpener(Typed(head, blocks), names)
    ensures var (h, rest) := WithoutName(head, blocks, names[0]);
      StripTag(Rendered(head, blocks), names[0]) == Rendered(h, rest)
  {
    var (h, rest) := WithoutName(head, blocks, names[0]);
    NoneInEmpty(Opener(names[0]));
    OneTagGoes("", head, blocks, names[0], names);
    NoFront(Rendered(head, blocks));
    NoFront(Rendered(h, rest));
  }

  lemma FewerNames(blocks: seq<Block>, names: seq<string>)
    requires names != [] && BlocksOf(blocks, names) && forall i :: 0 <= i < |blocks| ==> blocks[i].name != names[0]
    ensures BlocksOf(blocks, names[1..])
  {
    assert names == [names[0]] + names[1..];
    assert forall i :: 0 <= i < |names[1..]| ==> names[1..][i] == names[i + 1];
  }

  // ----- main results

  lemma SystemTagNames()
    ensures AllNames(SYSTEM_TAGS)
  {
    assert IsName("user_info") && IsName("project_layout") && IsName("git_status") && IsName("fork-context");
    assert IsName("system-reminder") && IsName("agent-memory") && IsName("system_reminder");
    assert IsName("background_context");
    assert IsName("command-name") && IsName("command-message") && IsName("command-args");
  }

  /** The message is made of injected blocks and the text around them, and that text completes no opener. */
  ghost predicate IsInjected(blocks: seq<Block>, typed: string) {
    BlocksOf(blocks, SYSTEM_TAGS) && NoOpener(typed, SYSTEM_TAGS)
  }

  /** Stripping the system tags leaves exactly the text around the blocks, trimmed. */
  lemma InjectedBlocksGo(head: string, blocks: seq<Block>)
    requires IsInjected(blocks, Typed(head, blocks))
    ensures StripSystemTags(Rendered(head, blocks)) == Trim(Typed(head, blocks))
  {
    SystemTagNames();
    AllTagsGo(head, blocks, SYSTEM_TAGS);
  }

  lemma QueryTags()
    ensures IsTag(QUERY) && IsTag(QUERY_END)
  {
    Bracketed("user_query");
    Bracketed("/user_query");
    assert QUERY == "<" + "user_query" + ">" && QUERY_END == "<" + "/user_query" + ">";
  }

  /** Of a message with query tags, the text between them is extracted, whatever surrounds them: what stands there
      around injected blocks, trimmed. */
  lemma TaggedQueryIs(
    before: string, pad: string, head: string, blocks: seq<Block>, pad': string, after: string)
    requires AllBlank(pad) && AllBlank(pad') && Trimmed(Rendered(head, blocks))
    requires !Contains(before, QUERY) && !Contains(pad + Rendered(head, blocks) + pad', QUERY_END)
    requires IsInjected(blocks, Typed(head, blocks))
    ensures ExtractUserQuery(before + QUERY + (pad + Rendered(head, blocks) + pad') + QUERY_END + after)
      == Trim(Typed(head, blocks))
  {
    var inner := pad + Rendered(head, blocks) + pad';
    BetweenTags(before, inner, after);
    TrimIs(pad, Rendered(head, blocks), pad');
    InjectedBlocksGo(head, blocks);
  }

  lemma BetweenTags(before: string, inner: string, after: string)
    requires !Contains(before, QUERY) && !Contains(inner, QUERY_END)
    ensures ExtractUserQuery(before + QUERY + inner + QUERY_END + after) == StripSystemTags(Trim(inner))
  {
    QueryTags();
    var s, n := before + QUERY + inner + QUERY_END + after, |before| + |QUERY|;
    Regroup5(before, QUERY, inner, QUERY_END, after);
    FindsPair(s, before, QUERY, inner, QUERY_END, after, n);
    ExtractIs(s, n, n + |inner|);
    Middle(before + QUERY, inner, QUERY_END + after);
    Assoc(before + QUERY + inner, QUERY_END, after);
  }

  lemma FindsPair(s: string, before: string, o: string, inner: string, c: string, after: string, n: nat)
    requires IsTag(o) && IsTag(c) && !Contains(before, o) && !Contains(inner, c)
    requires s == before + o + (inner + c + after) && n == |before| + |o|
    ensures Find(s, o) == Some(n - |o|) && FindFrom(s, c, n) == Some(n + |inner|)
  {
    FirstTag(inner, c, after);
    FindsBoth(s, before, o, inner + c + after, c, n, |inner|);
  }

  lemma FindsBoth(s: string, before: string, o: string, tail: string, c: string, n: nat, k: nat)
    requires IsTag(o) && c != "" && !Contains(before, o) && s == before + o + tail && n == |before| + |o|
    requires Find(tail, c) == Some(k)
    ensures Find(s, o) == Some(n - |o|) && FindFrom(s, c, n) == Some(n + k)
  {
    FirstTag(before, o, tail);
    FindsAfter(s, before + o, n, tail, c, k);
  }

  lemma FindsAfter(s: string, front: string, n: nat, tail: string, c: string, k: nat)
    requires c != "" && s == front + tail && n == |front| && Find(tail, c) == Some(k)
    ensures FindFrom(s, c, n) == Some(n + k)
  {
    FindBehind(s, front, tail, c);
  }

  /** No closing query tag stands behind an opening one. */
  ghost predicate Untagged(s: string) {
    forall i: nat, j: nat :: OccursAt(s, QUERY, i) && OccursAt(s, QUERY_END, j) ==> j < i + |QUERY|
  }

  lemma UntaggedIsStripped(s: string)
    requires Untagged(s)
    ensures ExtractUserQuery(s) == StripSystemTags(s)
  {
  }

  /** Of a message without query tags, all the text around injected blocks is extracted, trimmed. */
  lemma UntaggedQueryIs(head: string, blocks: seq<Block>)
    requires Untagged(Rendered(head, blocks)) && IsInjected(blocks, Typed(head, blocks))
    ensures ExtractUserQuery(Rendered(head, blocks)) == Trim(Typed(head, blocks))
  {
    UntaggedIsStripped(Rendered(head, blocks));
    InjectedBlocksGo(head, blocks);
  }

  /** Text without query tags and without a closed system block comes out trimmed, unclosed openers and all. */
  lemma PlainTextIsKept(s: string)
    requires Untagged(s) && BlockFree(s, SYSTEM_TAGS)
    ensures ExtractUserQuery(s) == Trim(s)
  {
    UntaggedIsStripped(s);
    StripTagsFixed(s, SYSTEM_TAGS);
  }

  // ----- several parts

  predicate HasText(parts: seq<ContentPart>) {
    exists i :: 0 <= i < |parts| && parts[i].TextPart?
  }

  /** The texts of several parts are joined in order, by one line break; images add nothing. */
  lemma {:induction false} PartsAreJoined(a: seq<ContentPart>, b: seq<ContentPart>)
    ensures JoinText(a + b)
      == if !HasText(a) then JoinText(b) else if !HasText(b) then JoinText(a) else JoinText(a) + "\n" + JoinText(b)
  {
    if a == [] {
      assert a + b == b;
    } else {
      ConsFront(a, b);
      PartsAreJoined(a[1..], b);
      LaterText(a, b);
      if HasText(a[1..]) && HasText(b) && a[0].TextPart? {
        assert a[0].text + "\n" + (JoinText(a[1..]) + "\n" + JoinText(b))
          == a[0].text + "\n" + JoinText(a[1..]) + "\n" + JoinText(b);
      }
    }
  }

  /** Whether a text follows the first part. */
  predicate TextFollows(parts: seq<ContentPart>) {
    exists i :: 1 <= i < |parts| && parts[i].TextPart?
  }

  lemma LaterText(a: seq<ContentPart>, b: seq<ContentPart>)
    requires a != []
    ensures TextFollows(a) <==> HasText(a[1..])
    ensures TextFollows(a + b) <==> HasText(a[1..]) || HasText(b)
    ensures HasText(a) <==> a[0].TextPart? || HasText(a[1..])
    ensures !HasText(b) ==> JoinText(b) == ""
  {
    var all := a + b;
    if i :| 1 <= i < |a| && a[i].TextPart? {
      assert a[1..][i - 1] == a[i] && all[i] == a[i];
    }
    if i :| 0 <= i < |a[1..]| && a[1..][i].TextPart? {
      assert a[i + 1] == a[1..][i] && all[i + 1] == a[i + 1];
    }
    if i :| 0 <= i < |b| && b[i].TextPart? {
      assert all[|a| + i] == b[i];
    }
    if i :| 1 <= i < |all| && all[i].TextPart? {
      if i < |a| { assert a[1..][i - 1] == all[i]; } else { assert b[i - |a|] == all[i]; }
    }
    if !HasText(b) {
      ImagesOnly(b);
    }
  }

  lemma {:induction false} ImagesOnly(parts: seq<ContentPart>)
    requires !HasText(parts)
    ensures JoinText(parts) == ""
  {
    if parts != [] {
      assert forall i :: 0 <= i < |parts[1..]| ==> parts[1..][i] == parts[i + 1];
      ImagesOnly(parts[1..]);
    }
  }

  // ----- which turns are real

  /** A message that was not made up is a real turn exactly if it has an image, or its text around injected blocks is
      neither blank nor a continuation prompt. So metadata alone makes no real turn. */
  lemma TypedTextDecides(item: Item, head: string, blocks: seq<Block>)
    requires item.User? && JoinText(item.parts) == Rendered(head, blocks) && Untagged(Rendered(head, blocks))
    requires IsInjected(blocks, Typed(head, blocks))
    ensures IsRealUserTurn(item) <==>
      && item.reason.None?
      && (|| HasImage(item.parts)
          || (!AllBlank(Typed(head, blocks)) && Trim(Typed(head, blocks)) !in {AUTO_CONTINUE, AUTO_CONTINUE_PROMPT}))
  {
    UntaggedQueryIs(head, blocks);
  }
}
