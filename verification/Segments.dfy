/** Segment files of the compaction store: names, paths, and rendering under a size cap. Texts are byte strings. */
module Segments {
  import opened Text
  import opened Sequences
  import opened Decimal
  import opened Machine

  const SEGMENT_PREFIX := "segment_"
  const SUFFIX := ".md"
  const COMPACTION_DIR := "compaction"
  const INDEX_FILE := "INDEX.md"

  // ----- file names

  /** At least three digits. */
  function Label(index: nat): (s: string)
    ensures s != "" && AllDigits(s)
  {
    var digits := Print(index);
    Zeros(if |digits| < 3 then 3 - |digits| else 0) + digits
  }

  function SegmentFilename(index: nat): string {
    SEGMENT_PREFIX + Label(index) + SUFFIX
  }

  /** `u64` parsing: an optional `+`, then digits, within range. */
  function ParseU64(s: string): Option<nat> {
    var body := if s != "" && s[0] == '+' then s[1..] else s;
    if body == "" || !AllDigits(body) then None
    else if Value(body) > U64_MAX then None
    else Some(Value(body))
  }

  function StripPrefix(s: string, p: string): Option<string> {
    if p <= s then Some(s[|p|..]) else None
  }

  function StripSuffix(s: string, p: string): Option<string> {
    if |p| <= |s| && s[|s| - |p|..] == p then Some(s[..|s| - |p|]) else None
  }

  function ParseSegmentIndex(filename: string): Option<nat> {
    match StripPrefix(filename, SEGMENT_PREFIX)
    case None => None
    case Some(rest) =>
      match StripSuffix(rest, SUFFIX)
      case None => None
      case Some(digits) => ParseU64(digits)
  }

  lemma StripBoth(p: string, s: string, q: string)
    ensures StripPrefix(p + s + q, p) == Some(s + q) && StripSuffix(s + q, q) == Some(s)
  {
    Assoc(p, s, q);
    assert (p + (s + q))[|p|..] == s + q;
    assert (s + q)[|s|..] == q && (s + q)[..|s|] == s;
  }

  lemma ParseLabel(index: nat)
    requires index <= U64_MAX
    ensures ParseU64(Label(index)) == Some(index)
  {
    var digits := Print(index);
    ValueOfPrint(index);
    ValueOfPadded(if |digits| < 3 then 3 - |digits| else 0, digits);
    assert IsDigit(Label(index)[0]);
  }

  /** The label is the index in decimal, with at least three digits and no zero in front that these do not need. */
  lemma LabelIs(index: nat)
    ensures var s := Label(index);
      AllDigits(s) && Value(s) == index && |s| >= 3 && (|s| > 3 ==> s[0] != '0')
  {
    var digits := Print(index);
    PrintIsNumeral(index);
    ValueOfPadded(if |digits| < 3 then 3 - |digits| else 0, digits);
  }

  /** A `u64` as `parse` reads it: digits, with an optional sign. */
  predicate Reads(s: string, index: nat) {
    var body := if "+" <= s then s[1..] else s;
    body != "" && AllDigits(body) && Value(body) == index && index <= U64_MAX
  }

  lemma Stripped(s: string, p: string)
    ensures StripPrefix(s, p).Some? ==> s == p + StripPrefix(s, p).value
    ensures StripSuffix(s, p).Some? ==> s == StripSuffix(s, p).value + p
  {
  }

  lemma NumberOf(name: string, index: nat) returns (number: string)
    requires ParseSegmentIndex(name) == Some(index)
    ensures name == SEGMENT_PREFIX + number + SUFFIX && Reads(number, index)
  {
    var rest := StripPrefix(name, SEGMENT_PREFIX).value;
    number := StripSuffix(rest, SUFFIX).value;
    Stripped(name, SEGMENT_PREFIX);
    Stripped(rest, SUFFIX);
    Assoc(SEGMENT_PREFIX, number, SUFFIX);
  }

  /** Exactly the names with such a number between prefix and suffix are segment files. */
  lemma ParsesExactly(name: string, index: nat)
    ensures ParseSegmentIndex(name) == Some(index) <==>
      exists number :: name == SEGMENT_PREFIX + number + SUFFIX && Reads(number, index)
  {
    if ParseSegmentIndex(name) == Some(index) {
      var number := NumberOf(name, index);
    }
    if number :| name == SEGMENT_PREFIX + number + SUFFIX && Reads(number, index) {
      StripBoth(SEGMENT_PREFIX, number, SUFFIX);
    }
  }

  /** Parsing undoes printing for every 64-bit index, so file names are distinct. */
  lemma FilenameRoundTrip(index: nat)
    requires index <= U64_MAX
    ensures ParseSegmentIndex(SegmentFilename(index)) == Some(index)
  {
    StripBoth(SEGMENT_PREFIX, Label(index), SUFFIX);
    ParseLabel(index);
  }

  // ----- paths

  datatype Artifact = Segment(index: nat) | Index | Dir

  function TrimSlashes(s: string): (r: string)
    ensures |r| <= |s|
  {
    if s != "" && s[|s| - 1] == '/' then TrimSlashes(s[..|s| - 1]) else s
  }

  predicate IsDirPath(trimmed: string) {
    trimmed == COMPACTION_DIR ||
    match StripSuffix(trimmed, COMPACTION_DIR)
    case Some(p) => p != "" && p[|p| - 1] == '/'
    case None => false
  }

  function ClassifyCompactionPath(path: string): Option<Artifact> {
    if IsDirPath(TrimSlashes(path)) then Some(Dir)
    else match RFind(path, COMPACTION_DIR)
      case None => None
      case Some(k) =>
        match StripPrefix(path[k + |COMPACTION_DIR|..], "/")
        case None => None
        case Some(rest) => ClassifyName(rest)
  }

  function ClassifyName(rest: string): Option<Artifact> {
    match ParseSegmentIndex(rest)
    case Some(index) => Some(Segment(index))
    case None => if rest == INDEX_FILE then Some(Index) else None
  }

  predicate NoC(s: string) {
    forall i :: 0 <= i < |s| ==> s[i] != 'c'
  }

  lemma StartsLike(s: string, d: string, j: nat)
    requires |d| > 1 && OccursAt(s, d, j)
    ensures s[j] == d[0] && s[j + 1] == d[1]
  {
    OccursChars(s, d, j);
  }

  /** `d` cannot start again inside itself or in a text without its first letter. */
  lemma LastOccurrence(prefix: string, d: string, rest: string)
    requires |d| > 1 && d[0] == 'c' && NoC(rest)
    requires forall i :: 0 < i < |d| && d[i] == 'c' ==> i + 1 < |d| && d[i + 1] != d[1]
    ensures RFind(prefix + d + rest, d) == Some(|prefix|)
  {
    var s := prefix + d + rest;
    assert s[|prefix|..|prefix| + |d|] == d;
    assert forall i :: 0 <= i < |d| ==> s[|prefix| + i] == d[i];
    assert forall i :: |prefix| + |d| <= i < |s| ==> s[i] == rest[i - |prefix| - |d|];
    forall j: nat | |prefix| < j
      ensures !OccursAt(s, d, j)
    {
      if OccursAt(s, d, j) {
        StartsLike(s, d, j);
        assert false;
      }
    }
    RFindIs(s, d, |prefix|);
  }

  /** A path that ends in `d` is not the directory itself. */
  lemma NotDir(path: string)
    requires path != "" && path[|path| - 1] == 'd'
    ensures !IsDirPath(TrimSlashes(path))
  {
    assert TrimSlashes(path) == path;
    assert COMPACTION_DIR[|COMPACTION_DIR| - 1] == 'n';
    if |COMPACTION_DIR| <= |path| {
      var tail := path[|path| - |COMPACTION_DIR|..];
      assert tail[|COMPACTION_DIR| - 1] == 'd';
    }
  }

  /** Whatever directory comes first, a name behind `compaction/` decides. */
  lemma ClassifyInStore(prefix: string, name: string)
    requires name != "" && name[|name| - 1] == 'd' && NoC(name)
    ensures ClassifyCompactionPath(prefix + COMPACTION_DIR + ("/" + name)) == ClassifyName(name)
  {
    var rest := "/" + name;
    var path := prefix + COMPACTION_DIR + rest;
    assert path[|path| - 1] == name[|name| - 1];
    NotDir(path);
    LastOccurrence(prefix, COMPACTION_DIR, rest);
    assert path[|prefix| + |COMPACTION_DIR|..] == rest;
    assert rest[1..] == name && "/" <= rest;
  }

  lemma NameShape(number: string)
    requires NoC(number)
    ensures var name := SEGMENT_PREFIX + number + SUFFIX; name != "" && name[|name| - 1] == 'd' && NoC(name)
  {
    var a, c := SEGMENT_PREFIX, SUFFIX;
    var name := a + number + c;
    assert NoC(a) && NoC(c);
    assert forall i :: 0 <= i < |name| ==>
      name[i] == if i < |a| then a[i] else if i < |a + number| then number[i - |a|] else c[i - |a + number|];
  }

  lemma FilenameShape(index: nat)
    ensures var name := SegmentFilename(index); name != "" && name[|name| - 1] == 'd' && NoC(name)
  {
    NameShape(Label(index));
  }

  /** A read of any segment file is recognized, in whatever directory the store lies. */
  lemma SegmentPathIsRecognized(prefix: string, index: nat)
    requires index <= U64_MAX
    ensures ClassifyCompactionPath(prefix + COMPACTION_DIR + ("/" + SegmentFilename(index))) == Some(Segment(index))
  {
    FilenameShape(index);
    ClassifyInStore(prefix, SegmentFilename(index));
    FilenameRoundTrip(index);
  }

  /** So is the index file. */
  lemma IndexPathIsRecognized(prefix: string)
    ensures ClassifyCompactionPath(prefix + COMPACTION_DIR + ("/" + INDEX_FILE)) == Some(Index)
  {
    ClassifyInStore(prefix, INDEX_FILE);
    assert INDEX_FILE[0] != SEGMENT_PREFIX[0];
  }

  /** The parts of a path at the last occurrence of `d`. */
  lemma SplitAtLast(path: string, d: string, k: nat)
    requires RFind(path, d) == Some(k)
    ensures path == path[..k] + d + path[k + |d|..]
  {
  }

  lemma BehindSlash(tail: string)
    requires "/" <= tail
    ensures tail == "/" + tail[1..]
  {
  }

  /** A path that is classified by its name has the store's directory in it. */
  lemma InStore(path: string) returns (prefix: string, name: string)
    requires ClassifyCompactionPath(path).Some? && ClassifyCompactionPath(path) != Some(Dir)
    ensures path == prefix + COMPACTION_DIR + ("/" + name)
    ensures ClassifyCompactionPath(path) == ClassifyName(name)
  {
    var k := RFind(path, COMPACTION_DIR).value;
    var tail := path[k + |COMPACTION_DIR|..];
    prefix, name := path[..k], tail[1..];
    SplitAtLast(path, COMPACTION_DIR, k);
    BehindSlash(tail);
  }

  lemma NumberedShape(name: string, index: nat)
    requires ParseSegmentIndex(name) == Some(index)
    ensures name != "" && name[|name| - 1] == 'd' && NoC(name)
  {
    var number := NumberOf(name, index);
    NumberHasNoC(number, index);
    NameShape(number);
  }

  lemma NumberHasNoC(number: string, index: nat)
    requires Reads(number, index)
    ensures NoC(number)
  {
    var body := if "+" <= number then number[1..] else number;
    assert "+" <= number ==> number[0] == '+' && forall i :: 1 <= i < |number| ==> number[i] == body[i - 1];
  }

  /** A path is classified as a segment exactly if it leads, from wherever, into the store to a file of such a name. */
  lemma SegmentPathsAre(path: string, index: nat)
    ensures ClassifyCompactionPath(path) == Some(Segment(index)) <==>
      exists prefix, name ::
        path == prefix + COMPACTION_DIR + ("/" + name) && ParseSegmentIndex(name) == Some(index)
  {
    if ClassifyCompactionPath(path) == Some(Segment(index)) {
      var prefix, name := InStore(path);
    }
    if prefix, name :|
      path == prefix + COMPACTION_DIR + ("/" + name) && ParseSegmentIndex(name) == Some(index)
    {
      NumberedShape(name, index);
      ClassifyInStore(prefix, name);
    }
  }

  /** And as the index exactly if it leads to the index file there. */
  lemma IndexPathsAre(path: string)
    ensures ClassifyCompactionPath(path) == Some(Index) <==>
      exists prefix :: path == prefix + COMPACTION_DIR + ("/" + INDEX_FILE)
  {
    if ClassifyCompactionPath(path) == Some(Index) {
      var prefix, name := InStore(path);
    }
    if prefix :| path == prefix + COMPACTION_DIR + ("/" + INDEX_FILE) {
      IndexPathIsRecognized(prefix);
    }
  }

  lemma {:induction false} TrimSlashesIs(s: string, slashes: string)
    requires s != "" && s[|s| - 1] != '/' && forall i :: 0 <= i < |slashes| ==> slashes[i] == '/'
    ensures TrimSlashes(s + slashes) == s
  {
    if slashes == "" {
      assert s + slashes == s;
    } else {
      var n := |slashes| - 1;
      assert (s + slashes)[..|s| + n] == s + slashes[..n];
      TrimSlashesIs(s, slashes[..n]);
    }
  }

  lemma StripsBack(p: string, d: string)
    ensures StripSuffix(p + d, d) == Some(p) && (p + d == d <==> p == "")
  {
    assert (p + d)[|p|..] == d && (p + d)[..|p|] == p;
    if p == "" {
      assert p + d == d;
    } else {
      assert |p + d| != |d|;
    }
  }

  lemma DirTest(prefix: string)
    ensures IsDirPath(prefix + COMPACTION_DIR) <==> prefix == "" || prefix[|prefix| - 1] == '/'
  {
    StripsBack(prefix, COMPACTION_DIR);
  }

  lemma OnlyDirTest(path: string)
    ensures ClassifyCompactionPath(path) == Some(Dir) <==> IsDirPath(TrimSlashes(path))
  {
  }

  lemma DirTrims(p: string, d: string, slashes: string)
    requires d != "" && d[|d| - 1] != '/' && forall i :: 0 <= i < |slashes| ==> slashes[i] == '/'
    ensures TrimSlashes(p + d + slashes) == p + d
  {
    var s := p + d;
    assert s[|s| - 1] == d[|d| - 1];
    TrimSlashesIs(s, slashes);
  }

  lemma DirByTrimmed(path: string, prefix: string)
    requires TrimSlashes(path) == prefix + COMPACTION_DIR
    ensures ClassifyCompactionPath(path) == Some(Dir) <==> prefix == "" || prefix[|prefix| - 1] == '/'
  {
    OnlyDirTest(path);
    DirTest(prefix);
  }

  /** The store's directory is recognized with any number of slashes behind it, as a whole path component only. */
  lemma DirPathIsRecognized(prefix: string, slashes: string)
    requires forall i :: 0 <= i < |slashes| ==> slashes[i] == '/'
    ensures ClassifyCompactionPath(prefix + COMPACTION_DIR + slashes) == Some(Dir) <==>
      prefix == "" || prefix[|prefix| - 1] == '/'
  {
    DirTrims(prefix, COMPACTION_DIR, slashes);
    DirByTrimmed(prefix + COMPACTION_DIR + slashes, prefix);
  }

  // ----- rendering under the cap

  const SEGMENT_MAX_BYTES: nat := 524288
  const PER_TURN_OVERHEAD_BYTES: nat := 64
  const NOTICE_HEAD := "\n\n[... TRUNCATED at 524288 bytes, "
  const NOTICE_TAIL := " turns omitted ...]\n"

  const TRUNCATION_NOTICE := "\n\n[... TRUNCATED at {limit} bytes, {omitted} turns omitted ...]\n"

  /** The notice with its two placeholders filled in. */
  function Notice(omitted: nat): string { NOTICE_HEAD + Print(omitted) + NOTICE_TAIL }

  function Total(blocks: seq<string>): nat {
    if blocks == [] then 0 else Total(blocks[..|blocks| - 1]) + |blocks[|blocks| - 1]|
  }

  function Join(blocks: seq<string>): string {
    if blocks == [] then ""
    else if |blocks| == 1 then blocks[0]
    else Join(blocks[..|blocks| - 1]) + "\n" + blocks[|blocks| - 1]
  }

  lemma {:induction false} TotalPrefix(blocks: seq<string>, i: nat, j: nat)
    requires i <= j <= |blocks|
    ensures Total(blocks[..i]) <= Total(blocks[..j])
    decreases j
  {
    if i < j {
      TotalPrefix(blocks, i, j - 1);
      assert blocks[..j][..j - 1] == blocks[..j - 1];
    }
  }

  function BudgetFor(preamble: string): nat {
    var reserved := |preamble| + |TRUNCATION_NOTICE| + PER_TURN_OVERHEAD_BYTES;
    if SEGMENT_MAX_BYTES < reserved then 0 else SEGMENT_MAX_BYTES - reserved
  }

  /** The number of turns rendered: as many whole ones, from the front, as fit. */
  ghost predicate IsLongestFit(blocks: seq<string>, budget: nat, k: nat) {
    && k <= |blocks| && Total(blocks[..k]) <= budget
    && forall j :: k < j <= |blocks| ==> Total(blocks[..j]) > budget
  }

  function Document(preamble: string, blocks: seq<string>, k: nat): string
    requires k <= |blocks|
  {
    preamble + (Join(blocks[..k]) + if k < |blocks| then Notice(|blocks| - k) else "")
  }

  method RenderSegment(preamble: string, turns: seq<string>) returns (doc: string, rendered: nat)
    ensures IsLongestFit(turns, BudgetFor(preamble), rendered)
    ensures doc == Document(preamble, turns, rendered)
    ensures LaidOut(doc, preamble, turns, rendered)
  {
    var budget := BudgetFor(preamble);
    var used: nat := 0;
    var truncatedAt: Option<nat> := None;
    rendered := 0;
    assert turns[..0] == [];
    while rendered < |turns|
      invariant rendered <= |turns| && used == Total(turns[..rendered]) <= budget
    {
      assert turns[..rendered + 1][..rendered] == turns[..rendered];
      var block := turns[rendered];
      if used + |block| > budget {
        truncatedAt := Some(rendered);
        forall j | rendered < j <= |turns|
          ensures Total(turns[..j]) > budget
        {
          TotalPrefix(turns, rendered + 1, j);
        }
        break;
      }
      used := used + |block|;
      rendered := rendered + 1;
    }
    var body := Join(turns[..rendered]);
    if truncatedAt.Some? {
      body := body + Notice(|turns| - truncatedAt.value);
    } else {
      assert body + "" == body;
    }
    doc := preamble + body;
    DocumentIsLaidOut(doc, preamble, turns, rendered);
  }

  /** The first `k` turns stand behind the preamble, each behind all before it, with a line break between two. */
  ghost predicate TurnsFollow(doc: string, preamble: string, turns: seq<string>, k: nat)
    requires k <= |turns|
  {
    forall i :: 0 <= i < k ==>
      && OccursAt(doc, turns[i], TurnStart(preamble, turns, i))
      && (i > 0 ==> OccursAt(doc, "\n", TurnStart(preamble, turns, i) - 1))
  }

  /** Behind `end` stands a notice with the number of turns left out, if there are any, and else nothing. */
  ghost predicate Closes(doc: string, end: nat, omitted: nat) {
    && end <= |doc|
    && if omitted == 0 then |doc| == end
       else exists digits :: IsNumeral(digits, omitted) && doc[end..] == NoticeWith(digits)
  }

  /** What stands where in the document: the preamble, the first `k` turns, and the notice for the others. */
  ghost predicate LaidOut(doc: string, preamble: string, turns: seq<string>, k: nat)
    requires k <= |turns|
  {
    && preamble <= doc && TurnsFollow(doc, preamble, turns, k)
    && Closes(doc, |preamble| + Total(turns[..k]) + Joins(k), |turns| - k)
  }

  function TurnStart(preamble: string, turns: seq<string>, i: nat): nat
    requires i <= |turns|
  {
    |preamble| + Total(turns[..i]) + i
  }

  function NoticeWith(digits: string): string {
    "\n\n[... TRUNCATED at 524288 bytes, " + digits + " turns omitted ...]\n"
  }

  /** Each block stands behind the ones before it and one line break for each of them. */
  lemma {:induction false} BlockStands(blocks: seq<string>, i: nat)
    requires i < |blocks|
    ensures OccursAt(Join(blocks), blocks[i], Total(blocks[..i]) + i)
    ensures i > 0 ==> OccursAt(Join(blocks), "\n", Total(blocks[..i]) + i - 1)
    decreases |blocks|
  {
    var n := |blocks| - 1;
    if n == 0 {
      assert Total(blocks[..0]) == 0;
      assert blocks[0][0..|blocks[0]|] == blocks[0];
    } else {
      var front := blocks[..n];
      JoinLength(front);
      Assoc(Join(front), "\n", blocks[n]);
      if i == n {
        var s := Join(blocks);
        assert s[|Join(front)|..|Join(front)| + 1] == "\n";
        assert s[|Join(front)| + 1..] == blocks[n];
      } else {
        BlockStands(front, i);
        assert front[..i] == blocks[..i];
        OccursLeft(Join(front), "\n" + blocks[n], blocks[i], Total(blocks[..i]) + i);
        if i > 0 {
          OccursLeft(Join(front), "\n" + blocks[n], "\n", Total(blocks[..i]) + i - 1);
        }
      }
    }
  }

  lemma TurnsStand(preamble: string, turns: seq<string>, k: nat, notice: string, i: nat)
    requires i < k <= |turns|
    ensures var doc := preamble + (Join(turns[..k]) + notice);
      && OccursAt(doc, turns[i], TurnStart(preamble, turns, i))
      && (i > 0 ==> OccursAt(doc, "\n", TurnStart(preamble, turns, i) - 1))
  {
    var shown := turns[..k];
    BlockStands(shown, i);
    assert shown[..i] == turns[..i];
    var at := Total(turns[..i]) + i;
    Inside(preamble, Join(shown), notice, turns[i], at);
    if i > 0 {
      Inside(preamble, Join(shown), notice, "\n", at - 1);
    }
  }

  lemma BehindBody(a: string, b: string, c: string)
    ensures a <= a + (b + c) && (a + (b + c))[|a| + |b|..] == c
  {
  }

  lemma NoticeCloses(doc: string, preamble: string, body: string, notice: string, omitted: nat)
    requires doc == preamble + (body + notice) && notice == if omitted == 0 then "" else Notice(omitted)
    ensures preamble <= doc && Closes(doc, |preamble| + |body|, omitted)
  {
    BehindBody(preamble, body, notice);
    if omitted > 0 {
      PrintIsNumeral(omitted);
      NoticeIs(omitted);
    }
  }

  lemma DocumentIsLaidOut(doc: string, preamble: string, turns: seq<string>, k: nat)
    requires k <= |turns| && doc == Document(preamble, turns, k)
    ensures LaidOut(doc, preamble, turns, k)
  {
    var notice := if k < |turns| then Notice(|turns| - k) else "";
    JoinLength(turns[..k]);
    NoticeCloses(doc, preamble, Join(turns[..k]), notice, |turns| - k);
    forall i | 0 <= i < k
      ensures OccursAt(doc, turns[i], TurnStart(preamble, turns, i))
      ensures i > 0 ==> OccursAt(doc, "\n", TurnStart(preamble, turns, i) - 1)
    {
      TurnsStand(preamble, turns, k, notice, i);
    }
  }

  lemma NoticeIs(omitted: nat)
    ensures Notice(omitted) == NoticeWith(Print(omitted))
  {
  }

  lemma Inside(a: string, b: string, c: string, pat: string, k: nat)
    requires OccursAt(b, pat, k)
    ensures OccursAt(a + (b + c), pat, |a| + k)
  {
    OccursLeft(b, c, pat, k);
    OccursRight(a, b + c, pat, k);
  }

  lemma {:induction false} JoinLength(blocks: seq<string>)
    ensures |Join(blocks)| == Total(blocks) + if blocks == [] then 0 else |blocks| - 1
  {
    if |blocks| > 1 {
      JoinLength(blocks[..|blocks| - 1]);
    } else if |blocks| == 1 {
      assert blocks[..0] == [];
    }
  }

  lemma NoticeLength(omitted: nat)
    ensures |Notice(omitted)| == |TRUNCATION_NOTICE| - 10 + |Print(omitted)|
  {
  }

  function Joins(k: nat): nat { if k == 0 then 0 else k - 1 }

  function NoticeBytes(omitted: nat): nat {
    if omitted == 0 then 0 else |TRUNCATION_NOTICE| - 10 + |Print(omitted)|
  }

  /** The document is as long as its parts, one line break per join, and the notice. */
  lemma DocumentBytes(preamble: string, blocks: seq<string>, k: nat)
    requires k <= |blocks|
    ensures |Document(preamble, blocks, k)|
      == |preamble| + Total(blocks[..k]) + Joins(k) + NoticeBytes(|blocks| - k)
  {
    JoinLength(blocks[..k]);
    NoticeLength(|blocks| - k);
  }

  /** The cap is kept exactly if the line breaks that join the turns, which no budget is charged with, fit into what
      the preamble and the slack of the notice leave. */
  lemma DocumentIsCapped(preamble: string, blocks: seq<string>, k: nat)
    requires k <= |blocks|
    ensures |Document(preamble, blocks, k)| <= SEGMENT_MAX_BYTES <==>
      |preamble| + Total(blocks[..k]) + Joins(k) + NoticeBytes(|blocks| - k) <= SEGMENT_MAX_BYTES
  {
    DocumentBytes(preamble, blocks, k);
  }

  /** In any case a document exceeds the larger of the cap and what its preamble reserves by no more than its joins. */
  lemma DocumentLength(preamble: string, blocks: seq<string>, k: nat)
    requires IsLongestFit(blocks, BudgetFor(preamble), k) && |blocks| < Pow10(20)
    ensures |Document(preamble, blocks, k)|
      <= Max(SEGMENT_MAX_BYTES, |preamble| + |TRUNCATION_NOTICE| + PER_TURN_OVERHEAD_BYTES) + Joins(k)
  {
    DocumentBytes(preamble, blocks, k);
    PrintLength(|blocks| - k, 20);
  }

  /** A preamble over the cap overruns it, with or without turns. */
  lemma LongPreambleOverruns(preamble: string, blocks: seq<string>, k: nat)
    requires |preamble| > SEGMENT_MAX_BYTES && k <= |blocks|
    ensures |Document(preamble, blocks, k)| > SEGMENT_MAX_BYTES
  {
    DocumentBytes(preamble, blocks, k);
  }

  /** So do turns that fill the budget without being truncated, exactly if they are too many. */
  lemma FullBudgetOverruns(preamble: string, blocks: seq<string>)
    requires |preamble| + |TRUNCATION_NOTICE| + PER_TURN_OVERHEAD_BYTES <= SEGMENT_MAX_BYTES
    requires Total(blocks) == BudgetFor(preamble)
    ensures |Document(preamble, blocks, |blocks|)| > SEGMENT_MAX_BYTES <==>
      |blocks| > |TRUNCATION_NOTICE| + PER_TURN_OVERHEAD_BYTES + 1
  {
    assert blocks[..|blocks|] == blocks;
    DocumentBytes(preamble, blocks, |blocks|);
  }

  // ----- a session over the cap

  /** A user turn in full detail: its header, its text if there is any, and a line break behind each. */
  function UserTurn(index: nat, text: string): string {
    "### Turn " + Print(index) + " (Human)" + "\n" + if text == "" then "" else text + "\n"
  }

  const TURNS := 10000
  const TURN_BYTES := 52

  /** A text that makes the turn with this index `TURN_BYTES` long. */
  function FillerText(index: nat): (text: string)
    requires |Print(index)| <= 4
    ensures text != ""
  {
    seq(TURN_BYTES - 19 - |Print(index)|, i => 'x')
  }

  lemma FourDigits(index: nat)
    requires index < TURNS
    ensures |Print(index)| <= 4
  {
    PrintLength(index, 4);
    assert Pow10(4) == 10000;
  }

  /** The turns of a long session. */
  function LongSession(n: nat): (blocks: seq<string>)
    requires n <= TURNS
    ensures |blocks| == n
  {
    if n == 0 then []
    else
      FourDigits(n - 1);
      LongSession(n - 1) + [UserTurn(n - 1, FillerText(n - 1))]
  }

  lemma {:induction false} LongSessionTotal(n: nat)
    requires n <= TURNS
    ensures Total(LongSession(n)) == n * TURN_BYTES
  {
    if n > 0 {
      LongSessionTotal(n - 1);
      FourDigits(n - 1);
      assert LongSession(n)[..n - 1] == LongSession(n - 1);
    }
  }

  /** Ten thousand user turns of 52 bytes, behind any preamble of at most 4159 bytes, are rendered whole, and the
      document is over the cap. */
  lemma CapIsExceeded(preamble: string)
    requires |preamble| <= 4159
    ensures var blocks := LongSession(TURNS);
      && IsLongestFit(blocks, BudgetFor(preamble), TURNS)
      && |Document(preamble, blocks, TURNS)| > SEGMENT_MAX_BYTES
  {
    var blocks := LongSession(TURNS);
    LongSessionTotal(TURNS);
    assert blocks[..TURNS] == blocks;
    DocumentBytes(preamble, blocks, TURNS);
  }
}
