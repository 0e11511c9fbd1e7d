/** Fitting a conversation to a token budget, and truncating a text to a byte budget. */
module Budget {
  import opened Text
  import opened Sequences
  import opened Decimal
  import opened Machine
  import opened Conversation
  import opened RepairRuns
  import opened HistoryRepair

  // ----- UTF-8 lengths

  function Width(c: char): (w: nat)
    ensures 1 <= w <= 4
  {
    if c as int < 0x80 then 1 else if c as int < 0x800 then 2 else if c as int < 0x10000 then 3 else 4
  }

  /** Length of the UTF-8 encoding. */
  function ByteLen(s: string): (n: nat)
    ensures n >= |s|
  {
    if s == "" then 0 else ByteLen(s[..|s| - 1]) + Width(s[|s| - 1])
  }

  lemma {:induction false} ByteLenConcat(a: string, b: string)
    ensures ByteLen(a + b) == ByteLen(a) + ByteLen(b)
  {
    if b == "" {
      assert a + b == a;
    } else {
      var n := |b| - 1;
      ByteLenConcat(a, b[..n]);
      assert (a + b)[..|a| + n] == a + b[..n] && (a + b)[|a| + n] == b[n];
    }
  }

  lemma {:induction false} ByteLenPrefix(s: string, m: nat, n: nat)
    requires m <= n <= |s|
    ensures ByteLen(s[..m]) <= ByteLen(s[..n]) && (m < n ==> ByteLen(s[..m]) < ByteLen(s[..n]))
    decreases n
  {
    if m < n {
      ByteLenPrefix(s, m, n - 1);
      assert s[..n][..n - 1] == s[..n - 1];
    }
  }

  predicate Ascii(s: string) {
    forall i :: 0 <= i < |s| ==> s[i] as int < 0x80
  }

  lemma {:induction false} ByteLenAscii(s: string)
    requires Ascii(s)
    ensures ByteLen(s) == |s|
  {
    if s != "" {
      ByteLenAscii(s[..|s| - 1]);
    }
  }

  /** Byte offset `b` is the end of a whole number of characters. */
  ghost predicate IsBoundary(s: string, b: nat) {
    exists n: nat :: n <= |s| && ByteLen(s[..n]) == b
  }

  method IsCharBoundary(s: string, b: nat) returns (yes: bool)
    ensures yes <==> IsBoundary(s, b)
  {
    var n, at := 0, 0;
    assert s[..0] == "";
    while n < |s| && at < b
      invariant n <= |s| && at == ByteLen(s[..n])
      invariant forall m: nat :: m < n ==> ByteLen(s[..m]) < b
    {
      assert s[..n + 1][..n] == s[..n];
      at := at + Width(s[n]);
      n := n + 1;
    }
    if at != b {
      forall m: nat | m <= |s|
        ensures ByteLen(s[..m]) != b
      {
        if m > n {
          ByteLenPrefix(s, n, m);
        }
      }
    }
    yes := at == b;
  }

  // ----- truncating a text

  const MARKER_RESERVE := 64
  const TRUNCATED := "\n[... truncated "
  const TO_FIT := " bytes to fit the compaction window ...]"

  function Marker(dropped: nat): string {
    TRUNCATED + Print(dropped) + TO_FIT
  }

  /** The longest prefix, in characters, that fits into `keep` bytes. */
  function PrefixWithin(s: string, keep: nat): (n: nat)
    ensures n <= |s| && ByteLen(s[..n]) <= keep
    ensures n < |s| ==> ByteLen(s[..n + 1]) > keep
  {
    if ByteLen(s) <= keep then
      assert s[..|s|] == s;
      |s|
    else
      var n := PrefixWithin(s[..|s| - 1], keep);
      assert s[..|s| - 1][..n] == s[..n];
      assert n < |s| - 1 ==> s[..|s| - 1][..n + 1] == s[..n + 1];
      assert s[..|s|] == s;
      n
  }

  function TruncatedText(s: string, maxBytes: nat): string {
    CutAfter(s, PrefixWithin(s, SatSub(maxBytes, MARKER_RESERVE)))
  }

  /** The first `n` characters and the marker for the rest. */
  function CutAfter(s: string, n: nat): string
    requires n <= |s|
  {
    s[..n] + Marker(ByteLen(s) - PrefixBytes(s, n))
  }

  function PrefixBytes(s: string, n: nat): (b: nat)
    requires n <= |s|
    ensures b == ByteLen(s[..n]) && b <= ByteLen(s)
  {
    ByteLenPrefix(s, n, |s|);
    assert s[..|s|] == s;
    ByteLen(s[..n])
  }

  /** `r` is the first `n` characters of `s`, and behind them a marker with the number of bytes that they leave out. */
  ghost predicate CutBehind(s: string, n: nat, r: string) {
    n <= |s| && exists digits :: IsNumeral(digits, ByteLen(s[n..])) && r == s[..n] + MarkerWith(digits)
  }

  function MarkerWith(digits: string): string {
    "\n[... truncated " + digits + " bytes to fit the compaction window ...]"
  }

  /** The first `n` characters fit into `keep` bytes, and no more do. */
  predicate IsLongest(s: string, n: nat, keep: nat) {
    n < |s| && ByteLen(s[..n]) <= keep < ByteLen(s[..n + 1])
  }

  /** `r` is `s` cut to a limit: behind as many characters as fit into what the limit leaves beside 64 bytes. */
  ghost predicate IsCut(s: string, limit: nat, r: string) {
    exists n: nat :: CutBehind(s, n, r) && IsLongest(s, n, SatSub(limit, 64))
  }

  lemma TruncatedIsCut(s: string, maxBytes: nat)
    requires ByteLen(s) > maxBytes
    ensures IsCut(s, maxBytes, TruncatedText(s, maxBytes))
  {
    var n := PrefixWithin(s, SatSub(maxBytes, MARKER_RESERVE));
    assert s[..|s|] == s;
    assert IsLongest(s, n, SatSub(maxBytes, 64));
    CutAfterIs(s, n);
  }

  lemma MarkerIs(dropped: nat)
    ensures Marker(dropped) == MarkerWith(Print(dropped))
  {
  }

  lemma CutAfterIs(s: string, n: nat)
    requires n <= |s|
    ensures CutBehind(s, n, CutAfter(s, n))
  {
    Halves(s, n);
    ByteLenConcat(s[..n], s[n..]);
    PrintIsNumeral(ByteLen(s[n..]));
    MarkerIs(ByteLen(s[n..]));
  }

  /** `None` if the text fits, else its longest admissible prefix and a marker that counts what was dropped. */
  method TruncateTextToBytes(s: string, maxBytes: nat) returns (r: Option<string>)
    ensures r == if ByteLen(s) <= maxBytes then None else Some(TruncatedText(s, maxBytes))
    ensures r.Some? ==> IsCut(s, maxBytes, r.value)
  {
    if ByteLen(s) <= maxBytes {
      return None;
    }
    var keep := SatSub(maxBytes, MARKER_RESERVE);
    var end := BoundaryAtMost(s, keep);
    var m := PrefixOfBytes(s, end);
    OneBoundary(s, keep, PrefixWithin(s, keep), m);
    r := Some(s[..m] + Marker(ByteLen(s) - end));
    assert r.value == TruncatedText(s, maxBytes);
    TruncatedIsCut(s, maxBytes);
  }

  /** Step back from `keep` to a character boundary. */
  method BoundaryAtMost(s: string, keep: nat) returns (end: nat)
    ensures IsBoundary(s, end) && ByteLen(s[..PrefixWithin(s, keep)]) <= end <= keep && end <= ByteLen(s)
  {
    end := if keep < ByteLen(s) then keep else ByteLen(s);
    ghost var n := PrefixWithin(s, keep);
    ghost var kept := PrefixBytes(s, n);
    var atBoundary := IsCharBoundary(s, end);
    while end > 0 && !atBoundary
      invariant atBoundary <==> IsBoundary(s, end)
      invariant kept <= end <= keep && end <= ByteLen(s)
    {
      assert end != kept by {
        assert end == kept ==> IsBoundary(s, end);
      }
      end := end - 1;
      atBoundary := IsCharBoundary(s, end);
    }
    assert s[..0] == "" && ByteLen(s[..0]) == 0;
  }

  /** The character index of a boundary. */
  method PrefixOfBytes(s: string, b: nat) returns (m: nat)
    requires IsBoundary(s, b)
    ensures m <= |s| && ByteLen(s[..m]) == b
  {
    ghost var k: nat :| k <= |s| && ByteLen(s[..k]) == b;
    m := 0;
    assert s[..0] == "";
    while ByteLen(s[..m]) != b
      invariant m <= k
      decreases k - m
    {
      m := m + 1;
    }
  }

  lemma OneBoundary(s: string, keep: nat, n: nat, m: nat)
    requires n == PrefixWithin(s, keep) && m <= |s| && ByteLen(s[..n]) <= ByteLen(s[..m]) <= keep
    ensures m == n
  {
    if m < n {
      ByteLenPrefix(s, m, n);
    } else if n < m {
      ByteLenPrefix(s, n + 1, m);
    }
  }

  lemma MarkerLength(dropped: nat)
    ensures ByteLen(Marker(dropped)) == 56 + |Print(dropped)|
  {
    var d := Print(dropped);
    TruncatedBytes();
    ToFitBytes();
    ByteLenConcat(TRUNCATED + d, TO_FIT);
    ByteLenConcat(TRUNCATED, d);
    ByteLenAscii(d);
  }

  lemma TruncatedBytes()
    ensures ByteLen(TRUNCATED) == 16
  {
    ByteLenAscii(TRUNCATED);
  }

  lemma ToFitBytes()
    ensures ByteLen(TO_FIT) == 40
  {
    ByteLenAscii(TO_FIT);
  }

  /** How many bytes of the text a truncation to `maxBytes` keeps. */
  function KeptBytes(s: string, maxBytes: nat): (kept: nat)
    ensures kept <= ByteLen(s) && kept <= SatSub(maxBytes, MARKER_RESERVE)
  {
    PrefixBytes(s, PrefixWithin(s, SatSub(maxBytes, MARKER_RESERVE)))
  }

  /** The marker reports exactly the bytes that the prefix lacks. */
  lemma TruncatedLength(s: string, maxBytes: nat)
    ensures ByteLen(TruncatedText(s, maxBytes))
      == KeptBytes(s, maxBytes) + 56 + |Print(ByteLen(s) - KeptBytes(s, maxBytes))|
  {
    CutLength(s, PrefixWithin(s, SatSub(maxBytes, MARKER_RESERVE)));
  }

  lemma CutLength(s: string, n: nat)
    requires n <= |s|
    ensures ByteLen(CutAfter(s, n)) == PrefixBytes(s, n) + 56 + |Print(ByteLen(s) - PrefixBytes(s, n))|
  {
    WithMarker(s[..n], ByteLen(s) - PrefixBytes(s, n));
  }

  lemma WithMarker(p: string, dropped: nat)
    ensures ByteLen(p + Marker(dropped)) == ByteLen(p) + 56 + |Print(dropped)|
  {
    ByteLenConcat(p, Marker(dropped));
    MarkerLength(dropped);
  }

  /** Below `10^8` bytes the marker fits into its reserve. */
  lemma TruncatedBound(s: string, maxBytes: nat)
    requires ByteLen(s) < Pow10(8)
    ensures ByteLen(TruncatedText(s, maxBytes)) <= if maxBytes < MARKER_RESERVE then MARKER_RESERVE else maxBytes
  {
    TruncatedLength(s, maxBytes);
    PrintLength(ByteLen(s) - KeptBytes(s, maxBytes), 8);
  }

  /** There is room for the marker behind the kept bytes: 56 bytes and the digits of the number of dropped bytes. */
  predicate MarkerFits(s: string, maxBytes: nat, limit: nat) {
    var kept := KeptBytes(s, maxBytes);
    kept + 56 < limit && ByteLen(s) - kept < Pow10(limit - kept - 56)
  }

  /** A truncated text is within a limit exactly if the marker fits. */
  lemma TruncatedWithin(s: string, maxBytes: nat, limit: nat)
    ensures ByteLen(TruncatedText(s, maxBytes)) <= limit <==> MarkerFits(s, maxBytes, limit)
  {
    var kept := KeptBytes(s, maxBytes);
    TruncatedLength(s, maxBytes);
    if kept + 56 < limit {
      PrintLength(ByteLen(s) - kept, limit - kept - 56);
    }
  }

  /** The documented bound `maxBytes` is met exactly if the text was short enough to begin with, or the marker fits. */
  lemma TruncationFits(s: string, maxBytes: nat)
    ensures ByteLen(TruncatedOr(s, maxBytes)) <= maxBytes <==>
      ByteLen(s) <= maxBytes || MarkerFits(s, maxBytes, maxBytes)
  {
    TruncatedWithin(s, maxBytes, maxBytes);
  }

  /** Below `10^8` bytes that is a question of the limit alone, except for limits from 57 to 63. */
  lemma ShortTruncationFits(s: string, maxBytes: nat)
    requires maxBytes < ByteLen(s) < Pow10(8)
    ensures ByteLen(TruncatedText(s, maxBytes)) <= maxBytes <==>
      maxBytes >= MARKER_RESERVE || 56 + |Print(ByteLen(s))| <= maxBytes
  {
    TruncatedLength(s, maxBytes);
    TruncatedBound(s, maxBytes);
  }

  /** Every text that is cut down to 56 bytes or less ends up over the limit, and longer than 56 bytes. */
  lemma SmallLimitIsExceeded(s: string, maxBytes: nat)
    requires maxBytes <= 56 && maxBytes < ByteLen(s)
    ensures ByteLen(TruncatedOr(s, maxBytes)) > 56
  {
    TruncatedWithin(s, maxBytes, 56);
  }

  /** A limit with room for the marker is exceeded too, by a long enough text. */
  lemma LongTextIsOverLimit(n: nat)
    requires n >= Pow10(8)
    ensures ByteLen(TruncatedOr(Repeat('x', n), MARKER_RESERVE)) > MARKER_RESERVE
  {
    var s := Repeat('x', n);
    ByteLenAscii(s);
    assert Pow10(8) == 100000000;
    assert KeptBytes(s, MARKER_RESERVE) == 0;
    TruncatedWithin(s, MARKER_RESERVE, MARKER_RESERVE);
  }

  function Repeat(c: char, n: nat): (s: string)
    ensures |s| == n && forall i :: 0 <= i < n ==> s[i] == c
  {
    seq(n, i => c)
  }

  // ----- truncating an item

  function TruncatedOr(s: string, maxBytes: nat): string {
    if ByteLen(s) <= maxBytes then s else TruncatedText(s, maxBytes)
  }

  function TruncateParts(parts: seq<ContentPart>, maxBytes: nat): (r: seq<ContentPart>)
    ensures |r| == |parts|
  {
    if parts == [] then []
    else [if parts[0].TextPart? then TextPart(TruncatedOr(parts[0].text, maxBytes)) else parts[0]]
         + TruncateParts(parts[1..], maxBytes)
  }

  /** Only text shrinks; ids, calls, images and the kind of the item stay. */
  function TruncateItem(item: Item, maxTokens: nat): (r: Item)
    ensures r.ToolResult? <==> item.ToolResult?
    ensures item.ToolResult? ==> r.callId == item.callId && r.images == item.images
    ensures r.Assistant? <==> item.Assistant?
    ensures item.Assistant? ==> r.calls == item.calls
  {
    var maxBytes := 4 * maxTokens;
    match item
    case ToolResult(id, output, images) => ToolResult(id, TruncatedOr(output, maxBytes), images)
    case Assistant(answer, calls) => Assistant(TruncatedOr(answer, maxBytes), calls)
    case User(parts, reason) => User(TruncateParts(parts, maxBytes), reason)
    case _ => item
  }

  function TruncateAll(items: seq<Item>, maxTokens: nat): (r: seq<Item>)
    ensures |r| == |items|
  {
    if items == [] then [] else [TruncateItem(items[0], maxTokens)] + TruncateAll(items[1..], maxTokens)
  }

  /** A text after truncation: itself if it is within the limit, else cut to it. */
  ghost predicate TextAfter(s: string, limit: nat, r: string) {
    if ByteLen(s) <= limit then r == s else IsCut(s, limit, r)
  }

  /** A content part after truncation; images stay. */
  ghost predicate PartAfter(part: ContentPart, limit: nat, out: ContentPart) {
    if part.TextPart? then out.TextPart? && TextAfter(part.text, limit, out.text) else out == part
  }

  /** An item after truncation to a number of tokens, at four bytes each: nothing but its texts changes, each on its
      own. System items, backend calls and reasoning stay whole. */
  ghost predicate ItemAfter(item: Item, tokens: nat, out: Item) {
    match item
    case ToolResult(id, output, images) =>
      out.ToolResult? && TextAfter(output, 4 * tokens, out.output) && out == ToolResult(id, out.output, images)
    case Assistant(answer, calls) =>
      out.Assistant? && TextAfter(answer, 4 * tokens, out.answer) && out == Assistant(out.answer, calls)
    case User(parts, reason) =>
      && out.User? && out.reason == reason && |out.parts| == |parts|
      && forall i :: 0 <= i < |parts| ==> PartAfter(parts[i], 4 * tokens, out.parts[i])
    case _ => out == item
  }

  lemma TextIsCut(s: string, limit: nat)
    ensures TextAfter(s, limit, TruncatedOr(s, limit))
  {
    if ByteLen(s) > limit {
      TruncatedIsCut(s, limit);
    }
  }

  lemma {:induction false} PartsAreCut(parts: seq<ContentPart>, limit: nat, i: nat)
    requires i < |parts|
    ensures PartAfter(parts[i], limit, TruncateParts(parts, limit)[i])
  {
    if i > 0 {
      PartsAreCut(parts[1..], limit, i - 1);
    } else if parts[0].TextPart? {
      TextIsCut(parts[0].text, limit);
    }
  }

  /** Truncating an item changes its texts only, and cuts exactly those over the limit. */
  lemma ItemIsCut(item: Item, tokens: nat)
    ensures ItemAfter(item, tokens, TruncateItem(item, tokens))
  {
    match item
    case ToolResult(_, output, _) => TextIsCut(output, 4 * tokens);
    case Assistant(answer, _) => TextIsCut(answer, 4 * tokens);
    case User(parts, _) =>
      forall i | 0 <= i < |parts|
        ensures PartAfter(parts[i], 4 * tokens, TruncateParts(parts, 4 * tokens)[i])
      {
        PartsAreCut(parts, 4 * tokens, i);
      }
    case _ =>
  }

  // ----- fitting

  function Cost(items: seq<Item>, est: Item -> nat): nat {
    if items == [] then 0 else est(items[0]) + Cost(items[1..], est)
  }

  lemma {:induction false} CostConcat(a: seq<Item>, b: seq<Item>, est: Item -> nat)
    ensures Cost(a + b, est) == Cost(a, est) + Cost(b, est)
  {
    if a == [] {
      assert a + b == b;
    } else {
      ConsFront(a, b);
      CostConcat(a[1..], b, est);
    }
  }

  lemma CostOfOne(x: Item, est: Item -> nat)
    ensures Cost([x], est) == est(x)
  {
    assert [x][1..] == [];
  }

  lemma CostSuffix(items: seq<Item>, i: nat, est: Item -> nat)
    requires i < |items|
    ensures Cost(items[i..], est) == est(items[i]) + Cost(items[i + 1..], est)
  {
    CutOne(items, i);
  }

  /** Where the longest suffix within `budget` starts. */
  function AffordableFrom(items: seq<Item>, budget: nat, est: Item -> nat): (start: nat)
    ensures start <= |items| && Cost(items[start..], est) <= budget
    ensures start > 0 ==> Cost(items[start - 1..], est) > budget
  {
    if Cost(items, est) <= budget then
      assert items[0..] == items;
      0
    else
      var s := AffordableFrom(items[1..], budget, est);
      assert items[1..][s..] == items[s + 1..];
      assert s > 0 ==> items[1..][s - 1..] == items[s..];
      assert items[0..] == items;
      s + 1
  }

  predicate HasSystem(conv: seq<Item>) {
    conv != [] && conv[0].System?
  }

  function HeadOf(conv: seq<Item>): seq<Item> {
    if HasSystem(conv) then conv[..1] else []
  }

  function BodyOf(conv: seq<Item>): seq<Item> {
    if HasSystem(conv) then conv[1..] else conv
  }

  /** How many results the list ends with. */
  function TrailingResults(items: seq<Item>): (k: nat)
    ensures k <= |items| && (forall i :: |items| - k <= i < |items| ==> items[i].ToolResult?)
    ensures k < |items| ==> !items[|items| - k - 1].ToolResult?
  {
    if items == [] || !items[|items| - 1].ToolResult? then 0
    else TrailingResults(items[..|items| - 1]) + 1
  }

  /** The last turn, truncated instead of dropped: an item, or results with the assistant item that owns them. */
  function Recovered(items: seq<Item>, budget: nat, est: Item -> nat): seq<Item> {
    var n := |items| - TrailingResults(items);
    RecoveredUnit(items[..n], items[n..], budget, est)
  }

  function RecoveredUnit(body: seq<Item>, results: seq<Item>, budget: nat, est: Item -> nat): seq<Item> {
    if results == [] then LastTruncated(body, budget)
    else OwnerOf(body) + TruncateAll(results, PerResult(SatSub(budget, Cost(OwnerOf(body), est)), |results|))
  }

  function LastTruncated(body: seq<Item>, budget: nat): seq<Item> {
    if body == [] then [] else [TruncateItem(body[|body| - 1], budget)]
  }

  /** The assistant item that declares calls, if the list ends with one. */
  function OwnerOf(body: seq<Item>): seq<Item> {
    if body != [] && HasCalls(body[|body| - 1]) then [body[|body| - 1]] else []
  }

  function PerResult(budget: nat, k: nat): nat
    requires k > 0
  {
    if budget / k < 1 then 1 else budget / k
  }

  function BudgetOf(conv: seq<Item>, maxTokens: nat, est: Item -> nat): nat {
    SatSub(maxTokens, Cost(HeadOf(conv), est))
  }

  /** First item kept: the affordable suffix without the results it would start with. */
  function KeptFrom(conv: seq<Item>, maxTokens: nat, est: Item -> nat): (start: nat)
    ensures start <= |BodyOf(conv)|
  {
    var body := BodyOf(conv);
    var s := AffordableFrom(body, BudgetOf(conv, maxTokens, est), est);
    s + RunLen(body[s..])
  }

  /** What is kept of the body when the conversation is too long. */
  function KeptOf(conv: seq<Item>, maxTokens: nat, est: Item -> nat): seq<Item> {
    var body, start := BodyOf(conv), KeptFrom(conv, maxTokens, est);
    if start < |body| then body[start..] else Recovered(body, BudgetOf(conv, maxTokens, est), est)
  }

  function Fit(conv: seq<Item>, maxTokens: nat, est: Item -> nat): seq<Item> {
    if Cost(conv, est) <= maxTokens then conv else HeadOf(conv) + KeptOf(conv, maxTokens, est)
  }

  // ----- the loops of the program

  method FitConversationToBudget(conv: seq<Item>, maxTokens: nat, est: Item -> nat) returns (fitted: seq<Item>)
    ensures fitted == Fit(conv, maxTokens, est)
    ensures Fits(conv, maxTokens, est, fitted)
  {
    var total := SumCosts(conv, est);
    if total <= maxTokens {
      return conv;
    }
    var head, body := SplitSystem(conv);
    var headCost := SumCosts(head, est);
    var budget := SatSub(maxTokens, headCost);
    var start := AffordableLoop(body, budget, est);
    start := ScanRun(body, start);
    assert start == KeptFrom(conv, maxTokens, est);
    var kept: seq<Item>;
    if start < |body| {
      kept := body[start..];
    } else {
      kept := RecoverTruncatedTailUnit(body, budget, est);
    }
    fitted := head + kept;
    FitIs(conv, maxTokens, est);
  }

  method SplitSystem(conv: seq<Item>) returns (head: seq<Item>, body: seq<Item>)
    ensures head == HeadOf(conv) && body == BodyOf(conv)
  {
    head, body := [], conv;
    if conv != [] && conv[0].System? {
      head, body := conv[..1], conv[1..];
    }
  }

  method SumCosts(items: seq<Item>, est: Item -> nat) returns (total: nat)
    ensures total == Cost(items, est)
  {
    total := 0;
    for i := 0 to |items|
      invariant total + Cost(items[i..], est) == Cost(items, est)
    {
      CostSuffix(items, i, est);
      total := total + est(items[i]);
    }
  }

  method AffordableLoop(body: seq<Item>, budget: nat, est: Item -> nat) returns (start: nat)
    ensures start == AffordableFrom(body, budget, est)
  {
    var remaining: nat := budget;
    start := |body|;
    while start > 0
      invariant start <= |body| && remaining + Cost(body[start..], est) == budget
    {
      CostSuffix(body, start - 1, est);
      var cost := est(body[start - 1]);
      if cost > remaining {
        break;
      }
      remaining := remaining - cost;
      start := start - 1;
    }
    OneStart(body, budget, est, start);
  }

  lemma {:induction false} CostOfSuffixes(items: seq<Item>, i: nat, j: nat, est: Item -> nat)
    requires i <= j <= |items|
    ensures Cost(items[j..], est) <= Cost(items[i..], est)
    decreases j - i
  {
    if i < j {
      CostSuffix(items, i, est);
      CostOfSuffixes(items, i + 1, j, est);
    }
  }

  lemma OneStart(body: seq<Item>, budget: nat, est: Item -> nat, start: nat)
    requires start <= |body| && Cost(body[start..], est) <= budget
    requires start > 0 ==> Cost(body[start - 1..], est) > budget
    ensures start == AffordableFrom(body, budget, est)
  {
    var s := AffordableFrom(body, budget, est);
    if s < start {
      CostOfSuffixes(body, s, start - 1, est);
    } else if start < s {
      CostOfSuffixes(body, start, s - 1, est);
    }
  }

  method PopResults(items: seq<Item>) returns (body: seq<Item>, results: seq<Item>)
    ensures var n := |items| - TrailingResults(items); body == items[..n] && results == items[n..]
  {
    body, results := items, [];
    while body != [] && body[|body| - 1].ToolResult?
      invariant items == body + results && AllResults(results)
      decreases |body|
    {
      Shift(body[..|body| - 1], body[|body| - 1], results);
      results := [body[|body| - 1]] + results;
      body := body[..|body| - 1];
    }
    TrailingIs(body, results);
  }

  method RecoverTruncatedTailUnit(items: seq<Item>, budget: nat, est: Item -> nat) returns (unit: seq<Item>)
    ensures unit == Recovered(items, budget, est)
    ensures RecoversTo(items, budget, est, unit)
  {
    RecoveredIs(items, budget, est);
    var body, results := PopResults(items);
    unit := TruncateUnit(body, results, budget, est);
    assert unit == Recovered(items, budget, est);
  }

  method TruncateUnit(body: seq<Item>, results: seq<Item>, budget: nat, est: Item -> nat) returns (unit: seq<Item>)
    ensures unit == RecoveredUnit(body, results, budget, est)
  {
    if results == [] {
      return if body == [] then [] else [TruncateItem(body[|body| - 1], budget)];
    }
    var owner, ownerCost := [], 0;
    if body != [] && HasCalls(body[|body| - 1]) {
      owner, ownerCost := [body[|body| - 1]], est(body[|body| - 1]);
      CostOfOne(body[|body| - 1], est);
    }
    var per := PerResult(SatSub(budget, ownerCost), |results|);
    unit := owner + TruncateAll(results, per);
  }

  lemma {:induction false} TrailingIs(body: seq<Item>, results: seq<Item>)
    requires AllResults(results) && (body != [] ==> !body[|body| - 1].ToolResult?)
    ensures TrailingResults(body + results) == |results|
    decreases |results|
  {
    if results == [] {
      assert body + results == body;
    } else {
      var n := |results| - 1;
      assert (body + results)[..|body| + n] == body + results[..n] && (body + results)[|body| + n] == results[n];
      TrailingIs(body, results[..n]);
    }
  }

  // ----- what recovery guarantees

  const BYTES_PER_TOKEN := 4
  const IMAGE_TOKENS := 765

  function TextBytes(parts: seq<ContentPart>): nat {
    if parts == [] then 0
    else (if parts[0].TextPart? then ByteLen(parts[0].text) else 0) + TextBytes(parts[1..])
  }

  function Images(parts: seq<ContentPart>): nat {
    if parts == [] then 0 else (if parts[0].ImagePart? then 1 else 0) + Images(parts[1..])
  }

  function ArgumentBytes(calls: seq<ToolCall>): nat {
    if calls == [] then 0 else ByteLen(calls[0].arguments) + ArgumentBytes(calls[1..])
  }

  /** The estimator that the program uses. */
  function EstimateItem(item: Item): nat {
    match item
    case System(prompt) => ByteLen(prompt) / BYTES_PER_TOKEN
    case User(parts, _) => TextBytes(parts) / BYTES_PER_TOKEN + Images(parts) * IMAGE_TOKENS
    case Assistant(answer, calls) => (ByteLen(answer) + ArgumentBytes(calls)) / BYTES_PER_TOKEN
    case ToolResult(_, output, _) => ByteLen(output) / BYTES_PER_TOKEN
    case BackendToolCall(summary) => ByteLen(summary) / BYTES_PER_TOKEN
    case Reasoning(thought) => ByteLen(thought) / BYTES_PER_TOKEN
  }

  // ----- the exact cost after recovery

  /** The length of a text after truncation to `maxBytes`. */
  function BytesAfter(s: string, maxBytes: nat): nat {
    if ByteLen(s) <= maxBytes then ByteLen(s)
    else KeptBytes(s, maxBytes) + 56 + |Print(ByteLen(s) - KeptBytes(s, maxBytes))|
  }

  lemma BytesAfterIs(s: string, maxBytes: nat)
    ensures ByteLen(TruncatedOr(s, maxBytes)) == BytesAfter(s, maxBytes)
  {
    if ByteLen(s) > maxBytes {
      TruncatedLength(s, maxBytes);
      assert TruncatedOr(s, maxBytes) == TruncatedText(s, maxBytes);
    } else {
      assert TruncatedOr(s, maxBytes) == s;
    }
  }

  function PartsAfter(parts: seq<ContentPart>, maxBytes: nat): nat {
    if parts == [] then 0
    else (if parts[0].TextPart? then BytesAfter(parts[0].text, maxBytes) else 0) + PartsAfter(parts[1..], maxBytes)
  }

  lemma {:induction false} PartsAfterIs(parts: seq<ContentPart>, maxBytes: nat)
    ensures TextBytes(TruncateParts(parts, maxBytes)) == PartsAfter(parts, maxBytes)
    ensures Images(TruncateParts(parts, maxBytes)) == Images(parts)
  {
    if parts != [] {
      PartsAfterIs(parts[1..], maxBytes);
      if parts[0].TextPart? {
        BytesAfterIs(parts[0].text, maxBytes);
        Cons(TextPart(TruncatedOr(parts[0].text, maxBytes)), TruncateParts(parts[1..], maxBytes));
      } else {
        Cons(parts[0], TruncateParts(parts[1..], maxBytes));
      }
    }
  }

  /** What an item costs after truncation to a share of tokens: texts over the share become their kept bytes and the
      marker; call arguments, images and all other kinds of items cost what they did. */
  function TokensAfter(item: Item, share: nat): nat {
    var maxBytes := BYTES_PER_TOKEN * share;
    match item
    case User(parts, _) => PartsAfter(parts, maxBytes) / BYTES_PER_TOKEN + Images(parts) * IMAGE_TOKENS
    case Assistant(answer, calls) => (BytesAfter(answer, maxBytes) + ArgumentBytes(calls)) / BYTES_PER_TOKEN
    case ToolResult(_, output, _) => BytesAfter(output, maxBytes) / BYTES_PER_TOKEN
    case _ => EstimateItem(item)
  }

  lemma TokensAfterIs(item: Item, share: nat)
    ensures EstimateItem(TruncateItem(item, share)) == TokensAfter(item, share)
  {
    match item
    case User(parts, _) => PartsAfterIs(parts, BYTES_PER_TOKEN * share);
    case Assistant(answer, _) => BytesAfterIs(answer, BYTES_PER_TOKEN * share);
    case ToolResult(_, output, _) => BytesAfterIs(output, BYTES_PER_TOKEN * share);
    case _ =>
  }

  function SumAfter(items: seq<Item>, share: nat): nat {
    if items == [] then 0 else TokensAfter(items[0], share) + SumAfter(items[1..], share)
  }

  lemma {:induction false} SumAfterIs(items: seq<Item>, share: nat)
    ensures Cost(TruncateAll(items, share), EstimateItem) == SumAfter(items, share)
  {
    if items != [] {
      SumAfterIs(items[1..], share);
      TokensAfterIs(items[0], share);
      CostOfCons(TruncateItem(items[0], share), TruncateAll(items[1..], share), EstimateItem);
    }
  }

  /** The tokens of the last turn after recovery: the last item alone, or the owner in full and its results at equal
      shares of the rest, of at least one token each. */
  function RecoveredTokens(body: seq<Item>, budget: nat): nat {
    var k := TrailingResults(body);
    var n := |body| - k;
    if body == [] then 0
    else if k == 0 then TokensAfter(body[n - 1], budget)
    else
      var ownerCost := if n > 0 && HasCalls(body[n - 1]) then EstimateItem(body[n - 1]) else 0;
      ownerCost + SumAfter(body[n..], PerResult(SatSub(budget, ownerCost), k))
  }

  lemma CostOfOwner(body: seq<Item>, n: nat, est: Item -> nat)
    requires n <= |body|
    ensures Cost(OwnerOf(body[..n]), est) == if n > 0 && HasCalls(body[n - 1]) then est(body[n - 1]) else 0
  {
    if n > 0 {
      assert body[..n][n - 1] == body[n - 1];
      CostOfOne(body[n - 1], est);
    }
  }

  lemma UnitCost(body: seq<Item>, results: seq<Item>, budget: nat)
    requires results != []
    ensures var ownerCost := Cost(OwnerOf(body), EstimateItem);
      Cost(RecoveredUnit(body, results, budget, EstimateItem), EstimateItem)
      == ownerCost + SumAfter(results, PerResult(SatSub(budget, ownerCost), |results|))
  {
    var owner := OwnerOf(body);
    var per := PerResult(SatSub(budget, Cost(owner, EstimateItem)), |results|);
    CostConcat(owner, TruncateAll(results, per), EstimateItem);
    SumAfterIs(results, per);
  }

  lemma RecoveredCost(body: seq<Item>, budget: nat)
    ensures Cost(Recovered(body, budget, EstimateItem), EstimateItem) == RecoveredTokens(body, budget)
  {
    var n := |body| - TrailingResults(body);
    if n < |body| {
      UnitCost(body[..n], body[n..], budget);
      CostOfOwner(body, n, EstimateItem);
    } else if body != [] {
      LoneItem(body, budget, EstimateItem);
      TokensAfterIs(body[n - 1], budget);
      CostOfOne(TruncateItem(body[n - 1], budget), EstimateItem);
    }
  }

  /** On the recovery path the limit is kept exactly if there is room for the head and for what the last turn costs
      after truncation. */
  lemma RecoveryKeepsLimit(conv: seq<Item>, maxTokens: nat)
    requires Cost(conv, EstimateItem) > maxTokens && KeptFrom(conv, maxTokens, EstimateItem) == |BodyOf(conv)|
    ensures var headCost, budget := Cost(HeadOf(conv), EstimateItem), BudgetOf(conv, maxTokens, EstimateItem);
      && Cost(Fit(conv, maxTokens, EstimateItem), EstimateItem) == headCost + RecoveredTokens(BodyOf(conv), budget)
      && (Cost(Fit(conv, maxTokens, EstimateItem), EstimateItem) <= maxTokens <==>
          headCost <= maxTokens && RecoveredTokens(BodyOf(conv), budget) <= budget)
  {
    var budget := BudgetOf(conv, maxTokens, EstimateItem);
    RecoveredCost(BodyOf(conv), budget);
    CostConcat(HeadOf(conv), Recovered(BodyOf(conv), budget, EstimateItem), EstimateItem);
  }

  /** When fitting keeps its promise, for every conversation and limit. */
  lemma FitKeepsLimit(conv: seq<Item>, maxTokens: nat)
    ensures Cost(Fit(conv, maxTokens, EstimateItem), EstimateItem) <= maxTokens <==>
      || Cost(conv, EstimateItem) <= maxTokens
      || (Cost(HeadOf(conv), EstimateItem) <= maxTokens
          && (KeptFrom(conv, maxTokens, EstimateItem) < |BodyOf(conv)|
              || RecoveredTokens(BodyOf(conv), BudgetOf(conv, maxTokens, EstimateItem))
                 <= BudgetOf(conv, maxTokens, EstimateItem)))
  {
    if Cost(conv, EstimateItem) > maxTokens {
      if KeptFrom(conv, maxTokens, EstimateItem) < |BodyOf(conv)| {
        FitIsWithinBudget(conv, maxTokens, EstimateItem);
      } else {
        RecoveryKeepsLimit(conv, maxTokens);
      }
    }
  }

  lemma OneTextAfter(parts: seq<ContentPart>, maxBytes: nat)
    requires |parts| == 1 && parts[0].TextPart?
    ensures PartsAfter(parts, maxBytes) == BytesAfter(parts[0].text, maxBytes)
  {
    assert parts[1..] == [];
  }

  lemma SmallShareAfter(item: Item, share: nat)
    requires item.User? && |item.parts| == 1 && item.parts[0].TextPart?
    requires share < 14 && ByteLen(item.parts[0].text) > BYTES_PER_TOKEN * share
    ensures EstimateItem(TruncateItem(item, share)) > share
  {
    OneTextAfter(item.parts, BYTES_PER_TOKEN * share);
    TokensAfterIs(item, share);
  }

  /** The limit is overrun for every single user text over a limit of less than fourteen tokens. */
  lemma SmallLimitOverruns(item: Item, maxTokens: nat)
    requires item.User? && |item.parts| == 1 && item.parts[0].TextPart?
    requires maxTokens < 14 && EstimateItem(item) > maxTokens
    ensures Cost(Fit([item], maxTokens, EstimateItem), EstimateItem) > maxTokens
  {
    OnePart(item.parts);
    SmallShareAfter(item, maxTokens);
    FitOfOne(item, maxTokens, EstimateItem);
    CostOfOne(TruncateItem(item, maxTokens), EstimateItem);
  }

  lemma FitOfOne(item: Item, maxTokens: nat, est: Item -> nat)
    requires est(item) > maxTokens && !item.System? && !item.ToolResult?
    ensures Fit([item], maxTokens, est) == [TruncateItem(item, maxTokens)]
  {
    var conv := [item];
    CostOfOne(item, est);
    assert conv[0..] == conv;
    assert AffordableFrom(conv, maxTokens, est) == 1;
    assert conv[1..] == [];
    LoneItem(conv, maxTokens, est);
  }

  // ----- when that is enough

  /** A result over its share costs at most that share after truncation exactly if the marker fits. */
  lemma ResultFitsShare(r: Item, share: nat)
    requires r.ToolResult? && ByteLen(r.output) > BYTES_PER_TOKEN * share
    ensures EstimateItem(TruncateItem(r, share)) <= share <==>
      MarkerFits(r.output, BYTES_PER_TOKEN * share, BYTES_PER_TOKEN * share + 3)
  {
    TruncatedWithin(r.output, BYTES_PER_TOKEN * share, BYTES_PER_TOKEN * share + 3);
  }

  /** Below `10^8` bytes a share of sixteen tokens always suffices for a text. */
  lemma SixteenSuffice(s: string, share: nat)
    requires share >= 16 && ByteLen(s) < Pow10(8)
    ensures ByteLen(TruncatedOr(s, BYTES_PER_TOKEN * share)) / BYTES_PER_TOKEN <= share
  {
    TruncatedBound(s, BYTES_PER_TOKEN * share);
  }

  /** Every item, truncated to `per` tokens, costs at most that. */
  ghost predicate EachWithin(items: seq<Item>, per: nat, est: Item -> nat) {
    forall i :: 0 <= i < |items| ==> est(TruncateItem(items[i], per)) <= per
  }

  lemma {:induction false} TruncatedCost(items: seq<Item>, per: nat, est: Item -> nat)
    requires EachWithin(items, per, est)
    ensures Cost(TruncateAll(items, per), est) <= |items| * per
  {
    if items != [] {
      var x, rest := items[0], items[1..];
      assert forall i :: 0 <= i < |rest| ==> rest[i] == items[i + 1];
      TruncatedCost(rest, per, est);
      CostOfCons(TruncateItem(x, per), TruncateAll(rest, per), est);
      assert |items| * per == per + |rest| * per;
    }
  }

  lemma CostOfCons(x: Item, rest: seq<Item>, est: Item -> nat)
    ensures Cost([x] + rest, est) == est(x) + Cost(rest, est)
  {
    Cons(x, rest);
  }

  /** Outputs of less than `10^8` bytes. */
  predicate ShortOutputs(results: seq<Item>) {
    forall i :: 0 <= i < |results| ==> results[i].ToolResult? && ByteLen(results[i].output) < Pow10(8)
  }

  lemma ResultsWithin(results: seq<Item>, per: nat)
    requires ShortOutputs(results) && per >= 16
    ensures EachWithin(results, per, EstimateItem)
  {
    forall i | 0 <= i < |results|
      ensures EstimateItem(TruncateItem(results[i], per)) <= per
    {
      SixteenSuffice(results[i].output, per);
    }
  }

  lemma SharesCost(results: seq<Item>, per: nat, share: nat, est: Item -> nat)
    requires EachWithin(results, per, est) && |results| * per <= share
    ensures Cost(TruncateAll(results, per), est) <= share
  {
    TruncatedCost(results, per, est);
  }

  lemma SharesAddUp(owner: seq<Item>, unit: seq<Item>, budget: nat, est: Item -> nat)
    requires Cost(unit, est) <= SatSub(budget, Cost(owner, est)) && SatSub(budget, Cost(owner, est)) > 0
    ensures Cost(owner + unit, est) <= budget && budget > 0
  {
    CostConcat(owner, unit, est);
  }

  /** A recovered run of results, with its owner if it has one, fits the budget, provided each result's share has room
      for the marker. */
  lemma RecoveredFits(body: seq<Item>, results: seq<Item>, budget: nat)
    requires results != [] && ShortOutputs(results)
    requires PerResult(SatSub(budget, Cost(OwnerOf(body), EstimateItem)), |results|) >= 16
    ensures Cost(RecoveredUnit(body, results, budget, EstimateItem), EstimateItem) <= budget && budget > 0
  {
    var owner := OwnerOf(body);
    var share := SatSub(budget, Cost(owner, EstimateItem));
    var per := PerResult(share, |results|);
    ResultsWithin(results, per);
    ShareBound(share, |results|);
    SharesCost(results, per, share, EstimateItem);
    SharesAddUp(owner, TruncateAll(results, per), budget, EstimateItem);
  }

  /** All that the item costs is one text of less than `10^8` bytes. */
  predicate IsOneText(item: Item) {
    match item
    case Assistant(answer, calls) => ArgumentBytes(calls) == 0 && ByteLen(answer) < Pow10(8)
    case User(parts, _) => |parts| == 1 && parts[0].TextPart? && ByteLen(parts[0].text) < Pow10(8)
    case ToolResult(_, output, _) => ByteLen(output) < Pow10(8)
    case _ => false
  }

  lemma OneTextFits(item: Item, budget: nat)
    requires IsOneText(item) && budget >= 16
    ensures EstimateItem(TruncateItem(item, budget)) <= budget
  {
    match item
    case Assistant(answer, _) => SixteenSuffice(answer, budget);
    case ToolResult(_, output, _) => SixteenSuffice(output, budget);
    case User(parts, reason) =>
      var cut := TruncateParts(parts, BYTES_PER_TOKEN * budget);
      SixteenSuffice(parts[0].text, budget);
      assert parts[1..] == [] && cut == [TextPart(TruncatedOr(parts[0].text, BYTES_PER_TOKEN * budget))];
      OnePart(cut);
  }

  lemma OnePart(parts: seq<ContentPart>)
    requires |parts| == 1 && parts[0].TextPart?
    ensures TextBytes(parts) == ByteLen(parts[0].text) && Images(parts) == 0
  {
    assert parts[1..] == [];
  }

  /** What the recovery path can shrink to the budget: results with shares of at least sixteen tokens, or one text. */
  predicate Shrinkable(body: seq<Item>, budget: nat) {
    var k := TrailingResults(body);
    var n := |body| - k;
    if k > 0 then ShortOutputs(body[n..]) && PerResult(SatSub(budget, Cost(OwnerOf(body[..n]), EstimateItem)), k) >= 16
    else body != [] && IsOneText(body[n - 1]) && budget >= 16
  }

  lemma LoneItem(body: seq<Item>, budget: nat, est: Item -> nat)
    requires body != [] && TrailingResults(body) == 0
    ensures Recovered(body, budget, est) == LastTruncated(body, budget)
  {
    var front, back := body[..|body|], body[|body|..];
    assert front == body && back == [];
    NoResults(front, back, budget, est);
  }

  lemma NoResults(body: seq<Item>, results: seq<Item>, budget: nat, est: Item -> nat)
    requires results == []
    ensures RecoveredUnit(body, results, budget, est) == LastTruncated(body, budget)
  {
  }

  lemma RecoveredIsWithin(body: seq<Item>, budget: nat)
    requires Shrinkable(body, budget)
    ensures Cost(Recovered(body, budget, EstimateItem), EstimateItem) <= budget && budget > 0
  {
    var n := |body| - TrailingResults(body);
    if n < |body| {
      RecoveredFits(body[..n], body[n..], budget);
    } else {
      OneTextFits(body[n - 1], budget);
      LoneItem(body, budget, EstimateItem);
      CostOfOne(TruncateItem(body[n - 1], budget), EstimateItem);
    }
  }

  /** If the last turn can be shrunk to the budget, the fitted conversation is within the limit, on either path. */
  lemma RecoveryIsWithinBudget(conv: seq<Item>, maxTokens: nat, budget: nat)
    requires budget == BudgetOf(conv, maxTokens, EstimateItem) && Shrinkable(BodyOf(conv), budget)
    ensures Cost(Fit(conv, maxTokens, EstimateItem), EstimateItem) <= maxTokens
  {
    RecoveredIsWithin(BodyOf(conv), budget);
    RecoveredCost(BodyOf(conv), budget);
    FitKeepsLimit(conv, maxTokens);
  }

  lemma EndsInRun(body: seq<Item>, s: nat)
    requires s < |body| == s + RunLen(body[s..])
    ensures body[|body| - 1].ToolResult?
  {
    var n := |body|;
    assert body[s..][n - 1 - s] == body[n - 1];
  }

  /** On the recovery path a last item that is no result costs more than the budget. */
  lemma LastIsTooLong(body: seq<Item>, budget: nat, est: Item -> nat, s: nat)
    requires body != [] && !body[|body| - 1].ToolResult?
    requires s == AffordableFrom(body, budget, est) && s + RunLen(body[s..]) == |body|
    ensures est(body[|body| - 1]) > budget
  {
    var n := |body|;
    if s < n {
      EndsInRun(body, s);
    } else {
      CostSuffix(body, n - 1, est);
      assert body[n..] == [];
    }
  }

  /** What truncation does not touch stays over the limit: all but texts of the user, the assistant and tools. */
  lemma UntruncatedIsOverBudget(conv: seq<Item>, maxTokens: nat, est: Item -> nat)
    requires Cost(conv, est) > maxTokens && KeptFrom(conv, maxTokens, est) == |BodyOf(conv)| && BodyOf(conv) != []
    requires var last := BodyOf(conv)[|BodyOf(conv)| - 1];
      last.System? || last.BackendToolCall? || last.Reasoning?
    ensures Cost(Fit(conv, maxTokens, est), est) > maxTokens
  {
    var body, budget := BodyOf(conv), BudgetOf(conv, maxTokens, est);
    LastIsTooLong(body, budget, est, AffordableFrom(body, budget, est));
    LoneItem(body, budget, est);
    CostOfOne(body[|body| - 1], est);
    CostConcat(HeadOf(conv), LastTruncated(body, budget), est);
  }

  /** The shares matter: results over a share of less than fourteen tokens come out above it, markers and all. */
  lemma SmallSharesOverrun(r: Item, share: nat)
    requires r.ToolResult? && share < 14 && ByteLen(r.output) > BYTES_PER_TOKEN * share
    ensures EstimateItem(TruncateItem(r, share)) > share
  {
    SmallLimitIsExceeded(r.output, BYTES_PER_TOKEN * share);
  }

  lemma ShareBound(share: nat, k: nat)
    requires k > 0 && PerResult(share, k) >= 16
    ensures k * PerResult(share, k) <= share && share > 0
  {
  }

  /** Every item truncated to `tokens`, in order. */
  ghost predicate EachAfter(items: seq<Item>, tokens: nat, out: seq<Item>) {
    |out| == |items| && forall i :: 0 <= i < |items| ==> ItemAfter(items[i], tokens, out[i])
  }

  /** `k` shares of `per` tokens use up `left` but for less than one token each, and are at least one token each. */
  predicate UsesUp(k: nat, per: nat, left: nat) {
    left < k * per + k && (k * per <= left || (per == 1 && left < k))
  }

  /** What recovery makes of a body `front` with trailing `results`, or without any. A last item that is no result is
      truncated to the budget. Results are truncated to the same share each, in their order, behind the assistant item
      with their calls, if there is one, which stays whole; the shares use up what that item leaves of the budget. */
  ghost predicate UnitRecovers(
    front: seq<Item>, results: seq<Item>, budget: nat, est: Item -> nat, out: seq<Item>, per: nat)
  {
    if front + results == [] then out == []
    else if results == [] then |out| == 1 && ItemAfter(front[|front| - 1], budget, out[0])
    else if front != [] && HasCalls(front[|front| - 1]) then
      && out != [] && out[0] == front[|front| - 1] && EachAfter(results, per, out[1..])
      && UsesUp(|results|, per, SatSub(budget, est(front[|front| - 1])))
    else EachAfter(results, per, out) && UsesUp(|results|, per, budget)
  }

  /** The body is cut behind its last item that is no result. */
  ghost predicate RecoversTo(body: seq<Item>, budget: nat, est: Item -> nat, out: seq<Item>) {
    exists n: nat, per: nat :: LastNonResult(body, n) && UnitRecovers(body[..n], body[n..], budget, est, out, per)
  }

  predicate LastNonResult(body: seq<Item>, n: nat) {
    n <= |body| && AllResults(body[n..]) && (n > 0 ==> !body[n - 1].ToolResult?)
  }

  lemma SharesUseAll(left: nat, k: nat)
    requires k > 0
    ensures UsesUp(k, PerResult(left, k), left)
  {
    var q := left / k;
    assert left == k * q + left % k;
  }

  lemma {:induction false} AllAreCut(items: seq<Item>, tokens: nat)
    ensures EachAfter(items, tokens, TruncateAll(items, tokens))
  {
    if items != [] {
      AllAreCut(items[1..], tokens);
      ItemIsCut(items[0], tokens);
      Cons(TruncateItem(items[0], tokens), TruncateAll(items[1..], tokens));
      assert forall i :: 0 < i < |items| ==> items[i] == items[1..][i - 1];
    }
  }

  lemma UnitIs(front: seq<Item>, results: seq<Item>, budget: nat, est: Item -> nat) returns (per: nat)
    ensures UnitRecovers(front, results, budget, est, RecoveredUnit(front, results, budget, est), per)
  {
    per := 0;
    if results != [] {
      per := ResultsAre(front, results, budget, est);
    } else if front != [] {
      LastIsCut(front, budget);
    }
  }

  lemma LastIsCut(body: seq<Item>, budget: nat)
    requires body != []
    ensures var out := LastTruncated(body, budget); |out| == 1 && ItemAfter(body[|body| - 1], budget, out[0])
  {
    ItemIsCut(body[|body| - 1], budget);
  }

  lemma ResultsAre(front: seq<Item>, results: seq<Item>, budget: nat, est: Item -> nat) returns (per: nat)
    requires results != []
    ensures UnitRecovers(front, results, budget, est, RecoveredUnit(front, results, budget, est), per)
  {
    var owner := OwnerOf(front);
    var left := SatSub(budget, Cost(owner, est));
    per := PerResult(left, |results|);
    SharesUseAll(left, |results|);
    AllAreCut(results, per);
    if owner != [] {
      CostOfOne(owner[0], est);
      Cons(owner[0], TruncateAll(results, per));
    } else {
      NoFront(TruncateAll(results, per));
    }
  }

  lemma RecoveredIs(body: seq<Item>, budget: nat, est: Item -> nat)
    ensures RecoversTo(body, budget, est, Recovered(body, budget, est))
  {
    var n := |body| - TrailingResults(body);
    assert LastNonResult(body, n);
    var per := UnitIs(body[..n], body[n..], budget, est);
  }

  // ----- what fitting guarantees

  /** A leading System item stays in front, and a non-empty body is never dropped entirely. */
  lemma FitKeepsSomething(conv: seq<Item>, maxTokens: nat, est: Item -> nat)
    ensures HasSystem(conv) ==> Fit(conv, maxTokens, est) != [] && Fit(conv, maxTokens, est)[0] == conv[0]
    ensures BodyOf(conv) != [] ==> |HeadOf(conv)| < |Fit(conv, maxTokens, est)|
  {
    if BodyOf(conv) != [] {
      RecoveredIsNotEmpty(BodyOf(conv), BudgetOf(conv, maxTokens, est), est);
    }
    assert HasSystem(conv) ==> HeadOf(conv)[0] == conv[0];
    assert conv == HeadOf(conv) + BodyOf(conv);
  }

  /** The conversation can be cut in front of item `i`: that is no result, and everything from it on is affordable. */
  predicate Affordable(conv: seq<Item>, i: nat, budget: nat, est: Item -> nat)
    requires i < |conv|
  {
    !conv[i].ToolResult? && Cost(conv[i..], est) <= budget
  }

  /** It is cut at the first such item behind the System item, or nowhere. */
  ghost predicate CutFirst(conv: seq<Item>, from: nat, start: nat, budget: nat, est: Item -> nat) {
    && from <= start <= |conv| && (start < |conv| ==> Affordable(conv, start, budget, est))
    && forall i: nat :: from <= i < start ==> !Affordable(conv, i, budget, est)
  }

  /** The first `from` items, and behind them everything from the first place on where it can be cut; or, if there is
      none, the last turn shrunk to the budget. */
  ghost predicate FitsBehind(conv: seq<Item>, from: nat, budget: nat, est: Item -> nat, fitted: seq<Item>)
    requires from <= |conv|
  {
    exists start: nat, kept ::
      && CutFirst(conv, from, start, budget, est) && fitted == conv[..from] + kept
      && if start < |conv| then kept == conv[start..] else RecoversTo(conv[from..], budget, est, kept)
  }

  /** What fitting gives: the conversation as it is if it is within the limit; else its leading System item, if it has
      one, and what fits into the rest of the limit. */
  ghost predicate Fits(conv: seq<Item>, maxTokens: nat, est: Item -> nat, fitted: seq<Item>) {
    var from: nat := if conv != [] && conv[0].System? then 1 else 0;
    if Cost(conv, est) <= maxTokens then fitted == conv
    else FitsBehind(conv, from, SatSub(maxTokens, Cost(conv[..from], est)), est, fitted)
  }

  lemma FitIs(conv: seq<Item>, maxTokens: nat, est: Item -> nat)
    ensures Fits(conv, maxTokens, est, Fit(conv, maxTokens, est))
  {
    if Cost(conv, est) > maxTokens {
      var from: nat := if HasSystem(conv) then 1 else 0;
      assert HeadOf(conv) == conv[..from] && BodyOf(conv) == conv[from..];
      CutIsFirst(conv, maxTokens, est, from, KeptFrom(conv, maxTokens, est));
      KeptIs(conv, maxTokens, est, from, KeptFrom(conv, maxTokens, est));
      IsBehind(
        conv, from, from + KeptFrom(conv, maxTokens, est), BudgetOf(conv, maxTokens, est), est,
        KeptOf(conv, maxTokens, est), Fit(conv, maxTokens, est));
    }
  }

  lemma IsBehind(
    conv: seq<Item>, from: nat, start: nat, budget: nat, est: Item -> nat, kept: seq<Item>, fitted: seq<Item>)
    requires from <= |conv| && CutFirst(conv, from, start, budget, est) && fitted == conv[..from] + kept
    requires if start < |conv| then kept == conv[start..] else RecoversTo(conv[from..], budget, est, kept)
    ensures FitsBehind(conv, from, budget, est, fitted)
  {
  }

  lemma KeptIs(conv: seq<Item>, maxTokens: nat, est: Item -> nat, from: nat, s: nat)
    requires from <= |conv| && BodyOf(conv) == conv[from..] && s == KeptFrom(conv, maxTokens, est)
    ensures var kept := KeptOf(conv, maxTokens, est);
      if from + s < |conv| then kept == conv[from + s..]
      else RecoversTo(conv[from..], BudgetOf(conv, maxTokens, est), est, kept)
  {
    if from + s < |conv| {
      DropTwice(conv, from, s);
    } else {
      RecoveredIs(conv[from..], BudgetOf(conv, maxTokens, est), est);
    }
  }

  lemma DropTwice(conv: seq<Item>, i: nat, j: nat)
    requires i + j <= |conv|
    ensures conv[i..][j..] == conv[i + j..]
  {
  }

  lemma NotBefore(conv: seq<Item>, maxTokens: nat, est: Item -> nat, from: nat, k: nat)
    requires from <= |conv| && BodyOf(conv) == conv[from..] && k < KeptFrom(conv, maxTokens, est)
    ensures !Affordable(conv, from + k, BudgetOf(conv, maxTokens, est), est)
  {
    DropTwice(conv, from, k);
    if !conv[from + k].ToolResult? {
      FitIsOptimal(conv, maxTokens, est, k);
    }
  }

  lemma CutIsFirst(conv: seq<Item>, maxTokens: nat, est: Item -> nat, from: nat, s: nat)
    requires from <= |conv| && BodyOf(conv) == conv[from..] && s == KeptFrom(conv, maxTokens, est)
    ensures CutFirst(conv, from, from + s, BudgetOf(conv, maxTokens, est), est)
  {
    var body, budget := BodyOf(conv), BudgetOf(conv, maxTokens, est);
    if s < |body| {
      SuffixIsAffordable(body, budget, est, AffordableFrom(body, budget, est), s);
      DropTwice(conv, from, s);
    }
    forall i: nat | from <= i < from + s
      ensures !Affordable(conv, i, budget, est)
    {
      NotBefore(conv, maxTokens, est, from, i - from);
    }
  }

  lemma RecoveredIsNotEmpty(body: seq<Item>, budget: nat, est: Item -> nat)
    requires body != []
    ensures Recovered(body, budget, est) != []
  {
  }

  /** On the ordinary path the result is a suffix that starts with no result, within the larger of the budget and the
      head's cost. */
  lemma FitIsWithinBudget(conv: seq<Item>, maxTokens: nat, est: Item -> nat)
    requires Cost(conv, est) > maxTokens && KeptFrom(conv, maxTokens, est) < |BodyOf(conv)|
    ensures var body, start := BodyOf(conv), KeptFrom(conv, maxTokens, est);
      var headCost := Cost(HeadOf(conv), est);
      && Fit(conv, maxTokens, est) == HeadOf(conv) + body[start..] && !body[start].ToolResult?
      && Cost(Fit(conv, maxTokens, est), est) <= Max(headCost, maxTokens)
      && (Cost(Fit(conv, maxTokens, est), est) <= maxTokens <==> headCost <= maxTokens)
  {
    var body, start, budget := BodyOf(conv), KeptFrom(conv, maxTokens, est), BudgetOf(conv, maxTokens, est);
    SuffixIsAffordable(body, budget, est, AffordableFrom(body, budget, est), start);
    CostConcat(HeadOf(conv), body[start..], est);
  }

  lemma SuffixIsAffordable(body: seq<Item>, budget: nat, est: Item -> nat, s: nat, start: nat)
    requires s <= |body| && Cost(body[s..], est) <= budget && start == s + RunLen(body[s..]) < |body|
    ensures !body[start].ToolResult? && Cost(body[start..], est) <= budget
  {
    assert body[start] == body[s..][start - s];
    CostOfSuffixes(body, s, start, est);
  }

  /** Nothing longer would do: every longer suffix that starts with no result is over budget. */
  lemma FitIsOptimal(conv: seq<Item>, maxTokens: nat, est: Item -> nat, i: nat)
    requires i < KeptFrom(conv, maxTokens, est) && !BodyOf(conv)[i].ToolResult?
    ensures Cost(BodyOf(conv)[i..], est) > SatSub(maxTokens, Cost(HeadOf(conv), est))
  {
    var body := BodyOf(conv);
    var s := AffordableFrom(body, BudgetOf(conv, maxTokens, est), est);
    CostOfSuffixes(body, i, s - 1, est);
  }

  lemma {:induction false} TruncationKeepsPairs(run: set<string>, items: seq<Item>, maxTokens: nat)
    requires PairedFrom(run, items)
    ensures PairedFrom(run, TruncateAll(items, maxTokens))
    decreases |items|
  {
    if items != [] {
      Cons(TruncateItem(items[0], maxTokens), TruncateAll(items[1..], maxTokens));
      TruncationKeepsPairs(NextRun(run, items[0]), items[1..], maxTokens);
    }
  }

  /** In a paired list, trailing results stand behind the assistant item with their calls. */
  lemma TrailingResultsAreOwned(body: seq<Item>)
    requires PairedFrom({}, body) && TrailingResults(body) > 0
    ensures var n := |body| - TrailingResults(body);
      n > 0 && HasCalls(body[n - 1]) && PairedFrom(Ids(body[n - 1].calls), body[n..])
  {
    var n := |body| - TrailingResults(body);
    assert body[n..][0] == body[n];
    if n > 0 {
      Halves(body, n);
      Snoc(body, n - 1);
      LastOwns(body[..n - 1], body[n - 1], body[n..]);
    }
  }

  lemma LastOwns(front: seq<Item>, x: Item, results: seq<Item>)
    requires !x.ToolResult? && StartsWithResult(results) && PairedFrom({}, front + [x] + results)
    ensures HasCalls(x) && PairedFrom(Ids(x.calls), results)
  {
    PairedFromConcat({}, front + [x], results);
    RunAfterConcat({}, front, [x]);
    var run := RunAfter({}, front);
    assert RunAfter(run, [x]) == NextRun(run, x);
    assert Ids([]) == {};
  }

  lemma OwnedUnitIsPaired(owner: Item, results: seq<Item>, per: nat)
    requires HasCalls(owner) && PairedFrom(Ids(owner.calls), results)
    ensures PairedFrom({}, [owner] + TruncateAll(results, per))
  {
    TruncationKeepsPairs(Ids(owner.calls), results, per);
    Cons(owner, TruncateAll(results, per));
  }

  lemma RecoveredIsPaired(body: seq<Item>, budget: nat, est: Item -> nat)
    requires PairedFrom({}, body)
    ensures PairedFrom({}, Recovered(body, budget, est))
  {
    var n := |body| - TrailingResults(body);
    if n < |body| {
      TrailingResultsAreOwned(body);
      var owner := OwnerOf(body[..n]);
      assert owner == [body[n - 1]];
      OwnedUnitIsPaired(body[n - 1], body[n..], PerResult(SatSub(budget, Cost(owner, est)), |body| - n));
    }
  }

  lemma SuffixIsPaired(body: seq<Item>, start: nat)
    requires PairedFrom({}, body) && start < |body| && !body[start].ToolResult?
    ensures PairedFrom({}, body[start..])
  {
    Halves(body, start);
    PairedFromConcat({}, body[..start], body[start..]);
    PairedFromFresh(RunAfter({}, body[..start]), {}, body[start..]);
  }

  /** Fitting keeps contiguous pairing, on both paths. */
  lemma FitIsPaired(conv: seq<Item>, maxTokens: nat, est: Item -> nat)
    requires Paired(conv)
    ensures Paired(Fit(conv, maxTokens, est))
  {
    PairedIsPairedFrom(conv);
    PairedIsPairedFrom(Fit(conv, maxTokens, est));
    if Cost(conv, est) > maxTokens {
      var body, start := BodyOf(conv), KeptFrom(conv, maxTokens, est);
      if start < |body| {
        FitIsWithinBudget(conv, maxTokens, est);
        SuffixIsPaired(body, start);
        BehindHead(conv, body[start..]);
      } else {
        RecoveredIsPaired(body, BudgetOf(conv, maxTokens, est), est);
        BehindHead(conv, Recovered(body, BudgetOf(conv, maxTokens, est), est));
      }
    }
  }

  lemma BehindHead(conv: seq<Item>, kept: seq<Item>)
    requires PairedFrom({}, kept)
    ensures PairedFrom({}, HeadOf(conv) + kept)
  {
    PairedFromConcat({}, HeadOf(conv), kept);
  }
}
