/** Rebuilding the history around a summary: what is kept, that it stays paired, and that it is a fixpoint. */
module CompactedHistory {
  import opened Text
  import opened Sequences
  import opened Machine
  import opened Conversation
  import opened ToolPairing
  import opened UserQuery

  datatype StateContext = StateContext(recent: seq<Item>, lastQuery: Option<string>)

  /** What surrounds the recent messages. `summaryText` is the cleaned summary with its preamble and hint. */
  datatype HistoryInput = HistoryInput(
    systemPrompt: string, prefix: string, agentsMd: Option<string>, summaryText: string, reminder: Option<string>)

  const OMITTED := "Tool call omitted..."

  // ----- reading the state off a conversation

  /** Index of the last item that satisfies `p`. */
  function LastIndex(conv: seq<Item>, p: Item -> bool): (r: Option<nat>)
    ensures r.Some? ==> r.value < |conv| && p(conv[r.value])
    ensures r.Some? ==> forall i :: r.value < i < |conv| ==> !p(conv[i])
    ensures r.None? ==> forall i :: 0 <= i < |conv| ==> !p(conv[i])
  {
    if conv == [] then None
    else if p(conv[|conv| - 1]) then Some(|conv| - 1)
    else LastIndex(conv[..|conv| - 1], p)
  }

  function TailStart(conv: seq<Item>, p: Item -> bool): (n: nat)
    ensures n <= |conv|
  {
    match LastIndex(conv, p)
    case Some(i) => i + 1
    case None => 0
  }

  function Omitted(result: Item): (r: Item)
    requires result.ToolResult?
    ensures r.ToolResult? && r.callId == result.callId
  {
    ToolResult(result.callId, OMITTED, [])
  }

  /** Assistant items and results with their output replaced; everything else is dropped. */
  function Project(items: seq<Item>): seq<Item> {
    if items == [] then []
    else if items[0].Assistant? then [items[0]] + Project(items[1..])
    else if items[0].ToolResult? then [Omitted(items[0])] + Project(items[1..])
    else Project(items[1..])
  }

  /** The projection of what follows the last item that `p` takes for a real turn. */
  function MessagesSince(conv: seq<Item>, p: Item -> bool): seq<Item> {
    Project(conv[TailStart(conv, p)..])
  }

  function RecentMessages(conv: seq<Item>): seq<Item> {
    MessagesSince(conv, IsRealUserTurn)
  }

  /** What the last item that `p` takes for a real turn says, read by `f`. */
  function LastRead(conv: seq<Item>, p: Item -> bool, f: Item -> string): Option<string> {
    match LastIndex(conv, p)
    case Some(i) => Some(f(conv[i]))
    case None => None
  }

  function LastRealUserQuery(conv: seq<Item>): (q: Option<string>)
    ensures q.Some? ==> Trimmed(q.value)
  {
    LastRead(conv, IsRealUserTurn, QueryOf)
  }

  function BuildContext(conv: seq<Item>): StateContext {
    StateContext(RecentMessages(conv), LastRealUserQuery(conv))
  }

  // ----- what is read, by position

  /** `start` is where the last turn that `p` takes for real ends. */
  ghost predicate EndsLastTurn(conv: seq<Item>, p: Item -> bool, start: nat) {
    start <= |conv| && (start > 0 ==> p(conv[start - 1])) && forall i :: start <= i < |conv| ==> !p(conv[i])
  }

  ghost function IsMessage(conv: seq<Item>): nat -> bool {
    (i: nat) => i < |conv| && (conv[i].Assistant? || conv[i].ToolResult?)
  }

  /** Assistant items stay as they are; of results the id stays, and a placeholder stands for their output. */
  predicate Shown(item: Item, out: Item) {
    if item.Assistant? then out == item
    else item.ToolResult? && out == ToolResult(item.callId, "Tool call omitted...", [])
  }

  lemma {:induction false} ProjectPicks(conv: seq<Item>, i: nat)
    requires i <= |conv|
    ensures Picks(Project(conv[i..]), conv, i, IsMessage(conv), Shown)
    decreases |conv| - i
  {
    if i < |conv| {
      CutOne(conv, i);
      ProjectPicks(conv, i + 1);
      var rest := Project(conv[i + 1..]);
      Cons(conv[i], rest);
      if conv[i].ToolResult? {
        Cons(Omitted(conv[i]), rest);
      }
      PicksMore(Project(conv[i..]), conv, i, IsMessage(conv), Shown);
    }
  }

  lemma SinceIs(conv: seq<Item>, p: Item -> bool, f: Item -> string)
    ensures var start := TailStart(conv, p);
      && EndsLastTurn(conv, p, start) && Picks(MessagesSince(conv, p), conv, start, IsMessage(conv), Shown)
      && LastRead(conv, p, f) == if start > 0 then Some(f(conv[start - 1])) else None
  {
    ProjectPicks(conv, TailStart(conv, p));
  }

  /** The recent messages are exactly the assistant items and results behind the last real turn, in their order, and the
      query is what that turn says. */
  lemma ContextIs(conv: seq<Item>) returns (start: nat)
    ensures EndsLastTurn(conv, IsRealUserTurn, start)
    ensures Picks(BuildContext(conv).recent, conv, start, IsMessage(conv), Shown)
    ensures BuildContext(conv).lastQuery == if start > 0 then Some(QueryOf(conv[start - 1])) else None
  {
    start := TailStart(conv, IsRealUserTurn);
    SinceIs(conv, IsRealUserTurn, QueryOf);
  }

  // ----- writing the compacted history

  function Synthesized(text: string, reason: SyntheticReason): Item { User([TextPart(text)], Some(reason)) }

  function TypedQuery(q: string): Item { User([TextPart(WrapUserQuery(q))], None) }

  /** What stands before the recent messages, without the query. */
  function Head(input: HistoryInput): seq<Item> {
    [System(input.systemPrompt), Synthesized(input.prefix, CompactionMeta)]
    + (match input.agentsMd
       case Some(text) => [Synthesized(text, ProjectInstructions)]
       case None => [])
  }

  function QueryItems(q: Option<string>): seq<Item> {
    match q
    case Some(text) => [TypedQuery(text)]
    case None => []
  }

  function Tail(input: HistoryInput): seq<Item> {
    [Synthesized(input.summaryText, CompactionMeta)]
    + (match input.reminder
       case Some(text) => [Synthesized(text, SystemReminder)]
       case None => [])
  }

  function BuildCompactedHistory(context: StateContext, input: HistoryInput): seq<Item> {
    Head(input) + QueryItems(context.lastQuery) + (context.recent + Tail(input))
  }

  function Compact(conv: seq<Item>, input: HistoryInput): seq<Item> {
    BuildCompactedHistory(BuildContext(conv), input)
  }

  /** Any number of compactions, each with its own summary and reminders. */
  function CompactAll(conv: seq<Item>, inputs: seq<HistoryInput>): seq<Item>
    decreases |inputs|
  {
    if inputs == [] then conv else CompactAll(Compact(conv, inputs[0]), inputs[1..])
  }

  /** The query can be read back from a compacted history. */
  predicate Survives(q: string) {
    !IsSyntheticQuery(q) && Find(q, QUERY_END).None? && BlockFree(q, SYSTEM_TAGS)
  }

  // ----- fixpoint

  /** A classification under which only user items without a synthetic reason are real turns. */
  ghost predicate Classifies(p: Item -> bool) {
    forall x: Item :: p(x) ==> x.User? && x.reason.None?
  }

  /** Items that a later compaction neither keeps nor takes for a real turn. */
  predicate Inert(items: seq<Item>) {
    forall i :: 0 <= i < |items| ==>
      && !items[i].Assistant? && !items[i].ToolResult? && (items[i].User? ==> items[i].reason.Some?)
  }

  predicate NoCallsOrResults(items: seq<Item>) {
    forall i :: 0 <= i < |items| ==> !items[i].Assistant? && !items[i].ToolResult?
  }

  predicate IsProjected(items: seq<Item>) {
    forall i :: 0 <= i < |items| ==>
      items[i].Assistant? || (items[i].ToolResult? && items[i] == Omitted(items[i]))
  }

  lemma {:induction false} ProjectIsProjected(items: seq<Item>)
    ensures IsProjected(Project(items))
  {
    if items != [] {
      ProjectIsProjected(items[1..]);
      if items[0].Assistant? {
        Cons(items[0], Project(items[1..]));
      } else if items[0].ToolResult? {
        Cons(Omitted(items[0]), Project(items[1..]));
      }
    }
  }

  lemma {:induction false} ProjectKeepsProjected(items: seq<Item>)
    requires IsProjected(items)
    ensures Project(items) == items
  {
    if items != [] {
      ProjectKeepsProjected(items[1..]);
      assert items == [items[0]] + items[1..];
    }
  }

  lemma {:induction false} ProjectDropsOthers(items: seq<Item>)
    requires NoCallsOrResults(items)
    ensures Project(items) == []
  {
    if items != [] {
      ProjectDropsOthers(items[1..]);
    }
  }

  lemma {:induction false} ProjectConcat(a: seq<Item>, b: seq<Item>)
    ensures Project(a + b) == Project(a) + Project(b)
  {
    if a == [] {
      assert a + b == b;
    } else {
      ConsFront(a, b);
      ProjectConcat(a[1..], b);
      Assoc([a[0]], Project(a[1..]), Project(b));
      if a[0].ToolResult? {
        Assoc([Omitted(a[0])], Project(a[1..]), Project(b));
      }
    }
  }

  lemma FrameIsInert(context: StateContext, input: HistoryInput)
    ensures Inert(Head(input)) && Inert(Tail(input))
    ensures NoCallsOrResults(Head(input) + QueryItems(context.lastQuery)) && NoCallsOrResults(Tail(input))
  {
  }

  lemma LastIndexIs(conv: seq<Item>, p: Item -> bool, k: nat)
    requires k < |conv| && p(conv[k])
    requires forall i :: k < i < |conv| ==> !p(conv[i])
    ensures LastIndex(conv, p) == Some(k)
  {
    var r := LastIndex(conv, p);
    assert r.Some?;
  }

  /** In a list built as inert items, one item, and items that are not real, the cut is at that one item or nowhere. */
  lemma CutAt(a: seq<Item>, x: seq<Item>, b: seq<Item>, p: Item -> bool)
    requires Classifies(p) && |x| <= 1 && Inert(a) && forall i :: 0 <= i < |b| ==> !p(b[i])
    ensures LastIndex(a + x + b, p) == if x != [] && p(x[0]) then Some(|a|) else None
  {
    assert forall i :: 0 <= i < |a| ==> !p(a[i]);
    NothingBehind(a + x, b, p);
    if x == [] {
      assert a + x == a;
    } else {
      assert a + x == a + [x[0]] && (a + [x[0]])[..|a|] == a;
    }
  }

  lemma {:induction false} NothingBehind(a: seq<Item>, b: seq<Item>, p: Item -> bool)
    requires forall i :: 0 <= i < |b| ==> !p(b[i])
    ensures LastIndex(a + b, p) == LastIndex(a, p)
  {
    if b == [] {
      assert a + b == a;
    } else {
      var n := |b| - 1;
      NothingBehind(a, b[..n], p);
      assert (a + b)[..|a| + n] == a + b[..n] && (a + b)[|a| + n] == b[n];
    }
  }

  lemma NoRealBehind(context: StateContext, input: HistoryInput, p: Item -> bool)
    requires Classifies(p) && IsProjected(context.recent)
    ensures forall i :: 0 <= i < |context.recent + Tail(input)| ==> !p((context.recent + Tail(input))[i])
  {
    FrameIsInert(context, input);
    var b := context.recent + Tail(input);
    assert forall i :: 0 <= i < |b| ==>
      b[i] == if i < |context.recent| then context.recent[i] else Tail(input)[i - |context.recent|];
  }

  /** Where the next compaction cuts a compacted history: at the query, if it reads as a real turn. */
  lemma CompactedCut(context: StateContext, input: HistoryInput, p: Item -> bool)
    requires Classifies(p) && IsProjected(context.recent)
    ensures LastIndex(BuildCompactedHistory(context, input), p)
      == if context.lastQuery.Some? && p(TypedQuery(context.lastQuery.value)) then Some(|Head(input)|) else None
  {
    FrameIsInert(context, input);
    NoRealBehind(context, input, p);
    CutAt(Head(input), QueryItems(context.lastQuery), context.recent + Tail(input), p);
  }

  /** Recent messages are a fixpoint of compaction, without any condition and under any classification. */
  lemma RecentIsFixed(context: StateContext, input: HistoryInput, p: Item -> bool)
    requires Classifies(p) && IsProjected(context.recent)
    ensures MessagesSince(BuildCompactedHistory(context, input), p) == context.recent
  {
    var h := BuildCompactedHistory(context, input);
    CompactedCut(context, input, p);
    var front, back := Head(input) + QueryItems(context.lastQuery), context.recent + Tail(input);
    FrameIsInert(context, input);
    ProjectDropsOthers(front);
    ProjectDropsOthers(Tail(input));
    ProjectKeepsProjected(context.recent);
    ProjectConcat(context.recent, Tail(input));
    ProjectConcat(front, back);
    if LastIndex(h, p).Some? {
      assert h[|front|..] == back;
    } else {
      assert h[0..] == h;
    }
  }

  /** What a user item says, and why it was made up if it was. */
  type Turn = (string, Option<SyntheticReason>)

  function TurnOf(item: Item): Turn
    requires item.User?
  {
    (JoinText(item.parts), item.reason)
  }

  /** The user turns, in order. */
  function UserTurns(items: seq<Item>): seq<Turn> {
    if items == [] then []
    else if items[0].User? then [TurnOf(items[0])] + UserTurns(items[1..])
    else UserTurns(items[1..])
  }

  function Optional(text: Option<string>, reason: SyntheticReason): seq<Turn> {
    match text
    case Some(t) => [(t, Some(reason))]
    case None => []
  }

  lemma {:induction false} UserTurnsConcat(a: seq<Item>, b: seq<Item>)
    ensures UserTurns(a + b) == UserTurns(a) + UserTurns(b)
  {
    if a == [] {
      assert a + b == b;
    } else {
      ConsFront(a, b);
      UserTurnsConcat(a[1..], b);
      if a[0].User? {
        Assoc([TurnOf(a[0])], UserTurns(a[1..]), UserTurns(b));
      }
    }
  }

  lemma {:induction false} ProjectedHasNoTexts(items: seq<Item>)
    requires IsProjected(items)
    ensures UserTurns(items) == []
  {
    if items != [] {
      ProjectedHasNoTexts(items[1..]);
    }
  }

  lemma OneText(x: Item, text: string)
    requires x.User? && x.parts == [TextPart(text)]
    ensures UserTurns([x]) == [(text, x.reason)]
  {
    assert [x][1..] == [];
  }

  lemma FrameTexts(context: StateContext, input: HistoryInput)
    ensures UserTurns(Head(input))
      == [(input.prefix, Some(CompactionMeta))] + Optional(input.agentsMd, ProjectInstructions)
    ensures UserTurns(QueryItems(context.lastQuery)) == QueryTurns(context.lastQuery)
    ensures UserTurns(Tail(input))
      == [(input.summaryText, Some(CompactionMeta))] + Optional(input.reminder, SystemReminder)
  {
    var sys, meta := System(input.systemPrompt), Synthesized(input.prefix, CompactionMeta);
    OneText(meta, input.prefix);
    UserTurnsConcat([sys], [meta]);
    assert [sys] + [meta] == [sys, meta] && [sys][1..] == [];
    match input.agentsMd {
      case Some(text) =>
        OneText(Synthesized(text, ProjectInstructions), text);
        UserTurnsConcat([sys, meta], [Synthesized(text, ProjectInstructions)]);
      case None =>
    }
    if context.lastQuery.Some? {
      OneText(TypedQuery(context.lastQuery.value), WrapUserQuery(context.lastQuery.value));
    }
    OneText(Synthesized(input.summaryText, CompactionMeta), input.summaryText);
    match input.reminder {
      case Some(text) =>
        OneText(Synthesized(text, SystemReminder), text);
        UserTurnsConcat([Synthesized(input.summaryText, CompactionMeta)], [Synthesized(text, SystemReminder)]);
      case None =>
    }
  }

  /** What the model reads in `h`: the system prompt; the texts of `input` in their order, each marked as made up for
      its reason; behind the first of them the query, if there is one, and exactly the calls and results `recent`; and
      nothing else. */
  ghost predicate Presents(h: seq<Item>, input: HistoryInput, q: Option<string>, recent: seq<Item>) {
    var cut := |h| - |Tail(input)|;
    && 0 < cut && |h| <= |recent| + 6
    && h[0] == System(input.systemPrompt)
    && UserTurns(h[..cut])
       == [(input.prefix, Some(CompactionMeta))] + Optional(input.agentsMd, ProjectInstructions) + QueryTurns(q)
    && UserTurns(h[cut..]) == [(input.summaryText, Some(CompactionMeta))] + Optional(input.reminder, SystemReminder)
    && Project(h[..cut]) == recent
  }

  function QueryTurns(q: Option<string>): seq<Turn> {
    if q.Some? then [(WrapUserQuery(q.value), None)] else []
  }

  lemma BuiltPresents(context: StateContext, input: HistoryInput)
    requires IsProjected(context.recent)
    ensures Presents(BuildCompactedHistory(context, input), input, context.lastQuery, context.recent)
  {
    var front := Head(input) + QueryItems(context.lastQuery);
    var h := BuildCompactedHistory(context, input);
    Assoc(front, context.recent, Tail(input));
    assert h[..|h| - |Tail(input)|] == front + context.recent && h[|h| - |Tail(input)|..] == Tail(input);
    FrameTexts(context, input);
    UserTurnsConcat(Head(input), QueryItems(context.lastQuery));
    UserTurnsConcat(front, context.recent);
    ProjectedHasNoTexts(context.recent);
    FrameIsInert(context, input);
    ProjectDropsOthers(front);
    ProjectKeepsProjected(context.recent);
    ProjectConcat(front, context.recent);
  }

  lemma RealTurnsClassify()
    ensures Classifies(IsRealUserTurn)
  {
  }

  lemma TypedQueryReads(q: string)
    ensures QueryOf(TypedQuery(q)) == ExtractUserQuery(WrapUserQuery(q))
    ensures IsRealUserTurn(TypedQuery(q)) <==> !IsSyntheticQuery(ExtractUserQuery(WrapUserQuery(q)))
  {
    assert JoinText(TypedQuery(q).parts) == WrapUserQuery(q);
  }

  /** What the next compaction reads as the query. */
  lemma QueryAfter(context: StateContext, input: HistoryInput)
    requires IsProjected(context.recent)
    ensures LastRealUserQuery(BuildCompactedHistory(context, input))
      == if context.lastQuery.Some? && !IsSyntheticQuery(ExtractUserQuery(WrapUserQuery(context.lastQuery.value)))
         then Some(ExtractUserQuery(WrapUserQuery(context.lastQuery.value))) else None
  {
    var h := BuildCompactedHistory(context, input);
    RealTurnsClassify();
    CompactedCut(context, input, IsRealUserTurn);
    if context.lastQuery.Some? {
      TypedQueryReads(context.lastQuery.value);
      assert h[|Head(input)|] == TypedQuery(context.lastQuery.value);
    }
  }

  /** The query that a compaction hands on, whatever surrounds it. */
  function NextQuery(q: Option<string>): Option<string> {
    match q
    case None => None
    case Some(text) =>
      var e := ExtractUserQuery(WrapUserQuery(text));
      if IsSyntheticQuery(e) then None else Some(e)
  }

  lemma CompactOnce(conv: seq<Item>, input: HistoryInput)
    ensures RecentMessages(Compact(conv, input)) == RecentMessages(conv)
    ensures LastRealUserQuery(Compact(conv, input)) == NextQuery(LastRealUserQuery(conv))
  {
    var context := BuildContext(conv);
    ProjectIsProjected(conv[TailStart(conv, IsRealUserTurn)..]);
    RealTurnsClassify();
    RecentIsFixed(context, input, IsRealUserTurn);
    QueryAfter(context, input);
  }

  predicate Kept(q: Option<string>) { q.Some? ==> Survives(q.value) }

  /** A query is handed on unchanged exactly if it survives, else it is lost or gets shorter. */
  lemma NextQueryIs(q: Option<string>)
    requires q.Some? ==> Trimmed(q.value)
    ensures NextQuery(q) == q <==> Kept(q)
    ensures NextQuery(q) == q || NextQuery(q).None? || 0 < |NextQuery(q).value| < |q.value|
  {
    if q.Some? {
      UnwrapIsInverse(q.value);
      UnwrapShrinks(q.value);
    }
  }

  /** One compaction: the next one would see the same recent messages, and the same query exactly if it survives. */
  lemma CompactionIsFixpoint(conv: seq<Item>, input: HistoryInput)
    ensures RecentMessages(Compact(conv, input)) == RecentMessages(conv)
    ensures LastRealUserQuery(Compact(conv, input)) == LastRealUserQuery(conv) <==> Kept(LastRealUserQuery(conv))
  {
    CompactOnce(conv, input);
    NextQueryIs(LastRealUserQuery(conv));
  }

  /** Any number of compactions keep the recent messages; they keep the query exactly if it survives the first one.
      What gets lost or shorter never comes back. */
  lemma {:induction false} CompactionsLoseNoMore(conv: seq<Item>, inputs: seq<HistoryInput>)
    ensures RecentMessages(CompactAll(conv, inputs)) == RecentMessages(conv)
    ensures inputs != [] ==>
      (LastRealUserQuery(CompactAll(conv, inputs)) == LastRealUserQuery(conv) <==> Kept(LastRealUserQuery(conv)))
    ensures QueryRank(LastRealUserQuery(CompactAll(conv, inputs))) <= QueryRank(LastRealUserQuery(conv))
    decreases |inputs|
  {
    if inputs != [] {
      CompactOnce(conv, inputs[0]);
      NextQueryIs(LastRealUserQuery(conv));
      CompactionsLoseNoMore(Compact(conv, inputs[0]), inputs[1..]);
    }
  }

  /** How many compactions a query can take before it stays as it is. */
  function QueryRank(q: Option<string>): nat {
    if q.None? then 0 else Max(1, |q.value|)
  }

  lemma RankFalls(q: Option<string>)
    requires (q.Some? ==> Trimmed(q.value)) && !Kept(q)
    ensures QueryRank(NextQuery(q)) < QueryRank(q)
  {
    NextQueryIs(q);
  }

  lemma KeptStays(conv: seq<Item>, inputs: seq<HistoryInput>)
    requires Kept(LastRealUserQuery(conv))
    ensures Kept(LastRealUserQuery(CompactAll(conv, inputs)))
  {
    CompactionsLoseNoMore(conv, inputs);
  }

  /** The query settles: after as many compactions as it has characters, no further one changes it. */
  lemma {:induction false} QuerySettles(conv: seq<Item>, inputs: seq<HistoryInput>, input: HistoryInput)
    requires |inputs| >= QueryRank(LastRealUserQuery(conv))
    ensures var settled := CompactAll(conv, inputs);
      LastRealUserQuery(Compact(settled, input)) == LastRealUserQuery(settled)
    decreases |inputs|
  {
    if Kept(LastRealUserQuery(conv)) {
      KeptStays(conv, inputs);
      CompactionIsFixpoint(CompactAll(conv, inputs), input);
    } else {
      RankFalls(LastRealUserQuery(conv));
      CompactOnce(conv, inputs[0]);
      QuerySettles(Compact(conv, inputs[0]), inputs[1..], input);
    }
  }

  /** Nothing accumulates: once the query survives, a history compacted any number of times is what one compaction of
      the original conversation with the last input gives. */
  lemma {:induction false} OnlyLastInputMatters(conv: seq<Item>, inputs: seq<HistoryInput>)
    requires inputs != [] && Kept(LastRealUserQuery(conv))
    ensures CompactAll(conv, inputs) == Compact(conv, inputs[|inputs| - 1])
    decreases |inputs|
  {
    if |inputs| > 1 {
      CompactionIsFixpoint(conv, inputs[0]);
      OnlyLastInputMatters(Compact(conv, inputs[0]), inputs[1..]);
    }
  }

  lemma {:induction false} CompactLast(conv: seq<Item>, inputs: seq<HistoryInput>)
    requires inputs != []
    ensures var n := |inputs| - 1; CompactAll(conv, inputs) == Compact(CompactAll(conv, inputs[..n]), inputs[n])
    decreases |inputs|
  {
    var n := |inputs| - 1;
    if n > 0 {
      CompactLast(Compact(conv, inputs[0]), inputs[1..]);
      assert inputs[1..][..n - 1] == inputs[..n][1..] && inputs[1..][n - 1] == inputs[n];
    }
  }

  /** After any number of compactions the model reads the texts of the last input, at most one query, no text of an
      earlier input, and exactly the calls and results of the original conversation. So the history does not grow. */
  lemma CompactedTexts(conv: seq<Item>, inputs: seq<HistoryInput>)
    requires inputs != []
    ensures var n := |inputs| - 1;
      var q := LastRealUserQuery(CompactAll(conv, inputs[..n]));
      Presents(CompactAll(conv, inputs), inputs[n], q, RecentMessages(conv))
  {
    var n := |inputs| - 1;
    var before := CompactAll(conv, inputs[..n]);
    CompactLast(conv, inputs);
    CompactionsLoseNoMore(conv, inputs[..n]);
    CompactPresents(before, inputs[n]);
  }

  lemma CompactPresents(conv: seq<Item>, input: HistoryInput)
    ensures Presents(Compact(conv, input), input, LastRealUserQuery(conv), RecentMessages(conv))
  {
    ProjectIsProjected(conv[TailStart(conv, IsRealUserTurn)..]);
    BuiltPresents(BuildContext(conv), input);
  }

  /** An image-only turn is a real turn whose empty query is lost. */
  lemma ImageOnlyQueryIsLost(url: string, input: HistoryInput)
    ensures var conv := [User([ImagePart(url)], None)];
      LastRealUserQuery(conv) == Some("") && LastRealUserQuery(Compact(conv, input)) == None
  {
    var item := User([ImagePart(url)], None);
    var conv := [item];
    assert item.parts[0].ImagePart? && IsRealUserTurn(item);
    LastIndexIs(conv, IsRealUserTurn, 0);
    EmptyExtracts(item.parts);
    ProjectIsProjected(conv[TailStart(conv, IsRealUserTurn)..]);
    QueryAfter(BuildContext(conv), input);
    UnwrapEmpty();
  }

  lemma EmptyExtracts(parts: seq<ContentPart>)
    requires |parts| == 1 && parts[0].ImagePart?
    ensures ExtractUserQuery(JoinText(parts)) == ""
  {
    assert JoinText(parts[1..]) == "";
    assert Find("", QUERY).None?;
  }

  lemma UnwrapEmpty()
    ensures ExtractUserQuery(WrapUserQuery("")) == ""
  {
    var inner := ExtractWrapped("");
    assert |StripSystemTags(inner)| <= |inner|;
    assert !Contains("", QUERY_END);
  }

  // ----- pairing

  lemma {:induction false} ProjectPaired(r1: set<string>, r2: set<string>, items: seq<Item>)
    requires r1 <= r2 && PairedFrom(r1, items)
    ensures PairedFrom(r2, Project(items))
    decreases |items|
  {
    if items != [] {
      var x, rest := items[0], items[1..];
      if x.Assistant? {
        Cons(x, Project(rest));
        ProjectPaired(NextRun(r1, x), NextRun(r2, x), rest);
      } else if x.ToolResult? {
        Cons(Omitted(x), Project(rest));
        ProjectPaired(r1, r2, rest);
      } else {
        ProjectPaired({}, r2, rest);
      }
    }
  }

  lemma {:induction false} InertIsPaired(run: set<string>, items: seq<Item>)
    requires NoCallsOrResults(items)
    ensures PairedFrom(run, items) && RunAfter(run, items) == (if items == [] then run else {})
    decreases |items|
  {
    if items != [] {
      InertIsPaired({}, items[1..]);
    }
  }

  /** Cutting at the last real turn and dropping everything but calls and results keeps a paired list paired. */
  lemma RecentIsPaired(conv: seq<Item>, p: Item -> bool)
    requires Classifies(p) && PairedFrom({}, conv)
    ensures PairedFrom({}, MessagesSince(conv, p))
  {
    var n := TailStart(conv, p);
    Halves(conv, n);
    PairedFromConcat({}, conv[..n], conv[n..]);
    if n > 0 {
      CutOne(conv, n - 1);
      RunAfterConcat({}, conv[..n - 1], [conv[n - 1]]);
      assert RunAfter({}, conv[..n]) == {};
    }
    ProjectPaired({}, {}, conv[n..]);
  }

  lemma FramePaired(context: StateContext, input: HistoryInput)
    requires PairedFrom({}, context.recent)
    ensures PairedFrom({}, BuildCompactedHistory(context, input))
  {
    var front, tail := Head(input) + QueryItems(context.lastQuery), Tail(input);
    FrameIsInert(context, input);
    InertIsPaired({}, front);
    InertIsPaired(RunAfter({}, context.recent), tail);
    PairedFromConcat({}, context.recent, tail);
    PairedFromConcat({}, front, context.recent + tail);
  }

  /** The compacted history of a paired conversation is paired, so it validates and sanitizing it is a no-op. */
  lemma CompactedIsPaired(conv: seq<Item>, input: HistoryInput)
    requires Paired(conv)
    ensures var h := Compact(conv, input);
      Paired(h) && OrphanIds({}, h) == [] && SanitizeFrom({}, h) == h && StripFrom({}, h) == h
  {
    var h := Compact(conv, input);
    RealTurnsClassify();
    PairedIsPairedFrom(conv);
    RecentIsPaired(conv, IsRealUserTurn);
    FramePaired(BuildContext(conv), input);
    PairedIsPairedFrom(h);
    PairedHasNoOrphans({}, {}, h);
    SanitizeCleans({}, h);
    StripChangesNothing({}, h);
  }

  /** Every result answers a call from which no real user turn separates it; synthetic turns may. */
  ghost predicate AnsweredWithinTurn(conv: seq<Item>, p: Item -> bool) {
    forall i: nat :: i < |conv| && conv[i].ToolResult? ==> exists a: nat :: AnswersCall(conv, p, a, i)
  }

  ghost predicate AnswersCall(conv: seq<Item>, p: Item -> bool, a: nat, i: nat) {
    && a < i < |conv| && conv[a].Assistant? && conv[i].ToolResult? && conv[i].callId in Ids(conv[a].calls)
    && forall k :: a < k < i ==> !p(conv[k])
  }

  /** Pairs that span injected user items are not torn apart: such a history still validates. */
  lemma SpanningPairsSurvive(conv: seq<Item>, input: HistoryInput)
    requires AnsweredWithinTurn(conv, IsRealUserTurn)
    ensures OrphanIds({}, Compact(conv, input)) == []
  {
    var tail := conv[TailStart(conv, IsRealUserTurn)..];
    RealTurnsClassify();
    TailIsAnswering(conv, IsRealUserTurn);
    OrphansDecideAnswering(tail, 0, {});
    assert tail[0..] == tail;
    ProjectKeepsAnswers({}, tail);
    FrameKeepsAnswers(BuildContext(conv), input);
  }

  lemma TailIsAnswering(conv: seq<Item>, p: Item -> bool)
    requires Classifies(p) && AnsweredWithinTurn(conv, p)
    ensures Answering(conv[TailStart(conv, p)..])
  {
    var n := TailStart(conv, p);
    var tail := conv[n..];
    forall i | 0 <= i < |tail| && tail[i].ToolResult?
      ensures DeclaredBefore(tail, i, tail[i].callId)
    {
      assert tail[i] == conv[n + i];
      var a: nat :| AnswersCall(conv, p, a, n + i);
      assert n > 0 ==> p(conv[n - 1]) && conv[n - 1].User?;
      assert n <= a;
      assert tail[a - n] == conv[a];
    }
  }

  lemma {:induction false} ProjectKeepsAnswers(seen: set<string>, items: seq<Item>)
    requires OrphanIds(seen, items) == []
    ensures OrphanIds(seen, Project(items)) == []
    decreases |items|
  {
    if items != [] {
      var x, rest := items[0], items[1..];
      ProjectKeepsAnswers(Seen(seen, x), rest);
      if x.Assistant? {
        Cons(x, Project(rest));
      } else if x.ToolResult? {
        Cons(Omitted(x), Project(rest));
      }
    }
  }

  /** Items without calls and results add no orphans in front of a list. */
  lemma {:induction false} OrphansBehind(seen: set<string>, front: seq<Item>, items: seq<Item>)
    requires NoCallsOrResults(front)
    ensures OrphanIds(seen, front + items) == OrphanIds(seen, items)
    decreases |front|
  {
    if front == [] {
      assert front + items == items;
    } else {
      ConsFront(front, items);
      OrphansBehind(seen, front[1..], items);
    }
  }

  lemma {:induction false} OrphansBefore(seen: set<string>, items: seq<Item>, back: seq<Item>)
    requires NoCallsOrResults(back)
    ensures OrphanIds(seen, items + back) == OrphanIds(seen, items)
    decreases |items|
  {
    if items == [] {
      assert items + back == back + [];
      OrphansBehind(seen, back, []);
    } else {
      ConsFront(items, back);
      OrphansBefore(Seen(seen, items[0]), items[1..], back);
      OrphansBefore(seen, items[1..], back);
    }
  }

  lemma FrameKeepsAnswers(context: StateContext, input: HistoryInput)
    ensures OrphanIds({}, BuildCompactedHistory(context, input)) == OrphanIds({}, context.recent)
  {
    FrameIsInert(context, input);
    OrphansBehind({}, Head(input) + QueryItems(context.lastQuery), context.recent + Tail(input));
    OrphansBefore({}, context.recent, Tail(input));
  }
}
