/** The items of a conversation, and what it means for tool results to be paired with their calls. */
module Conversation {
  import opened Text
  import opened Sequences

  datatype ContentPart = TextPart(text: string) | ImagePart(url: string)

  datatype SyntheticReason = CompactionMeta | SystemReminder | ProjectInstructions | OtherReason(tag: string)

  datatype ToolCall = ToolCall(id: string, name: string, arguments: string)

  datatype Item =
    | System(prompt: string)
    | User(parts: seq<ContentPart>, reason: Option<SyntheticReason>)
    | Assistant(answer: string, calls: seq<ToolCall>)
    | ToolResult(callId: string, output: string, images: seq<ContentPart>)
    | BackendToolCall(summary: string)
    | Reasoning(thought: string)

  /** The ids that an assistant item declares. */
  function Ids(calls: seq<ToolCall>): (ids: set<string>)
    ensures forall i :: 0 <= i < |calls| ==> calls[i].id in ids
    ensures forall id :: id in ids ==> exists i :: 0 <= i < |calls| && calls[i].id == id
  {
    set i | 0 <= i < |calls| :: calls[i].id
  }

  predicate AllResults(items: seq<Item>) {
    forall i :: 0 <= i < |items| ==> items[i].ToolResult?
  }

  predicate StartsWithResult(items: seq<Item>) {
    items != [] && items[0].ToolResult?
  }

  /** The conversation without its tool results. */
  function WithoutResults(items: seq<Item>): seq<Item> {
    if items == [] then []
    else if items[0].ToolResult? then WithoutResults(items[1..])
    else [items[0]] + WithoutResults(items[1..])
  }

  lemma {:induction false} WithoutResultsConcat(a: seq<Item>, b: seq<Item>)
    ensures WithoutResults(a + b) == WithoutResults(a) + WithoutResults(b)
  {
    if a == [] {
      assert a + b == b;
    } else {
      WithoutResultsConcat(a[1..], b);
      ConsFront(a, b);
      Assoc([a[0]], WithoutResults(a[1..]), WithoutResults(b));
    }
  }

  lemma {:induction false} WithoutResultsOfRun(run: seq<Item>)
    requires AllResults(run)
    ensures WithoutResults(run) == []
  {
    if run != [] {
      WithoutResultsOfRun(run[1..]);
    }
  }

  // ----- pairing, as providers state it

  /** Only results stand between the assistant item `a` and position `i`. */
  ghost predicate Owns(items: seq<Item>, a: nat, i: nat) {
    a < i <= |items| && items[a].Assistant? && forall k :: a < k < i ==> items[k].ToolResult?
  }

  /** Every result lies in the unbroken run behind an assistant item that declares its id. */
  ghost predicate Paired(items: seq<Item>) {
    forall i :: 0 <= i < |items| && items[i].ToolResult? ==>
      exists a: nat :: Owns(items, a, i) && items[i].callId in Ids(items[a].calls)
  }

  // ----- pairing, as a scan with the ids that the current run may answer

  function NextRun(run: set<string>, item: Item): set<string> {
    match item
    case Assistant(_, calls) => Ids(calls)
    case ToolResult(_, _, _) => run
    case _ => {}
  }

  predicate PairedFrom(run: set<string>, items: seq<Item>)
    decreases |items|
  {
    items == [] ||
    ((items[0].ToolResult? ==> items[0].callId in run) && PairedFrom(NextRun(run, items[0]), items[1..]))
  }

  /** The ids that results behind `items` may answer. */
  function RunAfter(run: set<string>, items: seq<Item>): set<string>
    decreases |items|
  {
    if items == [] then run else RunAfter(NextRun(run, items[0]), items[1..])
  }

  lemma {:induction false} PairedFromConcat(run: set<string>, a: seq<Item>, b: seq<Item>)
    ensures PairedFrom(run, a + b) <==> PairedFrom(run, a) && PairedFrom(RunAfter(run, a), b)
    decreases |a|
  {
    if a == [] {
      assert a + b == b;
    } else {
      assert (a + b)[1..] == a[1..] + b;
      PairedFromConcat(NextRun(run, a[0]), a[1..], b);
    }
  }

  lemma {:induction false} RunAfterConcat(run: set<string>, a: seq<Item>, b: seq<Item>)
    ensures RunAfter(run, a + b) == RunAfter(RunAfter(run, a), b)
    decreases |a|
  {
    if a == [] {
      assert a + b == b;
    } else {
      assert (a + b)[1..] == a[1..] + b;
      RunAfterConcat(NextRun(run, a[0]), a[1..], b);
    }
  }

  lemma {:induction false} RunAfterResults(run: set<string>, results: seq<Item>)
    requires AllResults(results)
    ensures RunAfter(run, results) == run
  {
    if results != [] {
      RunAfterResults(run, results[1..]);
    }
  }

  /** A list that does not start with a result does not care which run precedes it. */
  lemma PairedFromFresh(r1: set<string>, r2: set<string>, items: seq<Item>)
    requires !StartsWithResult(items)
    ensures PairedFrom(r1, items) <==> PairedFrom(r2, items)
  {
  }

  /** The scan's permitted ids before item `i` are those of the assistant item owning the run, if there is one. */
  lemma {:induction false} RunAfterIs(items: seq<Item>, i: nat, id: string)
    requires i <= |items|
    ensures id in RunAfter({}, items[..i]) <==> exists a: nat :: Owns(items, a, i) && id in Ids(items[a].calls)
  {
    if i > 0 {
      var last := items[i - 1];
      assert items[..i] == items[..i - 1] + [last];
      RunAfterConcat({}, items[..i - 1], [last]);
      assert RunAfter({}, items[..i]) == NextRun(RunAfter({}, items[..i - 1]), last);
      RunAfterIs(items, i - 1, id);
      assert forall a: nat :: a < i - 1 ==> (Owns(items, a, i) <==> Owns(items, a, i - 1) && last.ToolResult?);
      assert Owns(items, i - 1, i) <==> last.Assistant?;
    }
  }

  /** The scan at item `i`. */
  lemma {:induction false} PairedFromIs(items: seq<Item>, n: nat)
    requires n <= |items|
    ensures PairedFrom({}, items[..n]) <==>
      forall i :: 0 <= i < n && items[i].ToolResult? ==> items[i].callId in RunAfter({}, items[..i])
  {
    if n > 0 {
      PairedFromIs(items, n - 1);
      assert items[..n] == items[..n - 1] + [items[n - 1]];
      PairedFromConcat({}, items[..n - 1], [items[n - 1]]);
    }
  }

  /** The scan decides the positional statement. */
  lemma PairedIsPairedFrom(items: seq<Item>)
    ensures Paired(items) <==> PairedFrom({}, items)
  {
    PairedFromIs(items, |items|);
    assert items[..|items|] == items;
    forall i: nat | i < |items| && items[i].ToolResult?
      ensures items[i].callId in RunAfter({}, items[..i]) <==>
        exists a: nat :: Owns(items, a, i) && items[i].callId in Ids(items[a].calls)
    {
      RunAfterIs(items, i, items[i].callId);
    }
  }
}
