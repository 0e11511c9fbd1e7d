/**
 Where everything stands in a repaired history: by position, which results each run keeps, and which ones stand behind
 them.
 */
module RepairOrder {
  import opened Conversation
  import opened Sequences
  import opened ToolPairing
  import opened RepairRuns

  // ----- which positions of a run, and of the calls

  /** The last result of its id in the run. */
  ghost function LastOfItsId(run: seq<Item>): nat -> bool
    requires AllResults(run)
  {
    (k: nat) => k < |run| && forall j :: k < j < |run| ==> run[j].callId != run[k].callId
  }

  /** The last result of an id that is declared. */
  ghost function LastForItsCall(calls: seq<ToolCall>, run: seq<Item>): nat -> bool
    requires AllResults(run)
  {
    (k: nat) => LastOfItsId(run)(k) && run[k].callId in Ids(calls)
  }

  /** A call without a result in the run. */
  ghost function WithoutResult(calls: seq<ToolCall>, run: seq<Item>): nat -> bool
    requires AllResults(run)
  {
    (c: nat) => c < |calls| && forall k :: 0 <= k < |run| ==> run[k].callId != calls[c].id
  }

  /** A result that says the call was not executed, and names its tool. */
  predicate Answers(call: ToolCall, result: Item) {
    && result.ToolResult? && result.callId == call.id && result.images == []
    && result.output
       == "Tool execution was halted by the harness (history_repair); the tool `" + call.name + "` was not executed."
  }

  /** Behind the results `kept`, one result for each call that has none among `run`, in the order of the calls. */
  ghost predicate Completes(calls: seq<ToolCall>, run: seq<Item>, kept: seq<Item>, out: seq<Item>)
    requires AllResults(run)
  {
    kept <= out && Picks(out[|kept|..], calls, 0, WithoutResult(calls, run), Answers)
  }

  /** First the surviving results of `run`, in their order: the last one of every declared id. Behind them, one result
      for each unanswered call. */
  ghost predicate LaidOut(calls: seq<ToolCall>, run: seq<Item>, out: seq<Item>)
    requires AllResults(run)
  {
    exists kept :: Picks(kept, run, 0, LastForItsCall(calls, run), Same) && Completes(calls, run, kept, out)
  }

  // ----- one run

  lemma RestOfRun(run: seq<Item>, i: nat)
    requires AllResults(run) && i < |run|
    ensures AllResults(run[i..]) && run[i..] == [run[i]] + run[i + 1..] && AllResults(run[i + 1..])
    ensures run[i].callId in RunIds(run[i + 1..]) <==> !LastOfItsId(run)(i)
  {
    var rest := run[i + 1..];
    assert forall k :: 0 <= k < |rest| ==> rest[k] == run[i + 1 + k];
    if !LastOfItsId(run)(i) {
      var j :| i < j < |run| && run[j].callId == run[i].callId;
      assert rest[j - i - 1].callId == run[i].callId;
    }
  }

  /** Removing duplicates keeps exactly the last result of every id, in order. */
  lemma {:induction false} LastOnesStay(run: seq<Item>, i: nat)
    requires AllResults(run) && i <= |run| && AllResults(run[i..])
    ensures Picks(KeepLast(run[i..]), run, i, LastOfItsId(run), Same)
    decreases |run| - i
  {
    if i < |run| {
      RestOfRun(run, i);
      LastOnesStay(run, i + 1);
      Cons(run[i], KeepLast(run[i + 1..]));
      PicksMore(KeepLast(run[i..]), run, i, LastOfItsId(run), Same);
    }
  }

  /** With undeclared ones stripped, exactly the last result of every declared id. */
  lemma {:induction false} LastForCallsStay(calls: seq<ToolCall>, run: seq<Item>, i: nat)
    requires AllResults(run) && i <= |run| && AllResults(run[i..])
    ensures Picks(KeepDeclared(Ids(calls), KeepLast(run[i..])), run, i, LastForItsCall(calls, run), Same)
    decreases |run| - i
  {
    if i < |run| {
      RestOfRun(run, i);
      LastForCallsStay(calls, run, i + 1);
      var later := KeepLast(run[i + 1..]);
      Cons(run[i], later);
      Cons(run[i], KeepDeclared(Ids(calls), later));
      PicksMore(KeepDeclared(Ids(calls), KeepLast(run[i..])), run, i, LastForItsCall(calls, run), Same);
    }
  }

  /** The inserted results are one for each unanswered call, in the order of the calls. */
  lemma {:induction false} InsertedInOrder(calls: seq<ToolCall>, run: seq<Item>, answered: set<string>, i: nat)
    requires AllResults(run) && i <= |calls|
    requires forall c :: 0 <= c < |calls| ==> (calls[c].id !in answered <==> WithoutResult(calls, run)(c))
    ensures Picks(Synthetic(calls[i..], answered), calls, i, WithoutResult(calls, run), Answers)
    decreases |calls| - i
  {
    if i < |calls| {
      InsertedInOrder(calls, run, answered, i + 1);
      assert calls[i..] == [calls[i]] + calls[i + 1..];
      var tail := Synthetic(calls[i + 1..], answered);
      Cons(SyntheticResult(calls[i]), tail);
      PicksMore(Synthetic(calls[i..], answered), calls, i, WithoutResult(calls, run), Answers);
    }
  }

  lemma AnsweredIds(calls: seq<ToolCall>, run: seq<Item>, c: nat)
    requires AllResults(run) && c < |calls|
    ensures calls[c].id !in RunIds(run) <==> WithoutResult(calls, run)(c)
  {
  }

  lemma BackfilledRun(calls: seq<ToolCall>, run: seq<Item>)
    requires AllResults(run)
    ensures Completes(calls, run, run, run + Synthetic(calls, RunIds(run)))
  {
    forall c | 0 <= c < |calls|
      ensures calls[c].id !in RunIds(run) <==> WithoutResult(calls, run)(c)
    {
      AnsweredIds(calls, run, c);
    }
    InsertedInOrder(calls, run, RunIds(run), 0);
    assert calls[0..] == calls;
    assert (run + Synthetic(calls, RunIds(run)))[|run|..] == Synthetic(calls, RunIds(run));
  }

  lemma RepairedRun(calls: seq<ToolCall>, run: seq<Item>)
    requires AllResults(run)
    ensures LaidOut(calls, run, RepairRun(calls, run))
  {
    var kept := KeepDeclared(Ids(calls), KeepLast(run));
    KeptFacts(calls, run);
    forall c | 0 <= c < |calls|
      ensures calls[c].id !in RunIds(kept) <==> WithoutResult(calls, run)(c)
    {
      AnsweredIds(calls, run, c);
    }
    InsertedInOrder(calls, run, RunIds(kept), 0);
    LastForCallsStay(calls, run, 0);
    assert calls[0..] == calls && run[0..] == run;
    assert RepairRun(calls, run)[|kept|..] == Synthetic(calls, RunIds(kept));
    assert Completes(calls, run, kept, RepairRun(calls, run));
  }

  // ----- the run behind an item, before and after a pass

  datatype Pass = Deduping | Backfilling | Repairing

  function After(pass: Pass, items: seq<Item>): seq<Item> {
    match pass
    case Deduping => Dedup(items)
    case Backfilling => Backfill(items)
    case Repairing => Repaired(items)
  }

  function RunAfterPass(pass: Pass, calls: seq<ToolCall>, run: seq<Item>): (r: seq<Item>)
    requires AllResults(run)
    ensures AllResults(r)
  {
    match pass
    case Deduping => KeepLast(run)
    case Backfilling => run + Synthetic(calls, RunIds(run))
    case Repairing => RepairRun(calls, run)
  }

  /** Item `i` of `items` is item `j` of `out`: the same one, with the same non-results in front of it. */
  predicate IsItem(items: seq<Item>, i: nat, out: seq<Item>, j: nat) {
    && i < |items| && j < |out| && out[j] == items[i]
    && WithoutResults(out[..j]) == WithoutResults(items[..i])
  }

  lemma FreshAfter(pass: Pass, items: seq<Item>)
    requires !StartsWithResult(items)
    ensures !StartsWithResult(After(pass, items))
  {
    FreshHeads(items);
  }

  lemma OnBlockAfter(pass: Pass, head: Item, run: seq<Item>, rest: seq<Item>)
    requires Block([head] + (run + rest), head, run, rest)
    ensures After(pass, [head] + (run + rest)) == [head] + (RunAfterPass(pass, head.calls, run) + After(pass, rest))
  {
    OnBlock([head] + (run + rest), head, run, rest);
  }

  lemma NoneInFront(items: seq<Item>, i: nat)
    requires i <= |items| && AllResults(items[..i])
    ensures WithoutResults(items[..i]) == []
  {
    WithoutResultsOfRun(items[..i]);
  }

  /** An item behind a front without other non-results than one head. */
  lemma ItemBehind(head: Item, run: seq<Item>, rest: seq<Item>, out: seq<Item>, k: nat)
    requires !head.ToolResult? && AllResults(run) && k < |rest| && out == [head] + (run + rest)
    ensures var i := 1 + |run| + k;
      && i < |out| && out[i] == rest[k] && out[i + 1..] == rest[k + 1..]
      && WithoutResults(out[..i]) == [head] + WithoutResults(rest[..k])
  {
    var i := 1 + |run| + k;
    assert out[..i] == [head] + (run + rest[..k]);
    Cons(head, run + rest[..k]);
    WithoutResultsConcat(run, rest[..k]);
    WithoutResultsOfRun(run);
  }

  /** Item `i` is left in place, and the run behind it is rewritten on its own. */
  predicate InPlace(pass: Pass, items: seq<Item>, i: nat, out: seq<Item>, j: nat) {
    && IsItem(items, i, out, j) && HasCalls(items[i])
    && RunBehind(out, j) == RunAfterPass(pass, items[i].calls, RunBehind(items, i))
  }

  lemma HeadInPlace(pass: Pass, head: Item, run: seq<Item>, rest: seq<Item>, items: seq<Item>)
    requires Block(items, head, run, rest)
    ensures InPlace(pass, items, 0, After(pass, items), 0)
  {
    var run' := RunAfterPass(pass, head.calls, run);
    OnBlockAfter(pass, head, run, rest);
    FreshAfter(pass, rest);
    OnBlock(items, head, run, rest);
    OnBlock(After(pass, items), head, run', After(pass, rest));
    assert items[..0] == After(pass, items)[..0];
  }

  lemma BehindBlock(
    pass: Pass, head: Item, run: seq<Item>, rest: seq<Item>, items: seq<Item>, run': seq<Item>, rest': seq<Item>,
    out: seq<Item>, k: nat, m: nat)
    requires !head.ToolResult? && AllResults(run) && AllResults(run') && InPlace(pass, rest, k, rest', m)
    requires items == [head] + (run + rest) && out == [head] + (run' + rest')
    ensures InPlace(pass, items, 1 + |run| + k, out, 1 + |run'| + m)
  {
    ItemBehind(head, run, rest, items, k);
    ItemBehind(head, run', rest', out, m);
  }

  lemma BehindResult(pass: Pass, x: Item, rest: seq<Item>, out: seq<Item>, k: nat, m: nat)
    requires x.ToolResult? && InPlace(pass, rest, k, out, m)
    ensures InPlace(pass, [x] + rest, 1 + k, out, m)
    ensures InPlace(pass, [x] + rest, 1 + k, [x] + out, 1 + m)
  {
    assert ([x] + rest)[..1 + k] == [x] + rest[..k] && ([x] + out)[..1 + m] == [x] + out[..m];
    Cons(x, rest[..k]);
    Cons(x, out[..m]);
    assert ([x] + rest)[1 + k + 1..] == rest[k + 1..] && ([x] + out)[1 + m + 1..] == out[m + 1..];
  }

  /** An assistant item behind the first block lies in the rest. */
  lemma InRest(items: seq<Item>, run: seq<Item>, rest: seq<Item>, i: nat) returns (k: nat)
    requires 0 < i < |items| && HasCalls(items[i]) && Block(items, items[0], run, rest)
    ensures k < |rest| && rest[k] == items[i] && i == 1 + |run| + k && |rest| < |items|
  {
    assert forall j :: 0 < j <= |run| ==> items[j] == run[j - 1];
    k := i - 1 - |run|;
  }

  lemma AfterOther(pass: Pass, x: Item, rest: seq<Item>)
    requires !HasCalls(x)
    ensures After(pass, [x] + rest)
      == if pass.Repairing? && x.ToolResult? then After(pass, rest) else [x] + After(pass, rest)
  {
    Cons(x, rest);
  }

  /** Behind an item without calls, which stays or, if it is a result, may go. */
  lemma BehindOther(pass: Pass, x: Item, rest: seq<Item>, rest': seq<Item>, out: seq<Item>, k: nat, m: nat)
    returns (j: nat)
    requires !HasCalls(x) && InPlace(pass, rest, k, rest', m)
    requires out == [x] + rest' || (out == rest' && x.ToolResult?)
    ensures InPlace(pass, [x] + rest, 1 + k, out, j)
  {
    if x.ToolResult? {
      BehindResult(pass, x, rest, rest', k, m);
      j := if out == rest' then m else 1 + m;
    } else {
      NoFront(rest);
      NoFront(rest');
      BehindBlock(pass, x, [], rest, [x] + rest, [], rest', out, k, m);
      j := 1 + m;
    }
  }

  /** Every pass leaves each assistant item with calls in its place. */
  lemma {:induction false} RunsStayInPlace(pass: Pass, items: seq<Item>, i: nat) returns (j: nat)
    requires i < |items| && HasCalls(items[i])
    ensures InPlace(pass, items, i, After(pass, items), j)
    decreases |items|
  {
    if HasCalls(items[0]) {
      var run, rest := BlockOf(items);
      if i == 0 {
        HeadInPlace(pass, items[0], run, rest, items);
        j := 0;
      } else {
        j := LaterRunStays(pass, items, i, run, rest);
      }
    } else {
      j := LaterRunStaysToo(pass, items, i);
    }
  }

  lemma {:induction false} LaterRunStays(pass: Pass, items: seq<Item>, i: nat, run: seq<Item>, rest: seq<Item>)
    returns (j: nat)
    requires 0 < i < |items| && HasCalls(items[i]) && Block(items, items[0], run, rest)
    ensures InPlace(pass, items, i, After(pass, items), j)
    decreases |items|, 0
  {
    var k := InRest(items, run, rest, i);
    var m := RunsStayInPlace(pass, rest, k);
    var run', rest' := RunAfterPass(pass, items[0].calls, run), After(pass, rest);
    OnBlockAfter(pass, items[0], run, rest);
    j := BehindRun(pass, items, i, run, rest, After(pass, items), run', rest', k, m);
  }

  lemma BehindRun(
    pass: Pass, items: seq<Item>, i: nat, run: seq<Item>, rest: seq<Item>,
    out: seq<Item>, run': seq<Item>, rest': seq<Item>, k: nat, m: nat)
    returns (j: nat)
    requires items != [] && Block(items, items[0], run, rest) && out == [items[0]] + (run' + rest')
    requires AllResults(run') && InPlace(pass, rest, k, rest', m) && i == 1 + |run| + k
    ensures InPlace(pass, items, i, out, j)
  {
    j := 1 + |run'| + m;
    BehindBlock(pass, items[0], run, rest, items, run', rest', out, k, m);
  }

  lemma {:induction false} LaterRunStaysToo(pass: Pass, items: seq<Item>, i: nat) returns (j: nat)
    requires 0 < i < |items| && HasCalls(items[i]) && !HasCalls(items[0])
    ensures InPlace(pass, items, i, After(pass, items), j)
    decreases |items|, 0
  {
    CutOne(items, 0);
    assert items == [items[0]] + items[1..];
    var m := RunsStayInPlace(pass, items[1..], i - 1);
    AfterOther(pass, items[0], items[1..]);
    j := BehindOther(pass, items[0], items[1..], After(pass, items[1..]), After(pass, items), i - 1, m);
  }

  // ----- what each pass leaves, by position

  /** Behind item `i` duplicate removal leaves the last result of each id, in order. */
  ghost predicate LastResultsAt(items: seq<Item>, i: nat, out: seq<Item>, j: nat) {
    IsItem(items, i, out, j) && Picks(RunBehind(out, j), RunBehind(items, i), 0, LastOfItsId(RunBehind(items, i)), Same)
  }

  /** Backfilling leaves the run as it was and puts a result for each unanswered call behind it, in call order. */
  ghost predicate CompletedAt(items: seq<Item>, i: nat, out: seq<Item>, j: nat) {
    && IsItem(items, i, out, j) && items[i].Assistant?
    && Completes(items[i].calls, RunBehind(items, i), RunBehind(items, i), RunBehind(out, j))
  }

  /** The repair leaves the surviving results and behind them one for each unanswered call. */
  ghost predicate LaidOutAt(items: seq<Item>, i: nat, out: seq<Item>, j: nat) {
    && IsItem(items, i, out, j) && items[i].Assistant?
    && LaidOut(items[i].calls, RunBehind(items, i), RunBehind(out, j))
  }

  ghost predicate LastResultsIn(items: seq<Item>, out: seq<Item>) {
    forall i: nat :: i < |items| && HasCalls(items[i]) ==> exists j: nat :: LastResultsAt(items, i, out, j)
  }

  ghost predicate CompletedIn(items: seq<Item>, out: seq<Item>) {
    forall i: nat :: i < |items| && HasCalls(items[i]) ==> exists j: nat :: CompletedAt(items, i, out, j)
  }

  ghost predicate LaidOutIn(items: seq<Item>, out: seq<Item>) {
    forall i: nat :: i < |items| && HasCalls(items[i]) ==> exists j: nat :: LaidOutAt(items, i, out, j)
  }

  lemma DedupOrder(items: seq<Item>)
    ensures LastResultsIn(items, Dedup(items))
  {
    forall i: nat | i < |items| && HasCalls(items[i])
      ensures exists j: nat :: LastResultsAt(items, i, Dedup(items), j)
    {
      var j := RunsStayInPlace(Deduping, items, i);
      var run := RunBehind(items, i);
      LastOnesStay(run, 0);
      assert run[0..] == run;
      assert LastResultsAt(items, i, Dedup(items), j);
    }
  }

  lemma BackfillOrder(items: seq<Item>)
    ensures CompletedIn(items, Backfill(items))
  {
    forall i: nat | i < |items| && HasCalls(items[i])
      ensures exists j: nat :: CompletedAt(items, i, Backfill(items), j)
    {
      var j := RunsStayInPlace(Backfilling, items, i);
      BackfilledRun(items[i].calls, RunBehind(items, i));
      assert CompletedAt(items, i, Backfill(items), j);
    }
  }

  /** In a repaired history, behind every assistant item with calls: the surviving results in their old order, then one
      result for each unanswered call, in call order, naming its tool. */
  lemma RepairKeepsOrder(items: seq<Item>)
    ensures LaidOutIn(items, Repaired(items))
  {
    forall i: nat | i < |items| && HasCalls(items[i])
      ensures exists j: nat :: LaidOutAt(items, i, Repaired(items), j)
    {
      var j := RunsStayInPlace(Repairing, items, i);
      RepairedRun(items[i].calls, RunBehind(items, i));
      assert LaidOutAt(items, i, Repaired(items), j);
    }
  }
}
