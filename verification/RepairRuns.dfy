/**
 What the passes of `repair_history` do to the runs of results behind assistant items, and that together they are one
 simple rewriting of every run.
 */
module RepairRuns {
  import opened Conversation
  import opened Sequences
  import opened ToolPairing

  // ----- runs

  predicate HasCalls(item: Item) {
    item.Assistant? && item.calls != []
  }

  /** How many results the list starts with. */
  function RunLen(items: seq<Item>): (n: nat)
    ensures n <= |items| && (forall i :: 0 <= i < n ==> items[i].ToolResult?)
    ensures n < |items| ==> !items[n].ToolResult?
  {
    if StartsWithResult(items) then 1 + RunLen(items[1..]) else 0
  }

  function RunIds(run: seq<Item>): (ids: set<string>)
    requires AllResults(run)
  {
    set i | 0 <= i < |run| :: run[i].callId
  }

  predicate Distinct(run: seq<Item>)
    requires AllResults(run)
  {
    forall i, j :: 0 <= i < j < |run| ==> run[i].callId != run[j].callId
  }

  /** The results standing directly behind item `i`. */
  function RunBehind(items: seq<Item>, i: nat): (run: seq<Item>)
    requires i < |items|
    ensures AllResults(run)
  {
    items[i + 1..][..RunLen(items[i + 1..])]
  }

  lemma RunLenIs(run: seq<Item>, rest: seq<Item>)
    requires AllResults(run) && !StartsWithResult(rest)
    ensures RunLen(run + rest) == |run|
    ensures (run + rest)[..|run|] == run && (run + rest)[|run|..] == rest
  {
    var s := run + rest;
    assert forall i :: 0 <= i < |run| ==> s[i] == run[i];
    assert rest != [] ==> s[|run|] == rest[0];
  }

  lemma RunIdsConcat(a: seq<Item>, b: seq<Item>)
    requires AllResults(a) && AllResults(b)
    ensures AllResults(a + b) && RunIds(a + b) == RunIds(a) + RunIds(b)
  {
    forall id
      ensures id in RunIds(a + b) <==> id in RunIds(a) || id in RunIds(b)
    {
      if id in RunIds(a) {
        var i :| 0 <= i < |a| && a[i].callId == id;
        assert (a + b)[i].callId == id;
      }
      if id in RunIds(b) {
        var i :| 0 <= i < |b| && b[i].callId == id;
        assert (a + b)[|a| + i].callId == id;
      }
      if id in RunIds(a + b) {
        var i :| 0 <= i < |a + b| && (a + b)[i].callId == id;
        if i < |a| { assert a[i].callId == id; } else { assert b[i - |a|].callId == id; }
      }
    }
  }

  // ----- what each pass does to one run

  /** The last result of every id. */
  function KeepLast(run: seq<Item>): (r: seq<Item>)
    requires AllResults(run)
    ensures AllResults(r) && |r| <= |run|
  {
    if run == [] then []
    else if run[0].callId in RunIds(run[1..]) then KeepLast(run[1..])
    else [run[0]] + KeepLast(run[1..])
  }

  /** The results of declared ids. */
  function KeepDeclared(ids: set<string>, run: seq<Item>): (r: seq<Item>)
    requires AllResults(run)
    ensures AllResults(r) && |r| <= |run|
  {
    if run == [] then []
    else if run[0].callId in ids then [run[0]] + KeepDeclared(ids, run[1..])
    else KeepDeclared(ids, run[1..])
  }

  const HALTED := "Tool execution was halted by the harness (history_repair); the tool `"
  const NOT_EXECUTED := "` was not executed."

  function SyntheticResult(call: ToolCall): (r: Item)
    ensures r.ToolResult? && r.callId == call.id && r.images == []
  {
    ToolResult(call.id, HALTED + call.name + NOT_EXECUTED, [])
  }

  /** One synthetic result per unanswered call, in call order. */
  function Synthetic(calls: seq<ToolCall>, answered: set<string>): (r: seq<Item>)
    ensures AllResults(r)
  {
    if calls == [] then []
    else if calls[0].id in answered then Synthetic(calls[1..], answered)
    else [SyntheticResult(calls[0])] + Synthetic(calls[1..], answered)
  }

  function RepairRun(calls: seq<ToolCall>, run: seq<Item>): (r: seq<Item>)
    requires AllResults(run)
    ensures AllResults(r)
  {
    var kept := KeepDeclared(Ids(calls), KeepLast(run));
    kept + Synthetic(calls, RunIds(kept))
  }

  // ----- the passes over a conversation

  function Dedup(items: seq<Item>): seq<Item>
    decreases |items|
  {
    if items == [] then []
    else if HasCalls(items[0]) then
      var n := RunLen(items[1..]);
      [items[0]] + (KeepLast(items[1..][..n]) + Dedup(items[1..][n..]))
    else [items[0]] + Dedup(items[1..])
  }

  function Backfill(items: seq<Item>): seq<Item>
    decreases |items|
  {
    if items == [] then []
    else if HasCalls(items[0]) then
      var n := RunLen(items[1..]);
      var run := items[1..][..n];
      [items[0]] + ((run + Synthetic(items[0].calls, RunIds(run))) + Backfill(items[1..][n..]))
    else [items[0]] + Backfill(items[1..])
  }

  /** The whole repair as one rewriting: every run is repaired, results outside runs go. */
  function Repaired(items: seq<Item>): seq<Item>
    decreases |items|
  {
    if items == [] then []
    else if HasCalls(items[0]) then
      var n := RunLen(items[1..]);
      [items[0]] + (RepairRun(items[0].calls, items[1..][..n]) + Repaired(items[1..][n..]))
    else if items[0].ToolResult? then Repaired(items[1..])
    else [items[0]] + Repaired(items[1..])
  }

  /** A conversation that starts with an assistant item and its run. */
  ghost predicate Block(items: seq<Item>, head: Item, run: seq<Item>, rest: seq<Item>) {
    items == [head] + (run + rest) && HasCalls(head) && AllResults(run) && !StartsWithResult(rest)
  }

  lemma BlockOf(items: seq<Item>) returns (run: seq<Item>, rest: seq<Item>)
    requires items != [] && HasCalls(items[0])
    ensures Block(items, items[0], run, rest)
    ensures run == items[1..][..RunLen(items[1..])] && rest == items[1..][RunLen(items[1..])..]
  {
    var n := RunLen(items[1..]);
    run, rest := items[1..][..n], items[1..][n..];
  }

  /** How the passes act on a block. */
  lemma OnBlock(items: seq<Item>, head: Item, run: seq<Item>, rest: seq<Item>)
    requires Block(items, head, run, rest)
    ensures Dedup(items) == [head] + (KeepLast(run) + Dedup(rest))
    ensures Backfill(items) == [head] + ((run + Synthetic(head.calls, RunIds(run))) + Backfill(rest))
    ensures Repaired(items) == [head] + (RepairRun(head.calls, run) + Repaired(rest))
    ensures RunBehind(items, 0) == run
  {
    assert items[1..] == run + rest;
    RunLenIs(run, rest);
  }

  lemma FreshHeads(items: seq<Item>)
    requires !StartsWithResult(items)
    ensures !StartsWithResult(Dedup(items)) && !StartsWithResult(Backfill(items))
    ensures !StartsWithResult(Repaired(items)) && forall run :: !StartsWithResult(StripFrom(run, items))
  {
  }

  lemma {:induction false} StripRun(ids: set<string>, run: seq<Item>, rest: seq<Item>)
    requires AllResults(run)
    ensures StripFrom(ids, run + rest) == KeepDeclared(ids, run) + StripFrom(ids, rest)
  {
    if run == [] {
      assert run + rest == rest;
    } else {
      assert (run + rest)[1..] == run[1..] + rest;
      StripRun(ids, run[1..], rest);
    }
  }

  lemma StripFresh(r1: set<string>, r2: set<string>, items: seq<Item>)
    requires !StartsWithResult(items)
    ensures StripFrom(r1, items) == StripFrom(r2, items)
  {
  }

  lemma StripBlock(head: Item, run: seq<Item>, rest: seq<Item>)
    requires HasCalls(head) && AllResults(run) && !StartsWithResult(rest)
    ensures StripFrom({}, [head] + (run + rest))
         == [head] + (KeepDeclared(Ids(head.calls), run) + StripFrom({}, rest))
  {
    var items := [head] + (run + rest);
    assert items[0] == head && items[1..] == run + rest;
    StripRun(Ids(head.calls), run, rest);
    StripFresh(Ids(head.calls), {}, rest);
  }

  /** The three passes of the program are the one rewriting. */
  lemma {:induction false} ThreePasses(items: seq<Item>)
    ensures Backfill(StripFrom({}, Dedup(items))) == Repaired(items)
    decreases |items|
  {
    if items == [] {
    } else if HasCalls(items[0]) {
      var head := items[0];
      var run, rest := BlockOf(items);
      OnBlock(items, head, run, rest);
      var d, kept := Dedup(rest), KeepDeclared(Ids(head.calls), KeepLast(run));
      FreshHeads(rest);
      var s := StripFrom({}, d);
      FreshHeads(d);
      StripBlock(head, KeepLast(run), d);
      OnBlock([head] + (kept + s), head, kept, s);
      ThreePasses(rest);
    } else {
      ThreePasses(items[1..]);
      var x, d := items[0], Dedup(items[1..]);
      assert ([x] + d)[0] == x && ([x] + d)[1..] == d;
      assert Ids([]) == {};
      if !x.ToolResult? {
        var s := StripFrom({}, d);
        assert NextRun({}, x) == {};
        assert StripFrom({}, [x] + d) == [x] + s;
        assert ([x] + s)[0] == x && ([x] + s)[1..] == s;
      }
    }
  }

  // ----- facts about one run

  lemma {:induction false} KeepLastIds(run: seq<Item>)
    requires AllResults(run)
    ensures RunIds(KeepLast(run)) == RunIds(run)
  {
    if run != [] {
      KeepLastIds(run[1..]);
      assert run == [run[0]] + run[1..];
      RunIdsConcat([run[0]], run[1..]);
      RunIdsConcat([run[0]], KeepLast(run[1..]));
      assert RunIds([run[0]]) == {run[0].callId};
    }
  }

  lemma DistinctCons(x: Item, rest: seq<Item>)
    requires x.ToolResult? && AllResults(rest)
    ensures Distinct([x] + rest) <==> x.callId !in RunIds(rest) && Distinct(rest)
  {
    var all := [x] + rest;
    assert forall i :: 0 < i < |all| ==> all[i] == rest[i - 1];
    assert forall i :: 0 <= i < |rest| ==> rest[i] == all[i + 1];
    assert forall i :: 0 <= i < |rest| ==> rest[i].callId in RunIds(rest);
    if x.callId in RunIds(rest) {
      var i :| 0 <= i < |rest| && rest[i].callId == x.callId;
      assert all[i + 1].callId == all[0].callId;
    } else if Distinct(all) {
      forall i, j | 0 <= i < j < |rest|
        ensures rest[i].callId != rest[j].callId
      {
        assert all[i + 1].callId != all[j + 1].callId;
      }
    }
  }

  lemma {:induction false} KeepLastDistinct(run: seq<Item>)
    requires AllResults(run)
    ensures Distinct(KeepLast(run))
    ensures KeepLast(run) == run <==> Distinct(run)
  {
    if run != [] {
      var x, rest := run[0], run[1..];
      KeepLastDistinct(rest);
      KeepLastIds(rest);
      assert run == [x] + rest;
      DistinctCons(x, rest);
      DistinctCons(x, KeepLast(rest));
      assert |KeepLast(rest)| < |run|;
    }
  }

  lemma {:induction false} KeepDeclaredFacts(ids: set<string>, run: seq<Item>)
    requires AllResults(run)
    ensures RunIds(KeepDeclared(ids, run)) == RunIds(run) * ids
    ensures Distinct(run) ==> Distinct(KeepDeclared(ids, run))
    ensures KeepDeclared(ids, run) == run <==> RunIds(run) <= ids
  {
    if run != [] {
      var x, rest := run[0], run[1..];
      KeepDeclaredFacts(ids, rest);
      assert run == [x] + rest;
      RunIdsConcat([x], rest);
      RunIdsConcat([x], KeepDeclared(ids, rest));
      assert RunIds([x]) == {x.callId};
      DistinctCons(x, rest);
      DistinctCons(x, KeepDeclared(ids, rest));
    }
  }

  /** The results that survive the first two passes: one per declared id that has a result. */
  lemma KeptFacts(calls: seq<ToolCall>, run: seq<Item>)
    requires AllResults(run)
    ensures var kept := KeepDeclared(Ids(calls), KeepLast(run));
      RunIds(kept) == RunIds(run) * Ids(calls) && Distinct(kept)
  {
    KeepLastIds(run);
    KeepLastDistinct(run);
    KeepDeclaredFacts(Ids(calls), KeepLast(run));
  }
}
