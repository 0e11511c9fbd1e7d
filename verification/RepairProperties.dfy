/** What a repaired history satisfies, and exactly when repairing again finds nothing to do. */
module RepairProperties {
  import opened Conversation
  import opened ToolPairing
  import opened RepairRuns
  import opened RepairOrder
  import opened HistoryRepair

  datatype Report = Report(duplicatesRemoved: nat, strippedIds: seq<string>, syntheticInserted: nat) {
    predicate Changed() {
      duplicatesRemoved > 0 || strippedIds != [] || syntheticInserted > 0
    }
  }

  /** Statements about the calls of one assistant item and the run of results behind it. */
  datatype RunClaim = EveryCallAnswered | NoIdTwice | RepeatsHaveResult

  /** Every id that is declared twice is in `answered`. */
  predicate RepeatsIn(calls: seq<ToolCall>, answered: set<string>) {
    forall j, k :: 0 <= j < k < |calls| && calls[j].id == calls[k].id ==> calls[j].id in answered
  }

  predicate Holds(claim: RunClaim, calls: seq<ToolCall>, run: seq<Item>)
    requires AllResults(run)
  {
    match claim
    case EveryCallAnswered => RunIds(run) == Ids(calls)
    case NoIdTwice => Distinct(run)
    case RepeatsHaveResult => RepeatsIn(calls, RunIds(run))
  }

  ghost predicate ForAllRuns(claim: RunClaim, items: seq<Item>) {
    forall i: nat :: i < |items| && items[i].Assistant? ==> Holds(claim, items[i].calls, RunBehind(items, i))
  }

  method RepairHistory(items: seq<Item>) returns (conv: seq<Item>, report: Report)
    ensures conv == Repaired(items)
    ensures WithoutResults(conv) == WithoutResults(items)
    ensures Paired(conv) && ForAllRuns(EveryCallAnswered, conv) && LaidOutIn(items, conv)
    ensures ForAllRuns(NoIdTwice, conv) <==> ForAllRuns(RepeatsHaveResult, items)
    ensures report.Changed() <==> conv != items
    ensures report.duplicatesRemoved == |items| - |Dedup(items)|
    ensures |conv| == |items| - report.duplicatesRemoved - |report.strippedIds| + report.syntheticInserted
    ensures Repaired(conv) == conv <==> ForAllRuns(RepeatsHaveResult, items)
  {
    var deduped, removed := DedupDuplicateToolResults(items);
    var stripped, ids := StripDisplacedToolResults(deduped);
    var inserted;
    conv, inserted := RepairDanglingToolCalls(stripped);
    report := Report(removed, ids, inserted);
    ThreePasses(items);
    RepairFacts(items);
    StripChangesNothing({}, deduped);
    ReportDecides(items, removed, ids, inserted);
  }

  lemma ReportDecides(items: seq<Item>, removed: nat, ids: seq<string>, inserted: nat)
    requires removed + |Dedup(items)| == |items| && (ids == [] <==> PairedFrom({}, Dedup(items)))
    requires |Repaired(items)| == |StripFrom({}, Dedup(items))| + inserted
    ensures Report(removed, ids, inserted).Changed() <==> Repaired(items) != items
  {
    ThreePasses(items);
    UnchangedPasses(items);
  }

  lemma RepairFacts(items: seq<Item>)
    ensures var conv := Repaired(items);
      && WithoutResults(conv) == WithoutResults(items)
      && Paired(conv) && ForAllRuns(EveryCallAnswered, conv) && LaidOutIn(items, conv)
      && (ForAllRuns(NoIdTwice, conv) <==> ForAllRuns(RepeatsHaveResult, items))
      && (Repaired(conv) == conv <==> ForAllRuns(RepeatsHaveResult, items))
  {
    RepairKeepsOrder(items);
    RepairPairs(items);
    RepairAnswers(items);
    RepairKeepsOthers(items);
    RepairStable(items);
  }

  // ----- one run

  lemma DistinctConcat(a: seq<Item>, b: seq<Item>)
    requires AllResults(a) && AllResults(b)
    ensures Distinct(a + b) <==> Distinct(a) && Distinct(b) && RunIds(a) !! RunIds(b)
  {
    if a == [] {
      assert a + b == b;
    } else {
      assert a == [a[0]] + a[1..] && a + b == [a[0]] + (a[1..] + b);
      DistinctConcat(a[1..], b);
      DistinctCons(a[0], a[1..]);
      DistinctCons(a[0], a[1..] + b);
      RunIdsConcat(a[1..], b);
      RunIdsConcat([a[0]], a[1..]);
      assert RunIds([a[0]]) == {a[0].callId};
    }
  }

  lemma IdsCons(c: ToolCall, rest: seq<ToolCall>)
    ensures Ids([c] + rest) == {c.id} + Ids(rest)
  {
    var all := [c] + rest;
    assert all[0] == c && forall i :: 0 <= i < |rest| ==> all[i + 1] == rest[i];
  }

  lemma RepeatsInCons(c: ToolCall, rest: seq<ToolCall>, answered: set<string>)
    ensures RepeatsIn([c] + rest, answered) <==> RepeatsIn(rest, answered) && (c.id in Ids(rest) ==> c.id in answered)
  {
    var all := [c] + rest;
    assert all[0] == c && forall i :: 0 < i < |all| ==> all[i] == rest[i - 1];
    assert forall i :: 0 <= i < |rest| ==> rest[i] == all[i + 1];
    if RepeatsIn(all, answered) {
      forall j, k | 0 <= j < k < |rest| && rest[j].id == rest[k].id
        ensures rest[j].id in answered
      {
        assert all[j + 1].id == all[k + 1].id;
      }
      if c.id in Ids(rest) {
        var i :| 0 <= i < |rest| && rest[i].id == c.id;
        assert all[0].id == all[i + 1].id;
      }
    }
  }

  lemma {:induction false} SyntheticIds(calls: seq<ToolCall>, answered: set<string>)
    ensures RunIds(Synthetic(calls, answered)) == Ids(calls) - answered
    ensures Synthetic(calls, answered) == [] <==> Ids(calls) <= answered
  {
    if calls != [] {
      var c, rest := calls[0], calls[1..];
      var tail := Synthetic(rest, answered);
      SyntheticIds(rest, answered);
      assert calls == [c] + rest;
      IdsCons(c, rest);
      if c.id !in answered {
        ConsResult(SyntheticResult(c), tail);
        assert Ids(calls) - answered == {c.id} + (Ids(rest) - answered);
      } else {
        assert Ids(calls) - answered == Ids(rest) - answered;
      }
    }
  }

  lemma {:induction false} SyntheticDistinct(calls: seq<ToolCall>, answered: set<string>)
    ensures Distinct(Synthetic(calls, answered)) <==> RepeatsIn(calls, answered)
  {
    if calls != [] {
      var c, rest := calls[0], calls[1..];
      SyntheticDistinct(rest, answered);
      SyntheticIds(rest, answered);
      assert calls == [c] + rest;
      RepeatsInCons(c, rest, answered);
      ConsResult(SyntheticResult(c), Synthetic(rest, answered));
    }
  }

  lemma ConsResult(x: Item, tail: seq<Item>)
    requires x.ToolResult? && AllResults(tail)
    ensures RunIds([x] + tail) == {x.callId} + RunIds(tail)
    ensures Distinct([x] + tail) <==> x.callId !in RunIds(tail) && Distinct(tail)
  {
    RunIdsConcat([x], tail);
    assert [x][0].callId == x.callId && RunIds([x]) == {x.callId};
    DistinctCons(x, tail);
  }

  lemma RepairRunFacts(calls: seq<ToolCall>, run: seq<Item>)
    requires AllResults(run)
    ensures RunIds(RepairRun(calls, run)) == Ids(calls)
    ensures Distinct(RepairRun(calls, run)) <==> Holds(RepeatsHaveResult, calls, run)
  {
    KeptFacts(calls, run);
    AnswerFacts(calls, KeepDeclared(Ids(calls), KeepLast(run)));
    RepeatsAmongDeclared(calls, RunIds(run));
  }

  /** Answering what `kept` leaves open. */
  lemma AnswerFacts(calls: seq<ToolCall>, kept: seq<Item>)
    requires AllResults(kept) && Distinct(kept) && RunIds(kept) <= Ids(calls)
    ensures var out := kept + Synthetic(calls, RunIds(kept));
      RunIds(out) == Ids(calls) && (Distinct(out) <==> RepeatsIn(calls, RunIds(kept)))
  {
    SyntheticIds(calls, RunIds(kept));
    SyntheticDistinct(calls, RunIds(kept));
    RunIdsConcat(kept, Synthetic(calls, RunIds(kept)));
    DistinctConcat(kept, Synthetic(calls, RunIds(kept)));
  }

  lemma RepeatsAmongDeclared(calls: seq<ToolCall>, ids: set<string>)
    ensures RepeatsIn(calls, ids * Ids(calls)) <==> RepeatsIn(calls, ids)
  {
    assert forall j :: 0 <= j < |calls| ==> calls[j].id in Ids(calls);
  }

  /** A run is left alone exactly if it answers every declared id once and nothing else. */
  lemma RepairRunFixed(calls: seq<ToolCall>, run: seq<Item>)
    requires AllResults(run)
    ensures RepairRun(calls, run) == run <==> RunIds(run) == Ids(calls) && Distinct(run)
    ensures RepairRun(calls, run) == run ==>
      var kept := KeepDeclared(Ids(calls), KeepLast(run));
      kept == KeepLast(run) == run && Synthetic(calls, RunIds(kept)) == []
  {
    var kept := KeepDeclared(Ids(calls), KeepLast(run));
    var synthetic := Synthetic(calls, RunIds(kept));
    RepairRunFacts(calls, run);
    KeepLastDistinct(run);
    KeepLastIds(run);
    KeepDeclaredFacts(Ids(calls), KeepLast(run));
    SyntheticIds(calls, RunIds(kept));
    if RepairRun(calls, run) == run {
      assert RunIds(kept) == Ids(calls);
      assert synthetic == [] && kept + [] == kept;
    }
    if RunIds(run) == Ids(calls) && Distinct(run) {
      assert kept + [] == kept;
    }
  }

  lemma {:induction false} LastIsKept(run: seq<Item>, i: nat)
    requires AllResults(run) && i < |run|
    requires forall j :: i < j < |run| ==> run[j].callId != run[i].callId
    ensures run[i] in KeepLast(run)
  {
    var rest := run[1..];
    assert forall j :: 0 <= j < |rest| ==> rest[j] == run[j + 1];
    if i > 0 {
      LastIsKept(rest, i - 1);
    }
  }

  lemma {:induction false} DeclaredIsKept(ids: set<string>, run: seq<Item>, r: Item)
    requires AllResults(run) && r in run && r.callId in ids
    ensures r in KeepDeclared(ids, run)
  {
    if r != run[0] {
      DeclaredIsKept(ids, run[1..], r);
    }
  }

  /** Of several results for a declared call, the last one survives, with its own output. */
  lemma LastResultWins(calls: seq<ToolCall>, run: seq<Item>, i: nat)
    requires AllResults(run) && i < |run| && run[i].callId in Ids(calls)
    requires forall j :: i < j < |run| ==> run[j].callId != run[i].callId
    ensures run[i] in RepairRun(calls, run)
  {
    LastIsKept(run, i);
    DeclaredIsKept(Ids(calls), KeepLast(run), run[i]);
  }

  // ----- all runs

  lemma {:induction false} NeverStartsWithResult(items: seq<Item>)
    ensures !StartsWithResult(Repaired(items))
    decreases |items|
  {
    if items != [] && items[0].ToolResult? {
      NeverStartsWithResult(items[1..]);
    }
  }

  lemma RunsCons(claim: RunClaim, x: Item, rest: seq<Item>)
    ensures ForAllRuns(claim, [x] + rest) <==>
      ForAllRuns(claim, rest) && (x.Assistant? ==> Holds(claim, x.calls, RunBehind([x] + rest, 0)))
  {
    var all := [x] + rest;
    forall i: nat | i < |rest|
      ensures all[i + 1] == rest[i] && RunBehind(all, i + 1) == RunBehind(rest, i)
    {
      assert all[i + 2..] == rest[i + 1..];
    }
    if ForAllRuns(claim, all) {
      forall i: nat | i < |rest| && rest[i].Assistant?
        ensures Holds(claim, rest[i].calls, RunBehind(rest, i))
      {
        assert all[i + 1] == rest[i] && Holds(claim, all[i + 1].calls, RunBehind(all, i + 1));
      }
    }
    if ForAllRuns(claim, rest) && (x.Assistant? ==> Holds(claim, x.calls, RunBehind(all, 0))) {
      forall i: nat | i < |all| && all[i].Assistant?
        ensures Holds(claim, all[i].calls, RunBehind(all, i))
      {
        if i > 0 {
          assert all[i - 1 + 1] == rest[i - 1];
        }
      }
    }
  }

  lemma {:induction false} RunsBehindRun(claim: RunClaim, run: seq<Item>, rest: seq<Item>)
    requires AllResults(run)
    ensures ForAllRuns(claim, run + rest) <==> ForAllRuns(claim, rest)
  {
    if run == [] {
      assert run + rest == rest;
    } else {
      assert run + rest == [run[0]] + (run[1..] + rest);
      RunsCons(claim, run[0], run[1..] + rest);
      RunsBehindRun(claim, run[1..], rest);
    }
  }

  lemma RunsOfBlock(claim: RunClaim, head: Item, run: seq<Item>, rest: seq<Item>)
    requires HasCalls(head) && AllResults(run) && !StartsWithResult(rest)
    ensures ForAllRuns(claim, [head] + (run + rest)) <==> ForAllRuns(claim, rest) && Holds(claim, head.calls, run)
  {
    RunsCons(claim, head, run + rest);
    RunsBehindRun(claim, run, rest);
    OnBlock([head] + (run + rest), head, run, rest);
  }

  /** Every declared call has a result in its own run; none has two, exactly under the stated condition. */
  lemma {:induction false} RepairAnswers(items: seq<Item>)
    ensures ForAllRuns(EveryCallAnswered, Repaired(items))
    ensures ForAllRuns(NoIdTwice, Repaired(items)) <==> ForAllRuns(RepeatsHaveResult, items)
    decreases |items|
  {
    if items == [] {
    } else if HasCalls(items[0]) {
      var head := items[0];
      var run, rest := BlockOf(items);
      OnBlock(items, head, run, rest);
      RepairAnswers(rest);
      RepairRunFacts(head.calls, run);
      NeverStartsWithResult(rest);
      RunsOfBlock(RepeatsHaveResult, head, run, rest);
      RunsOfBlock(NoIdTwice, head, RepairRun(head.calls, run), Repaired(rest));
      RunsOfBlock(EveryCallAnswered, head, RepairRun(head.calls, run), Repaired(rest));
    } else {
      var x, rest := items[0], items[1..];
      RepairAnswers(rest);
      assert items == [x] + rest;
      RunsCons(RepeatsHaveResult, x, rest);
      if !x.ToolResult? {
        NeverStartsWithResult(rest);
        assert ([x] + Repaired(rest))[1..] == Repaired(rest);
        assert RunBehind([x] + Repaired(rest), 0) == [];
        RunsCons(NoIdTwice, x, Repaired(rest));
        RunsCons(EveryCallAnswered, x, Repaired(rest));
        assert Ids([]) == {} && RunIds([]) == {};
      }
    }
  }

  lemma {:induction false} RepairKeepsOthers(items: seq<Item>)
    ensures WithoutResults(Repaired(items)) == WithoutResults(items)
    decreases |items|
  {
    if items == [] {
    } else if HasCalls(items[0]) {
      var head := items[0];
      var run, rest := BlockOf(items);
      OnBlock(items, head, run, rest);
      RepairKeepsOthers(rest);
      OthersOfBlock(head, run, rest);
      OthersOfBlock(head, RepairRun(head.calls, run), Repaired(rest));
    } else {
      RepairKeepsOthers(items[1..]);
    }
  }

  lemma OthersOfBlock(head: Item, run: seq<Item>, rest: seq<Item>)
    requires !head.ToolResult? && AllResults(run)
    ensures WithoutResults([head] + (run + rest)) == [head] + WithoutResults(rest)
  {
    var items := [head] + (run + rest);
    assert items[0] == head && items[1..] == run + rest;
    WithoutResultsConcat(run, rest);
    WithoutResultsOfRun(run);
  }

  lemma {:induction false} RunIsPaired(ids: set<string>, run: seq<Item>, rest: seq<Item>)
    requires AllResults(run) && RunIds(run) <= ids && PairedFrom(ids, rest)
    ensures PairedFrom(ids, run + rest)
  {
    if run == [] {
      assert run + rest == rest;
    } else {
      assert run == [run[0]] + run[1..];
      RunIdsConcat([run[0]], run[1..]);
      assert (run + rest)[1..] == run[1..] + rest;
      assert run[0].callId in RunIds(run);
      RunIsPaired(ids, run[1..], rest);
    }
  }

  /** No result is left outside the run of its own call. */
  lemma {:induction false} RepairPairsFrom(items: seq<Item>)
    ensures PairedFrom({}, Repaired(items))
    decreases |items|
  {
    if items == [] {
    } else if HasCalls(items[0]) {
      var head := items[0];
      var run, rest := BlockOf(items);
      OnBlock(items, head, run, rest);
      RepairPairsFrom(rest);
      NeverStartsWithResult(rest);
      RepairRunFacts(head.calls, run);
      PairedBlock(head, RepairRun(head.calls, run), Repaired(rest));
    } else {
      var x, rest := items[0], items[1..];
      RepairPairsFrom(rest);
      if !x.ToolResult? {
        NeverStartsWithResult(rest);
        PairedFromFresh({}, NextRun({}, x), Repaired(rest));
        assert ([x] + Repaired(rest))[1..] == Repaired(rest);
      }
    }
  }

  lemma RepairPairs(items: seq<Item>)
    ensures Paired(Repaired(items))
  {
    RepairPairsFrom(items);
    PairedIsPairedFrom(Repaired(items));
  }

  // ----- running the repair again

  lemma SplitRuns(r1: seq<Item>, s1: seq<Item>, r2: seq<Item>, s2: seq<Item>)
    requires AllResults(r1) && AllResults(r2) && !StartsWithResult(s1) && !StartsWithResult(s2)
    ensures r1 + s1 == r2 + s2 <==> r1 == r2 && s1 == s2
  {
    RunLenIs(r1, s1);
    RunLenIs(r2, s2);
  }

  /** Paired, and every call is answered exactly once. */
  ghost predicate InOrder(items: seq<Item>) {
    PairedFrom({}, items) && ForAllRuns(EveryCallAnswered, items) && ForAllRuns(NoIdTwice, items)
  }

  /** A history is left alone exactly if it is paired and every call is answered exactly once. */
  lemma {:induction false} RepairFixed(items: seq<Item>)
    ensures Repaired(items) == items <==> InOrder(items)
    decreases |items|
  {
    if items == [] {
    } else if HasCalls(items[0]) {
      var run, rest := BlockOf(items);
      RepairFixed(rest);
      BlockInOrder(items[0], run, rest);
    } else {
      RepairFixed(items[1..]);
      HeadInOrder(items[0], items[1..]);
      assert items == [items[0]] + items[1..];
    }
  }

  lemma BlockInOrder(head: Item, run: seq<Item>, rest: seq<Item>)
    requires HasCalls(head) && AllResults(run) && !StartsWithResult(rest)
    requires Repaired(rest) == rest <==> InOrder(rest)
    ensures var items := [head] + (run + rest); Repaired(items) == items <==> InOrder(items)
  {
    RepairRunFixed(head.calls, run);
    FixedBlock(head, run, rest);
  }

  lemma HeadInOrder(x: Item, rest: seq<Item>)
    requires !HasCalls(x) && (Repaired(rest) == rest <==> InOrder(rest))
    ensures var items := [x] + rest; Repaired(items) == items <==> InOrder(items)
  {
    FixedHead(x, rest);
  }

  lemma FixedBlock(head: Item, run: seq<Item>, rest: seq<Item>)
    requires HasCalls(head) && AllResults(run) && !StartsWithResult(rest)
    ensures var items := [head] + (run + rest);
      && (Repaired(items) == items <==> RepairRun(head.calls, run) == run && Repaired(rest) == rest)
      && (ForAllRuns(EveryCallAnswered, items) <==>
          ForAllRuns(EveryCallAnswered, rest) && RunIds(run) == Ids(head.calls))
      && (ForAllRuns(NoIdTwice, items) <==> ForAllRuns(NoIdTwice, rest) && Distinct(run))
      && (RunIds(run) == Ids(head.calls) ==> (PairedFrom({}, items) <==> PairedFrom({}, rest)))
  {
    var items := [head] + (run + rest);
    OnBlock(items, head, run, rest);
    NeverStartsWithResult(rest);
    SplitRuns(RepairRun(head.calls, run), Repaired(rest), run, rest);
    assert items[1..] == run + rest && Repaired(items)[1..] == RepairRun(head.calls, run) + Repaired(rest);
    RunsOfBlock(EveryCallAnswered, head, run, rest);
    RunsOfBlock(NoIdTwice, head, run, rest);
    if RunIds(run) == Ids(head.calls) {
      PairedBlock(head, run, rest);
    }
  }

  lemma PairedBlock(head: Item, run: seq<Item>, rest: seq<Item>)
    requires HasCalls(head) && AllResults(run) && !StartsWithResult(rest) && RunIds(run) == Ids(head.calls)
    ensures PairedFrom({}, [head] + (run + rest)) <==> PairedFrom({}, rest)
  {
    var items := [head] + (run + rest);
    assert items[0] == head && items[1..] == run + rest;
    PairedFromFresh({}, Ids(head.calls), rest);
    RunAfterResults(Ids(head.calls), run);
    PairedFromConcat(Ids(head.calls), run, rest);
    RunIsPaired(Ids(head.calls), run, []);
    assert run + [] == run;
  }

  lemma FixedHead(x: Item, rest: seq<Item>)
    requires !HasCalls(x)
    ensures var items := [x] + rest;
      && (x.ToolResult? ==> Repaired(items) != items && !PairedFrom({}, items))
      && (!x.ToolResult? ==>
          && (Repaired(items) == items <==> Repaired(rest) == rest)
          && (PairedFrom({}, items) <==> PairedFrom({}, rest))
          && (PairedFrom({}, rest) ==>
              && (ForAllRuns(EveryCallAnswered, items) <==> ForAllRuns(EveryCallAnswered, rest))
              && (ForAllRuns(NoIdTwice, items) <==> ForAllRuns(NoIdTwice, rest))))
  {
    var items := [x] + rest;
    assert items[0] == x && items[1..] == rest;
    if x.ToolResult? {
      NeverStartsWithResult(rest);
    } else {
      assert Ids([]) == {};
      assert NextRun({}, x) == {};
      RunsCons(EveryCallAnswered, x, rest);
      RunsCons(NoIdTwice, x, rest);
      if PairedFrom({}, rest) {
        assert !StartsWithResult(rest);
        assert RunBehind(items, 0) == [];
        assert RunIds([]) == {};
      }
    }
  }

  /** The second run changes nothing exactly if no id that is declared twice was left without a result. */
  lemma RepairStable(items: seq<Item>)
    ensures Repaired(Repaired(items)) == Repaired(items) <==> ForAllRuns(RepeatsHaveResult, items)
  {
    RepairFixed(Repaired(items));
    RepairPairsFrom(items);
    RepairAnswers(items);
  }

  /** Whatever the input, two runs always suffice. */
  lemma TwoRunsSuffice(items: seq<Item>)
    ensures Repaired(Repaired(Repaired(items))) == Repaired(Repaired(items))
  {
    var r := Repaired(items);
    RepairAnswers(items);
    forall i: nat | i < |r| && r[i].Assistant?
      ensures Holds(RepeatsHaveResult, r[i].calls, RunBehind(r, i))
    {
      assert Holds(EveryCallAnswered, r[i].calls, RunBehind(r, i));
    }
    RepairStable(r);
  }

  /** The documented idempotence fails: a call id declared twice gets two synthetic results, which the next run
      merges. */
  lemma RepairIsNotIdempotent(call: ToolCall)
    ensures var items := [Assistant("", [call, call])];
      Repaired(items) != items && Repaired(Repaired(items)) != Repaired(items)
  {
    var head := Assistant("", [call, call]);
    var items := [head];
    RepairStable(items);
    assert RunBehind(items, 0) == [];
    assert !Holds(RepeatsHaveResult, items[0].calls, RunBehind(items, 0)) by {
      assert head.calls[0].id == head.calls[1].id;
    }
  }

  // ----- the report

  /** The passes report something exactly if the history comes out different. */
  lemma UnchangedPasses(items: seq<Item>)
    ensures var d := Dedup(items); var s := StripFrom({}, d);
      (|d| == |items| && PairedFrom({}, d) && |Backfill(s)| == |s|) <==> Repaired(items) == items
  {
    var d := Dedup(items);
    ThreePasses(items);
    DedupShrinks(items);
    StripChangesNothing({}, d);
    var s := StripFrom({}, d);
    BackfillGrows(s);
    if Repaired(items) == items {
      FixedDedups(items);
    }
  }

  lemma {:induction false} DedupShrinks(items: seq<Item>)
    ensures |Dedup(items)| <= |items|
    ensures |Dedup(items)| == |items| ==> Dedup(items) == items
    decreases |items|
  {
    if items == [] {
    } else if HasCalls(items[0]) {
      var run, rest := BlockOf(items);
      OnBlock(items, items[0], run, rest);
      DedupShrinks(rest);
      KeepLastShrinks(run);
    } else {
      DedupShrinks(items[1..]);
    }
  }

  lemma {:induction false} KeepLastShrinks(run: seq<Item>)
    requires AllResults(run)
    ensures |KeepLast(run)| == |run| ==> KeepLast(run) == run
  {
    if run != [] {
      KeepLastShrinks(run[1..]);
    }
  }

  lemma {:induction false} BackfillGrows(items: seq<Item>)
    ensures |items| <= |Backfill(items)|
    ensures |Backfill(items)| == |items| ==> Backfill(items) == items
    decreases |items|
  {
    if items == [] {
    } else if HasCalls(items[0]) {
      var run, rest := BlockOf(items);
      OnBlock(items, items[0], run, rest);
      BackfillGrows(rest);
      var synthetic := Synthetic(items[0].calls, RunIds(run));
      assert synthetic == [] ==> run + synthetic == run;
    } else {
      BackfillGrows(items[1..]);
    }
  }

  lemma {:induction false} FixedDedups(items: seq<Item>)
    requires Repaired(items) == items
    ensures Dedup(items) == items && Backfill(items) == items && PairedFrom({}, items)
    decreases |items|
  {
    RepairPairsFrom(items);
    if items == [] {
    } else if HasCalls(items[0]) {
      var head := items[0];
      var run, rest := BlockOf(items);
      OnBlock(items, head, run, rest);
      FixedBlock(head, run, rest);
      RepairRunFixed(head.calls, run);
      FixedDedups(rest);
      assert run + [] == run;
    } else {
      FixedHead(items[0], items[1..]);
      assert items == [items[0]] + items[1..];
      FixedDedups(items[1..]);
    }
  }
}
