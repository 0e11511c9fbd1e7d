/**
 `repair_history`: drop duplicate results, strip displaced ones, answer what is left unanswered.
 Each pass is the loop of the program.
 */
module HistoryRepair {
  import opened Conversation
  import opened Sequences
  import opened RepairRuns
  import opened RepairOrder

  method ScanRun(conv: seq<Item>, start: nat) returns (end: nat)
    requires start <= |conv|
    ensures end == start + RunLen(conv[start..])
  {
    end := start;
    while end < |conv| && conv[end].ToolResult?
      invariant start <= end <= |conv| && forall i :: start <= i < end ==> conv[i].ToolResult?
    {
      end := end + 1;
    }
    assert conv[start..] == conv[start..end] + conv[end..];
    RunLenIs(conv[start..end], conv[end..]);
  }

  /** The id of result `k` comes again before `end`. */
  ghost predicate ComesAgain(conv: seq<Item>, k: nat, end: nat) {
    && k < end <= |conv| && conv[k].ToolResult?
    && exists j :: k < j < end && conv[j].ToolResult? && conv[j].callId == conv[k].callId
  }

  lemma AgainInRun(conv: seq<Item>, k: nat, end: nat)
    requires k < end <= |conv| && conv[k].ToolResult? && AllResults(conv[k + 1..end])
    ensures ComesAgain(conv, k, end) <==> conv[k].callId in RunIds(conv[k + 1..end])
  {
    var id, run := conv[k].callId, conv[k + 1..end];
    if ComesAgain(conv, k, end) {
      var j :| k < j < end && conv[j].ToolResult? && conv[j].callId == id;
      assert run[j - k - 1].callId == id;
    }
    if id in RunIds(run) {
      var i :| 0 <= i < |run| && run[i].callId == id;
      assert run[i] == conv[k + 1 + i];
    }
  }

  /** `seen` holds the last position before `m` of every id in the run. */
  ghost predicate IsLatest(conv: seq<Item>, start: nat, m: nat, seen: map<string, nat>)
    requires start <= m <= |conv| && forall k :: start <= k < m ==> conv[k].ToolResult?
  {
    && (forall id :: id in seen ==> start <= seen[id] < m && conv[seen[id]].callId == id)
    && (forall k :: start <= k < m ==> conv[k].callId in seen && k <= seen[conv[k].callId])
  }

  lemma LatestDecides(conv: seq<Item>, start: nat, end: nat, seen: map<string, nat>, k: nat)
    requires start <= k < end <= |conv| && (forall i :: start <= i < end ==> conv[i].ToolResult?)
    requires IsLatest(conv, start, end, seen)
    ensures k < seen[conv[k].callId] <==> ComesAgain(conv, k, end)
  {
    assert conv[seen[conv[k].callId]].callId == conv[k].callId;
  }

  /** Indices of results whose id comes again before `end`. */
  method MarkDuplicates(conv: seq<Item>, start: nat, end: nat) returns (marked: set<nat>)
    requires start <= end <= |conv| && AllResults(conv[start..end])
    ensures forall k :: k in marked <==> start <= k < end && ComesAgain(conv, k, end)
  {
    assert forall k :: start <= k < end ==> conv[k] == conv[start..end][k - start];
    var seen: map<string, nat> := map[];
    marked := {};
    for m := start to end
      invariant IsLatest(conv, start, m, seen)
      invariant forall k :: k in marked <==> start <= k < m && k < seen[conv[k].callId]
    {
      var id := conv[m].callId;
      if id in seen {
        marked := marked + {seen[id]};
      }
      seen := seen[id := m];
    }
    forall k | start <= k < end
      ensures k < seen[conv[k].callId] <==> ComesAgain(conv, k, end)
    {
      LatestDecides(conv, start, end, seen, k);
    }
  }

  /** Removal from the highest marked index down. */
  method RemoveMarked(items: seq<Item>, start: nat, end: nat, marked: set<nat>) returns (conv: seq<Item>, count: nat)
    requires start <= end <= |items| && AllResults(items[start..end])
    requires forall k :: k in marked <==> start <= k < end && ComesAgain(items, k, end)
    ensures conv == items[..start] + (KeepLast(items[start..end]) + items[end..])
    ensures count + |conv| == |items| && (marked != {} ==> count > 0)
  {
    conv, count := items, 0;
    var k := end;
    NothingDone(items, end);
    while k > start
      invariant start <= k <= end && AllResults(items[k..end]) && conv == DoneFrom(items, k, end)
      invariant count + |conv| == |items|
      invariant count == 0 ==> forall i :: i in marked ==> i < k
    {
      k := k - 1;
      SliceIsRun(items, start, end, k);
      RemoveStep(items, k, end);
      if k in marked {
        conv := conv[..k] + conv[k + 1..];
        count := count + 1;
      }
    }
  }

  lemma SliceIsRun(items: seq<Item>, start: nat, end: nat, k: nat)
    requires start <= k <= end <= |items| && AllResults(items[start..end])
    ensures AllResults(items[k..end]) && (k < end ==> items[k].ToolResult? && AllResults(items[k + 1..end]))
  {
    assert forall i :: start <= i < end ==> items[i] == items[start..end][i - start];
  }

  /** The list in which the run that ends at `end` has been visited down to index `k`. */
  ghost function DoneFrom(items: seq<Item>, k: nat, end: nat): seq<Item>
    requires k <= end <= |items| && AllResults(items[k..end])
  {
    items[..k] + (KeepLast(items[k..end]) + items[end..])
  }

  lemma NothingDone(items: seq<Item>, end: nat)
    requires end <= |items|
    ensures AllResults(items[end..end]) && DoneFrom(items, end, end) == items
  {
    assert items[end..end] == [];
    Halves(items, end);
  }

  /** Visiting index `k` of a run whose part behind `k` is done. */
  lemma RemoveStep(items: seq<Item>, k: nat, end: nat)
    requires k < end <= |items| && items[k].ToolResult? && AllResults(items[k + 1..end]) && AllResults(items[k..end])
    ensures var conv := DoneFrom(items, k + 1, end);
      && |conv| > k
      && DoneFrom(items, k, end)
         == if ComesAgain(items, k, end) then conv[..k] + conv[k + 1..] else conv
  {
    AgainInRun(items, k, end);
    var x, rest := items[k], items[k + 1..end];
    assert items[k..end] == [x] + rest;
    Cons(x, rest);
    CutOne(items, k);
    Shift(items[..k], x, KeepLast(rest) + items[end..]);
    DropAt(items[..k], x, KeepLast(rest) + items[end..]);
    Assoc([x], KeepLast(rest), items[end..]);
  }

  lemma DropAt(front: seq<Item>, x: Item, tail: seq<Item>)
    ensures var all := front + ([x] + tail); all[..|front|] + all[|front| + 1..] == front + tail
  {
  }

  /** One visit of the assistant item at `i`: remove duplicates from its run, or step past the run if there are none. */
  method DedupVisit(items: seq<Item>, i: nat) returns (conv: seq<Item>, next: nat)
    requires i < |items| && HasCalls(items[i])
    ensures (|conv| < |items| && next == i) || (conv == items && i < next <= |items|)
    ensures next <= |conv| && conv[..next] + Dedup(conv[next..]) == items[..i] + Dedup(items[i..])
  {
    var end := ScanRun(items, i + 1);
    assert items[i + 1..end] == items[i + 1..][..end - i - 1];
    var marked := MarkDuplicates(items, i + 1, end);
    if marked != {} {
      var count;
      conv, count := RemoveMarked(items, i + 1, end, marked);
      next := i;
      VisitRemoved(items, i, end, conv);
    } else {
      UnmarkedIsDistinct(items, i + 1, end);
      conv, next := items, end;
      VisitClean(items, i, end);
    }
  }

  /** Stepping past a run without duplicates. */
  lemma VisitClean(items: seq<Item>, i: nat, end: nat)
    requires i < |items| && HasCalls(items[i]) && end == i + 1 + RunLen(items[i + 1..])
    requires AllResults(items[i + 1..end]) && Distinct(items[i + 1..end])
    ensures items[..end] + Dedup(items[end..]) == items[..i] + Dedup(items[i..])
  {
    BlockAt(items, i, end);
    KeepLastDistinct(items[i + 1..end]);
    CutRun(items, i, end);
    Glue(items[..i], items[..end], items[i], items[i + 1..end], Dedup(items[end..]), Dedup(items[i..]));
  }

  /** Removing the duplicates of a run changes nothing that is still to come. */
  lemma VisitRemoved(items: seq<Item>, i: nat, end: nat, conv: seq<Item>)
    requires i < |items| && HasCalls(items[i]) && end == i + 1 + RunLen(items[i + 1..])
    requires AllResults(items[i + 1..end])
    requires conv == items[..i + 1] + (KeepLast(items[i + 1..end]) + items[end..])
    ensures conv[..i] == items[..i] && Dedup(conv[i..]) == Dedup(items[i..])
  {
    var head, run, rest := items[i], items[i + 1..end], items[end..];
    var tail := [head] + (KeepLast(run) + rest);
    CutOne(items, i);
    Shift(items[..i], head, KeepLast(run) + rest);
    assert conv == items[..i] + tail;
    assert conv[..i] == items[..i] && conv[i..] == tail;
    assert Dedup(tail) == [head] + (KeepLast(KeepLast(run)) + Dedup(rest)) by {
      OnBlock(tail, head, KeepLast(run), rest);
    }
    assert KeepLast(KeepLast(run)) == KeepLast(run) by {
      KeepLastDistinct(run);
      KeepLastDistinct(KeepLast(run));
    }
    assert Dedup(items[i..]) == [head] + (KeepLast(run) + Dedup(rest)) by {
      BlockAt(items, i, end);
    }
  }

  lemma PassOver(conv: seq<Item>, i: nat)
    requires i < |conv| && !HasCalls(conv[i])
    ensures conv[..i + 1] + Dedup(conv[i + 1..]) == conv[..i] + Dedup(conv[i..])
  {
    CutOne(conv, i);
    Shift(conv[..i], conv[i], Dedup(conv[i + 1..]));
  }

  /** Duplicate removal. A run is visited again after a removal, as in the program. */
  method DedupDuplicateToolResults(items: seq<Item>) returns (conv: seq<Item>, removed: nat)
    ensures conv == Dedup(items) && removed + |conv| == |items|
    ensures LastResultsIn(items, conv)
  {
    conv, removed := items, 0;
    var i: nat := 0;
    while i < |conv|
      invariant i <= |conv| && conv[..i] + Dedup(conv[i..]) == Dedup(items)
      invariant removed + |conv| == |items|
      decreases |conv|, |conv| - i
    {
      if HasCalls(conv[i]) {
        var visited, next := DedupVisit(conv, i);
        removed := removed + (|conv| - |visited|);
        conv, i := visited, next;
      } else {
        PassOver(conv, i);
        i := i + 1;
      }
    }
    assert conv[i..] == [] && conv[..i] == conv;
    DedupOrder(items);
  }

  lemma BlockAt(conv: seq<Item>, i: nat, end: nat)
    requires i < |conv| && HasCalls(conv[i]) && end == i + 1 + RunLen(conv[i + 1..])
    ensures AllResults(conv[i + 1..end]) && Block(conv[i..], conv[i], conv[i + 1..end], conv[end..])
    ensures Dedup(conv[i..]) == [conv[i]] + (KeepLast(conv[i + 1..end]) + Dedup(conv[end..]))
    ensures Backfill(conv[i..])
         == [conv[i]]
            + ((conv[i + 1..end] + Synthetic(conv[i].calls, RunIds(conv[i + 1..end]))) + Backfill(conv[end..]))
  {
    var n := RunLen(conv[i + 1..]);
    assert conv[i + 1..][..n] == conv[i + 1..end] && conv[i + 1..][n..] == conv[end..];
    assert conv[i..] == [conv[i]] + (conv[i + 1..end] + conv[end..]);
    OnBlock(conv[i..], conv[i], conv[i + 1..end], conv[end..]);
  }

  lemma UnmarkedIsDistinct(conv: seq<Item>, start: nat, end: nat)
    requires start <= end <= |conv| && AllResults(conv[start..end])
    requires forall k :: start <= k < end ==> !ComesAgain(conv, k, end)
    ensures Distinct(conv[start..end])
  {
    var run := conv[start..end];
    forall i, j | 0 <= i < j < |run|
      ensures run[i].callId != run[j].callId
    {
      assert run[i] == conv[start + i] && run[j] == conv[start + j];
      assert !ComesAgain(conv, start + i, end);
    }
  }

  /** Insert the recorded groups from the last position to the first. */
  function Splice(conv: seq<Item>, repairs: seq<(nat, seq<Item>)>): seq<Item>
    requires forall r :: r in repairs ==> r.0 <= |conv|
    decreases |repairs|
  {
    if repairs == [] then conv
    else
      var r := repairs[|repairs| - 1];
      assert r in repairs;
      Splice(conv[..r.0] + r.1 + conv[r.0..], repairs[..|repairs| - 1])
  }

  /** Repairs in front of `x`'s end leave what follows `x` alone. */
  lemma {:induction false} SpliceFrame(x: seq<Item>, y: seq<Item>, repairs: seq<(nat, seq<Item>)>)
    requires forall r :: r in repairs ==> r.0 <= |x|
    ensures Splice(x + y, repairs) == Splice(x, repairs) + y
    decreases |repairs|
  {
    if repairs != [] {
      var r := repairs[|repairs| - 1];
      assert r in repairs;
      var x' := x[..r.0] + r.1 + x[r.0..];
      assert (x + y)[..r.0] + r.1 + (x + y)[r.0..] == x' + y;
      SpliceFrame(x', y, repairs[..|repairs| - 1]);
    }
  }

  /** One visit of the assistant item at `i`: record the results its run lacks. */
  method RecordVisit(items: seq<Item>, i: nat, repairs: seq<(nat, seq<Item>)>)
    returns (recorded: seq<(nat, seq<Item>)>, next: nat)
    requires i < |items| && HasCalls(items[i])
    requires forall r :: r in repairs ==> r.0 <= i
    ensures i < next <= |items| && forall r :: r in recorded ==> r.0 <= next
    ensures Splice(items[..next], recorded) + Backfill(items[next..])
         == Splice(items[..i], repairs) + Backfill(items[i..])
  {
    next := ScanRun(items, i + 1);
    assert items[i + 1..next] == items[i + 1..][..next - i - 1];
    var synthetic := Synthetic(items[i].calls, RunIds(items[i + 1..next]));
    RecordStep(items, i, next, repairs, synthetic);
    recorded := if synthetic == [] then repairs else repairs + [(next, synthetic)];
  }

  /** Backfilling: first record all insertions, then apply them in reverse order. */
  method RepairDanglingToolCalls(items: seq<Item>) returns (conv: seq<Item>, inserted: nat)
    ensures conv == Backfill(items) && |conv| == |items| + inserted
    ensures CompletedIn(items, conv)
  {
    var repairs: seq<(nat, seq<Item>)> := [];
    var i: nat := 0;
    while i < |items|
      invariant i <= |items| && forall r :: r in repairs ==> r.0 <= i
      invariant Splice(items[..i], repairs) + Backfill(items[i..]) == Backfill(items)
    {
      if HasCalls(items[i]) {
        repairs, i := RecordVisit(items, i, repairs);
      } else {
        StepOver(items, i, repairs);
        i := i + 1;
      }
    }
    AllVisited(items, repairs);
    conv, inserted := ApplyRepairs(items, repairs);
    BackfillOrder(items);
  }

  lemma AllVisited(items: seq<Item>, repairs: seq<(nat, seq<Item>)>)
    requires forall r :: r in repairs ==> r.0 <= |items|
    requires Splice(items[..|items|], repairs) + Backfill(items[|items|..]) == Backfill(items)
    ensures Splice(items, repairs) == Backfill(items)
  {
    assert items[..|items|] == items && items[|items|..] == [];
  }

  method ApplyRepairs(items: seq<Item>, repairs: seq<(nat, seq<Item>)>) returns (conv: seq<Item>, inserted: nat)
    requires forall r :: r in repairs ==> r.0 <= |items|
    ensures conv == Splice(items, repairs) && |conv| == |items| + inserted
  {
    conv, inserted := items, 0;
    var left: seq<(nat, seq<Item>)> := repairs;
    while left != []
      invariant forall r :: r in left ==> r.0 <= |conv|
      invariant Splice(conv, left) == Splice(items, repairs) && |conv| == |items| + inserted
      decreases |left|
    {
      var r := left[|left| - 1];
      assert r in left;
      conv, inserted, left := conv[..r.0] + r.1 + conv[r.0..], inserted + |r.1|, left[..|left| - 1];
    }
  }

  /** Recording the insertion for one run extends the finished part by the answered run. */
  lemma RecordStep(items: seq<Item>, i: nat, j: nat, repairs: seq<(nat, seq<Item>)>, synthetic: seq<Item>)
    requires i < |items| && HasCalls(items[i]) && j == i + 1 + RunLen(items[i + 1..])
    requires forall r :: r in repairs ==> r.0 <= i
    requires AllResults(items[i + 1..j]) && synthetic == Synthetic(items[i].calls, RunIds(items[i + 1..j]))
    ensures forall r :: r in repairs + [(j, synthetic)] ==> r.0 <= j
    ensures var recorded := if synthetic == [] then repairs else repairs + [(j, synthetic)];
      Splice(items[..j], recorded) + Backfill(items[j..]) == Splice(items[..i], repairs) + Backfill(items[i..])
  {
    var head, run, rest := items[i], items[i + 1..j], Backfill(items[j..]);
    var front := Splice(items[..i], repairs);
    assert Backfill(items[i..]) == [head] + ((run + synthetic) + rest) by {
      BlockAt(items, i, j);
    }
    var recorded := if synthetic == [] then repairs else repairs + [(j, synthetic)];
    CutRun(items, i, j);
    SpliceExtend(items[..i], head, run, synthetic, repairs);
    Glue(front, Splice(items[..j], recorded), head, run + synthetic, rest, Backfill(items[i..]));
  }

  lemma StepOver(items: seq<Item>, i: nat, repairs: seq<(nat, seq<Item>)>)
    requires i < |items| && !HasCalls(items[i])
    requires forall r :: r in repairs ==> r.0 <= i
    ensures Splice(items[..i + 1], repairs) + Backfill(items[i + 1..])
         == Splice(items[..i], repairs) + Backfill(items[i..])
  {
    CutOne(items, i);
    SpliceFrame(items[..i], [items[i]], repairs);
    Shift(Splice(items[..i], repairs), items[i], Backfill(items[i + 1..]));
  }

  lemma SpliceExtend(x: seq<Item>, head: Item, run: seq<Item>, synthetic: seq<Item>, repairs: seq<(nat, seq<Item>)>)
    requires forall r :: r in repairs ==> r.0 <= |x|
    ensures var y := x + ([head] + run);
      && (forall r :: r in repairs + [(|y|, synthetic)] ==> r.0 <= |y|)
      && (synthetic == [] ==> Splice(y, repairs) == Splice(x, repairs) + ([head] + (run + synthetic)))
      && Splice(y, repairs + [(|y|, synthetic)]) == Splice(x, repairs) + ([head] + (run + synthetic))
  {
    var block := [head] + run;
    SpliceFrame(x, block, repairs);
    SpliceFrame(x, block + synthetic, repairs);
    SpliceLast(x + block, repairs, synthetic);
    assert x + block + synthetic == x + (block + synthetic);
    assert block + synthetic == [head] + (run + synthetic);
    assert synthetic == [] ==> block + synthetic == block;
  }

  lemma SpliceLast(x: seq<Item>, repairs: seq<(nat, seq<Item>)>, synthetic: seq<Item>)
    requires forall r :: r in repairs ==> r.0 <= |x|
    ensures (forall r :: r in repairs + [(|x|, synthetic)] ==> r.0 <= |x|)
      && Splice(x, repairs + [(|x|, synthetic)]) == Splice(x + synthetic, repairs)
  {
    var all := repairs + [(|x|, synthetic)];
    assert all[..|all| - 1] == repairs;
    assert x[..|x|] + synthetic + x[|x|..] == x + synthetic;
  }
}
