/** The three scans over tool results: validation, sanitizing and the stricter contiguous stripping. */
module ToolPairing {
  import opened Conversation
  import opened Sequences

  // ----- contiguous rule

  /** What remains when results outside the current run are dropped. */
  function StripFrom(run: set<string>, items: seq<Item>): seq<Item>
    decreases |items|
  {
    if items == [] then []
    else if items[0].ToolResult? && items[0].callId !in run then StripFrom(run, items[1..])
    else [items[0]] + StripFrom(NextRun(run, items[0]), items[1..])
  }

  /** The ids of the dropped results, in order. */
  function DisplacedIds(run: set<string>, items: seq<Item>): seq<string>
    decreases |items|
  {
    if items == [] then []
    else if items[0].ToolResult? && items[0].callId !in run then [items[0].callId] + DisplacedIds(run, items[1..])
    else DisplacedIds(NextRun(run, items[0]), items[1..])
  }

  method StripDisplacedToolResults(items: seq<Item>) returns (kept: seq<Item>, stripped: seq<string>)
    ensures kept == StripFrom({}, items) && stripped == DisplacedIds({}, items)
    ensures Paired(kept) && WithoutResults(kept) == WithoutResults(items)
    ensures stripped == [] <==> Paired(items)
    ensures Paired(items) ==> kept == items
    ensures |kept| + |stripped| == |items|
    ensures Picks(kept, items, 0, InOwnRun(items), Same) && Picks(stripped, items, 0, Displaced(items), HasId)
  {
    var runIds := {};
    kept, stripped := [], [];
    for i := 0 to |items|
      invariant kept + StripFrom(runIds, items[i..]) == StripFrom({}, items)
      invariant stripped + DisplacedIds(runIds, items[i..]) == DisplacedIds({}, items)
    {
      var item := items[i];
      CutOne(items, i);
      Shift(kept, item, StripFrom(NextRun(runIds, item), items[i + 1..]));
      match item {
        case Assistant(_, calls) =>
          runIds := Ids(calls);
          kept := kept + [item];
        case ToolResult(id, _, _) =>
          if id in runIds {
            kept := kept + [item];
          } else {
            Shift(stripped, id, DisplacedIds(runIds, items[i + 1..]));
            stripped := stripped + [id];
          }
        case _ =>
          runIds := {};
          kept := kept + [item];
      }
    }
    StripPairs({}, items);
    StripChangesNothing({}, items);
    StripCounts({}, items);
    StripKeepsOthers({}, items);
    StripPicks(items, 0);
    assert items[..0] == [] && items[0..] == items;
    PairedIsPairedFrom(items);
    PairedIsPairedFrom(kept);
  }

  lemma {:induction false} StripPairs(run: set<string>, items: seq<Item>)
    ensures PairedFrom(run, StripFrom(run, items))
    decreases |items|
  {
    if items != [] {
      StripPairs(if items[0].ToolResult? then run else NextRun(run, items[0]), items[1..]);
    }
  }

  /** Stripping finds nothing exactly on paired lists, and then it is the identity. */
  lemma {:induction false} StripChangesNothing(run: set<string>, items: seq<Item>)
    ensures DisplacedIds(run, items) == [] <==> PairedFrom(run, items)
    ensures PairedFrom(run, items) ==> StripFrom(run, items) == items
    decreases |items|
  {
    if items != [] {
      StripChangesNothing(NextRun(run, items[0]), items[1..]);
      assert items == [items[0]] + items[1..];
    }
  }

  lemma {:induction false} StripCounts(run: set<string>, items: seq<Item>)
    ensures |StripFrom(run, items)| + |DisplacedIds(run, items)| == |items|
    decreases |items|
  {
    if items != [] {
      StripCounts(NextRun(run, items[0]), items[1..]);
    }
  }

  lemma {:induction false} StripKeepsOthers(run: set<string>, items: seq<Item>)
    ensures WithoutResults(StripFrom(run, items)) == WithoutResults(items)
    decreases |items|
  {
    if items != [] {
      StripKeepsOthers(NextRun(run, items[0]), items[1..]);
    }
  }

  // ----- the contiguous rule, by position

  /** The result at `i` answers the assistant item from which only results separate it. */
  ghost predicate AnswersOwner(items: seq<Item>, i: nat) {
    i < |items| && items[i].ToolResult? && exists a: nat :: Owns(items, a, i) && items[i].callId in Ids(items[a].calls)
  }

  ghost function InOwnRun(items: seq<Item>): nat -> bool {
    (i: nat) => i < |items| && (items[i].ToolResult? ==> AnswersOwner(items, i))
  }

  ghost function Displaced(items: seq<Item>): nat -> bool {
    (i: nat) => i < |items| && items[i].ToolResult? && !AnswersOwner(items, i)
  }

  predicate HasId(item: Item, id: string) { item.ToolResult? && item.callId == id }

  /** The pass keeps exactly the items in place and reports exactly the displaced results, both in order. */
  lemma {:induction false} StripPicks(items: seq<Item>, i: nat)
    requires i <= |items|
    ensures var run := RunAfter({}, items[..i]);
      && Picks(StripFrom(run, items[i..]), items, i, InOwnRun(items), Same)
      && Picks(DisplacedIds(run, items[i..]), items, i, Displaced(items), HasId)
    decreases |items| - i
  {
    if i < |items| {
      var run, x, rest := RunAfter({}, items[..i]), items[i], items[i + 1..];
      CutOne(items, i);
      RunAfterConcat({}, items[..i], [x]);
      assert RunAfter(run, [x]) == NextRun(run, x);
      StripPicks(items, i + 1);
      if x.ToolResult? {
        RunAfterIs(items, i, x.callId);
        Cons(x.callId, DisplacedIds(run, rest));
      }
      Cons(x, StripFrom(NextRun(run, x), rest));
      PicksMore(StripFrom(run, items[i..]), items, i, InOwnRun(items), Same);
      PicksMore(DisplacedIds(run, items[i..]), items, i, Displaced(items), HasId);
    }
  }

  // ----- the weaker rule: the id was declared somewhere before

  ghost predicate DeclaredBefore(items: seq<Item>, i: nat, id: string)
    requires i <= |items|
  {
    exists a: nat :: a < i && items[a].Assistant? && id in Ids(items[a].calls)
  }

  /** Every result has a matching preceding call. */
  ghost predicate Answering(items: seq<Item>) {
    forall i :: 0 <= i < |items| && items[i].ToolResult? ==> DeclaredBefore(items, i, items[i].callId)
  }

  function Seen(seen: set<string>, item: Item): set<string> {
    if item.Assistant? then seen + Ids(item.calls) else seen
  }

  function OrphanIds(seen: set<string>, items: seq<Item>): seq<string>
    decreases |items|
  {
    if items == [] then []
    else if items[0].ToolResult? && items[0].callId !in seen then [items[0].callId] + OrphanIds(seen, items[1..])
    else OrphanIds(Seen(seen, items[0]), items[1..])
  }

  function SanitizeFrom(seen: set<string>, items: seq<Item>): seq<Item>
    decreases |items|
  {
    if items == [] then []
    else if items[0].ToolResult? && items[0].callId !in seen then SanitizeFrom(seen, items[1..])
    else [items[0]] + SanitizeFrom(Seen(seen, items[0]), items[1..])
  }

  method ValidateCompactedHistory(items: seq<Item>) returns (invalid: seq<string>)
    ensures invalid == OrphanIds({}, items)
    ensures invalid == [] <==> Answering(items)
    ensures Picks(invalid, items, 0, Orphaned(items), HasId)
  {
    var seen := {};
    invalid := [];
    for i := 0 to |items|
      invariant invalid + OrphanIds(seen, items[i..]) == OrphanIds({}, items)
    {
      CutOne(items, i);
      match items[i] {
        case Assistant(_, calls) => seen := seen + Ids(calls);
        case ToolResult(id, _, _) =>
          if id !in seen {
            Shift(invalid, id, OrphanIds(seen, items[i + 1..]));
            invalid := invalid + [id];
          }
        case _ =>
      }
    }
    OrphansDecideAnswering(items, 0, {});
    SanitizePicks(items);
  }

  method SanitizeCompactedHistory(items: seq<Item>) returns (kept: seq<Item>, stripped: seq<string>)
    ensures kept == SanitizeFrom({}, items)
    ensures stripped == OrphanIds({}, items)
    ensures Answering(kept) && WithoutResults(kept) == WithoutResults(items)
    ensures Answering(items) ==> kept == items && stripped == []
    ensures Picks(kept, items, 0, Called(items), Same) && Picks(stripped, items, 0, Orphaned(items), HasId)
    ensures |kept| + |stripped| == |items|
  {
    var seen := {};
    kept, stripped := [], [];
    for i := 0 to |items|
      invariant kept + SanitizeFrom(seen, items[i..]) == SanitizeFrom({}, items)
      invariant stripped + OrphanIds(seen, items[i..]) == OrphanIds({}, items)
    {
      CutOne(items, i);
      Shift(kept, items[i], SanitizeFrom(Seen(seen, items[i]), items[i + 1..]));
      match items[i] {
        case Assistant(_, calls) =>
          seen := seen + Ids(calls);
          kept := kept + [items[i]];
        case ToolResult(id, _, _) =>
          if id in seen {
            kept := kept + [items[i]];
          } else {
            Shift(stripped, id, OrphanIds(seen, items[i + 1..]));
            stripped := stripped + [id];
          }
        case _ => kept := kept + [items[i]];
      }
    }
    SanitizeIsSound(items);
    SanitizeCounts({}, items);
    SanitizePicks(items);
  }

  /** Not a result, or a result with an earlier call. */
  ghost function Called(items: seq<Item>): nat -> bool {
    (i: nat) => i < |items| && (items[i].ToolResult? ==> DeclaredBefore(items, i, items[i].callId))
  }

  ghost function Orphaned(items: seq<Item>): nat -> bool {
    (i: nat) => i < |items| && items[i].ToolResult? && !DeclaredBefore(items, i, items[i].callId)
  }

  lemma DeclaredNext(items: seq<Item>, i: nat, seen: set<string>)
    requires i < |items| && forall id :: id in seen <==> DeclaredBefore(items, i, id)
    ensures forall id :: id in Seen(seen, items[i]) <==> DeclaredBefore(items, i + 1, id)
  {
    assert forall id :: DeclaredBefore(items, i + 1, id) <==>
      DeclaredBefore(items, i, id) || (items[i].Assistant? && id in Ids(items[i].calls));
  }

  lemma {:induction false} KeptPicks(items: seq<Item>, i: nat, seen: set<string>)
    requires i <= |items| && forall id :: id in seen <==> DeclaredBefore(items, i, id)
    ensures Picks(SanitizeFrom(seen, items[i..]), items, i, Called(items), Same)
    decreases |items| - i
  {
    if i < |items| {
      CutOne(items, i);
      DeclaredNext(items, i, seen);
      KeptPicks(items, i + 1, Seen(seen, items[i]));
      Cons(items[i], SanitizeFrom(Seen(seen, items[i]), items[i + 1..]));
      PicksMore(SanitizeFrom(seen, items[i..]), items, i, Called(items), Same);
    }
  }

  lemma {:induction false} OrphanPicks(items: seq<Item>, i: nat, seen: set<string>)
    requires i <= |items| && forall id :: id in seen <==> DeclaredBefore(items, i, id)
    ensures Picks(OrphanIds(seen, items[i..]), items, i, Orphaned(items), HasId)
    decreases |items| - i
  {
    if i < |items| {
      var x, rest := items[i], items[i + 1..];
      CutOne(items, i);
      DeclaredNext(items, i, seen);
      OrphanPicks(items, i + 1, Seen(seen, x));
      if x.ToolResult? {
        Cons(x.callId, OrphanIds(seen, rest));
      }
      PicksMore(OrphanIds(seen, items[i..]), items, i, Orphaned(items), HasId);
    }
  }

  /** Sanitizing keeps exactly the items that are no orphans; it and validation report exactly the orphans, in order. */
  lemma SanitizePicks(items: seq<Item>)
    ensures Picks(SanitizeFrom({}, items), items, 0, Called(items), Same)
    ensures Picks(OrphanIds({}, items), items, 0, Orphaned(items), HasId)
  {
    assert items[0..] == items;
    KeptPicks(items, 0, {});
    OrphanPicks(items, 0, {});
  }

  lemma {:induction false} SanitizeCounts(seen: set<string>, items: seq<Item>)
    ensures |SanitizeFrom(seen, items)| + |OrphanIds(seen, items)| == |items|
    decreases |items|
  {
    if items != [] {
      SanitizeCounts(Seen(seen, items[0]), items[1..]);
    }
  }

  lemma SanitizeIsSound(items: seq<Item>)
    ensures var kept := SanitizeFrom({}, items);
      && Answering(kept) && WithoutResults(kept) == WithoutResults(items)
      && (Answering(items) ==> kept == items && OrphanIds({}, items) == [])
  {
    var kept := SanitizeFrom({}, items);
    SanitizeCleans({}, items);
    OrphansDecideAnswering(items, 0, {});
    OrphansDecideAnswering(kept, 0, {});
    assert items[0..] == items && kept[0..] == kept;
  }

  /** The scan from item `i` on, with the ids declared before `i`, finds the unanswered results behind it. */
  lemma {:induction false} OrphansDecideAnswering(items: seq<Item>, i: nat, seen: set<string>)
    requires i <= |items| && forall id :: id in seen <==> DeclaredBefore(items, i, id)
    ensures OrphanIds(seen, items[i..]) == [] <==>
      forall k :: i <= k < |items| && items[k].ToolResult? ==> DeclaredBefore(items, k, items[k].callId)
    decreases |items| - i
  {
    if i < |items| {
      assert items[i..] == [items[i]] + items[i + 1..];
      DeclaredNext(items, i, seen);
      OrphansDecideAnswering(items, i + 1, Seen(seen, items[i]));
    }
  }

  lemma {:induction false} SanitizeCleans(seen: set<string>, items: seq<Item>)
    ensures OrphanIds(seen, SanitizeFrom(seen, items)) == []
    ensures WithoutResults(SanitizeFrom(seen, items)) == WithoutResults(items)
    ensures OrphanIds(seen, items) == [] ==> SanitizeFrom(seen, items) == items
    decreases |items|
  {
    if items != [] {
      SanitizeCleans(Seen(seen, items[0]), items[1..]);
    }
  }

  /** A contiguously paired list is valid under the weaker rule, so sanitizing leaves it alone. */
  lemma {:induction false} PairedHasNoOrphans(run: set<string>, seen: set<string>, items: seq<Item>)
    requires run <= seen && PairedFrom(run, items)
    ensures OrphanIds(seen, items) == []
    decreases |items|
  {
    if items != [] {
      PairedHasNoOrphans(NextRun(run, items[0]), Seen(seen, items[0]), items[1..]);
    }
  }

  /** The strict pass leaves nothing for the weak one. */
  lemma StrippedIsSanitized(items: seq<Item>)
    ensures var kept := StripFrom({}, items);
      OrphanIds({}, kept) == [] && SanitizeFrom({}, kept) == kept && StripFrom({}, kept) == kept
  {
    var kept := StripFrom({}, items);
    StripPairs({}, items);
    StripChangesNothing({}, kept);
    PairedHasNoOrphans({}, {}, kept);
    SanitizeCleans({}, kept);
  }
}
