/** The billing ledger: saturating totals, overall and per model. */
module Usage {
  import opened Text
  import opened Sequences
  import opened Machine

  const I64_MAX: int := 0x7FFF_FFFF_FFFF_FFFF
  const I64_MIN: int := -0x8000_0000_0000_0000

  type U64 = n: nat | n <= U64_MAX
  type U32 = n: nat | n <= 0xFFFF_FFFF
  type I64 = n: int | I64_MIN <= n <= I64_MAX

  function SatAdd(a: U64, b: U64): U64 { if a + b <= U64_MAX then a + b else U64_MAX }

  function SatAddSigned(a: I64, b: I64): I64 {
    if a + b > I64_MAX then I64_MAX else if a + b < I64_MIN then I64_MIN else a + b
  }

  datatype Totals = Totals(
    inputTokens: U64, outputTokens: U64, cachedReadTokens: U64, reasoningTokens: U64,
    modelCalls: U64, apiDurationMs: U64, cost: Option<I64>, costMissingCalls: U64)

  const ZERO := Totals(0, 0, 0, 0, 0, 0, None, 0)

  function MergeCost(a: Option<I64>, b: Option<I64>): Option<I64> {
    if a.None? && b.None? then None
    else Some(SatAddSigned(if a.Some? then a.value else 0, if b.Some? then b.value else 0))
  }

  function FoldTotals(a: Totals, b: Totals): Totals {
    Totals(
      SatAdd(a.inputTokens, b.inputTokens), SatAdd(a.outputTokens, b.outputTokens),
      SatAdd(a.cachedReadTokens, b.cachedReadTokens), SatAdd(a.reasoningTokens, b.reasoningTokens),
      SatAdd(a.modelCalls, b.modelCalls), SatAdd(a.apiDurationMs, b.apiDurationMs),
      MergeCost(a.cost, b.cost), SatAdd(a.costMissingCalls, b.costMissingCalls))
  }

  datatype TokenUsage = TokenUsage(prompt: U32, completion: U32, reasoning: U32, cachedPrompt: U32)

  /** One model call. A cost of zero or less counts as not reported. */
  function FromCall(usage: TokenUsage, apiDurationMs: Option<U64>, cost: Option<I64>): (t: Totals)
    ensures t.modelCalls == 1 && NonNegative(t)
    ensures t.cost.Some? <==> t.costMissingCalls == 0
  {
    var reported := if cost.Some? && cost.value > 0 then cost else None;
    Totals(usage.prompt, usage.completion, usage.cachedPrompt, usage.reasoning, 1,
           if apiDurationMs.Some? then apiDurationMs.value else 0, reported, if reported.None? then 1 else 0)
  }

  // ----- the ledger

  /** One entry of the per-model map, which keeps insertion order. */
  datatype Entry = Entry(model: string, totals: Totals)

  datatype Ledger = Ledger(totals: Totals, byModel: seq<Entry>, mainLoopCalls: U64, incomplete: bool)

  const EMPTY := Ledger(ZERO, [], 0, false)

  function IndexOf(entries: seq<Entry>, model: string): (r: Option<nat>)
    ensures r.Some? ==> r.value < |entries| && entries[r.value].model == model
    ensures r.None? ==> forall i :: 0 <= i < |entries| ==> entries[i].model != model
  {
    if entries == [] then None
    else if entries[|entries| - 1].model == model then Some(|entries| - 1)
    else IndexOf(entries[..|entries| - 1], model)
  }

  function FoldInto(entries: seq<Entry>, e: Entry): seq<Entry> {
    match IndexOf(entries, e.model)
    case Some(i) => entries[i := Entry(e.model, FoldTotals(entries[i].totals, e.totals))]
    case None => entries + [Entry(e.model, FoldTotals(ZERO, e.totals))]
  }

  function FoldEntry(l: Ledger, e: Entry): Ledger {
    l.(totals := FoldTotals(l.totals, e.totals), byModel := FoldInto(l.byModel, e))
  }

  function FoldEntries(l: Ledger, es: seq<Entry>): Ledger {
    if es == [] then l else FoldEntry(FoldEntries(l, es[..|es| - 1]), es[|es| - 1])
  }

  datatype Call =
    | MainLoop(model: string, call: Totals)
    | Subagent(entries: seq<Entry>, isIncomplete: bool)
    | MarkIncomplete

  function Folds(c: Call): seq<Entry> {
    match c
    case MainLoop(model, call) => [Entry(model, call)]
    case Subagent(entries, _) => entries
    case MarkIncomplete => []
  }

  function Apply(l: Ledger, c: Call): Ledger {
    var l' := FoldEntries(l, Folds(c));
    match c
    case MainLoop(_, _) => l'.(mainLoopCalls := SatAdd(l.mainLoopCalls, 1))
    case Subagent(_, isIncomplete) => if isIncomplete then l'.(incomplete := true) else l'
    case MarkIncomplete => l'.(incomplete := true)
  }

  function Run(calls: seq<Call>): Ledger {
    if calls == [] then EMPTY else Apply(Run(calls[..|calls| - 1]), calls[|calls| - 1])
  }

  class UsageLedger {
    var totals: Totals
    var byModel: seq<Entry>
    var mainLoopModelCalls: U64
    var incomplete: bool

    ghost function View(): Ledger
      reads this
    {
      Ledger(totals, byModel, mainLoopModelCalls, incomplete)
    }

    constructor ()
      ensures View() == EMPTY
    {
      totals, byModel, mainLoopModelCalls, incomplete := ZERO, [], 0, false;
    }

    method Fold(model: string, call: Totals)
      modifies this
      ensures View() == FoldEntry(old(View()), Entry(model, call))
    {
      totals := FoldTotals(totals, call);
      byModel := FoldInto(byModel, Entry(model, call));
    }

    method RecordMainLoopCall(model: string, usage: TokenUsage, apiDurationMs: Option<U64>, cost: Option<I64>)
      modifies this
      ensures View() == Apply(old(View()), MainLoop(model, FromCall(usage, apiDurationMs, cost)))
    {
      var call := FromCall(usage, apiDurationMs, cost);
      mainLoopModelCalls := SatAdd(mainLoopModelCalls, 1);
      Fold(model, call);
      FoldOne(old(View()), Entry(model, call));
    }

    method RecordSubagent(entries: seq<Entry>, isIncomplete: bool)
      modifies this
      ensures View() == Apply(old(View()), Subagent(entries, isIncomplete))
    {
      for i := 0 to |entries|
        invariant View() == FoldEntries(old(View()), entries[..i])
      {
        assert entries[..i + 1][..i] == entries[..i];
        Fold(entries[i].model, entries[i].totals);
      }
      assert entries[..|entries|] == entries;
      if isIncomplete {
        incomplete := true;
      }
    }

    method Mark()
      modifies this
      ensures View() == Apply(old(View()), MarkIncomplete)
    {
      incomplete := true;
    }
  }

  lemma FoldOne(l: Ledger, e: Entry)
    ensures FoldEntries(l, [e]) == FoldEntry(l, e)
  {
    assert [e][..0] == [];
  }

  // ----- amounts

  datatype Measure =
    InputTokens | OutputTokens | CachedReads | ReasoningTokens | ModelCalls | ApiDuration | CostMissing | CostTicks

  predicate NonNegative(t: Totals) { t.cost.Some? ==> t.cost.value >= 0 }

  function Amount(t: Totals, m: Measure): nat
    requires NonNegative(t)
  {
    match m
    case InputTokens => t.inputTokens
    case OutputTokens => t.outputTokens
    case CachedReads => t.cachedReadTokens
    case ReasoningTokens => t.reasoningTokens
    case ModelCalls => t.modelCalls
    case ApiDuration => t.apiDurationMs
    case CostMissing => t.costMissingCalls
    case CostTicks => if t.cost.Some? then t.cost.value else 0
  }

  function Cap(m: Measure): nat { if m.CostTicks? then I64_MAX else U64_MAX }

  function AtMost(cap: nat, n: nat): nat { if n <= cap then n else cap }

  lemma FoldAmount(a: Totals, b: Totals, m: Measure)
    requires NonNegative(a) && NonNegative(b)
    ensures NonNegative(FoldTotals(a, b)) && Amount(a, m) <= Cap(m)
    ensures Amount(FoldTotals(a, b), m) == AtMost(Cap(m), Amount(a, m) + Amount(b, m))
    ensures FoldTotals(a, b).cost.Some? <==> a.cost.Some? || b.cost.Some?
  {
  }

  /** Totals are determined by their amounts and by whether any cost was reported. */
  lemma SameAmounts(a: Totals, b: Totals)
    requires NonNegative(a) && NonNegative(b) && (a.cost.Some? <==> b.cost.Some?)
    requires forall m: Measure :: Amount(a, m) == Amount(b, m)
    ensures a == b
  {
    assert Amount(a, InputTokens) == Amount(b, InputTokens) && Amount(a, OutputTokens) == Amount(b, OutputTokens);
    assert Amount(a, CachedReads) == Amount(b, CachedReads) && Amount(a, ReasoningTokens) == Amount(b, ReasoningTokens);
    assert Amount(a, ModelCalls) == Amount(b, ModelCalls) && Amount(a, ApiDuration) == Amount(b, ApiDuration);
    assert Amount(a, CostMissing) == Amount(b, CostMissing) && Amount(a, CostTicks) == Amount(b, CostTicks);
  }

  // ----- totals are the saturating sum of the entries

  predicate AllNonNegative(es: seq<Entry>) {
    forall i :: 0 <= i < |es| ==> NonNegative(es[i].totals)
  }

  function SumAmounts(es: seq<Entry>, m: Measure): nat
    requires AllNonNegative(es)
  {
    if es == [] then 0 else SumAmounts(es[..|es| - 1], m) + Amount(es[|es| - 1].totals, m)
  }

  ghost predicate Balanced(l: Ledger) {
    && NonNegative(l.totals) && AllNonNegative(l.byModel)
    && (forall m: Measure :: Amount(l.totals, m) == AtMost(Cap(m), SumAmounts(l.byModel, m)))
    && (l.totals.cost.Some? <==> exists i :: 0 <= i < |l.byModel| && l.byModel[i].totals.cost.Some?)
    && l.mainLoopCalls <= l.totals.modelCalls
  }

  lemma {:induction false} SumUpdate(es: seq<Entry>, i: nat, e: Entry, m: Measure)
    requires AllNonNegative(es) && i < |es| && NonNegative(e.totals)
    ensures AllNonNegative(es[i := e])
    ensures SumAmounts(es[i := e], m) == SumAmounts(es, m) - Amount(es[i].totals, m) + Amount(e.totals, m)
    ensures Amount(es[i].totals, m) <= SumAmounts(es, m)
  {
    var n := |es| - 1;
    if i == n {
      assert es[i := e][..n] == es[..n];
    } else {
      SumUpdate(es[..n], i, e, m);
      assert es[i := e][..n] == es[..n][i := e];
    }
  }

  lemma FoldIntoSums(es: seq<Entry>, e: Entry, m: Measure)
    requires AllNonNegative(es) && NonNegative(e.totals)
    ensures AllNonNegative(FoldInto(es, e))
    ensures AtMost(Cap(m), SumAmounts(FoldInto(es, e), m))
         == AtMost(Cap(m), AtMost(Cap(m), SumAmounts(es, m)) + Amount(e.totals, m))
  {
    match IndexOf(es, e.model)
    case Some(i) =>
      FoldAmount(es[i].totals, e.totals, m);
      SumUpdate(es, i, Entry(e.model, FoldTotals(es[i].totals, e.totals)), m);
    case None =>
      var last := Entry(e.model, FoldTotals(ZERO, e.totals));
      FoldAmount(ZERO, e.totals, m);
      FoldAmount(e.totals, e.totals, m);
      assert (es + [last])[..|es|] == es;
  }

  lemma FoldIntoReports(es: seq<Entry>, e: Entry)
    ensures (exists i :: 0 <= i < |FoldInto(es, e)| && FoldInto(es, e)[i].totals.cost.Some?) <==>
      e.totals.cost.Some? || exists i :: 0 <= i < |es| && es[i].totals.cost.Some?
  {
    var next := FoldInto(es, e);
    var k := match IndexOf(es, e.model) case Some(i) => i case None => |es|;
    assert next[k].totals.cost.Some? <==> e.totals.cost.Some? || (k < |es| && es[k].totals.cost.Some?);
    assert forall i :: 0 <= i < |es| && i != k ==> next[i] == es[i];
  }

  lemma FoldEntryBalanced(l: Ledger, e: Entry)
    requires Balanced(l) && NonNegative(e.totals)
    ensures Balanced(FoldEntry(l, e)) && FoldEntry(l, e).mainLoopCalls == l.mainLoopCalls
    ensures FoldEntry(l, e).totals.modelCalls == SatAdd(l.totals.modelCalls, e.totals.modelCalls)
  {
    forall m: Measure
      ensures AllNonNegative(FoldInto(l.byModel, e))
      ensures Amount(FoldEntry(l, e).totals, m) == AtMost(Cap(m), SumAmounts(FoldEntry(l, e).byModel, m))
    {
      FoldAmount(l.totals, e.totals, m);
      FoldIntoSums(l.byModel, e, m);
    }
    FoldIntoSums(l.byModel, e, InputTokens);
    FoldAmount(l.totals, e.totals, InputTokens);
    FoldIntoReports(l.byModel, e);
  }

  lemma {:induction false} FoldEntriesBalanced(l: Ledger, es: seq<Entry>)
    requires Balanced(l) && AllNonNegative(es)
    ensures var l' := FoldEntries(l, es);
      && Balanced(l') && l'.mainLoopCalls == l.mainLoopCalls && l'.incomplete == l.incomplete
      && l'.totals.modelCalls >= l.totals.modelCalls
  {
    if es != [] {
      var n := |es| - 1;
      FoldEntriesBalanced(l, es[..n]);
      FoldEntryBalanced(FoldEntries(l, es[..n]), es[n]);
    }
  }

  /** Main-loop calls come from the constructor of one call; subagents may report any non-negative totals. */
  predicate WellFormed(c: Call) {
    AllNonNegative(Folds(c)) && (c.MainLoop? ==> c.call.modelCalls == 1)
  }

  predicate AllWellFormed(calls: seq<Call>) {
    forall i :: 0 <= i < |calls| ==> WellFormed(calls[i])
  }

  lemma ApplyBalanced(l: Ledger, c: Call)
    requires Balanced(l) && WellFormed(c)
    ensures Balanced(Apply(l, c))
  {
    FoldEntriesBalanced(l, Folds(c));
    if c.MainLoop? {
      FoldOne(l, Folds(c)[0]);
      FoldEntryBalanced(l, Folds(c)[0]);
    }
  }

  /** Over every run, each total is the saturating sum of its per-model entries although both levels saturate, and
      main-loop calls never exceed model calls. */
  lemma {:induction false} RunBalanced(calls: seq<Call>)
    requires AllWellFormed(calls)
    ensures Balanced(Run(calls))
  {
    if calls != [] {
      var n := |calls| - 1;
      RunBalanced(calls[..n]);
      ApplyBalanced(Run(calls[..n]), calls[n]);
    }
  }

  lemma ApplyKeepsIncomplete(l: Ledger, c: Call)
    requires l.incomplete
    ensures Apply(l, c).incomplete
  {
    FoldEntriesFrame(l, Folds(c));
  }

  lemma RunNext(past: seq<Call>, c: Call)
    ensures Run(past + [c]) == Apply(Run(past), c)
  {
    SnocFront(past, c);
  }

  /** Incompleteness is never forgotten. */
  lemma {:induction false} IncompleteStays(calls: seq<Call>, k: nat)
    requires k <= |calls| && Run(calls[..k]).incomplete
    ensures Run(calls).incomplete
    decreases |calls| - k
  {
    if k == |calls| {
      assert calls[..k] == calls;
    } else {
      Snoc(calls, k);
      RunNext(calls[..k], calls[k]);
      ApplyKeepsIncomplete(Run(calls[..k]), calls[k]);
      IncompleteStays(calls, k + 1);
    }
  }

  // ----- the order of calls does not matter

  /** What a ledger keeps: overall totals, or those of one model. */
  datatype Sink = Everything | Only(model: string)

  predicate Goes(e: Entry, sink: Sink) { sink.Everything? || sink.model == e.model }

  function TotalsAt(l: Ledger, sink: Sink): Totals {
    match sink
    case Everything => l.totals
    case Only(model) =>
      match IndexOf(l.byModel, model)
      case Some(i) => l.byModel[i].totals
      case None => ZERO
  }

  /** What is counted about the entries of a call. */
  datatype Weight = Of(m: Measure) | Reported | Occurs

  function WeightOf(e: Entry, sink: Sink, w: Weight): nat
    requires NonNegative(e.totals)
  {
    if !Goes(e, sink) then 0
    else match w
      case Of(m) => Amount(e.totals, m)
      case Reported => if e.totals.cost.Some? then 1 else 0
      case Occurs => 1
  }

  function EntriesWeight(es: seq<Entry>, sink: Sink, w: Weight): nat
    requires AllNonNegative(es)
  {
    if es == [] then 0 else EntriesWeight(es[..|es| - 1], sink, w) + WeightOf(es[|es| - 1], sink, w)
  }

  function CallWeight(c: Call, sink: Sink, w: Weight): nat {
    if WellFormed(c) then EntriesWeight(Folds(c), sink, w) else 0
  }

  function Weigh(sink: Sink, w: Weight): Call -> nat {
    c => CallWeight(c, sink, w)
  }

  function SumCalls(calls: seq<Call>, f: Call -> nat): nat {
    if calls == [] then 0 else SumCalls(calls[..|calls| - 1], f) + f(calls[|calls| - 1])
  }

  /** Totals that have received amounts `weight(Of(m))` and `weight(Reported)` reports of cost. */
  ghost predicate TotalsHold(t: Totals, weight: Weight -> nat) {
    && NonNegative(t) && (forall m: Measure :: Amount(t, m) == AtMost(Cap(m), weight(Of(m))))
    && (t.cost.Some? <==> weight(Reported) > 0)
  }

  /** A ledger whose sink has received these, in `weight(Occurs)` entries. */
  ghost predicate Holds(l: Ledger, sink: Sink, weight: Weight -> nat) {
    && TotalsHold(TotalsAt(l, sink), weight)
    && (sink.Only? ==> (IndexOf(l.byModel, sink.model).Some? <==> weight(Occurs) > 0))
  }

  predicate UniqueModels(es: seq<Entry>) {
    forall i, j :: 0 <= i < j < |es| ==> es[i].model != es[j].model
  }

  lemma FindEntry(es: seq<Entry>, i: nat)
    requires UniqueModels(es) && i < |es|
    ensures IndexOf(es, es[i].model) == Some(i)
  {
  }

  lemma FoldIntoUnique(es: seq<Entry>, e: Entry)
    requires UniqueModels(es)
    ensures UniqueModels(FoldInto(es, e))
  {
  }

  /** Where a fold goes, and that it goes nowhere else. */
  lemma FoldAt(l: Ledger, e: Entry, sink: Sink)
    requires UniqueModels(l.byModel)
    ensures UniqueModels(FoldEntry(l, e).byModel)
    ensures TotalsAt(FoldEntry(l, e), sink)
      == if Goes(e, sink) then FoldTotals(TotalsAt(l, sink), e.totals) else TotalsAt(l, sink)
    ensures sink.Only? ==>
      (IndexOf(FoldEntry(l, e).byModel, sink.model).Some? <==>
       IndexOf(l.byModel, sink.model).Some? || e.model == sink.model)
  {
    FoldIntoUnique(l.byModel, e);
    if sink.Only? {
      var es, next := l.byModel, FoldInto(l.byModel, e);
      var k := match IndexOf(es, e.model) case Some(i) => i case None => |es|;
      FindEntry(next, k);
      if sink.model != e.model {
        match IndexOf(es, sink.model)
        case Some(i) =>
          assert next[i] == es[i];
          FindEntry(next, i);
        case None =>
          assert forall i :: 0 <= i < |next| ==> next[i].model != sink.model;
      }
    }
  }

  lemma AmountHolds(t: Totals, e: Totals, m: Measure, before: nat, after: nat)
    requires NonNegative(t) && NonNegative(e)
    requires Amount(t, m) == AtMost(Cap(m), before) && after == before + Amount(e, m)
    ensures NonNegative(FoldTotals(t, e)) && Amount(FoldTotals(t, e), m) == AtMost(Cap(m), after)
  {
    FoldAmount(t, e, m);
  }

  lemma FoldTotalsHold(t: Totals, e: Entry, sink: Sink, before: Weight -> nat, after: Weight -> nat)
    requires NonNegative(e.totals) && TotalsHold(t, before) && Goes(e, sink)
    requires forall w: Weight :: after(w) == before(w) + WeightOf(e, sink, w)
    ensures TotalsHold(FoldTotals(t, e.totals), after)
  {
    forall m: Measure
      ensures NonNegative(FoldTotals(t, e.totals))
      ensures Amount(FoldTotals(t, e.totals), m) == AtMost(Cap(m), after(Of(m)))
    {
      AmountHolds(t, e.totals, m, before(Of(m)), after(Of(m)));
    }
    FoldAmount(t, e.totals, InputTokens);
    assert after(Reported) == before(Reported) + WeightOf(e, sink, Reported);
  }

  lemma SameTotalsHold(t: Totals, before: Weight -> nat, after: Weight -> nat)
    requires TotalsHold(t, before) && forall w: Weight :: after(w) == before(w)
    ensures TotalsHold(t, after)
  {
    assert after(Reported) == before(Reported);
    forall m: Measure
      ensures Amount(t, m) == AtMost(Cap(m), after(Of(m)))
    {
      assert after(Of(m)) == before(Of(m));
    }
  }

  lemma FoldHolds(l: Ledger, e: Entry, sink: Sink, before: Weight -> nat, after: Weight -> nat)
    requires UniqueModels(l.byModel) && NonNegative(e.totals) && Holds(l, sink, before)
    requires forall w: Weight :: after(w) == before(w) + WeightOf(e, sink, w)
    ensures UniqueModels(FoldEntry(l, e).byModel) && Holds(FoldEntry(l, e), sink, after)
  {
    FoldAt(l, e, sink);
    assert after(Occurs) == before(Occurs) + WeightOf(e, sink, Occurs);
    if Goes(e, sink) {
      FoldTotalsHold(TotalsAt(l, sink), e, sink, before, after);
    } else {
      SameTotalsHold(TotalsAt(l, sink), before, after);
    }
  }

  lemma {:induction false} FoldEntriesHolds(
    l: Ledger, es: seq<Entry>, sink: Sink, before: Weight -> nat, after: Weight -> nat)
    requires UniqueModels(l.byModel) && AllNonNegative(es) && Holds(l, sink, before)
    requires forall w: Weight :: after(w) == before(w) + EntriesWeight(es, sink, w)
    ensures UniqueModels(FoldEntries(l, es).byModel) && Holds(FoldEntries(l, es), sink, after)
    decreases |es|
  {
    if es == [] {
      assert forall w: Weight :: after(w) == before(w) + EntriesWeight([], sink, w);
      SameTotalsHold(TotalsAt(l, sink), before, after);
      assert after(Occurs) == before(Occurs);
    } else {
      var n := |es| - 1;
      var front := es[..n];
      var middle := w => before(w) + EntriesWeight(front, sink, w);
      FoldEntriesHolds(l, front, sink, before, middle);
      FoldHolds(FoldEntries(l, front), es[n], sink, middle, after);
    }
  }

  /** The ledger after a run holds exactly what its calls add up to. */
  lemma {:induction false} RunHolds(calls: seq<Call>, sink: Sink, weight: Weight -> nat)
    requires AllWellFormed(calls)
    requires forall w: Weight :: weight(w) == SumCalls(calls, Weigh(sink, w))
    ensures UniqueModels(Run(calls).byModel) && Holds(Run(calls), sink, weight)
    decreases |calls|
  {
    if calls == [] {
      assert weight(Reported) == 0 && weight(Occurs) == 0 && forall m: Measure :: weight(Of(m)) == 0;
    } else {
      var n := |calls| - 1;
      var front := calls[..n];
      var before := w => SumCalls(front, Weigh(sink, w));
      RunHolds(front, sink, before);
      FoldEntriesHolds(Run(front), Folds(calls[n]), sink, before, weight);
      var l := FoldEntries(Run(front), Folds(calls[n]));
      assert Run(calls).byModel == l.byModel && Run(calls).totals == l.totals;
      assert TotalsAt(Run(calls), sink) == TotalsAt(l, sink);
    }
  }

  function MainWeight(c: Call): nat { if c.MainLoop? then 1 else 0 }

  function IncompleteWeight(c: Call): nat {
    if c.MarkIncomplete? || (c.Subagent? && c.isIncomplete) then 1 else 0
  }

  lemma {:induction false} RunCounts(calls: seq<Call>)
    ensures Run(calls).mainLoopCalls == AtMost(U64_MAX, SumCalls(calls, MainWeight))
    ensures Run(calls).incomplete <==> SumCalls(calls, IncompleteWeight) > 0
  {
    if calls != [] {
      var n := |calls| - 1;
      RunCounts(calls[..n]);
      FoldEntriesFrame(Run(calls[..n]), Folds(calls[n]));
    }
  }

  lemma {:induction false} FoldEntriesFrame(l: Ledger, es: seq<Entry>)
    ensures FoldEntries(l, es).mainLoopCalls == l.mainLoopCalls && FoldEntries(l, es).incomplete == l.incomplete
  {
    if es != [] {
      FoldEntriesFrame(l, es[..|es| - 1]);
    }
  }

  lemma {:induction false} SumWithout(calls: seq<Call>, i: nat, f: Call -> nat)
    requires i < |calls|
    ensures SumCalls(calls, f) == SumCalls(calls[..i] + calls[i + 1..], f) + f(calls[i])
  {
    var n := |calls| - 1;
    var rest := calls[..i] + calls[i + 1..];
    if i == n {
      assert rest == calls[..n];
    } else {
      SumWithout(calls[..n], i, f);
      assert rest[..n - 1] == calls[..n][..i] + calls[..n][i + 1..] && rest[n - 1] == calls[n];
    }
  }

  lemma {:induction false} SumPermuted(a: seq<Call>, b: seq<Call>, f: Call -> nat)
    requires multiset(a) == multiset(b)
    ensures SumCalls(a, f) == SumCalls(b, f)
    decreases |a|
  {
    if a == [] {
      assert |multiset(b)| == 0;
    } else {
      var n := |a| - 1;
      assert a == a[..n] + [a[n]];
      assert a[n] in multiset(b);
      var i: nat :| i < |b| && b[i] == a[n];
      WithoutOne(b, i);
      SumWithout(b, i, f);
      SumPermuted(a[..n], b[..i] + b[i + 1..], f);
    }
  }

  lemma WithoutOne(b: seq<Call>, i: nat)
    requires i < |b|
    ensures multiset(b[..i] + b[i + 1..]) == multiset(b) - multiset{b[i]}
  {
    assert b == b[..i] + [b[i]] + b[i + 1..];
  }

  /** Two runs with the same calls in any order give the same ledger, read as a map from models. */
  lemma OrderDoesNotMatter(a: seq<Call>, b: seq<Call>)
    requires AllWellFormed(a) && AllWellFormed(b) && multiset(a) == multiset(b)
    ensures Run(a).totals == Run(b).totals
    ensures Run(a).mainLoopCalls == Run(b).mainLoopCalls && Run(a).incomplete == Run(b).incomplete
    ensures forall model :: IndexOf(Run(a).byModel, model).Some? <==> IndexOf(Run(b).byModel, model).Some?
    ensures forall model :: TotalsAt(Run(a), Only(model)) == TotalsAt(Run(b), Only(model))
  {
    RunCounts(a);
    RunCounts(b);
    SumPermuted(a, b, MainWeight);
    SumPermuted(a, b, IncompleteWeight);
    SinkPermuted(a, b, Everything);
    forall model
      ensures IndexOf(Run(a).byModel, model).Some? <==> IndexOf(Run(b).byModel, model).Some?
      ensures TotalsAt(Run(a), Only(model)) == TotalsAt(Run(b), Only(model))
    {
      SinkPermuted(a, b, Only(model));
    }
  }

  lemma SinkPermuted(a: seq<Call>, b: seq<Call>, sink: Sink)
    requires AllWellFormed(a) && AllWellFormed(b) && multiset(a) == multiset(b)
    ensures TotalsAt(Run(a), sink) == TotalsAt(Run(b), sink)
    ensures sink.Only? ==> (IndexOf(Run(a).byModel, sink.model).Some? <==> IndexOf(Run(b).byModel, sink.model).Some?)
  {
    var weight := w => SumCalls(a, Weigh(sink, w));
    forall w: Weight
      ensures weight(w) == SumCalls(b, Weigh(sink, w))
    {
      SumPermuted(a, b, Weigh(sink, w));
    }
    RunHolds(a, sink, weight);
    RunHolds(b, sink, weight);
    SameAmounts(TotalsAt(Run(a), sink), TotalsAt(Run(b), sink));
  }

  // ----- what a ledger bills

  /** What the ledger is told: a call of the main loop, a subagent's totals per model, or that something is missing. */
  datatype Report =
    | MainCall(model: string, usage: TokenUsage, apiDurationMs: Option<U64>, cost: Option<I64>)
    | SubagentBill(entries: seq<Entry>, isIncomplete: bool)
    | Missing

  predicate Priced(cost: Option<I64>) { cost.Some? && cost.value > 0 }

  /** What one call is to be billed for: the prompt is input, the completion output; a cost of zero or less counts as
      none. */
  function BilledFor(usage: TokenUsage, apiDurationMs: Option<U64>, cost: Option<I64>, m: Measure): nat {
    match m
    case InputTokens => usage.prompt
    case OutputTokens => usage.completion
    case CachedReads => usage.cachedPrompt
    case ReasoningTokens => usage.reasoning
    case ModelCalls => 1
    case ApiDuration => if apiDurationMs.Some? then apiDurationMs.value else 0
    case CostMissing => if Priced(cost) then 0 else 1
    case CostTicks => if Priced(cost) then cost.value else 0
  }

  predicate ForSink(model: string, sink: Sink) { sink.Everything? || sink.model == model }

  /** The amounts in a subagent's entries for a sink, or how many of them have a cost. */
  function InEntries(entries: seq<Entry>, sink: Sink, m: Measure): nat
    requires AllNonNegative(entries)
  {
    if entries == [] then 0
    else
      var last := entries[|entries| - 1];
      InEntries(entries[..|entries| - 1], sink, m) + if ForSink(last.model, sink) then Amount(last.totals, m) else 0
  }

  function CostsIn(entries: seq<Entry>, sink: Sink): nat {
    if entries == [] then 0
    else
      var last := entries[|entries| - 1];
      CostsIn(entries[..|entries| - 1], sink) + if ForSink(last.model, sink) && last.totals.cost.Some? then 1 else 0
  }

  predicate Proper(r: Report) { r.SubagentBill? ==> AllNonNegative(r.entries) }

  /** What a report adds to a sink. */
  function BilledTo(sink: Sink, m: Measure): Report -> nat {
    (r: Report) =>
      match r
      case MainCall(model, usage, duration, cost) =>
        if ForSink(model, sink) then BilledFor(usage, duration, cost, m) else 0
      case SubagentBill(entries, _) => if AllNonNegative(entries) then InEntries(entries, sink, m) else 0
      case Missing => 0
  }

  /** How many costs a report adds to a sink. */
  function CostsTo(sink: Sink): Report -> nat {
    (r: Report) =>
      match r
      case MainCall(model, _, _, cost) => if ForSink(model, sink) && Priced(cost) then 1 else 0
      case SubagentBill(entries, _) => if AllNonNegative(entries) then CostsIn(entries, sink) else 0
      case Missing => 0
  }

  function MainCalls(): Report -> nat { (r: Report) => if r.MainCall? then 1 else 0 }

  function Gaps(): Report -> nat { (r: Report) => if r.Missing? || (r.SubagentBill? && r.isIncomplete) then 1 else 0 }

  function SumReports(reports: seq<Report>, f: Report -> nat): nat {
    if reports == [] then 0 else SumReports(reports[..|reports| - 1], f) + f(reports[|reports| - 1])
  }

  /** What the ledger records for a report. */
  function CallOf(r: Report): Call {
    match r
    case MainCall(model, usage, duration, cost) => MainLoop(model, FromCall(usage, duration, cost))
    case SubagentBill(entries, isIncomplete) => Subagent(entries, isIncomplete)
    case Missing => MarkIncomplete
  }

  predicate AllProper(reports: seq<Report>) {
    forall i :: 0 <= i < |reports| ==> Proper(reports[i])
  }

  function CallsOf(reports: seq<Report>): (calls: seq<Call>)
    ensures |calls| == |reports| && (AllProper(reports) ==> AllWellFormed(calls))
  {
    if reports == [] then [] else CallsOf(reports[..|reports| - 1]) + [CallOf(reports[|reports| - 1])]
  }

  lemma {:induction false} EntriesAreBilled(entries: seq<Entry>, sink: Sink, m: Measure)
    requires AllNonNegative(entries)
    ensures EntriesWeight(entries, sink, Of(m)) == InEntries(entries, sink, m)
    ensures EntriesWeight(entries, sink, Reported) == CostsIn(entries, sink)
  {
    if entries != [] {
      EntriesAreBilled(entries[..|entries| - 1], sink, m);
    }
  }

  lemma CallIsBilled(r: Report, sink: Sink, m: Measure)
    ensures Weigh(sink, Of(m))(CallOf(r)) == BilledTo(sink, m)(r)
    ensures Weigh(sink, Reported)(CallOf(r)) == CostsTo(sink)(r)
    ensures MainWeight(CallOf(r)) == MainCalls()(r) && IncompleteWeight(CallOf(r)) == Gaps()(r)
  {
    match r
    case MainCall(model, usage, duration, cost) => OneEntry(Folds(CallOf(r)), sink, m);
    case SubagentBill(entries, _) =>
      if AllNonNegative(entries) {
        EntriesAreBilled(entries, sink, m);
      }
    case Missing =>
  }

  lemma OneEntry(es: seq<Entry>, sink: Sink, m: Measure)
    requires |es| == 1 && AllNonNegative(es)
    ensures EntriesWeight(es, sink, Of(m)) == WeightOf(es[0], sink, Of(m))
    ensures EntriesWeight(es, sink, Reported) == WeightOf(es[0], sink, Reported)
  {
    assert es[..|es| - 1] == [];
    assert EntriesWeight(es[..|es| - 1], sink, Of(m)) == 0 && EntriesWeight(es[..|es| - 1], sink, Reported) == 0;
  }

  lemma SumNext(calls: seq<Call>, c: Call, f: Call -> nat)
    ensures SumCalls(calls + [c], f) == SumCalls(calls, f) + f(c)
  {
    SnocFront(calls, c);
  }

  lemma {:induction false} SumsAgree(reports: seq<Report>, f: Call -> nat, g: Report -> nat)
    requires forall r :: f(CallOf(r)) == g(r)
    ensures SumCalls(CallsOf(reports), f) == SumReports(reports, g)
  {
    if reports != [] {
      var n := |reports| - 1;
      SumsAgree(reports[..n], f, g);
      SumNext(CallsOf(reports[..n]), CallOf(reports[n]), f);
    }
  }

  lemma CallsAreBilled(reports: seq<Report>, sink: Sink, m: Measure)
    ensures SumCalls(CallsOf(reports), Weigh(sink, Of(m))) == SumReports(reports, BilledTo(sink, m))
    ensures SumCalls(CallsOf(reports), Weigh(sink, Reported)) == SumReports(reports, CostsTo(sink))
  {
    forall r
      ensures Weigh(sink, Of(m))(CallOf(r)) == BilledTo(sink, m)(r)
      ensures Weigh(sink, Reported)(CallOf(r)) == CostsTo(sink)(r)
    {
      CallIsBilled(r, sink, m);
    }
    SumsAgree(reports, Weigh(sink, Of(m)), BilledTo(sink, m));
    SumsAgree(reports, Weigh(sink, Reported), CostsTo(sink));
  }

  lemma CallsAreCounted(reports: seq<Report>)
    ensures SumCalls(CallsOf(reports), MainWeight) == SumReports(reports, MainCalls())
    ensures SumCalls(CallsOf(reports), IncompleteWeight) == SumReports(reports, Gaps())
  {
    forall r
      ensures MainWeight(CallOf(r)) == MainCalls()(r) && IncompleteWeight(CallOf(r)) == Gaps()(r)
    {
      CallIsBilled(r, Everything, InputTokens);
    }
    SumsAgree(reports, MainWeight, MainCalls());
    SumsAgree(reports, IncompleteWeight, Gaps());
  }

  /** Over every run, each total of the ledger, and of every model, is the capped sum of what was reported for it; a
      cost stands there exactly if one was reported; main-loop calls are counted, and the ledger is incomplete exactly
      if something was reported missing. */
  lemma LedgerBills(reports: seq<Report>, sink: Sink, m: Measure)
    requires AllProper(reports)
    ensures var l := Run(CallsOf(reports));
      && NonNegative(TotalsAt(l, sink))
      && Amount(TotalsAt(l, sink), m) == AtMost(Cap(m), SumReports(reports, BilledTo(sink, m)))
      && (TotalsAt(l, sink).cost.Some? <==> SumReports(reports, CostsTo(sink)) > 0)
      && l.mainLoopCalls == AtMost(U64_MAX, SumReports(reports, MainCalls()))
      && (l.incomplete <==> SumReports(reports, Gaps()) > 0)
  {
    var calls := CallsOf(reports);
    var weight := w => SumCalls(calls, Weigh(sink, w));
    RunHolds(calls, sink, weight);
    RunCounts(calls);
    CallsAreBilled(reports, sink, m);
    CallsAreCounted(reports);
    assert weight(Of(m)) == SumReports(reports, BilledTo(sink, m));
    assert weight(Reported) == SumReports(reports, CostsTo(sink));
  }

  /** A subagent's report of nothing but a cost. */
  function CostReport(model: string, ticks: I64): Call {
    Subagent([Entry(model, ZERO.(cost := Some(ticks)))], false)
  }

  lemma ReportedCost(calls: seq<Call>, model: string, ticks: I64)
    ensures Run(calls + [CostReport(model, ticks)]).totals.cost == MergeCost(Run(calls).totals.cost, Some(ticks))
  {
    RunNext(calls, CostReport(model, ticks));
    FoldOne(Run(calls), Entry(model, ZERO.(cost := Some(ticks))));
  }

  /** The cost after three such reports. */
  lemma ThreeReports(calls: seq<Call>, model: string, x: I64, y: I64, z: I64)
    requires calls == [CostReport(model, x), CostReport(model, y), CostReport(model, z)]
    ensures Run(calls).totals.cost == Some(SatAddSigned(SatAddSigned(x, y), z))
  {
    var a, b, c := CostReport(model, x), CostReport(model, y), CostReport(model, z);
    ReportedCost([], model, x);
    ReportedCost([a], model, y);
    ReportedCost([a, b], model, z);
    assert [] + [a] == [a] && [a] + [b] == [a, b] && [a, b] + [c] == calls;
  }

  lemma Swapped(x: Call, y: Call, z: Call)
    ensures multiset([x, y, z]) == multiset([x, z, y])
  {
  }

  /** Non-negative costs are needed: once the cost is saturated, it matters for every other cost whether it comes before
      or behind its refund. */
  lemma RefundsDependOnOrder(model: string, ticks: I64, a: seq<Call>, b: seq<Call>)
    requires ticks > 0
    requires a == [CostReport(model, I64_MAX), CostReport(model, ticks), CostReport(model, -ticks)]
    requires b == [CostReport(model, I64_MAX), CostReport(model, -ticks), CostReport(model, ticks)]
    ensures multiset(a) == multiset(b)
    ensures Run(a).totals.cost == Some(I64_MAX - ticks) && Run(b).totals.cost == Some(I64_MAX)
  {
    Swapped(a[0], a[1], a[2]);
    ThreeReports(a, model, I64_MAX, ticks, -ticks);
    ThreeReports(b, model, I64_MAX, -ticks, ticks);
  }
}
