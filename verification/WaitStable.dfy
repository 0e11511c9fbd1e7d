/** Waiting for a stable grid, and the bounded tail of raw output kept for diagnostics. */
module WaitStable {
  import opened Sequences
  import opened Machine
  import opened WaitProtocol

  /** How one round of the wait ended: the watch channel fired (with or without the sender gone), or the sleep did. */
  datatype Wakeup = Changed(at: nat, closed: bool) | Timer(at: nat)

  /** One round: the window is restarted at `top`, when the session is in state `before` and its generation is marked
      seen; then something wakes the waiter, with the session in state `after`. */
  datatype Round = Round(top: nat, before: State, wakeup: Wakeup, after: State)

  datatype Result = Running | Returned(rounds: nat, matched: bool, ended: bool)

  /** What the clock and the channel can do: time does not go back, the sleep lasts until the window or the deadline
      is over, and the channel is not polled again once the sender is gone. */
  predicate Possible(window: nat, deadline: nat, gone: bool, from: nat, rounds: seq<Round>)
    decreases |rounds|
  {
    rounds == [] ||
    (var Round(top, _, wakeup, _) := rounds[0];
     && from <= top <= wakeup.at
     && match wakeup
        case Changed(at, closed) => !gone && Possible(window, deadline, closed, at, rounds[1..])
        case Timer(at) => Min(top + window, deadline) <= at && Possible(window, deadline, gone, at, rounds[1..]))
  }

  /** The same result, `i` rounds later. */
  function Later(i: nat, r: Result): Result {
    match r
    case Running => Running
    case Returned(n, matched, ended) => Returned(i + n, matched, ended)
  }

  /** How the wait ends on these rounds. */
  function Ending(window: nat, deadline: nat, gone: bool, rounds: seq<Round>): Result
    decreases |rounds|
  {
    if rounds == [] then Running
    else match rounds[0].wakeup
      case Changed(at, closed) =>
        if at >= deadline then Returned(1, false, gone || closed)
        else Later(1, Ending(window, deadline, gone || closed, rounds[1..]))
      case Timer(at) =>
        if rounds[0].top + window <= deadline then Returned(1, true, false) else Returned(1, false, gone)
  }

  /** A round that ends the wait: the sleep is over, or the channel fired at the deadline or later. */
  predicate Final(r: Round, deadline: nat) { r.wakeup.Timer? || r.wakeup.at >= deadline }

  /** A full window fits before the deadline. */
  predicate FullWindow(r: Round, window: nat, deadline: nat) { r.wakeup.Timer? && r.top + window <= deadline }

  predicate SawClosed(r: Round) { r.wakeup.Changed? && r.wakeup.closed }

  /** How a wait ends, by position: in the first final round; with a match exactly if that round's sleep ended a window
      that lies before the deadline; else as the end of the session exactly if the sender was seen gone in some round so
      far. */
  ghost predicate EndsRight(r: Result, window: nat, deadline: nat, gone: bool, rounds: seq<Round>) {
    match r
    case Running => forall i :: 0 <= i < |rounds| ==> !Final(rounds[i], deadline)
    case Returned(n, matched, ended) =>
      && 0 < n <= |rounds| && Final(rounds[n - 1], deadline)
      && (forall i :: 0 <= i < n - 1 ==> !Final(rounds[i], deadline))
      && (matched <==> FullWindow(rounds[n - 1], window, deadline))
      && (ended <==> !matched && (gone || exists i :: 0 <= i < n && SawClosed(rounds[i])))
  }

  lemma EndsLater(r: Result, window: nat, deadline: nat, gone: bool, rounds: seq<Round>)
    requires rounds != [] && !Final(rounds[0], deadline)
    requires EndsRight(r, window, deadline, gone || SawClosed(rounds[0]), rounds[1..])
    ensures EndsRight(Later(1, r), window, deadline, gone, rounds)
  {
    assert forall i :: 0 < i < |rounds| ==> rounds[i] == rounds[1..][i - 1];
    if r.Returned? {
      assert forall i :: 0 <= i < |rounds| - 1 ==> rounds[1..][i] == rounds[i + 1];
    }
  }

  lemma {:induction false} EndingIsRight(window: nat, deadline: nat, gone: bool, rounds: seq<Round>)
    ensures EndsRight(Ending(window, deadline, gone, rounds), window, deadline, gone, rounds)
    decreases |rounds|
  {
    if rounds != [] {
      if Final(rounds[0], deadline) {
        assert SawClosed(rounds[0]) <==> exists i :: 0 <= i < 1 && SawClosed(rounds[i]);
      } else {
        EndingIsRight(window, deadline, gone || SawClosed(rounds[0]), rounds[1..]);
        EndsLater(Ending(window, deadline, gone || SawClosed(rounds[0]), rounds[1..]), window, deadline, gone, rounds);
      }
    }
  }

  /** The loop of the program. */
  method RunWaitStable(window: nat, deadline: nat, rounds: seq<Round>) returns (r: Result)
    ensures r == Ending(window, deadline, false, rounds)
    ensures EndsRight(r, window, deadline, false, rounds)
  {
    var senderGone := false;
    EndingIsRight(window, deadline, false, rounds);
    for i := 0 to |rounds|
      invariant Ending(window, deadline, false, rounds) == Later(i, Ending(window, deadline, senderGone, rounds[i..]))
    {
      CutOne(rounds, i);
      var Round(top, _, wakeup, _) := rounds[i];
      var windowEnd := top + window;
      match wakeup {
        case Changed(at, closed) =>
          if closed {
            senderGone := true;
          }
          if at >= deadline {
            return Returned(i + 1, false, senderGone);
          }
        case Timer(at) =>
          if windowEnd <= deadline {
            return Returned(i + 1, true, false);
          }
          return Returned(i + 1, false, senderGone);
      }
    }
    r := Running;
  }

  /** A match comes from a round whose sleep lasted for a full window, the window ended by the deadline, and all
      earlier rounds were restarts before the deadline. So at least the window has elapsed since the wait began. */
  lemma {:induction false} MatchMeansFullWindow(window: nat, deadline: nat, gone: bool, from: nat, rounds: seq<Round>)
    requires Possible(window, deadline, gone, from, rounds)
    requires var r := Ending(window, deadline, gone, rounds); r.Returned? && r.matched
    ensures var n := Ending(window, deadline, gone, rounds).rounds;
      && 0 < n <= |rounds| && rounds[n - 1].wakeup.Timer?
      && from <= rounds[n - 1].top
      && rounds[n - 1].top + window <= deadline
      && rounds[n - 1].top + window <= rounds[n - 1].wakeup.at
      && from + window <= rounds[n - 1].wakeup.at
      && forall i :: 0 <= i < n - 1 ==> rounds[i].wakeup.Changed? && rounds[i].wakeup.at < deadline
    decreases |rounds|
  {
    if rounds[0].wakeup.Changed? {
      MatchMeansFullWindow(window, deadline, rounds[0].wakeup.closed, rounds[0].wakeup.at, rounds[1..]);
    }
  }

  /** The round is a stretch of a run of the session, and the channel told the truth: it fired for an unseen
      generation, or for a sender that is gone with the generation seen. The sleep may fire whatever happened. */
  ghost predicate Observed(r: Round, meets: (nat, Grid) -> bool) {
    && (exists past :: Runs(past, r.before, meets))
    && (exists steps :: Leads(r.before, steps, r.after, meets))
    && match r.wakeup
       case Changed(_, closed) =>
         if closed then r.after.generation == r.before.generation && Closed(r.after)
         else r.after.generation != r.before.generation
       case Timer(_) => true
  }

  /** What a match says about the grid: in the window of the last round there were exactly as many writes as the bumps
      that went unnoticed and the writes still unbumped account for. So if the window began between writes, the grid is
      unchanged exactly if no bump is pending and no write is without one; and once the sender is gone, only
      resizes that nobody announces can have changed it. */
  lemma MatchMeansStable(
    window: nat, deadline: nat, gone: bool, from: nat, rounds: seq<Round>, meets: (nat, Grid) -> bool)
    requires Possible(window, deadline, gone, from, rounds)
    requires var r := Ending(window, deadline, gone, rounds); r.Returned? && r.matched
    requires forall i :: 0 <= i < |rounds| ==> Observed(rounds[i], meets)
    ensures var r := Ending(window, deadline, gone, rounds);
      && 0 < r.rounds <= |rounds|
      && var Round(_, before, _, after) := rounds[r.rounds - 1];
      && before.grid <= after.grid
      && |after.grid| - |before.grid| == after.generation - before.generation + Unbumped(after) - Unbumped(before)
      && (Unbumped(before) == 0 ==>
          (after.grid == before.grid <==> after.generation == before.generation && Unbumped(after) == 0))
      && (Closed(before) ==> after.generation == before.generation)
  {
    MatchMeansFullWindow(window, deadline, gone, from, rounds);
    RoundWrites(rounds[Ending(window, deadline, gone, rounds).rounds - 1], meets);
  }

  lemma RoundWrites(r: Round, meets: (nat, Grid) -> bool)
    requires Observed(r, meets)
    ensures r.before.grid <= r.after.grid && r.before.generation <= r.after.generation
    ensures |r.after.grid| - |r.before.grid|
      == r.after.generation - r.before.generation + Unbumped(r.after) - Unbumped(r.before)
    ensures r.after.grid == r.before.grid <==> |r.after.grid| == |r.before.grid|
    ensures Closed(r.before) ==> r.after.generation == r.before.generation
  {
    var past :| Runs(past, r.before, meets);
    var steps :| Leads(r.before, steps, r.after, meets);
    WritesBetween(past, r.before, steps, r.after, meets);
    LeadsGrows(r.before, steps, r.after, meets);
  }

  /** The exception is real: whatever the window and the output, a wait of one round reports a match although the chunk
      was fed and announced in its window, because the sleep fired before the channel was polled. */
  lemma MatchMissesWrite(window: nat, c: Chunk, meets: (nat, Grid) -> bool) returns (rounds: seq<Round>)
    ensures |rounds| == 1 && Possible(window, window, false, 0, rounds) && Observed(rounds[0], meets)
    ensures Ending(window, window, false, rounds) == Returned(1, true, false)
    ensures rounds[0].before.grid == [] && rounds[0].after.grid == [Output(c)]
    ensures rounds[0].after.generation > rounds[0].before.generation && Unbumped(rounds[0].before) == 0
  {
    var steps, s := OneHeld(meets, c);
    steps, s := Extend(steps, s, Feed, meets);
    steps, s := Extend(steps, s, FeederBump, meets);
    assert Runs([], Initial, meets);
    rounds := [Round(0, Initial, Timer(window), s)];
  }

  /** Every other restart is a noticed write: the generation it had marked seen is out of date. */
  lemma RestartMeansBump(r: Round, meets: (nat, Grid) -> bool)
    requires Observed(r, meets) && r.wakeup.Changed? && !r.wakeup.closed
    ensures r.before.generation < r.after.generation && !Closed(r.before)
  {
    RoundWrites(r, meets);
  }

  /** The wait returns no later than at its first wakeup at or after the deadline: bumps cannot postpone it forever. */
  lemma {:induction false} ReturnsByDeadline(window: nat, deadline: nat, gone: bool, rounds: seq<Round>, i: nat)
    requires i < |rounds| && rounds[i].wakeup.at >= deadline
    ensures var r := Ending(window, deadline, gone, rounds); r.Returned? && r.rounds <= i + 1
    decreases |rounds|
  {
    if rounds[0].wakeup.Changed? && rounds[0].wakeup.at < deadline {
      ReturnsByDeadline(window, deadline, gone || rounds[0].wakeup.closed, rounds[1..], i - 1);
    }
  }

  /** A closed sender restarts the window at most once: the round after it is the last. */
  lemma {:induction false} ClosedRestartsOnce(
    window: nat, deadline: nat, gone: bool, from: nat, rounds: seq<Round>, i: nat)
    requires Possible(window, deadline, gone, from, rounds)
    requires i + 1 < |rounds| && rounds[i].wakeup.Changed? && rounds[i].wakeup.closed
    ensures rounds[i + 1].wakeup.Timer?
    ensures var r := Ending(window, deadline, gone, rounds); r.Returned? && r.rounds <= i + 2
    decreases |rounds|
  {
    if i > 0 && rounds[0].wakeup.Changed? {
      ClosedRestartsOnce(window, deadline, rounds[0].wakeup.closed, rounds[0].wakeup.at, rounds[1..], i - 1);
    } else if i > 0 {
      ClosedRestartsOnce(window, deadline, gone, rounds[0].wakeup.at, rounds[1..], i - 1);
    } else {
      assert rounds[1..][0] == rounds[1];
    }
  }

  // ----- raw output tail

  const RAW_TAIL_CAP := 2048

  /** The last `n` bytes. */
  function Last(s: string, n: nat): string {
    if |s| <= n then s else s[|s| - n..]
  }

  /** `t` is the end of `s`, all of it up to the cap. */
  predicate IsEnd(t: string, s: string) {
    |t| == Min(|s|, RAW_TAIL_CAP) && t == s[|s| - |t|..]
  }

  class RawTail {
    var tail: string

    ghost predicate Valid()
      reads this
    {
      |tail| <= RAW_TAIL_CAP
    }

    constructor ()
      ensures Valid() && tail == ""
    {
      tail := "";
    }

    method Push(bytes: string)
      requires Valid()
      modifies this
      ensures Valid() && tail == Last(old(tail) + bytes, RAW_TAIL_CAP)
      ensures IsEnd(tail, old(tail) + bytes)
    {
      if |bytes| >= RAW_TAIL_CAP {
        tail := bytes[|bytes| - RAW_TAIL_CAP..];
        return;
      }
      ghost var before := tail;
      while |tail| + |bytes| > RAW_TAIL_CAP
        invariant |tail| <= |before| && tail == before[|before| - |tail|..]
        invariant |before| > |tail| ==> |tail| + |bytes| >= RAW_TAIL_CAP
        decreases |tail|
      {
        tail := tail[1..];
      }
      tail := tail + bytes;
    }
  }

  /** The tail after a sequence of pushes. */
  function AfterPushes(chunks: seq<string>): string {
    if chunks == [] then ""
    else Last(AfterPushes(chunks[..|chunks| - 1]) + chunks[|chunks| - 1], RAW_TAIL_CAP)
  }

  function AllOutput(chunks: seq<string>): string {
    if chunks == [] then "" else AllOutput(chunks[..|chunks| - 1]) + chunks[|chunks| - 1]
  }

  lemma LastOfLast(a: string, b: string, n: nat)
    ensures Last(Last(a, n) + b, n) == Last(a + b, n)
  {
  }

  /** However the output was chunked, the tail is its last bytes. */
  lemma {:induction false} TailIsEndOfOutput(chunks: seq<string>)
    ensures AfterPushes(chunks) == Last(AllOutput(chunks), RAW_TAIL_CAP)
    ensures IsEnd(AfterPushes(chunks), AllOutput(chunks))
  {
    if chunks != [] {
      TailIsEndOfOutput(chunks[..|chunks| - 1]);
      LastOfLast(AllOutput(chunks[..|chunks| - 1]), chunks[|chunks| - 1], RAW_TAIL_CAP);
    }
  }
}
