/**
 How a wait ends, over whole runs: exactly which steps make a waiter report a match, a timeout or the end of the
 session, in what order it can take its steps, and that a condition which holds can always still be reported.
 */
module WaitOutcomes {
  import opened Sequences
  import opened WaitProtocol

  // ----- the own steps of a waiter

  /** The waiter that takes the step, if it is one of a waiter. */
  predicate IsOwn(step: Step, id: nat) {
    || step == Join(id) || step == Mark(id) || step == WaiterLock(id) || step == Check(id)
    || step == Wake(id) || step == SeeClosed(id) || step == Expire(id)
  }

  /** `step` has `id` evaluate its condition at position `k` of the run, on the grid of the state `at`. */
  ghost predicate ChecksAt(steps: seq<Step>, k: nat, at: State, meets: (nat, Grid) -> bool, id: nat) {
    k < |steps| && steps[k] == Check(id) && Runs(steps[..k], at, meets) && Enabled(at, Check(id))
  }

  /** Steps of others leave a waiter alone. */
  lemma OthersLeaveIt(s: State, step: Step, meets: (nat, Grid) -> bool, id: nat)
    requires Enabled(s, step) && !IsOwn(step, id)
    ensures id in Apply(s, step, meets).waiters <==> id in s.waiters
    ensures id in s.waiters ==> Apply(s, step, meets).waiters[id] == s.waiters[id]
  {
  }

  /** A waiter that is done has no steps left. */
  lemma DoneIsFinal(s: State, step: Step, meets: (nat, Grid) -> bool, id: nat)
    requires Enabled(s, step) && id in s.waiters && s.waiters[id].Done?
    ensures !IsOwn(step, id)
  {
  }

  lemma {:induction false} DoneStays(from: State, steps: seq<Step>, s: State, meets: (nat, Grid) -> bool, id: nat)
    requires Leads(from, steps, s, meets) && id in from.waiters && from.waiters[id].Done?
    ensures id in s.waiters && s.waiters[id] == from.waiters[id]
    decreases |steps|
  {
    if steps != [] {
      var n := |steps| - 1;
      var before := LastStep(from, steps, s, meets);
      DoneStays(from, steps[..n], before, meets, id);
      DoneIsFinal(before, steps[n], meets, id);
      OthersLeaveIt(before, steps[n], meets, id);
    }
  }

  // ----- what each outcome comes from

  predicate HasOutcome(s: State, id: nat, o: Outcome) {
    id in s.waiters && s.waiters[id] == Done(o)
  }

  /** An own step that ends the wait. */
  lemma OwnEnd(s: State, step: Step, meets: (nat, Grid) -> bool, id: nat)
    requires Enabled(s, step) && IsOwn(step, id)
    requires id in Apply(s, step, meets).waiters && Apply(s, step, meets).waiters[id].Done?
    ensures match Apply(s, step, meets).waiters[id].outcome
      case Matched(g) => step == Check(id) && g == s.grid && meets(id, g)
      case Ended(_, _) => step == SeeClosed(id)
      case TimedOut => step == Expire(id)
  {
  }

  /** The last step of a run decides what it adds to the outcomes. */
  lemma {:induction false} OutcomesComeFrom(steps: seq<Step>, s: State, meets: (nat, Grid) -> bool, id: nat)
    requires Runs(steps, s, meets) && id in s.waiters && s.waiters[id].Done?
    ensures match s.waiters[id].outcome
      case Matched(g) =>
        exists k: nat, at :: ChecksAt(steps, k, at, meets, id) && at.grid == g && meets(id, g)
      case Ended(_, _) => SeeClosed(id) in steps
      case TimedOut => Expire(id) in steps
    decreases |steps|
  {
    var n := |steps| - 1;
    var before := LastStep(Initial, steps, s, meets);
    if IsOwn(steps[n], id) {
      OwnEnd(before, steps[n], meets, id);
      assert steps[n] in steps;
      if steps[n] == Check(id) {
        assert ChecksAt(steps, n, before, meets, id);
      }
    } else {
      OthersLeaveIt(before, steps[n], meets, id);
      OutcomesComeFrom(steps[..n], before, meets, id);
      if s.waiters[id].outcome.Matched? {
        var g := s.waiters[id].outcome.grid;
        var k: nat, at :| ChecksAt(steps[..n], k, at, meets, id) && at.grid == g && meets(id, g);
        assert steps[..n][..k] == steps[..k];
        assert ChecksAt(steps, k, at, meets, id);
      }
    }
  }

  /** The state `at` lies in an interleaving of `steps` that ends in `s`, before step `k`. */
  ghost predicate LiesAt(
    from: State, steps: seq<Step>, s: State, meets: (nat, Grid) -> bool, k: nat, at: State)
  {
    && k < |steps| && Leads(from, steps[..k], at, meets) && Enabled(at, steps[k])
    && Leads(Apply(at, steps[k], meets), steps[k + 1..], s, meets)
  }

  lemma LeadsNowhere(s: State, steps: seq<Step>, meets: (nat, Grid) -> bool)
    requires steps == []
    ensures Leads(s, steps, s, meets)
  {
  }

  /** One step more at the end. */
  lemma AddStep(from: State, steps: seq<Step>, before: State, step: Step, all: seq<Step>, meets: (nat, Grid) -> bool)
    requires Leads(from, steps, before, meets) && Enabled(before, step) && all == steps + [step]
    ensures Leads(from, all, Apply(before, step, meets), meets)
  {
    SnocFront(steps, step);
  }

  lemma LiesEarlier(
    from: State, steps: seq<Step>, before: State, meets: (nat, Grid) -> bool, k: nat, at: State, step: Step)
    requires LiesAt(from, steps, before, meets, k, at) && Enabled(before, step)
    ensures LiesAt(from, steps + [step], Apply(before, step, meets), meets, k, at)
  {
    var all := steps + [step];
    assert all[..k] == steps[..k] && all[k] == steps[k] && all[k + 1..] == steps[k + 1..] + [step];
    AddStep(Apply(at, steps[k], meets), steps[k + 1..], before, step, all[k + 1..], meets);
  }

  /** The state of a run before its step `k`. */
  lemma {:induction false} StepAt(from: State, steps: seq<Step>, s: State, meets: (nat, Grid) -> bool, k: nat)
    returns (at: State)
    requires Leads(from, steps, s, meets) && k < |steps|
    ensures LiesAt(from, steps, s, meets, k, at)
    decreases |steps|
  {
    var n := |steps| - 1;
    var before := LastStep(from, steps, s, meets);
    if k == n {
      at := before;
      LeadsNowhere(s, steps[k + 1..], meets);
    } else {
      at := StepAt(from, steps[..n], before, meets, k);
      LiesEarlier(from, steps[..n], before, meets, k, at, steps[n]);
      Unsnoc(steps);
    }
  }

  /** An interleaving leads to one state only. */
  lemma {:induction false} LeadsToOne(from: State, steps: seq<Step>, s: State, t: State, meets: (nat, Grid) -> bool)
    requires Leads(from, steps, s, meets) && Leads(from, steps, t, meets)
    ensures s == t
    decreases |steps|
  {
    if steps != [] {
      var b := LastStep(from, steps, s, meets);
      var c := LastStep(from, steps, t, meets);
      LeadsToOne(from, steps[..|steps| - 1], b, c, meets);
    }
  }

  /** What ends the wait ends it for good. */
  lemma FinalStep(steps: seq<Step>, s: State, meets: (nat, Grid) -> bool, id: nat, k: nat) returns (at: State)
    requires Runs(steps, s, meets) && k < |steps| && IsOwn(steps[k], id)
    ensures Runs(steps[..k], at, meets) && Enabled(at, steps[k])
    ensures id in Apply(at, steps[k], meets).waiters && Apply(at, steps[k], meets).waiters[id].Done? ==>
      id in s.waiters && s.waiters[id] == Apply(at, steps[k], meets).waiters[id]
  {
    at := StepAt(Initial, steps, s, meets, k);
    var after := Apply(at, steps[k], meets);
    if id in after.waiters && after.waiters[id].Done? {
      DoneStays(after, steps[k + 1..], s, meets, id);
    }
  }

  // ----- main results on outcomes

  /** A waiter reports a match of a grid exactly if at some step of the run it found its condition true on it: what a
      check finds is never lost, and nothing else makes a match. */
  lemma MatchedIffMet(steps: seq<Step>, s: State, meets: (nat, Grid) -> bool, id: nat, g: Grid)
    requires Runs(steps, s, meets)
    ensures HasOutcome(s, id, Matched(g)) <==>
      exists k: nat, at :: ChecksAt(steps, k, at, meets, id) && at.grid == g && meets(id, g)
  {
    if HasOutcome(s, id, Matched(g)) {
      OutcomesComeFrom(steps, s, meets, id);
    }
    if k: nat, at :| ChecksAt(steps, k, at, meets, id) && at.grid == g && meets(id, g) {
      var before := FinalStep(steps, s, meets, id, k);
      LeadsToOne(Initial, steps[..k], at, before, meets);
    }
  }

  /** It reports a timeout exactly if its deadline expired in the run, and the end of the session exactly if it saw
      the channel closed. */
  lemma UnmetIff(steps: seq<Step>, s: State, meets: (nat, Grid) -> bool, id: nat)
    requires Runs(steps, s, meets)
    ensures HasOutcome(s, id, TimedOut) <==> Expire(id) in steps
    ensures ReportsEnded(s, id) <==> SeeClosed(id) in steps
  {
    if id in s.waiters && s.waiters[id].Done? {
      OutcomesComeFrom(steps, s, meets, id);
    }
    if Expire(id) in steps {
      var k: nat :| k < |steps| && steps[k] == Expire(id);
      var at := FinalStep(steps, s, meets, id, k);
    }
    if SeeClosed(id) in steps {
      var k: nat :| k < |steps| && steps[k] == SeeClosed(id);
      var at := FinalStep(steps, s, meets, id, k);
    }
  }

  // ----- the order of a waiter's steps

  /** `b` can be the next own step after `a`. */
  predicate Follows(a: Step, b: Step) {
    match a
    case Join(_) => b.Mark?
    case Mark(_) => b.WaiterLock?
    case WaiterLock(_) => b.Check?
    case Check(_) => b.Wake? || b.SeeClosed? || b.Expire?
    case Wake(_) => b.Mark?
    case _ => false
  }

  predicate NoneOwn(steps: seq<Step>, id: nat) {
    forall i :: 0 <= i < |steps| ==> !IsOwn(steps[i], id)
  }

  /** Where a waiter stands after its own step. */
  predicate StandsAfter(step: Step, w: Waiter) {
    match step
    case Join(_) => w.Looping?
    case Mark(_) => w.Marked?
    case WaiterLock(_) => w.Checking?
    case Check(_) => w.Parked? || w.Done?
    case Wake(_) => w.Looping?
    case _ => w.Done?
  }

  lemma StandsRight(s: State, step: Step, meets: (nat, Grid) -> bool, id: nat)
    requires Enabled(s, step) && IsOwn(step, id)
    ensures id in Apply(s, step, meets).waiters && StandsAfter(step, Apply(s, step, meets).waiters[id])
  {
  }

  lemma NoneOwnBefore(steps: seq<Step>, k: nat, id: nat)
    requires k < |steps| && NoneOwn(steps[k..], id)
    ensures NoneOwn(steps[..|steps| - 1][k..], id) && !IsOwn(steps[|steps| - 1], id)
  {
    assert steps[k..] == steps[..|steps| - 1][k..] + [steps[|steps| - 1]];
    var n := |steps[k..]| - 1;
    assert steps[k..][n] == steps[|steps| - 1] && steps[k..][..n] == steps[..|steps| - 1][k..];
  }

  /** Behind its last own step, a waiter stands where that step left it. */
  lemma {:induction false} StandsAt(steps: seq<Step>, s: State, meets: (nat, Grid) -> bool, id: nat, j: nat)
    requires Runs(steps, s, meets) && j < |steps| && IsOwn(steps[j], id) && NoneOwn(steps[j + 1..], id)
    ensures id in s.waiters && StandsAfter(steps[j], s.waiters[id])
    decreases |steps|
  {
    var n := |steps| - 1;
    var before := LastStep(Initial, steps, s, meets);
    if j == n {
      StandsRight(before, steps[n], meets, id);
    } else {
      NoneOwnBefore(steps, j + 1, id);
      StandsAt(steps[..n], before, meets, id, j);
      OthersLeaveIt(before, steps[n], meets, id);
    }
  }

  lemma {:induction false} NotYet(steps: seq<Step>, s: State, meets: (nat, Grid) -> bool, id: nat)
    requires Runs(steps, s, meets) && NoneOwn(steps, id)
    ensures id !in s.waiters
    decreases |steps|
  {
    if steps != [] {
      var n := |steps| - 1;
      var before := LastStep(Initial, steps, s, meets);
      NotYet(steps[..n], before, meets, id);
      OthersLeaveIt(before, steps[n], meets, id);
    }
  }

  lemma NextOwn(s: State, a: Step, b: Step, id: nat)
    requires IsOwn(b, id) && id in s.waiters && StandsAfter(a, s.waiters[id]) && Enabled(s, b)
    ensures Follows(a, b)
  {
  }

  /** In every run a waiter's steps come in the order of the loop: after it is woken, and only then, it marks the
      generation again, takes the lock and checks; nothing follows the end of the wait. */
  lemma StepsInOrder(steps: seq<Step>, s: State, meets: (nat, Grid) -> bool, id: nat, j: nat, k: nat)
    requires Runs(steps, s, meets) && j < k < |steps| && IsOwn(steps[j], id) && IsOwn(steps[k], id)
    requires NoneOwn(steps[j + 1..k], id)
    ensures Follows(steps[j], steps[k])
  {
    var at := StepAt(Initial, steps, s, meets, k);
    assert steps[..k][j + 1..] == steps[j + 1..k];
    StandsAt(steps[..k], at, meets, id, j);
    NextOwn(at, steps[j], steps[k], id);
  }

  /** The first one is that it joins. */
  lemma JoinsFirst(steps: seq<Step>, s: State, meets: (nat, Grid) -> bool, id: nat, k: nat)
    requires Runs(steps, s, meets) && k < |steps| && IsOwn(steps[k], id) && NoneOwn(steps[..k], id)
    ensures steps[k] == Join(id)
  {
    var at := StepAt(Initial, steps, s, meets, k);
    NotYet(steps[..k], at, meets, id);
  }

  // ----- what a waiter remembers

  predicate HasSeen(w: Waiter) { w.Marked? || w.Checking? || w.Parked? }

  function SeenOf(w: Waiter): nat
    requires HasSeen(w)
  {
    match w
    case Marked(seen) => seen
    case Checking(seen) => seen
    case Parked(seen, _, _) => seen
  }

  lemma NotInNext(steps: seq<Step>, k: nat, x: Step)
    requires k < |steps| && x !in steps[..|steps| - 1][k..] && x != steps[|steps| - 1]
    ensures x !in steps[k..]
  {
    assert steps[k..] == steps[..|steps| - 1][k..] + [steps[|steps| - 1]];
  }

  /** A step other than a mark leaves what a waiter has seen alone. */
  lemma SeenStays(s: State, step: Step, meets: (nat, Grid) -> bool, id: nat)
    requires Enabled(s, step) && step != Mark(id)
    requires id in Apply(s, step, meets).waiters && HasSeen(Apply(s, step, meets).waiters[id])
    ensures id in s.waiters && HasSeen(s.waiters[id])
    ensures SeenOf(s.waiters[id]) == SeenOf(Apply(s, step, meets).waiters[id])
  {
  }

  /** The generation a waiter compares with is the one it marked before it last took the lock, not one it read later. */
  lemma {:induction false} SeenWasMarked(steps: seq<Step>, s: State, meets: (nat, Grid) -> bool, id: nat)
    returns (k: nat, at: State)
    requires Runs(steps, s, meets) && id in s.waiters && HasSeen(s.waiters[id])
    ensures k < |steps| && steps[k] == Mark(id) && Mark(id) !in steps[k + 1..]
    ensures Runs(steps[..k], at, meets) && at.generation == SeenOf(s.waiters[id])
    decreases |steps|
  {
    var n := |steps| - 1;
    var before := LastStep(Initial, steps, s, meets);
    if steps[n] == Mark(id) {
      k, at := n, before;
      assert steps[n + 1..] == [];
    } else {
      SeenStays(before, steps[n], meets, id);
      k, at := SeenWasMarked(steps[..n], before, meets, id);
      assert steps[..n][..k] == steps[..k];
      NotInNext(steps, k + 1, Mark(id));
    }
  }

  lemma NoneOwnNext(steps: seq<Step>, k: nat, id: nat)
    requires k < |steps| && NoneOwn(steps[..|steps| - 1][k..], id) && !IsOwn(steps[|steps| - 1], id)
    ensures NoneOwn(steps[k..], id)
  {
    assert steps[k..] == steps[..|steps| - 1][k..] + [steps[|steps| - 1]];
  }

  /** The step that parked a waiter was a check. */
  lemma ParkedByCheck(s: State, step: Step, meets: (nat, Grid) -> bool, id: nat)
    requires Enabled(s, step) && IsOwn(step, id) && IsParked(Apply(s, step, meets), id)
    ensures step == Check(id) && !meets(id, s.grid)
    ensures var w := Apply(s, step, meets).waiters[id]; w.grid == s.grid && w.late == s.unannounced
  {
  }

  /** The grid of a parked waiter is the one of its last check, and its condition was false on it. */
  lemma {:induction false} ParkedOnLastLook(steps: seq<Step>, s: State, meets: (nat, Grid) -> bool, id: nat)
    returns (k: nat, at: State)
    requires Runs(steps, s, meets) && IsParked(s, id)
    ensures ChecksAt(steps, k, at, meets, id) && NoneOwn(steps[k + 1..], id)
    ensures s.waiters[id].grid == at.grid && s.waiters[id].late == at.unannounced && !meets(id, at.grid)
    decreases |steps|
  {
    var n := |steps| - 1;
    var before := LastStep(Initial, steps, s, meets);
    if IsOwn(steps[n], id) {
      k, at := n, before;
      ParkedByCheck(before, steps[n], meets, id);
      assert steps[n + 1..] == [];
    } else {
      OthersLeaveIt(before, steps[n], meets, id);
      k, at := ParkedOnLastLook(steps[..n], before, meets, id);
      assert steps[..n][..k] == steps[..k];
      NoneOwnNext(steps, k + 1, id);
    }
  }

  // ----- a condition that holds can be reported

  lemma Go(from: State, more: seq<Step>, s: State, step: Step, meets: (nat, Grid) -> bool)
    returns (more': seq<Step>, t: State)
    requires Leads(from, more, s, meets) && Enabled(s, step)
    ensures Leads(from, more', t, meets) && t == Apply(s, step, meets)
  {
    more', t := more + [step], Apply(s, step, meets);
    assert more'[..|more|] == more;
  }

  /** The same grid, with waiter `id` where it was. */
  predicate SameFor(s: State, t: State, id: nat) {
    && t.grid == s.grid && id in s.waiters && id in t.waiters && t.waiters[id] == s.waiters[id]
    && !t.owner.ByFeeder?
  }

  /** The resizer finishes without writing. */
  lemma ResizerLeaves(from: State, past: seq<Step>, s: State, meets: (nat, Grid) -> bool, id: nat)
    returns (more: seq<Step>, t: State)
    requires Leads(from, past, s, meets) && s.owner.ByResizer? && !s.resizer.Idle? && id in s.waiters
    ensures Leads(from, more, t, meets) && SameFor(s, t, id) && t.owner.Free?
  {
    more, t := past, s;
    if t.resizer.Entered? {
      more, t := Go(from, more, t, ResizeFail, meets);
    }
    if t.resizer.Resized? {
      more, t := Go(from, more, t, Upgrade, meets);
    }
    if t.resizer.Upgraded? {
      more, t := Go(from, more, t, ResizeBump, meets);
    }
    if t.resizer.Bumped? {
      more, t := Go(from, more, t, DropSender, meets);
    }
    more, t := Go(from, more, t, ResizeLeave, meets);
  }

  /** Whoever holds the lock can release it without writing, unless it is the feeder. */
  lemma LockIsReleased(from: State, past: seq<Step>, s: State, meets: (nat, Grid) -> bool, id: nat)
    returns (more: seq<Step>, t: State)
    requires Leads(from, past, s, meets) && LockIsHeld(s) && !s.owner.ByFeeder?
    requires id in s.waiters && !s.waiters[id].Checking?
    ensures Leads(from, more, t, meets) && SameFor(s, t, id) && t.owner.Free?
  {
    more, t := past, s;
    match s.owner {
      case Free =>
      case ByResizer => more, t := ResizerLeaves(from, past, s, meets, id);
      case ByWaiter(other) => more, t := Go(from, past, s, Check(other), meets);
    }
  }

  /** A waiter that is not parked gets to where it has marked the generation. */
  lemma MarksNow(from: State, past: seq<Step>, s: State, meets: (nat, Grid) -> bool, id: nat)
    returns (more: seq<Step>, t: State)
    requires Leads(from, past, s, meets) && LockIsHeld(s) && !s.owner.ByFeeder?
    requires id in s.waiters ==> s.waiters[id].Looping?
    ensures Leads(from, more, t, meets) && LockIsHeld(t) && !t.owner.ByFeeder? && t.grid == s.grid
    ensures id in t.waiters && t.waiters[id].Marked?
  {
    more, t := past, s;
    if id !in t.waiters {
      LockStep(t, Join(id), meets);
      more, t := Go(from, more, t, Join(id), meets);
    }
    LockStep(t, Mark(id), meets);
    more, t := Go(from, more, t, Mark(id), meets);
  }

  /** A waiter that has marked the generation looks at the grid as it is. */
  lemma ChecksNow(from: State, past: seq<Step>, s: State, meets: (nat, Grid) -> bool, id: nat)
    returns (more: seq<Step>, t: State)
    requires Leads(from, past, s, meets) && LockIsHeld(s) && !s.owner.ByFeeder? && meets(id, s.grid)
    requires id in s.waiters && (s.waiters[id].Marked? || s.waiters[id].Checking?)
    ensures Leads(from, more, t, meets) && t.grid == s.grid && HasOutcome(t, id, Matched(s.grid))
  {
    more, t := past, s;
    if t.waiters[id].Marked? {
      more, t := LockIsReleased(from, more, t, meets, id);
      more, t := Go(from, more, t, WaiterLock(id), meets);
    }
    more, t := Go(from, more, t, Check(id), meets);
  }

  /** A parked waiter whose condition holds is woken, after the pending bump if there is one. */
  lemma WakesUp(steps: seq<Step>, s: State, meets: (nat, Grid) -> bool, id: nat) returns (more: seq<Step>, t: State)
    requires Runs(steps, s, meets) && IsParked(s, id) && meets(id, s.grid) && !s.owner.ByFeeder?
    requires !Enabled(s, SeeClosed(id))
    ensures Leads(s, more, t, meets) && t.grid == s.grid && !t.owner.ByFeeder?
    ensures id in t.waiters && t.waiters[id].Looping?
  {
    more, t := [], s;
    if !Enabled(s, Wake(id)) {
      WakeupIsComing(steps, s, meets, id);
      if s.feeder.Fed? && Enabled(Apply(s, FeederBump, meets), Wake(id)) {
        more, t := Go(s, more, t, FeederBump, meets);
      } else {
        if s.resizer.Resized? {
          more, t := Go(s, more, t, Upgrade, meets);
        }
        more, t := Go(s, more, t, ResizeBump, meets);
      }
    }
    more, t := Go(s, more, t, Wake(id), meets);
  }

  /** Whenever a condition holds on the grid, no chunk is just being fed, and the wait is neither over nor about to see
      the session end, some interleaving makes the waiter report a match of this very grid. */
  lemma MatchIsInReach(steps: seq<Step>, s: State, meets: (nat, Grid) -> bool, id: nat)
    requires Runs(steps, s, meets) && meets(id, s.grid) && !s.owner.ByFeeder?
    requires !Enabled(s, SeeClosed(id)) && (id in s.waiters ==> !s.waiters[id].Done?)
    ensures exists more, t :: Leads(s, more, t, meets) && t.grid == s.grid && HasOutcome(t, id, Matched(s.grid))
  {
    AllRuns(steps, s, meets);
    var more, t := [], s;
    if IsParked(s, id) {
      more, t := WakesUp(steps, s, meets, id);
      InvKept(s, more, t, meets);
    }
    if id !in t.waiters || t.waiters[id].Looping? {
      more, t := MarksNow(s, more, t, meets, id);
    }
    more, t := ChecksNow(s, more, t, meets, id);
  }
}
