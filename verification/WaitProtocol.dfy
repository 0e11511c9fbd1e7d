/**
 The wait protocol: a reader thread, the feeder, resizers and any number of waiters share the terminal grid, a
 generation counter and the counter's sender. Every interleaving is a sequence of steps.
 */
module WaitProtocol {
  import opened Sequences

  type Chunk = string

  datatype Write = Output(chunk: Chunk) | Resize(cols: nat, rows: nat)

  /** The grid is determined by what was written to it, so it is modelled as that history. */
  type Grid = seq<Write>

  /** Feeder: waiting for a chunk, holding one, holding it under the terminal lock, or between feeding and bumping. */
  datatype Feeder = Receiving | Holding(chunk: Chunk) | Locked(chunk: Chunk) | Fed | Exited

  /** Resize call, at the points where it holds the terminal lock. It owns the sender while `Upgraded` or `Bumped`. */
  datatype Resizer = Idle | Entered(cols: nat, rows: nat) | Resized | Upgraded | Bumped | Leaving

  datatype Outcome = Matched(grid: Grid) | Ended(grid: Grid, late: nat) | TimedOut

  /** `grid` is the grid on which the condition was last evaluated, `late` the number of unannounced resizes by then. */
  datatype Waiter =
    | Looping
    | Marked(seen: nat)
    | Checking(seen: nat)
    | Parked(seen: nat, grid: Grid, late: nat)
    | Done(outcome: Outcome)

  datatype Owner = Free | ByFeeder | ByResizer | ByWaiter(id: nat)

  datatype State = State(
    grid: Grid, generation: nat,
    feeder: Feeder, resizer: Resizer, owner: Owner, waiters: map<nat, Waiter>,
    inbox: seq<Chunk>, readerDone: bool,
    received: seq<Chunk>,     // every chunk the reader ever sent
    unannounced: nat)         // how many resizes found the sender gone

  datatype Step =
    | Deliver(chunk: Chunk) | ReaderExit
    | Receive | FeederLock | Feed | FeederBump | FeederExit
    | ResizeEnter(cols: nat, rows: nat) | ResizeFail | ResizeGrid | Upgrade | ResizeBump | DropSender | ResizeLeave
    | Join(id: nat) | Mark(id: nat) | WaiterLock(id: nat) | Check(id: nat)
    | Wake(id: nat) | SeeClosed(id: nat) | Expire(id: nat)

  const Initial := State([], 0, Receiving, Idle, Free, map[], [], false, [], 0)

  /** All owners of the sender are gone. */
  predicate Closed(s: State) {
    s.feeder.Exited? && !s.resizer.Upgraded? && !s.resizer.Bumped?
  }

  /** Some writer has changed the grid and not yet bumped the generation. */
  predicate Dirty(s: State) {
    s.feeder.Fed? || s.resizer.Resized? || s.resizer.Upgraded?
  }

  predicate IsParked(s: State, id: nat) {
    id in s.waiters && s.waiters[id].Parked?
  }

  predicate ReportsEnded(s: State, id: nat) {
    id in s.waiters && s.waiters[id].Done? && s.waiters[id].outcome.Ended?
  }

  predicate Enabled(s: State, step: Step) {
    match step
    case Deliver(_) => !s.readerDone
    case ReaderExit => !s.readerDone
    case Receive => s.feeder.Receiving? && s.inbox != []
    case FeederLock => s.feeder.Holding? && s.owner.Free?
    case Feed => s.feeder.Locked?
    case FeederBump => s.feeder.Fed?
    case FeederExit => s.feeder.Receiving? && s.inbox == [] && s.readerDone
    case ResizeEnter(_, _) => s.resizer.Idle? && s.owner.Free?
    case ResizeFail => s.resizer.Entered?
    case ResizeGrid => s.resizer.Entered?
    case Upgrade => s.resizer.Resized?
    case ResizeBump => s.resizer.Upgraded?
    case DropSender => s.resizer.Bumped?
    case ResizeLeave => s.resizer.Leaving?
    case Join(id) => id !in s.waiters
    case Mark(id) => id in s.waiters && s.waiters[id].Looping?
    case WaiterLock(id) => id in s.waiters && s.waiters[id].Marked? && s.owner.Free?
    case Check(id) => id in s.waiters && s.waiters[id].Checking?
    // changed(): Ok if the version is unseen, Err only if it is seen and the channel is closed
    case Wake(id) => IsParked(s, id) && s.waiters[id].seen != s.generation
    case SeeClosed(id) => IsParked(s, id) && s.waiters[id].seen == s.generation && Closed(s)
    case Expire(id) => IsParked(s, id)
  }

  function SetWaiter(s: State, id: nat, w: Waiter): State {
    s.(waiters := s.waiters[id := w])
  }

  /** The step function; `meets(id, g)` is the condition that waiter `id` evaluates. */
  function Apply(s: State, step: Step, meets: (nat, Grid) -> bool): State
    requires Enabled(s, step)
  {
    match step
    case Deliver(chunk) => s.(inbox := s.inbox + [chunk], received := s.received + [chunk])
    case ReaderExit => s.(readerDone := true)
    case Receive => s.(feeder := Holding(s.inbox[0]), inbox := s.inbox[1..])
    case FeederLock => s.(feeder := Locked(s.feeder.chunk), owner := ByFeeder)
    case Feed => s.(grid := s.grid + [Output(s.feeder.chunk)], feeder := Fed, owner := Free)
    case FeederBump => s.(generation := s.generation + 1, feeder := Receiving)
    case FeederExit => s.(feeder := Exited)
    case ResizeEnter(cols, rows) => s.(resizer := Entered(cols, rows), owner := ByResizer)
    case ResizeFail => s.(resizer := Leaving)
    case ResizeGrid => s.(grid := s.grid + [Resize(s.resizer.cols, s.resizer.rows)], resizer := Resized)
    case Upgrade =>
      if s.feeder.Exited? then s.(resizer := Leaving, unannounced := s.unannounced + 1)
      else s.(resizer := Upgraded)
    case ResizeBump => s.(generation := s.generation + 1, resizer := Bumped)
    case DropSender => s.(resizer := Leaving)
    case ResizeLeave => s.(resizer := Idle, owner := Free)
    case Join(id) => SetWaiter(s, id, Looping)
    case Mark(id) => SetWaiter(s, id, Marked(s.generation))
    case WaiterLock(id) => SetWaiter(s, id, Checking(s.waiters[id].seen)).(owner := ByWaiter(id))
    case Check(id) =>
      SetWaiter(s, id,
        if meets(id, s.grid) then Done(Matched(s.grid))
        else Parked(s.waiters[id].seen, s.grid, s.unannounced)).(owner := Free)
    case Wake(id) => SetWaiter(s, id, Looping)
    case SeeClosed(id) => SetWaiter(s, id, Done(Ended(s.waiters[id].grid, s.waiters[id].late)))
    case Expire(id) => SetWaiter(s, id, Done(TimedOut))
  }

  /** Some interleaving leads from one state to another. */
  ghost predicate Leads(from: State, steps: seq<Step>, s: State, meets: (nat, Grid) -> bool)
    decreases |steps|
  {
    if steps == [] then s == from
    else
      var n := |steps| - 1;
      exists before ::
        Leads(from, steps[..n], before, meets) && Enabled(before, steps[n]) && s == Apply(before, steps[n], meets)
  }

  /** `s` is reached from the start by some interleaving. */
  ghost predicate Runs(steps: seq<Step>, s: State, meets: (nat, Grid) -> bool) {
    Leads(Initial, steps, s, meets)
  }

  // ----- what every step keeps

  function Chunks(grid: Grid): seq<Chunk> {
    if grid == [] then []
    else
      var n := |grid| - 1;
      Chunks(grid[..n]) + (if grid[n].Output? then [grid[n].chunk] else [])
  }

  function InHand(f: Feeder): seq<Chunk> {
    match f
    case Holding(chunk) => [chunk]
    case Locked(chunk) => [chunk]
    case _ => []
  }

  function Unbumped(s: State): nat {
    FeederUnbumped(s) + ResizerUnbumped(s) + s.unannounced
  }

  function FeederUnbumped(s: State): nat { if s.feeder.Fed? then 1 else 0 }

  function ResizerUnbumped(s: State): nat { if s.resizer.Resized? || s.resizer.Upgraded? then 1 else 0 }

  /** Nothing is lost between the reader and the grid. */
  ghost predicate Delivered(s: State) {
    s.received == Chunks(s.grid) + (InHand(s.feeder) + s.inbox)
  }

  /** Every grid change is announced exactly once, is about to be, or found the sender gone. */
  predicate Announced(s: State) {
    && (s.feeder.Exited? ==> s.inbox == [] && s.readerDone)
    && |s.grid| == s.generation + Unbumped(s)
    && (s.unannounced > 0 ==> Closed(s))
  }

  ghost predicate LockIsHeld(s: State) {
    && (s.owner.ByFeeder? <==> s.feeder.Locked?)
    && (s.owner.ByResizer? <==> !s.resizer.Idle?)
    && forall id :: s.owner == ByWaiter(id) <==> id in s.waiters && s.waiters[id].Checking?
  }

  predicate OnlyResizesBehind(g: Grid, grid: Grid) {
    g <= grid && forall i :: |g| <= i < |grid| ==> grid[i].Resize?
  }

  /** What a waiter that looked at `g` and then saw no bump knows of the writes behind it. */
  predicate SawAllBut(s: State, g: Grid, late: nat) {
    && g <= s.grid && late <= s.unannounced
    && |s.grid| - |g| - ResizerUnbumped(s) - (s.unannounced - late) <= FeederUnbumped(s)
    && |g| + ResizerUnbumped(s) + (s.unannounced - late) <= |s.grid|
    && (!s.feeder.Fed? ==> OnlyResizesBehind(g, s.grid))
  }

  ghost predicate WaiterOk(s: State, id: nat, w: Waiter, meets: (nat, Grid) -> bool) {
    match w
    case Looping => true
    case Marked(seen) => seen <= s.generation
    case Checking(seen) => seen <= s.generation
    case Parked(seen, g, late) =>
      seen <= s.generation && !meets(id, g) && g <= s.grid && (seen == s.generation ==> SawAllBut(s, g, late))
    case Done(Matched(g)) => meets(id, g) && g <= s.grid
    case Done(Ended(g, late)) => Closed(s) && !meets(id, g) && SawAllBut(s, g, late)
    case Done(TimedOut) => true
  }

  ghost predicate WaitersOk(s: State, meets: (nat, Grid) -> bool) {
    forall id :: id in s.waiters ==> WaiterOk(s, id, s.waiters[id], meets)
  }

  ghost predicate Inv(s: State, meets: (nat, Grid) -> bool) {
    Delivered(s) && Announced(s) && LockIsHeld(s) && WaitersOk(s, meets)
  }

  lemma ChunksAppend(grid: Grid, w: Write)
    ensures Chunks(grid + [w]) == Chunks(grid) + if w.Output? then [w.chunk] else []
  {
    assert (grid + [w])[..|grid|] == grid;
  }

  lemma AnnouncedStep(s: State, step: Step, meets: (nat, Grid) -> bool)
    requires Announced(s) && Enabled(s, step)
    ensures Announced(Apply(s, step, meets))
  {
  }

  lemma DeliverStep(s: State, chunk: Chunk, meets: (nat, Grid) -> bool)
    requires Delivered(s) && Enabled(s, Deliver(chunk))
    ensures Delivered(Apply(s, Deliver(chunk), meets))
  {
    Assoc(Chunks(s.grid), InHand(s.feeder) + s.inbox, [chunk]);
    Assoc(InHand(s.feeder), s.inbox, [chunk]);
  }

  lemma ReceiveStep(s: State, meets: (nat, Grid) -> bool)
    requires Delivered(s) && Enabled(s, Receive)
    ensures Delivered(Apply(s, Receive, meets))
  {
    assert [] + s.inbox == [s.inbox[0]] + s.inbox[1..];
  }

  lemma FeedStep(s: State, meets: (nat, Grid) -> bool)
    requires Delivered(s) && Enabled(s, Feed)
    ensures Delivered(Apply(s, Feed, meets))
  {
    ChunksAppend(s.grid, Output(s.feeder.chunk));
    Shift(Chunks(s.grid), s.feeder.chunk, s.inbox);
    assert [] + s.inbox == s.inbox;
  }

  lemma ResizeStep(s: State, meets: (nat, Grid) -> bool)
    requires Delivered(s) && Enabled(s, ResizeGrid)
    ensures Delivered(Apply(s, ResizeGrid, meets))
  {
    ChunksAppend(s.grid, Resize(s.resizer.cols, s.resizer.rows));
    assert Chunks(s.grid) + [] == Chunks(s.grid);
  }

  lemma DeliveredStep(s: State, step: Step, meets: (nat, Grid) -> bool)
    requires Delivered(s) && Enabled(s, step)
    ensures Delivered(Apply(s, step, meets))
  {
    match step {
      case Deliver(chunk) => DeliverStep(s, chunk, meets);
      case Receive => ReceiveStep(s, meets);
      case Feed => FeedStep(s, meets);
      case ResizeGrid => ResizeStep(s, meets);
      case _ => OtherSteps(s, step, meets);
    }
  }

  lemma OtherSteps(s: State, step: Step, meets: (nat, Grid) -> bool)
    requires Enabled(s, step) && !step.Deliver? && !step.Receive? && !step.Feed? && !step.ResizeGrid?
    ensures var t := Apply(s, step, meets);
      t.received == s.received && t.grid == s.grid && InHand(t.feeder) == InHand(s.feeder) && t.inbox == s.inbox
  {
  }

  lemma LockStep(s: State, step: Step, meets: (nat, Grid) -> bool)
    requires LockIsHeld(s) && Enabled(s, step)
    ensures LockIsHeld(Apply(s, step, meets))
  {
  }

  /** A step that leaves the generation alone keeps what is known of the writes behind `g`. */
  lemma SawStep(s: State, step: Step, meets: (nat, Grid) -> bool, g: Grid, late: nat)
    requires Announced(s) && Enabled(s, step) && SawAllBut(s, g, late)
    requires Apply(s, step, meets).generation == s.generation
    ensures SawAllBut(Apply(s, step, meets), g, late)
  {
    var t := Apply(s, step, meets);
    if !step.Feed? && !step.ResizeGrid? {
      assert t.grid == s.grid;
    }
  }

  lemma GridGrows(s: State, step: Step, meets: (nat, Grid) -> bool)
    requires Enabled(s, step)
    ensures s.grid <= Apply(s, step, meets).grid && s.generation <= Apply(s, step, meets).generation
    ensures Closed(s) ==> Closed(Apply(s, step, meets)) && Apply(s, step, meets).generation == s.generation
  {
  }

  /** A step keeps what is known about a waiter that it does not move. */
  lemma OthersStep(s: State, step: Step, meets: (nat, Grid) -> bool, id: nat, w: Waiter)
    requires Announced(s) && Enabled(s, step) && WaiterOk(s, id, w, meets)
    ensures WaiterOk(Apply(s, step, meets), id, w, meets)
  {
    GridGrows(s, step, meets);
    var t := Apply(s, step, meets);
    match w {
      case Parked(seen, g, late) =>
        if seen == t.generation {
          SawStep(s, step, meets, g, late);
        }
      case Done(Ended(g, late)) => SawStep(s, step, meets, g, late);
      case _ =>
    }
  }

  /** The waiter that a step moves knows what its new state claims. */
  lemma MovedStep(s: State, step: Step, meets: (nat, Grid) -> bool, id: nat)
    requires LockIsHeld(s) && Enabled(s, step) && id in Apply(s, step, meets).waiters
    requires id in s.waiters ==> WaiterOk(s, id, s.waiters[id], meets)
    requires id !in s.waiters || Apply(s, step, meets).waiters[id] != s.waiters[id]
    ensures WaiterOk(Apply(s, step, meets), id, Apply(s, step, meets).waiters[id], meets)
  {
  }

  lemma WaitersStep(s: State, step: Step, meets: (nat, Grid) -> bool)
    requires Announced(s) && LockIsHeld(s) && WaitersOk(s, meets) && Enabled(s, step)
    ensures WaitersOk(Apply(s, step, meets), meets)
  {
    var t := Apply(s, step, meets);
    forall id | id in t.waiters
      ensures WaiterOk(t, id, t.waiters[id], meets)
    {
      if id in s.waiters && t.waiters[id] == s.waiters[id] {
        OthersStep(s, step, meets, id, s.waiters[id]);
      } else {
        MovedStep(s, step, meets, id);
      }
    }
  }

  lemma InvStep(s: State, step: Step, meets: (nat, Grid) -> bool)
    requires Inv(s, meets) && Enabled(s, step)
    ensures Inv(Apply(s, step, meets), meets)
  {
    DeliveredStep(s, step, meets);
    AnnouncedStep(s, step, meets);
    LockStep(s, step, meets);
    WaitersStep(s, step, meets);
  }

  /** The last step of an interleaving. */
  lemma LastStep(from: State, steps: seq<Step>, s: State, meets: (nat, Grid) -> bool) returns (before: State)
    requires Leads(from, steps, s, meets) && steps != []
    ensures var n := |steps| - 1;
      Leads(from, steps[..n], before, meets) && Enabled(before, steps[n]) && s == Apply(before, steps[n], meets)
  {
    var n := |steps| - 1;
    before :|
      Leads(from, steps[..n], before, meets) && Enabled(before, steps[n]) && s == Apply(before, steps[n], meets);
  }

  lemma {:induction false} InvKept(from: State, steps: seq<Step>, s: State, meets: (nat, Grid) -> bool)
    requires Inv(from, meets) && Leads(from, steps, s, meets)
    ensures Inv(s, meets)
    decreases |steps|
  {
    if steps != [] {
      var before := LastStep(from, steps, s, meets);
      InvKept(from, steps[..|steps| - 1], before, meets);
      InvStep(before, steps[|steps| - 1], meets);
    }
  }

  lemma StartsRight(meets: (nat, Grid) -> bool)
    ensures Inv(Initial, meets)
  {
    assert Delivered(Initial);
  }

  /** The invariant holds after every interleaving of steps. */
  lemma {:induction false} AllRuns(steps: seq<Step>, s: State, meets: (nat, Grid) -> bool)
    requires Runs(steps, s, meets)
    ensures Inv(s, meets)
  {
    StartsRight(meets);
    InvKept(Initial, steps, s, meets);
  }

  lemma {:induction false} LeadsGrows(from: State, steps: seq<Step>, s: State, meets: (nat, Grid) -> bool)
    requires Leads(from, steps, s, meets)
    ensures from.grid <= s.grid && from.generation <= s.generation
    ensures Closed(from) ==> Closed(s) && s.generation == from.generation
    decreases |steps|
  {
    if steps != [] {
      var before := LastStep(from, steps, s, meets);
      LeadsGrows(from, steps[..|steps| - 1], before, meets);
      GridGrows(before, steps[|steps| - 1], meets);
    }
  }

  // ----- main results

  /** No lost wakeup: a waiter parked on the current generation, with no writer under way and the sender alive, has
      seen the current grid, and its condition is false on it. */
  lemma NoLostWakeup(steps: seq<Step>, s: State, meets: (nat, Grid) -> bool, id: nat)
    requires Runs(steps, s, meets) && IsParked(s, id)
    requires s.waiters[id].seen == s.generation && !Dirty(s) && !Closed(s)
    ensures s.waiters[id].grid == s.grid && !meets(id, s.grid)
  {
    AllRuns(steps, s, meets);
    assert WaiterOk(s, id, s.waiters[id], meets);
  }

  /** Consequently, when the condition holds on the grid while the sender is alive, a parked waiter can be woken now, or
      as soon as the writer under way bumps. */
  lemma WakeupIsComing(steps: seq<Step>, s: State, meets: (nat, Grid) -> bool, id: nat)
    requires Runs(steps, s, meets) && IsParked(s, id) && meets(id, s.grid) && !Closed(s)
    ensures
      || Enabled(s, Wake(id))
      || (s.feeder.Fed? && Enabled(Apply(s, FeederBump, meets), Wake(id)))
      || (s.resizer.Upgraded? && Enabled(Apply(s, ResizeBump, meets), Wake(id)))
      || (s.resizer.Resized? && !s.feeder.Exited?
          && Enabled(Apply(Apply(s, Upgrade, meets), ResizeBump, meets), Wake(id)))
  {
    if !Enabled(s, Wake(id)) && !Dirty(s) {
      NoLostWakeup(steps, s, meets, id);
    }
  }

  /** What two looks at the generation counter tell about the grid in between: the writes are the bumps plus those not
      bumped yet, less those that were waiting for their bump at the first look. */
  lemma WritesBetween(past: seq<Step>, from: State, steps: seq<Step>, s: State, meets: (nat, Grid) -> bool)
    requires Runs(past, from, meets) && Leads(from, steps, s, meets)
    ensures from.grid <= s.grid
    ensures |s.grid| - |from.grid| == s.generation - from.generation + Unbumped(s) - Unbumped(from)
    ensures Closed(from) ==> s.generation == from.generation
  {
    AllRuns(past, from, meets);
    InvKept(from, steps, s, meets);
    LeadsGrows(from, steps, s, meets);
  }

  lemma {:induction false} ChunksBehind(g: Grid, grid: Grid)
    requires OnlyResizesBehind(g, grid)
    ensures Chunks(g) == Chunks(grid)
    decreases |grid|
  {
    if g != grid {
      ChunksBehind(g, grid[..|grid| - 1]);
    }
  }

  /** Fail-fast is sound: whoever reports `Ended` found its condition false on a grid to which everything received had
      been fed, and only resizes came behind it. That grid is still the session's exactly if no resize has found the
      sender gone since the check and none is between its write and that discovery. */
  lemma FailFastIsSound(steps: seq<Step>, s: State, meets: (nat, Grid) -> bool, id: nat)
    requires Runs(steps, s, meets) && ReportsEnded(s, id)
    ensures s.feeder.Exited? && s.readerDone && s.inbox == []
    ensures var Ended(g, late) := s.waiters[id].outcome;
      && !meets(id, g) && Chunks(g) == s.received && OnlyResizesBehind(g, s.grid)
      && (g == s.grid <==> s.unannounced == late && !s.resizer.Resized?)
  {
    AllRuns(steps, s, meets);
    assert WaiterOk(s, id, s.waiters[id], meets);
    var g := s.waiters[id].outcome.grid;
    ChunksBehind(g, s.grid);
    assert g == s.grid <==> |g| == |s.grid|;
  }

  /** A match is never false: the condition held on a grid the session went through. */
  lemma MatchIsSound(steps: seq<Step>, s: State, meets: (nat, Grid) -> bool, id: nat)
    requires Runs(steps, s, meets) && id in s.waiters && s.waiters[id].Done? && s.waiters[id].outcome.Matched?
    ensures meets(id, s.waiters[id].outcome.grid) && s.waiters[id].outcome.grid <= s.grid
  {
    AllRuns(steps, s, meets);
    assert WaiterOk(s, id, s.waiters[id], meets);
  }

  /** The proviso is needed: a resize after the feeder's exit is not announced, and a waiter that was parked reports
      `Ended` although its condition holds. So it goes with any output and any resize that changes its verdict. */
  lemma LateResizeIsMissed(meets: (nat, Grid) -> bool, c: Chunk, cols: nat, rows: nat)
    requires !meets(0, [Output(c)]) && meets(0, [Output(c), Resize(cols, rows)])
    ensures exists steps, s :: Runs(steps, s, meets) && ReportsEnded(s, 0) && meets(0, s.grid)
  {
    var steps, s := OneFed(meets, c);
    steps, s := OneParked(meets, c, steps, s);
    steps, s := ResizedLate(meets, c, cols, rows, steps, s);
    steps, s := Extend(steps, s, SeeClosed(0), meets);
    assert s.grid == [Output(c), Resize(cols, rows)];
  }

  /** The session has printed one chunk and is over. */
  lemma OneFed(meets: (nat, Grid) -> bool, c: Chunk) returns (steps: seq<Step>, s: State)
    ensures Runs(steps, s, meets)
    ensures s == State([Output(c)], 1, Exited, Idle, Free, map[], [], true, [c], 0)
  {
    steps, s := OneHeld(meets, c);
    steps, s := Extend(steps, s, Feed, meets);
    assert s.grid == [Output(c)];
    steps, s := Extend(steps, s, FeederBump, meets);
    steps, s := Extend(steps, s, ReaderExit, meets);
    steps, s := Extend(steps, s, FeederExit, meets);
  }

  lemma OneHeld(meets: (nat, Grid) -> bool, c: Chunk) returns (steps: seq<Step>, s: State)
    ensures Runs(steps, s, meets)
    ensures s == State([], 0, Locked(c), Idle, ByFeeder, map[], [], false, [c], 0)
  {
    steps, s := Extend([], Initial, Deliver(c), meets);
    assert s.inbox == [c] && s.inbox[1..] == [];
    steps, s := Extend(steps, s, Receive, meets);
    steps, s := Extend(steps, s, FeederLock, meets);
  }

  lemma OneParked(meets: (nat, Grid) -> bool, c: Chunk, past: seq<Step>, start: State)
    returns (steps: seq<Step>, s: State)
    requires Runs(past, start, meets) && !meets(0, [Output(c)])
    requires start == State([Output(c)], 1, Exited, Idle, Free, map[], [], true, [c], 0)
    ensures Runs(steps, s, meets) && s == start.(waiters := map[0 := Parked(1, [Output(c)], 0)])
  {
    steps, s := Extend(past, start, Join(0), meets);
    assert s == start.(waiters := map[0 := Looping]);
    steps, s := Extend(steps, s, Mark(0), meets);
    assert s == start.(waiters := map[0 := Marked(1)]);
    steps, s := Extend(steps, s, WaiterLock(0), meets);
    assert s == start.(waiters := map[0 := Checking(1)], owner := ByWaiter(0));
    steps, s := Extend(steps, s, Check(0), meets);
  }

  lemma ResizedLate(meets: (nat, Grid) -> bool, c: Chunk, cols: nat, rows: nat, past: seq<Step>, start: State)
    returns (steps: seq<Step>, s: State)
    requires Runs(past, start, meets) && start.grid == [Output(c)] && start.unannounced == 0
    requires start.feeder.Exited? && start.resizer.Idle? && start.owner.Free?
    ensures Runs(steps, s, meets)
    ensures s == start.(grid := [Output(c), Resize(cols, rows)], resizer := Leaving, owner := ByResizer,
                        unannounced := 1)
  {
    steps, s := Extend(past, start, ResizeEnter(cols, rows), meets);
    steps, s := Extend(steps, s, ResizeGrid, meets);
    assert s.grid == [Output(c), Resize(cols, rows)];
    steps, s := Extend(steps, s, Upgrade, meets);
  }

  lemma Extend(steps: seq<Step>, s: State, step: Step, meets: (nat, Grid) -> bool)
    returns (steps': seq<Step>, s': State)
    requires Runs(steps, s, meets) && Enabled(s, step)
    ensures Runs(steps', s', meets) && s' == Apply(s, step, meets)
  {
    steps', s' := steps + [step], Apply(s, step, meets);
    assert steps'[..|steps|] == steps;
  }
}
