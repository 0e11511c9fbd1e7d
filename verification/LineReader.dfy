/** The line-buffered reader: capped line splitting on a background task, served through reads of any size. */
module LineReader {
  import opened Sequences
  import opened Machine

  datatype Line = Whole(bytes: Bytes) | TooLong

  /** Bytes up to and including the first line break, or all of them. */
  function FirstLine(s: Bytes): (n: nat)
    ensures n <= |s| && (s != "" ==> n > 0)
    ensures forall i :: 0 <= i < n - 1 ==> s[i] != '\n'
    ensures n < |s| ==> n > 0 && s[n - 1] == '\n'
  {
    if s == "" then 0 else if s[0] == '\n' then 1 else 1 + FirstLine(s[1..])
  }

  /** What the task queues for a source: its lines, up to the first one over the cap. */
  function Lines(s: Bytes, cap: nat): seq<Line>
    decreases |s|
  {
    if s == "" then []
    else
      var n := FirstLine(s);
      if n > cap then [TooLong] else [Whole(s[..n])] + Lines(s[n..], cap)
  }

  // ----- the buffered source

  function Concat(chunks: seq<Bytes>): Bytes {
    if chunks == [] then "" else chunks[0] + Concat(chunks[1..])
  }

  predicate NonEmpty(chunks: seq<Bytes>) {
    forall i :: 0 <= i < |chunks| ==> chunks[i] != ""
  }

  /** A buffered reader over a source that arrives in arbitrary chunks; a read of no bytes is its end. */
  class BufferedSource {
    var current: Bytes
    var chunks: seq<Bytes>

    ghost predicate Valid()
      reads this
    {
      NonEmpty(chunks)
    }

    /** The bytes that are still to come. */
    ghost function Rest(): Bytes
      reads this
    {
      current + Concat(chunks)
    }

    constructor (source: seq<Bytes>)
      requires NonEmpty(source)
      ensures Valid() && Rest() == Concat(source)
    {
      current, chunks := "", source;
    }

    method FillBuf() returns (available: Bytes)
      requires Valid()
      modifies this
      ensures Valid() && Rest() == old(Rest()) && available == current
      ensures available == "" <==> Rest() == ""
    {
      if current == "" && chunks != [] {
        current, chunks := chunks[0], chunks[1..];
      }
      available := current;
    }

    method Consume(n: nat)
      requires Valid() && n <= |current|
      modifies this
      ensures Valid() && Rest() == old(Rest())[n..]
    {
      current := current[n..];
    }

    /** One line into a fresh buffer; stops with an error once the buffer is over the cap. */
    method ReadLineCapped(cap: nat) returns (ok: bool, line: Bytes)
      requires Valid()
      modifies this
      ensures Valid()
      ensures ok <==> FirstLine(old(Rest())) <= cap
      ensures ok ==> line == old(Rest())[..FirstLine(old(Rest()))] && Rest() == old(Rest())[|line|..]
    {
      line := "";
      ghost var source := Rest();
      while true
        invariant Valid() && source == line + Rest() && |line| <= cap && NoBreak(line)
        decreases |Rest()|
      {
        var available := FillBuf();
        if available == "" {
          FirstLineAtLeast(line, "");
          return true, line;
        }
        var consumed := FirstLine(available);
        var done := available[consumed - 1] == '\n';
        Taken(source, line, available, consumed, Concat(chunks));
        line := line + available[..consumed];
        Consume(consumed);
        if |line| > cap {
          return false, line;
        }
        if done {
          return true, line;
        }
      }
    }
  }

  /** The background task: queue whole lines until the source ends or a line is too long. */
  method RunReaderTask(source: BufferedSource, cap: nat) returns (queued: seq<Line>)
    requires source.Valid()
    modifies source
    ensures queued == Lines(old(source.Rest()), cap)
  {
    queued := [];
    while true
      invariant source.Valid() && queued + Lines(source.Rest(), cap) == Lines(old(source.Rest()), cap)
      decreases |source.Rest()|
    {
      ghost var rest := source.Rest();
      var ok, line := source.ReadLineCapped(cap);
      if !ok {
        return queued + [TooLong];
      }
      if line == "" {
        return queued;
      }
      Shift(queued, Whole(line), Lines(rest[|line|..], cap));
      queued := queued + [Whole(line)];
    }
  }

  ghost predicate NoBreak(s: Bytes) {
    forall i :: 0 <= i < |s| ==> s[i] != '\n'
  }

  lemma FirstLineAtLeast(line: Bytes, rest: Bytes)
    requires NoBreak(line)
    ensures FirstLine(line + rest) >= |line| && (rest == "" ==> FirstLine(line + rest) == |line|)
  {
    var s := line + rest;
    assert forall i :: 0 <= i < |line| ==> s[i] == line[i];
  }

  lemma FirstLineIs(line: Bytes, rest: Bytes)
    requires line != "" && NoBreak(line[..|line| - 1]) && line[|line| - 1] == '\n'
    ensures FirstLine(line + rest) == |line|
  {
    var s := line + rest;
    assert forall i :: 0 <= i < |line| - 1 ==> s[i] == line[..|line| - 1][i];
    assert s[|line| - 1] == '\n';
  }

  /** Taking a buffer's first line extends the line read so far; it is complete if the buffer had a line break. */
  lemma Taken(source: Bytes, before: Bytes, available: Bytes, consumed: nat, more: Bytes)
    requires available != "" && consumed == FirstLine(available) && NoBreak(before)
    requires source == before + (available + more)
    ensures var rest := available[consumed..] + more;
      rest == (available + more)[consumed..]
    ensures var line := before + available[..consumed];
      && source == line + (available[consumed..] + more) && FirstLine(source) >= |line|
      && (available[consumed - 1] == '\n' ==> FirstLine(source) == |line|)
      && (available[consumed - 1] != '\n' ==> NoBreak(line))
  {
    var rest := available[consumed..] + more;
    var line := before + available[..consumed];
    Regroup(before, available, consumed, more);
    if available[consumed - 1] == '\n' {
      assert line[..|line| - 1] == before + available[..consumed - 1];
      FirstLineIs(line, rest);
    } else {
      FirstLineAtLeast(line, rest);
    }
  }

  lemma Regroup(a: Bytes, b: Bytes, n: nat, c: Bytes)
    requires n <= |b|
    ensures a + (b + c) == (a + b[..n]) + (b[n..] + c)
  {
    assert b == b[..n] + b[n..];
  }

  // ----- serving

  function LineBytes(l: Line): Bytes {
    match l
    case Whole(bytes) => bytes
    case TooLong => ""
  }

  function BytesOf(lines: seq<Line>): Bytes {
    if lines == [] then "" else BytesOf(lines[..|lines| - 1]) + LineBytes(lines[|lines| - 1])
  }

  datatype Poll = Ready(bytes: Bytes) | Failed | Eof | Pending

  datatype Reader = Reader(buf: Bytes, pos: nat, queue: seq<Line>, finished: bool) {
    predicate Valid() { pos <= |buf| }
  }

  /** One `poll_read` into a buffer of `size` bytes. */
  function PollRead(r: Reader, size: nat): (result: (Reader, Poll))
    requires r.Valid()
    ensures result.0.Valid()
  {
    if r.pos < |r.buf| then
      var n := Min(|r.buf| - r.pos, size);
      var rest := if r.pos + n >= |r.buf| then r.(buf := "", pos := 0) else r.(pos := r.pos + n);
      (rest, Ready(r.buf[r.pos..r.pos + n]))
    else if r.queue == [] then (r, if r.finished then Eof else Pending)
    else match r.queue[0]
      case TooLong => (r.(queue := r.queue[1..]), Failed)
      case Whole(line) =>
        var n := Min(|line|, size);
        var next := r.(queue := r.queue[1..]);
        (if n < |line| then next.(buf := line, pos := n) else next, Ready(line[..n]))
  }

  class LineBufferedRead {
    var buf: Bytes
    var pos: nat
    var queue: seq<Line>
    var finished: bool

    ghost function View(): Reader
      reads this
    {
      Reader(buf, pos, queue, finished)
    }

    constructor ()
      ensures View() == Reader("", 0, [], false)
    {
      buf, pos, queue, finished := "", 0, [], false;
    }

    method PollReadInto(size: nat) returns (poll: Poll)
      requires View().Valid()
      modifies this
      ensures (View(), poll) == PollRead(old(View()), size)
    {
      if pos < |buf| {
        var n := Min(|buf| - pos, size);
        poll := Ready(buf[pos..pos + n]);
        pos := pos + n;
        if pos >= |buf| {
          buf, pos := "", 0;
        }
        return;
      }
      if queue == [] {
        return if finished then Eof else Pending;
      }
      var head := queue[0];
      queue := queue[1..];
      match head {
        case TooLong => poll := Failed;
        case Whole(line) =>
          var n := Min(|line|, size);
          poll := Ready(line[..n]);
          if n < |line| {
            buf, pos := line, n;
          }
      }
    }
  }

  // ----- every interleaving of the task and the reads

  datatype Event = Produce | Finish | Read(size: nat)

  /** `produced` lines of the task's list have been queued; `served` is what the reads returned so far. */
  datatype System = System(reader: Reader, produced: nat, served: Bytes)

  function Start(): System { System(Reader("", 0, [], false), 0, "") }

  function Step(s: System, lines: seq<Line>, e: Event): System
    requires s.reader.Valid()
  {
    match e
    case Produce =>
      if s.produced < |lines| then
        s.(reader := s.reader.(queue := s.reader.queue + [lines[s.produced]]), produced := s.produced + 1)
      else s
    case Finish => if s.produced == |lines| then s.(reader := s.reader.(finished := true)) else s
    case Read(size) =>
      var (reader, poll) := PollRead(s.reader, size);
      s.(reader := reader, served := s.served + PollBytes(poll))
  }

  function Run(lines: seq<Line>, events: seq<Event>): (s: System)
    ensures s.reader.Valid()
  {
    if events == [] then Start() else Step(Run(lines, events[..|events| - 1]), lines, events[|events| - 1])
  }

  /** Number of lines taken off the queue. */
  function TakenOff(s: System): int { s.produced - |s.reader.queue| }

  ghost predicate Inv(s: System, lines: seq<Line>) {
    var k := TakenOff(s);
    && 0 <= k <= s.produced <= |lines| && s.reader.Valid()
    && s.reader.queue == lines[k..s.produced]
    && s.served + s.reader.buf[s.reader.pos..] == BytesOf(lines[..k])
    && (s.reader.finished ==> s.produced == |lines|)
  }

  lemma BytesOfNext(lines: seq<Line>, k: nat)
    requires k < |lines|
    ensures BytesOf(lines[..k + 1]) == BytesOf(lines[..k]) + LineBytes(lines[k])
  {
    assert lines[..k + 1][..k] == lines[..k];
  }

  lemma ReadFromBuffer(s: System, lines: seq<Line>, size: nat)
    requires Inv(s, lines) && s.reader.pos < |s.reader.buf|
    ensures Inv(Step(s, lines, Read(size)), lines)
  {
    var r := s.reader;
    var n := Min(|r.buf| - r.pos, size);
    var bytes, rest := r.buf[r.pos..r.pos + n], r.buf[r.pos + n..];
    assert r.buf[r.pos..] == bytes + rest;
    Assoc(s.served, bytes, rest);
    var t := Step(s, lines, Read(size));
    assert t.served == s.served + bytes;
    assert t.reader.buf[t.reader.pos..] == rest;
  }

  lemma ReadFromQueue(s: System, lines: seq<Line>, size: nat)
    requires Inv(s, lines) && s.reader.pos == |s.reader.buf| && s.reader.queue != []
    ensures Inv(Step(s, lines, Read(size)), lines)
  {
    var r, k := s.reader, TakenOff(s);
    assert r.queue[0] == lines[k] && r.queue[1..] == lines[k + 1..s.produced];
    BytesOfNext(lines, k);
    assert r.buf[r.pos..] == "" && s.served + "" == s.served;
    PollFromQueue(r, size);
    var (next, poll) := PollRead(r, size);
    Assoc(s.served, PollBytes(poll), next.buf[next.pos..]);
  }

  function PollBytes(poll: Poll): Bytes { if poll.Ready? then poll.bytes else "" }

  /** A poll that takes a line off the queue serves its front and keeps the rest. */
  lemma PollFromQueue(r: Reader, size: nat)
    requires r.pos == |r.buf| && r.queue != []
    ensures var (next, poll) := PollRead(r, size);
      && next.queue == r.queue[1..] && next.finished == r.finished
      && PollBytes(poll) + next.buf[next.pos..] == LineBytes(r.queue[0])
  {
    var line := LineBytes(r.queue[0]);
    var n := Min(|line|, size);
    assert line == line[..n] + line[n..];
    assert line[|line|..] == "" && r.buf[r.pos..] == "";
  }

  lemma ReadStep(s: System, lines: seq<Line>, size: nat)
    requires Inv(s, lines)
    ensures Inv(Step(s, lines, Read(size)), lines)
  {
    if s.reader.pos < |s.reader.buf| {
      ReadFromBuffer(s, lines, size);
    } else if s.reader.queue != [] {
      ReadFromQueue(s, lines, size);
    } else {
      assert s.served + "" == s.served;
    }
  }

  lemma ProduceStep(s: System, lines: seq<Line>)
    requires Inv(s, lines)
    ensures Inv(Step(s, lines, Produce), lines)
  {
    if s.produced < |lines| {
      var k := TakenOff(s);
      assert lines[k..s.produced + 1] == lines[k..s.produced] + [lines[s.produced]];
    }
  }

  lemma {:induction false} AllRuns(lines: seq<Line>, events: seq<Event>)
    ensures Inv(Run(lines, events), lines)
  {
    if events != [] {
      var n := |events| - 1;
      AllRuns(lines, events[..n]);
      var s := Run(lines, events[..n]);
      match events[n] {
        case Produce => ProduceStep(s, lines);
        case Finish =>
        case Read(size) => ReadStep(s, lines, size);
      }
    }
  }

  // ----- what the queue holds

  lemma {:induction false} BytesOfCons(l: Line, rest: seq<Line>)
    ensures BytesOf([l] + rest) == LineBytes(l) + BytesOf(rest)
  {
    var all := [l] + rest;
    if rest == [] {
      assert all[..0] == [] && all == [l];
    } else {
      var n := |rest| - 1;
      assert all[..n + 1] == [l] + rest[..n] && all[n + 1] == rest[n];
      BytesOfCons(l, rest[..n]);
      Assoc(LineBytes(l), BytesOf(rest[..n]), LineBytes(rest[n]));
    }
  }

  /** The queued bytes are the source up to a line that is too long, and all of it if there is none. */
  lemma {:induction false} LinesAreSource(s: Bytes, cap: nat)
    ensures BytesOf(Lines(s, cap)) <= s
    ensures TooLong !in Lines(s, cap) ==> BytesOf(Lines(s, cap)) == s
    decreases |s|
  {
    if s != "" {
      var n := FirstLine(s);
      if n <= cap {
        var rest := Lines(s[n..], cap);
        LinesAreSource(s[n..], cap);
        BytesOfCons(Whole(s[..n]), rest);
        PrefixOf(s, n, BytesOf(rest));
        assert TooLong !in Lines(s, cap) ==> TooLong !in rest;
      } else {
        BytesOfCons(TooLong, []);
        assert [TooLong] + [] == [TooLong];
      }
    }
  }

  lemma PrefixOf(s: Bytes, n: nat, t: Bytes)
    requires n <= |s| && t <= s[n..]
    ensures s[..n] + t <= s && (t == s[n..] ==> s[..n] + t == s)
  {
    assert s == s[..n] + s[n..];
  }

  /** A queued line is not empty, within the cap, and breaks only at its end. */
  predicate WellFormed(line: Bytes, cap: nat) {
    line != "" && |line| <= cap && forall i :: 0 <= i < |line| - 1 ==> line[i] != '\n'
  }

  /** Whole lines come first; an error can only come last. */
  lemma {:induction false} LinesAreLines(s: Bytes, cap: nat, i: nat)
    requires i < |Lines(s, cap)|
    ensures match Lines(s, cap)[i]
      case Whole(bytes) => WellFormed(bytes, cap) && (i < |Lines(s, cap)| - 1 ==> bytes[|bytes| - 1] == '\n')
      case TooLong => i == |Lines(s, cap)| - 1
    decreases |s|
  {
    var n := FirstLine(s);
    if n <= cap && i > 0 {
      Cons(Whole(s[..n]), Lines(s[n..], cap));
      LinesAreLines(s[n..], cap, i - 1);
    }
  }

  /** A line that is longer than the cap starts at `i`. */
  predicate LongLineAt(s: Bytes, cap: nat, i: nat) {
    && i + cap < |s| && (i == 0 || s[i - 1] == '\n')
    && forall j :: i <= j < i + cap ==> s[j] != '\n'
  }

  lemma LongLineBehind(s: Bytes, cap: nat, i: nat)
    requires s != "" && FirstLine(s) <= cap
    ensures var n := FirstLine(s);
      (LongLineAt(s, cap, n + i) <==> LongLineAt(s[n..], cap, i)) && (i < n ==> !LongLineAt(s, cap, i))
  {
    var n := FirstLine(s);
    assert forall j :: n <= j < |s| ==> s[j] == s[n..][j - n];
    assert n < |s| ==> s[n - 1] == '\n';
    if LongLineAt(s[n..], cap, i) {
      forall j | n + i <= j < n + i + cap
        ensures s[j] != '\n'
      {
        assert s[n..][j - n] != '\n';
      }
    }
  }

  lemma LongLineMoves(s: Bytes, cap: nat)
    requires s != "" && FirstLine(s) <= cap
    ensures (exists i: nat :: LongLineAt(s, cap, i)) <==> (exists i: nat :: LongLineAt(s[FirstLine(s)..], cap, i))
  {
    var n := FirstLine(s);
    if i: nat :| LongLineAt(s[n..], cap, i) {
      LongLineBehind(s, cap, i);
      assert LongLineAt(s, cap, n + i);
    }
    if i: nat :| LongLineAt(s, cap, i) {
      LongLineBehind(s, cap, if i < n then i else i - n);
      assert LongLineAt(s[n..], cap, i - n);
    }
  }

  lemma InCons(l: Line, rest: seq<Line>)
    requires l != TooLong
    ensures TooLong in [l] + rest <==> TooLong in rest
  {
  }

  /** An error is queued exactly if some line of the source is over the cap, however the source was chunked. */
  lemma {:induction false} ErrorIffLongLine(s: Bytes, cap: nat)
    ensures TooLong in Lines(s, cap) <==> exists i: nat :: LongLineAt(s, cap, i)
    decreases |s|
  {
    if s != "" {
      var n := FirstLine(s);
      if n > cap {
        assert Lines(s, cap)[0] == TooLong && LongLineAt(s, cap, 0);
      } else {
        ErrorIffLongLine(s[n..], cap);
        InCons(Whole(s[..n]), Lines(s[n..], cap));
        LongLineMoves(s, cap);
      }
    }
  }

  // ----- main results

  /** For every interleaving: what was served is a prefix of the source. */
  lemma ServesPrefix(source: Bytes, cap: nat, events: seq<Event>)
    ensures Run(Lines(source, cap), events).served <= source
  {
    var lines := Lines(source, cap);
    var s := Run(lines, events);
    AllRuns(lines, events);
    LinesAreSource(source, cap);
    PrefixOfLines(lines, TakenOff(s));
  }

  /** A read is pending, or at the end, or fails, only when every queued byte has been served: a pending read never
      falls inside a line. */
  lemma PendsBetweenLines(lines: seq<Line>, events: seq<Event>, size: nat)
    ensures var s := Run(lines, events);
      var poll := PollRead(s.reader, size).1;
      && s.produced <= |lines|
      && (poll.Pending? ==> s.served == BytesOf(lines[..s.produced]) && s.reader.queue == [])
      && (poll.Eof? ==> s.served == BytesOf(lines))
      && (poll.Failed? ==> exists k: nat :: k < s.produced && lines[k] == TooLong && s.served == BytesOf(lines[..k]))
  {
    var s := Run(lines, events);
    AllRuns(lines, events);
    var k := TakenOff(s);
    assert lines[..|lines|] == lines;
    if PollRead(s.reader, size).1.Failed? {
      assert s.reader.queue[0] == lines[k];
    }
  }

  lemma {:induction false} PrefixOfLines(lines: seq<Line>, k: nat)
    requires k <= |lines|
    ensures BytesOf(lines[..k]) <= BytesOf(lines)
    decreases |lines| - k
  {
    if k < |lines| {
      BytesOfNext(lines, k);
      PrefixOfLines(lines, k + 1);
    } else {
      assert lines[..k] == lines;
    }
  }

  // ----- progress

  /** What is left of the line that is being served. */
  function Left(r: Reader): Bytes
    requires r.Valid()
  {
    r.buf[r.pos..]
  }

  /** A read into `size` bytes serves the front of `line` and leaves the rest of it. */
  predicate Serves(line: Bytes, size: nat, poll: Poll, left: Bytes) {
    poll.Ready? && |poll.bytes| == Min(size, |line|) && poll.bytes + left == line
  }

  /** A read with anything queued serves exactly as much of one line as the size allows: of the line it has begun, else
      of the next one. It is pending or at the end exactly if nothing is left; which of them, tells whether the task is
      over. A read fails exactly if the next thing queued is the error, and takes it off. */
  lemma ReadMakesProgress(r: Reader, size: nat)
    requires r.Valid()
    ensures var (next, poll) := PollRead(r, size);
      && next.finished == r.finished
      && if Left(r) != "" then next.queue == r.queue && Serves(Left(r), size, poll, Left(next))
         else if r.queue == [] then next == r && (r.finished ==> poll.Eof?) && (!r.finished ==> poll.Pending?)
         else
           && next.queue == r.queue[1..]
           && (r.queue[0] == TooLong ==> poll.Failed? && Left(next) == "")
           && (r.queue[0] != TooLong ==> Serves(r.queue[0].bytes, size, poll, Left(next)))
  {
    var (next, poll) := PollRead(r, size);
    if Left(r) != "" {
      var n := Min(|r.buf| - r.pos, size);
      assert r.buf[r.pos..] == r.buf[r.pos..r.pos + n] + r.buf[r.pos + n..];
    } else if r.queue != [] && r.queue[0] != TooLong {
      var line := r.queue[0].bytes;
      var n := Min(|line|, size);
      assert line == line[..n] + line[n..];
    }
  }

  /** How much is left to serve: the bytes, and one for each line to be taken off. */
  function Backlog(r: Reader): nat
    requires r.Valid()
  {
    |Left(r)| + Queued(r.queue)
  }

  function Queued(queue: seq<Line>): nat {
    if queue == [] then 0 else 1 + |LineBytes(queue[0])| + Queued(queue[1..])
  }

  lemma ReadShrinks(r: Reader, size: nat)
    requires r.Valid() && size > 0
    ensures Backlog(PollRead(r, size).0) <= SatSub(Backlog(r), 1)
  {
    ReadMakesProgress(r, size);
    var (next, poll) := PollRead(r, size);
    if poll.Ready? {
      assert |poll.bytes + Left(next)| == |poll.bytes| + |Left(next)|;
    }
  }

  predicate AllReads(events: seq<Event>) {
    forall i :: 0 <= i < |events| ==> events[i].Read? && events[i].size > 0
  }

  lemma OneRead(s: System, lines: seq<Line>, size: nat)
    requires s.reader.Valid() && size > 0
    ensures var t := Step(s, lines, Read(size));
      && t.reader.Valid() && Backlog(t.reader) <= SatSub(Backlog(s.reader), 1)
      && t.produced == s.produced && t.reader.finished == s.reader.finished
  {
    ReadShrinks(s.reader, size);
    ReadMakesProgress(s.reader, size);
  }

  lemma RunNext(lines: seq<Line>, events: seq<Event>, e: Event)
    ensures Run(lines, events + [e]) == Step(Run(lines, events), lines, e)
  {
    SnocFront(events, e);
  }

  lemma {:induction false} ReadsShrink(lines: seq<Line>, events: seq<Event>, polls: seq<Event>)
    requires AllReads(polls)
    ensures var s, t := Run(lines, events), Run(lines, events + polls);
      && Backlog(t.reader) <= SatSub(Backlog(s.reader), |polls|)
      && t.produced == s.produced && t.reader.finished == s.reader.finished
    decreases |polls|
  {
    if polls == [] {
      assert events + polls == events;
    } else {
      var n := |polls| - 1;
      Unsnoc(polls);
      ReadsShrink(lines, events, polls[..n]);
      Assoc(events, polls[..n], [polls[n]]);
      RunNext(lines, events + polls[..n], polls[n]);
      OneRead(Run(lines, events + polls[..n]), lines, polls[n].size);
    }
  }

  /** Reads of any positive sizes serve everything that was queued: after as many as there are bytes and lines left,
      nothing is, and the next read tells whether the task is over. */
  lemma ReadsServeAll(lines: seq<Line>, events: seq<Event>, polls: seq<Event>, size: nat)
    requires AllReads(polls) && |polls| >= Backlog(Run(lines, events).reader)
    ensures var s, t := Run(lines, events), Run(lines, events + polls);
      && s.produced <= |lines| && t.served == BytesOf(lines[..s.produced])
      && PollRead(t.reader, size).1 == if s.reader.finished then Eof else Pending
  {
    ReadsShrink(lines, events, polls);
    AllRuns(lines, events + polls);
    AllServed(Run(lines, events + polls), lines, size);
  }

  lemma AllServed(t: System, lines: seq<Line>, size: nat)
    requires Inv(t, lines) && Backlog(t.reader) == 0
    ensures t.served == BytesOf(lines[..t.produced])
    ensures PollRead(t.reader, size).1 == if t.reader.finished then Eof else Pending
  {
    assert Queued(t.reader.queue) == 0 && t.reader.queue == [];
    assert Left(t.reader) == "" && t.served + "" == t.served;
  }
}
