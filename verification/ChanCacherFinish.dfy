/** The cache never gets stuck: once In is closed, Out can always be drained and closed,
    and Commit can always return (chancacher/chancacher.go). */
module ChanCacherFinish {
  import opened Wrappers
  import opened ChanCacher

  // Two more facts about flags

  /** run has told cacheHandler to stop. */
  predicate ToldToStop(p: RunPc) {
    p.AwaitAck? || p.Closing? || p.RunOver?
  }

  /** cacheReading is set only while a file is being read, and the done channel is closed
      by run or Commit, before cacheHandler ends. */
  predicate FlagsOk(s: State) {
    && (s.fl.reading ==> s.handler.Decoding? || s.handler.Pushing? || s.handler.Drained?)
    && (s.handler.HandlerOver? ==> s.sig.done)
    && (!s.cache && RunEnded(s.run) ==> s.run.Closing? || s.run.RunOver?)
    && (s.cache && ToldToStop(s.run) ==> s.sig.done)
    && (s.sig.done ==> ToldToStop(s.run) || !(s.commit.NotCalled? || s.commit.StopCache?))
    && (!(s.commit.NotCalled? || s.commit.StopCache?) ==> s.sig.done || !s.cache)
  }

  lemma RelayFlags(s: State, toCache: bool)
    requires FlagsOk(s) && InputGoesOn(s.run)
    ensures FlagsOk(RelayStep(s, toCache))
  {
  }

  lemma WindDownFlags(s: State)
    requires FlagsOk(s) && !InputGoesOn(s.run)
    ensures FlagsOk(WindDownStep(s))
  {
  }

  lemma ReadFileFlags(s: State)
    requires FlagsOk(s) && ReadsFile(s.handler)
    ensures FlagsOk(ReadFileStep(s))
  {
  }

  lemma SwapFlags(s: State)
    requires FlagsOk(s) && !ReadsFile(s.handler)
    ensures FlagsOk(SwapStep(s))
  {
  }

  lemma CommitFlags(s: State, takeAck: bool)
    requires FlagsOk(s)
    ensures FlagsOk(CommitStep(s, takeAck))
  {
  }

  lemma OthersFlags(s: State, ev: Event)
    requires FlagsOk(s) && !ev.RunMoves? && !ev.HandlerMoves? && !ev.CommitMoves?
    ensures FlagsOk(Step(s, ev))
  {
  }

  lemma StepFlags(s: State, ev: Event)
    requires FlagsOk(s)
    ensures FlagsOk(Step(s, ev))
  {
    if ev.RunMoves? {
      if InputGoesOn(s.run) {
        RelayFlags(s, ev.toCache);
      } else {
        WindDownFlags(s);
      }
    } else if ev.HandlerMoves? {
      if s.cache {
        if ReadsFile(s.handler) {
          ReadFileFlags(s);
        } else {
          SwapFlags(s);
        }
      }
    } else if ev.CommitMoves? {
      CommitFlags(s, ev.takeAck);
    } else {
      OthersFlags(s, ev);
    }
  }

  lemma {:induction false} RunFlags(s: State, evs: seq<Event>)
    requires Books(s) && FlagsOk(s)
    ensures Books(Run(s, evs)) && FlagsOk(Run(s, evs))
    decreases |evs|
  {
    if evs != [] {
      StepKeepsBooks(s, evs[0]);
      StepFlags(s, evs[0]);
      RunFlags(Step(s, evs[0]), evs[1..]);
    }
  }

  // How far there is to go

  function RelayRank(p: RunPc): nat {
    match p
    case TrySend(_) => 6
    case Blocked(_, _) => 5
    case Sizing(_) => 4
    case Encoding(_) => 3
    case Marking => 2
    case Receive => 1
    case _ => 0
  }

  function WindDownRank(p: RunPc): nat {
    match p
    case InputOver => 8
    case ReadCommitted => 7
    case ReadModified => 6
    case ReadReading => 5
    case Finishing => 4
    case AwaitAck => 3
    case Closing => 2
    case RunOver => 0
    case _ => 9
  }

  /** What cacheHandler has left to do before it would look for the next file, then to
      swap the files. */
  function HandlerRank(s: State): nat {
    match s.handler
    case HandlerOver => 0
    case ClearModified => 1
    case Swapping => 2
    case Locking => 3
    case AwaitData => 4
    case ReadDone => 5
    case Truncating => 6
    case Drained => 7
    case Decoding => 8 + 2 * |Unread(s.fs)|
    case Pushing(_) => 9 + 2 * |Unread(s.fs)|
    case Starting => 10 + 2 * |Unread(s.fs)|
    case SetReading => 10 + 2 * |Unread(s.fs)|
  }

  /** s' is nearer to the end than s. */
  predicate Nearer(s': State, s: State) {
    var (a', b', c') := (RelayRank(s'.run), Bit(s'.fl.modified), HandlerRank(s'));
    var (a, b, c) := (RelayRank(s.run), Bit(s.fl.modified), HandlerRank(s));
    || a' < a
    || (a' == a && b' < b)
    || (a' == a && b' == b && c' < c)
    || (a' == a && b' == b && c' == c && |s'.out| < |s.out|)
    || (a' == a && b' == b && c' == c && |s'.out| == |s.out| && WindDownRank(s'.run) < WindDownRank(s.run))
  }

  /** Nothing more comes in and Commit has not been called. */
  predicate Draining(s: State) {
    Books(s) && FlagsOk(s) && s.sig.inClosed && s.commit.NotCalled?
  }

  /** Everybody but the producer goes on. */
  predicate GoesOn(ev: Event) {
    ev.RunMoves? || ev.HandlerMoves? || ev.Consume? || (ev.HandOff? && !ev.toCommit)
  }

  // One step nearer

  lemma ConsumerMoves(s: State)
    requires s.out != []
    ensures Nearer(Step(s, Consume), s)
  {
  }

  predicate HandlerCanMove(p: HandlerPc) {
    p.Starting? || p.Decoding? || p.Drained? || p.Truncating? || p.ReadDone? || p.Swapping? || p.ClearModified?
    || p.SetReading?
  }

  lemma ReaderMoves(s: State)
    requires Books(s) && s.cache && ReadsFile(s.handler) && HandlerCanMove(s.handler)
    ensures Nearer(Step(s, HandlerMoves), s)
  {
  }

  lemma SwapperMoves(s: State)
    requires Books(s) && s.cache && !ReadsFile(s.handler) && HandlerCanMove(s.handler)
    ensures Nearer(Step(s, HandlerMoves), s)
  {
  }

  lemma PusherMoves(s: State)
    requires s.cache && s.out == [] && s.handler.Pushing?
    ensures Nearer(Step(s, HandOff(FromHandler, false)), s)
  {
  }

  lemma Unlocked(s: State)
    requires LockOk(s) && !s.run.Encoding? && !s.run.Marking? && !s.commit.Writing? && !s.commit.MarkingBack?
    requires !s.handler.Swapping? && !s.handler.ClearModified? && !s.handler.SetReading?
    ensures s.sig.lock.None?
  {
    Holders(s.sig.lock);
  }

  lemma Holders(lock: Option<Holder>)
    ensures lock.None? || lock == Some(RunHolds) || lock == Some(HandlerHolds) || lock == Some(CommitHolds)
  {
    if lock.Some? {
      match lock.value {
        case RunHolds =>
        case HandlerHolds =>
        case CommitHolds =>
      }
    }
  }

  lemma InputMoves(s: State)
    requires Draining(s) && s.out == [] && InputGoesOn(s.run) && (s.cache ==> !HandlerCanMove(s.handler))
    ensures var ev := if s.run.TrySend? || s.run.Blocked? then HandOff(FromRun, false) else RunMoves(false);
            Nearer(Step(s, ev), s)
  {
    if s.run.Sizing? {
      Unlocked(s);
    }
  }

  lemma WaiterMoves(s: State)
    requires Draining(s) && s.cache && !InputGoesOn(s.run)
    requires s.handler.Locking? || (s.handler.AwaitData? && (s.fl.modified || s.sig.done))
    ensures Nearer(Step(s, HandlerMoves), s)
  {
    if s.handler.Locking? {
      Unlocked(s);
    }
  }

  lemma WinderMoves(s: State)
    requires Draining(s) && !InputGoesOn(s.run) && !s.run.RunOver?
    requires !s.cache || s.handler.HandlerOver? || (s.handler.AwaitData? && !s.fl.modified && !s.sig.done)
    ensures Nearer(Step(s, RunMoves(false)), s)
  {
    if s.run.Finishing? {
      Unlocked(s);
    }
  }

  lemma Advances(s: State) returns (ev: Event)
    requires Draining(s) && !(s.sig.outClosed && s.out == [])
    ensures GoesOn(ev) && Nearer(Step(s, ev), s)
  {
    if s.out != [] {
      ConsumerMoves(s);
      ev := Consume;
    } else if s.cache && s.handler.Pushing? {
      PusherMoves(s);
      ev := HandOff(FromHandler, false);
    } else if s.cache && HandlerCanMove(s.handler) {
      if ReadsFile(s.handler) {
        ReaderMoves(s);
      } else {
        SwapperMoves(s);
      }
      ev := HandlerMoves;
    } else if InputGoesOn(s.run) {
      InputMoves(s);
      ev := if s.run.TrySend? || s.run.Blocked? then HandOff(FromRun, false) else RunMoves(false);
    } else if s.cache && (s.handler.Locking? || (s.handler.AwaitData? && (s.fl.modified || s.sig.done))) {
      WaiterMoves(s);
      ev := HandlerMoves;
    } else {
      WinderMoves(s);
      ev := RunMoves(false);
    }
  }

  // To the end

  lemma StepDraining(s: State, ev: Event)
    requires Draining(s) && GoesOn(ev)
    ensures Draining(Step(s, ev))
  {
    StepKeepsBooks(s, ev);
    StepFlags(s, ev);
    StepQuiet(s, ev);
  }

  /** What a step of anybody but the producer and Commit leaves alone. */
  predicate Quiet(s: State, s': State) {
    && s'.sig.inClosed == s.sig.inClosed && s'.commit == s.commit && s'.cache == s.cache
    && s'.log.accepted == s.log.accepted && s'.log.recovered == s.log.recovered
  }

  lemma RunQuiet(s: State, toCache: bool)
    ensures Quiet(s, RunStep(s, toCache))
  {
    if InputGoesOn(s.run) {
      RelayQuiet(s, toCache);
    } else {
      WindDownQuiet(s);
    }
  }

  lemma RelayQuiet(s: State, toCache: bool)
    requires InputGoesOn(s.run)
    ensures Quiet(s, RelayStep(s, toCache))
  {
  }

  lemma WindDownQuiet(s: State)
    requires !InputGoesOn(s.run)
    ensures Quiet(s, WindDownStep(s))
  {
  }

  lemma HandlerQuiet(s: State)
    ensures Quiet(s, HandlerStep(s))
  {
    if ReadsFile(s.handler) {
      ReadFileQuiet(s);
    } else {
      SwapQuiet(s);
    }
  }

  lemma ReadFileQuiet(s: State)
    requires ReadsFile(s.handler)
    ensures Quiet(s, ReadFileStep(s))
  {
  }

  lemma SwapQuiet(s: State)
    requires !ReadsFile(s.handler)
    ensures Quiet(s, SwapStep(s))
  {
  }

  lemma StepQuiet(s: State, ev: Event)
    requires GoesOn(ev)
    ensures Quiet(s, Step(s, ev))
  {
    match ev {
      case RunMoves(toCache) => RunQuiet(s, toCache);
      case HandlerMoves => HandlerQuiet(s);
      case Consume =>
      case HandOff(_, _) =>
    }
  }

  lemma {:induction false} CanDrain(s: State) returns (evs: seq<Event>)
    requires Draining(s)
    ensures forall i :: 0 <= i < |evs| ==> GoesOn(evs[i])
    ensures var s' := Run(s, evs); s'.sig.outClosed && s'.out == [] && Quiet(s, s')
    decreases RelayRank(s.run), Bit(s.fl.modified), HandlerRank(s), |s.out|, WindDownRank(s.run)
  {
    if s.sig.outClosed && s.out == [] {
      evs := [];
    } else {
      var ev := Advances(s);
      StepDraining(s, ev);
      StepQuiet(s, ev);
      var rest := CanDrain(Step(s, ev));
      evs := [ev] + rest;
      assert evs[1..] == rest;
    }
  }

  lemma {:induction false} RunAppend(s: State, a: seq<Event>, b: seq<Event>)
    ensures Run(s, a + b) == Run(Run(s, a), b)
    decreases |a|
  {
    if a == [] {
      assert a + b == b;
    } else {
      assert (a + b)[1..] == a[1..] + b;
      RunAppend(Step(s, a[0]), a[1..], b);
    }
  }

  /** However the goroutines have interleaved, if In is closed and Commit is not called
      they can go on so that the consumer gets every value that ever came in, and Out is
      closed after the last: nobody waits for ever. */
  lemma EverythingCanBeConsumed(d: Disk, cap: nat, cache: bool, enc: nat, evs: seq<Event>) returns (more: seq<Event>)
    requires Readable(d)
    requires var s := Run(Open(d, cap, cache, enc), evs); s.sig.inClosed && s.commit.NotCalled?
    ensures forall i :: 0 <= i < |more| ==> GoesOn(more[i])
    ensures var s, s' := Run(Open(d, cap, cache, enc), evs), Run(Open(d, cap, cache, enc), evs + more);
            s'.sig.outClosed && s'.out == [] && s'.log.consumed == s.log.accepted + s.log.recovered
  {
    var start := Open(d, cap, cache, enc);
    OpenInv(d, cap, cache, enc);
    RunFlags(start, evs);
    more := CanDrain(Run(start, evs));
    RunAppend(start, evs, more);
    DrainedBeforeClose(d, cap, cache, enc, evs + more);
  }

  // Commit

  /** Steps run has left before it is done with In. */
  function InputLeft(p: RunPc): nat {
    if p.InputOver? then 1 else if InputGoesOn(p) then 1 + RelayRank(p) else 0
  }

  /** What cacheHandler has left to do once it has been told to stop: it may still swap the
      files, but after the file it reads it ends. */
  function StageLeft(p: HandlerPc): nat {
    match p
    case HandlerOver => 0
    case ReadDone => 1
    case Truncating => 2
    case Drained => 3
    case Decoding => 4
    case Pushing(_) => 4
    case Starting => 5
    case SetReading => 5
    case ClearModified => 6
    case Swapping => 7
    case Locking => 8
    case AwaitData => 9
  }

  function ReadLeft(s: State): nat {
    2 * |Unread(s.fs)| + Bit(s.handler.Pushing?)
  }

  /** Only Commit itself is left to go on. */
  predicate OnlyCommit(s: State) {
    InputLeft(s.run) == 0 && s.handler.HandlerOver? && s.out == []
  }

  /** Steps to the select of Commit's loop or, when nobody else is left, out of the loop. */
  function LoopLeft(p: CommitPc, last: bool): nat {
    match p
    case Holding(_, _) => 12
    case Writing(_, _) => 11
    case MarkingBack(_) => 10
    case ReadRunDone(stopped) => if last && stopped then 3 else 7
    case ReadLength(stopped) => if last && stopped then 2 else 6
    case Selecting(stopped) => if last && stopped then 4 else 5
    case ClosingFiles => 1
    case Returned => 0
    case NotCalled => 14
    case StopCache => 13
  }

  predicate Sooner(s': State, s: State) {
    var (z', a', b', c') := (Bit(s'.commit.StopCache?), InputLeft(s'.run), StageLeft(s'.handler), ReadLeft(s'));
    var (z, a, b, c) := (Bit(s.commit.StopCache?), InputLeft(s.run), StageLeft(s.handler), ReadLeft(s));
    || z' < z
    || (z' == z && a' < a)
    || (z' == z && a' == a && b' < b)
    || (z' == z && a' == a && b' == b && c' < c)
    || (z' == z && a' == a && b' == b && c' == c && |s'.out| < |s.out|)
    || (&& z' == z && a' == a && b' == b && c' == c && |s'.out| == |s.out|
        && LoopLeft(s'.commit, OnlyCommit(s')) < LoopLeft(s.commit, OnlyCommit(s)))
  }

  /** Nothing more comes in and Commit has been called. */
  predicate Committing(s: State) {
    Books(s) && FlagsOk(s) && s.cache && s.sig.inClosed && !s.commit.NotCalled?
  }

  /** Nobody consumes. */
  predicate Leaves(ev: Event) {
    ev.RunMoves? || ev.HandlerMoves? || ev.CommitMoves? || (ev.HandOff? && ev.toCommit)
  }

  lemma LockHolderMoves(s: State) returns (ev: Event)
    requires Committing(s) && s.sig.lock.Some? && s.sig.lock != Some(CommitHolds)
    ensures Leaves(ev) && Sooner(Step(s, ev), s)
  {
    Holders(s.sig.lock);
    ev := if s.sig.lock == Some(RunHolds) then RunMoves(false) else HandlerMoves;
  }

  lemma CommitPutsBack(s: State)
    requires Committing(s) && (s.sig.lock.None? || s.sig.lock == Some(CommitHolds))
    requires s.commit.StopCache? || s.commit.Holding? || s.commit.Writing? || s.commit.MarkingBack?
    ensures Sooner(Step(s, CommitMoves(false)), s)
  {
  }

  lemma CommitLoops(s: State)
    requires Committing(s)
    requires s.commit.ReadRunDone? || s.commit.ReadLength? || s.commit.ClosingFiles?
             || (s.commit.Selecting? && (s.out != [] || OnlyCommit(s)))
    ensures Sooner(Step(s, CommitMoves(s.out == [])), s)
  {
  }

  lemma HandlerLeaves(s: State)
    requires Committing(s) && s.commit.Selecting? && s.out == [] && s.sig.lock.None? && !s.handler.HandlerOver?
    ensures var ev := if s.handler.Pushing? then HandOff(FromHandler, true) else HandlerMoves;
            Sooner(Step(s, ev), s)
  {
  }

  lemma RunLeaves(s: State)
    requires Committing(s) && s.commit.Selecting? && s.out == [] && s.sig.lock.None? && InputLeft(s.run) > 0
    ensures var ev := if s.run.TrySend? || s.run.Blocked? then HandOff(FromRun, true) else RunMoves(false);
            Sooner(Step(s, ev), s)
  {
  }

  lemma ComesNearer(s: State) returns (ev: Event)
    requires Committing(s) && !s.commit.Returned?
    ensures Leaves(ev) && Sooner(Step(s, ev), s)
  {
    if s.sig.lock.Some? && s.sig.lock != Some(CommitHolds) {
      ev := LockHolderMoves(s);
    } else if s.commit.StopCache? || s.commit.Holding? || s.commit.Writing? || s.commit.MarkingBack? {
      CommitPutsBack(s);
      ev := CommitMoves(false);
    } else if !s.commit.Selecting? || s.out != [] || OnlyCommit(s) {
      CommitLoops(s);
      ev := CommitMoves(s.out == []);
    } else if !s.handler.HandlerOver? {
      HandlerLeaves(s);
      ev := if s.handler.Pushing? then HandOff(FromHandler, true) else HandlerMoves;
    } else {
      RunLeaves(s);
      ev := if s.run.TrySend? || s.run.Blocked? then HandOff(FromRun, true) else RunMoves(false);
    }
  }

  /** What no step towards the end of Commit touches. */
  predicate NothingConsumed(s: State, s': State) {
    s'.sig.inClosed == s.sig.inClosed && s'.cache == s.cache && s'.log == s.log
    && (s'.commit.NotCalled? ==> s.commit.NotCalled?)
  }

  lemma CommitConsumesNothing(s: State, takeAck: bool)
    ensures NothingConsumed(s, CommitStep(s, takeAck))
  {
  }

  lemma RunConsumesNothing(s: State, toCache: bool)
    ensures RunStep(s, toCache).log == s.log
  {
    if InputGoesOn(s.run) {
      RelayMoves(s, toCache);
    } else {
      WindDownMoves(s);
    }
  }

  lemma HandlerConsumesNothing(s: State)
    ensures HandlerStep(s).log == s.log
  {
  }

  lemma StepCommitting(s: State, ev: Event)
    requires Committing(s) && Leaves(ev)
    ensures Committing(Step(s, ev)) && NothingConsumed(s, Step(s, ev))
  {
    StepKeepsBooks(s, ev);
    StepFlags(s, ev);
    match ev {
      case RunMoves(toCache) =>
        RunQuiet(s, toCache);
        RunConsumesNothing(s, toCache);
      case HandlerMoves =>
        HandlerQuiet(s);
        HandlerConsumesNothing(s);
      case CommitMoves(takeAck) => CommitConsumesNothing(s, takeAck);
      case HandOff(_, _) =>
    }
  }

  lemma {:induction false} CanReturn(s: State) returns (evs: seq<Event>)
    requires Committing(s)
    ensures forall i :: 0 <= i < |evs| ==> Leaves(evs[i])
    ensures Run(s, evs).commit.Returned? && NothingConsumed(s, Run(s, evs))
    decreases Bit(s.commit.StopCache?), InputLeft(s.run), StageLeft(s.handler), ReadLeft(s), |s.out|,
              LoopLeft(s.commit, OnlyCommit(s))
  {
    if s.commit.Returned? {
      evs := [];
    } else {
      var ev := ComesNearer(s);
      StepCommitting(s, ev);
      var rest := CanReturn(Step(s, ev));
      evs := [ev] + rest;
      assert evs[1..] == rest;
    }
  }

  /** However the goroutines have interleaved, if In is closed a Commit that has been called
      can return without anybody consuming, and then the write file holds every value that
      had not been consumed. */
  lemma CommitCanReturn(d: Disk, cap: nat, enc: nat, evs: seq<Event>) returns (more: seq<Event>)
    requires Readable(d)
    requires var s := Run(Open(d, cap, true, enc), evs); s.sig.inClosed && !s.commit.NotCalled?
    ensures forall i :: 0 <= i < |more| ==> Leaves(more[i])
    ensures var s, s' := Run(Open(d, cap, true, enc), evs), Run(Open(d, cap, true, enc), evs + more);
            && s'.commit.Returned? && s'.log == s.log
            && s.log.accepted + s.log.recovered == s.log.consumed + multiset(s'.fs.w.data.vals)
  {
    var start := Open(d, cap, true, enc);
    OpenInv(d, cap, true, enc);
    RunFlags(start, evs);
    SameCache(start, evs);
    more := CanReturn(Run(start, evs));
    RunAppend(start, evs, more);
    RunKeepsInv(start, evs + more);
    SameCache(start, evs + more);
    CommitLeavesAllInFile(Run(start, evs + more));
  }
}
