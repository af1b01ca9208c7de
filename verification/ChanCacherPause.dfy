/** What CacheStart and CacheStop achieve, over every interleaving of the cache's
    goroutines (chancacher/chancacher.go). */
module ChanCacherPause {
  import opened Wrappers
  import opened ChanCacher

  /** Copies of v in the two files, read or not. */
  function OnFile(fs: Files, v: Value): nat {
    multiset(fs.r.data.vals)[v] + multiset(fs.w.data.vals)[v]
  }

  /** The value that run is going to put in the file whatever happens to the cache. */
  function OnItsWay(p: RunPc): Option<Value> {
    if (p.Blocked? && p.open) || p.Sizing? || p.Encoding? then Some(p.v) else None
  }

  /** The value that Commit puts back in a step. */
  function PutBack(s: State, ev: Event): Option<Value> {
    if ev.CommitMoves? && s.commit.Writing? then Some(s.commit.v) else None
  }

  /** How often Commit puts v back in a run. */
  function TimesPutBack(s: State, evs: seq<Event>, v: Value): nat
    decreases |evs|
  {
    if evs == [] then 0 else Bit(PutBack(s, evs[0]) == Some(v)) + TimesPutBack(Step(s, evs[0]), evs[1..], v)
  }

  /** Nothing is added to the files: they may be swapped, and one may be emptied. */
  predicate NothingAdded(fs: Files, fs': Files) {
    || (fs'.r == fs.r && fs'.w == fs.w)
    || (fs'.r == fs.w && fs'.w == fs.r)
    || (fs'.r.data == EMPTY && fs'.w == fs.w)
  }

  // A stopped cache

  lemma RelayStopped(s: State, toCache: bool)
    requires InputGoesOn(s.run) && s.sig.paused
    ensures var s' := RelayStep(s, toCache);
            && s'.sig.paused
            && if s.run.Encoding? then s'.fs == Encode(s.fs, s.run.v) && OnItsWay(s'.run).None?
               else s'.fs == s.fs && (OnItsWay(s'.run) == OnItsWay(s.run) || OnItsWay(s'.run).None?)
  {
  }

  lemma WindDownStopped(s: State)
    requires !InputGoesOn(s.run)
    ensures var s' := WindDownStep(s);
            s'.sig.paused == s.sig.paused && s'.fs == s.fs && OnItsWay(s'.run).None?
  {
  }

  lemma HandlerKeeps(s: State)
    ensures var s' := HandlerStep(s);
            s'.sig.paused == s.sig.paused && s'.run == s.run && NothingAdded(s.fs, s'.fs)
  {
    if ReadsFile(s.handler) {
      ReadFileKeeps(s);
    } else {
      SwapKeeps(s);
    }
  }

  lemma ReadFileKeeps(s: State)
    requires ReadsFile(s.handler)
    ensures var s' := ReadFileStep(s);
            s'.sig.paused == s.sig.paused && s'.run == s.run && NothingAdded(s.fs, s'.fs)
  {
  }

  lemma SwapKeeps(s: State)
    requires !ReadsFile(s.handler)
    ensures var s' := SwapStep(s);
            s'.sig.paused == s.sig.paused && s'.run == s.run && NothingAdded(s.fs, s'.fs)
  {
  }

  lemma CommitKeeps(s: State, takeAck: bool)
    ensures var s' := CommitStep(s, takeAck);
            && s'.sig.paused == s.sig.paused && s'.run == s.run
            && s'.fs == if s.commit.Writing? then Encode(s.fs, s.commit.v) else s.fs
  {
  }

  lemma OneMoreOnFile(fs: Files, x: Value, v: Value)
    ensures OnFile(Encode(fs, x), v) == OnFile(fs, v) + Bit(x == v)
  {
    assert multiset(fs.w.data.vals + [x]) == multiset(fs.w.data.vals) + multiset{x};
  }

  function Bound(s: State, v: Value): nat {
    OnFile(s.fs, v) + Bit(OnItsWay(s.run) == Some(v))
  }

  lemma RunMovesStopped(s: State, toCache: bool, v: Value)
    requires s.sig.paused
    ensures var s' := RunStep(s, toCache); s'.sig.paused && Bound(s', v) <= Bound(s, v)
  {
    if InputGoesOn(s.run) {
      RelayStopped(s, toCache);
      if s.run.Encoding? {
        OneMoreOnFile(s.fs, s.run.v, v);
      }
    } else {
      WindDownStopped(s);
    }
  }

  lemma OthersStopped(s: State, ev: Event)
    requires s.sig.paused && !ev.RunMoves? && !ev.HandlerMoves? && !ev.CommitMoves? && !ev.CacheStart?
    ensures var s' := Step(s, ev);
            s'.sig.paused && s'.fs == s.fs && (s'.run == s.run || s'.run.Receive? || s'.run.TrySend?)
  {
  }

  lemma StepStopped(s: State, ev: Event, v: Value)
    requires s.sig.paused && ev != CacheStart
    ensures var s' := Step(s, ev);
            s'.sig.paused && Bound(s', v) <= Bound(s, v) + Bit(PutBack(s, ev) == Some(v))
  {
    if ev.RunMoves? {
      RunMovesStopped(s, ev.toCache, v);
    } else if ev.HandlerMoves? {
      HandlerKeeps(s);
    } else if ev.CommitMoves? {
      CommitKeeps(s, ev.takeAck);
      if s.commit.Writing? {
        OneMoreOnFile(s.fs, s.commit.v, v);
      }
    } else {
      OthersStopped(s, ev);
    }
  }

  lemma {:induction false} RunStopped(s: State, evs: seq<Event>, v: Value)
    requires s.sig.paused && CacheStart !in evs
    ensures Bound(Run(s, evs), v) <= Bound(s, v) + TimesPutBack(s, evs, v)
    decreases |evs|
  {
    if evs != [] {
      StepStopped(s, evs[0], v);
      RunStopped(Step(s, evs[0]), evs[1..], v);
    }
  }

  /** From CacheStop until the next CacheStart nothing goes to the files but what Commit
      puts back, and at most the one value that was on its way there already. */
  lemma StoppedCacheTakesNothing(s: State, evs: seq<Event>, v: Value)
    requires s.cache && s.sig.lock.None? && CacheStart !in evs
    ensures OnFile(Run(Step(s, CacheStop), evs).fs, v)
         <= OnFile(s.fs, v) + Bit(OnItsWay(s.run) == Some(v)) + TimesPutBack(Step(s, CacheStop), evs, v)
  {
    RunStopped(Step(s, CacheStop), evs, v);
  }

  predicate NearFile(p: RunPc) {
    (p.Blocked? && p.open) || p.Sizing? || p.Encoding? || p.Marking?
  }

  lemma StepStaysAway(s: State, ev: Event)
    requires s.sig.paused && !NearFile(s.run) && ev != CacheStart
    ensures var s' := Step(s, ev); s'.sig.paused && !NearFile(s'.run)
  {
    if ev.RunMoves? {
      if InputGoesOn(s.run) {
        RelayStopped(s, ev.toCache);
      } else {
        WindDownStopped(s);
      }
    } else if ev.HandlerMoves? {
      HandlerKeeps(s);
    } else if ev.CommitMoves? {
      CommitKeeps(s, ev.takeAck);
    } else {
      OthersStopped(s, ev);
    }
  }

  lemma {:induction false} RunStaysAway(s: State, evs: seq<Event>)
    requires s.sig.paused && !NearFile(s.run) && CacheStart !in evs
    ensures !NearFile(Run(s, evs).run)
    decreases |evs|
  {
    if evs != [] {
      StepStaysAway(s, evs[0]);
      RunStaysAway(Step(s, evs[0]), evs[1..]);
    }
  }

  /** If no value was on its way, run does not come near the file: what it cannot put
      on Out it holds. */
  lemma StoppedCacheBlocks(s: State, evs: seq<Event>)
    requires s.cache && s.sig.lock.None? && !NearFile(s.run) && CacheStart !in evs
    ensures !NearFile(Run(Step(s, CacheStop), evs).run)
  {
    RunStaysAway(Step(s, CacheStop), evs);
  }

  // A running cache

  predicate Started(s: State) {
    s.cache && !s.sig.paused && (s.run.Blocked? ==> s.run.open)
  }

  lemma RunStepStarted(s: State, toCache: bool)
    requires Started(s)
    ensures Started(RunStep(s, toCache))
  {
  }

  lemma StepStarted(s: State, ev: Event)
    requires Started(s) && ev != CacheStop
    ensures Started(Step(s, ev))
  {
    if ev.RunMoves? {
      RunStepStarted(s, ev.toCache);
    } else if ev.HandlerMoves? {
      HandlerKeeps(s);
    } else if ev.CommitMoves? {
      CommitKeeps(s, ev.takeAck);
    }
  }

  lemma {:induction false} RunStarted(s: State, evs: seq<Event>)
    requires Started(s) && CacheStop !in evs
    ensures Started(Run(s, evs))
    decreases |evs|
  {
    if evs != [] {
      StepStarted(s, evs[0]);
      RunStarted(Step(s, evs[0]), evs[1..]);
    }
  }

  /** From CacheStart until the next CacheStop a value that cannot go on Out can always
      go to the file, so input is never held up. */
  lemma StartedCacheTakesAll(s: State, evs: seq<Event>)
    requires s.cache && s.sig.lock.None? && CacheStop !in evs
    ensures var s' := Run(Step(s, CacheStart), evs);
            s'.run.Blocked? ==> Step(s', RunMoves(true)).run == Sizing(s'.run.v)
  {
    RunStarted(Step(s, CacheStart), evs);
  }

  /** And a new cache is running. */
  lemma NewCacheTakesAll(d: Disk, cap: nat, enc: nat, evs: seq<Event>)
    requires CacheStop !in evs
    ensures var s := Run(Open(d, cap, true, enc), evs);
            s.run.Blocked? ==> Step(s, RunMoves(true)).run == Sizing(s.run.v)
  {
    RunStarted(Open(d, cap, true, enc), evs);
  }
}
