/** Offsets a follower saves while it hands lines to its handler
    (filewatch/followers.go). The file is appended to, never truncated. */
module Followers {
  import opened LineReaders

  class Follower {
    const lnr: LineReader
    var state: nat
    /** False once the handler has failed, which ends the follower. */
    var alive: bool
    /** How often the handler will still refuse a line. */
    var faults: nat
    /** Lines the handler accepted, and the reads they were made of. */
    ghost var handled: seq<string>
    ghost var settled: seq<Read>

    /** What was handled is what the reader made of the bytes before the saved
        offset, and while the follower lives it has handled every line read. */
    ghost predicate Valid()
      reads this, lnr
    {
      && lnr.Valid()
      && lnr.start <= state <= lnr.idx
      && settled <= lnr.trace && BytesOf(settled) == lnr.file[lnr.start..state]
      && Process(settled) == Reading(handled, [])
      && (alive ==> Process(lnr.trace).lines == handled)
    }

    constructor (lnr: LineReader, faults: nat)
      requires lnr.Valid() && lnr.trace == []
      ensures Valid() && this.lnr == lnr && alive && state == lnr.start && handled == []
    {
      this.lnr := lnr;
      this.state, this.alive, this.faults := lnr.idx, true, faults;
      this.handled, this.settled := [], [];
    }

    method Fails() returns (b: bool)
      modifies this`faults
      ensures faults == old(faults) - if b then 1 else 0
    {
      b := *;
      b := b && faults > 0;
      if b {
        faults := faults - 1;
      }
    }

    /** HandleLog for a line just read; the offset is saved only if it succeeds. */
    method Handle(ln: string) returns (ok: bool)
      requires lnr.Valid() && lnr.currLine == []
      requires Process(lnr.trace).lines == handled + [ln]
      requires lnr.start <= state <= lnr.idx && settled <= lnr.trace
      requires BytesOf(settled) == lnr.file[lnr.start..state] && Process(settled) == Reading(handled, [])
      modifies this
      ensures Valid() && ok == alive
      ensures ok ==> handled == old(handled) + [ln] && state == lnr.idx
      ensures !ok ==> handled == old(handled) && state == old(state)
      ensures faults == old(faults) - if ok then 0 else 1
    {
      var refused := Fails();
      ok := !refused;
      alive := ok;
      if ok {
        handled := handled + [ln];
        settled := lnr.trace;
        state := lnr.idx;
      }
    }

    /** What stays of the books while only the reader goes on. */
    lemma StillBooked(file: string, idx: nat)
      requires lnr.Valid() && lnr.start <= state <= idx <= |file| && file <= lnr.file && idx <= lnr.idx
      requires BytesOf(settled) == file[lnr.start..state]
      ensures BytesOf(settled) == lnr.file[lnr.start..state]
    {
    }

    /** A line, or what is left of one, that nobody is going to finish soon. */
    method ForcePartial() returns (ok: bool)
      requires Valid() && alive
      modifies this, lnr
      ensures Valid() && ok == alive && lnr.start == old(lnr.start) && old(lnr.file) <= lnr.file
      ensures old(handled) <= handled && old(state) <= state && lnr.currLine == [] && old(lnr.idx) <= lnr.idx
      ensures |handled| <= |old(handled)| + 1
      ensures faults == old(faults) - if ok then 0 else 1
    {
      ghost var file, idx := lnr.file, lnr.idx;
      var ln := lnr.ReadRemaining();
      StillBooked(file, idx);
      if ln != [] {
        ok := Handle(ln);
      } else {
        ok := true;
      }
    }

    /** Handles lines until the file ends. With removing, or once data has been idle
        and allowPartial, also an unfinished last line: success on a file that is being
        removed leaves nothing behind. Otherwise an unfinished line is left alone. */
    method ProcessLines(removing: bool, allowPartial: bool, idle: bool) returns (ok: bool)
      requires Valid() && alive
      modifies this, lnr
      ensures Valid() && ok == alive && lnr.start == old(lnr.start) && old(lnr.file) <= lnr.file
      ensures old(handled) <= handled && old(state) <= state
      ensures !removing && !(allowPartial && idle) && FlushFree(old(lnr.trace)) ==> FlushFree(lnr.trace)
      ensures ok && !removing && !(allowPartial && idle) ==> lnr.idx == |lnr.file|
      ensures ok ==> |old(lnr.file)| <= lnr.idx && (removing || (allowPartial && idle) ==> lnr.currLine == [])
      ensures faults == old(faults) - if ok then 0 else 1
    {
      while true
        invariant Valid() && alive && lnr.start == old(lnr.start) && old(lnr.file) <= lnr.file
        invariant old(handled) <= handled && old(state) <= state
        invariant (FlushFree(old(lnr.trace)) ==> FlushFree(lnr.trace)) && faults == old(faults)
        decreases lnr.Left()
      {
        ghost var file, idx := lnr.file, lnr.idx;
        var ln, more, sawEOF := lnr.ReadEntry();
        StillBooked(file, idx);
        assert state <= |lnr.file|;
        if !more && sawEOF {
          if (idle && allowPartial) || removing {
            ok := ForcePartial();
            return;
          }
          return true;
        }
        ok := Handle(ln);
        if !ok {
          return;
        }
      }
    }

    /** The catch-up pass at start-up: stops at the size the file had when it began, when
        the signal to quit is there, which it is after so many lines, or when the file
        ends; then it takes an unfinished line only if the file has been idle. The last
        line it reads begins before that size, and then there were `done` lines. */
    method Sync(idle: bool, calm: nat) returns (quit: bool, ok: bool, ghost done: seq<string>, ghost at: nat)
      requires Valid() && alive
      modifies this, lnr
      ensures Valid() && ok == alive && lnr.start == old(lnr.start) && old(lnr.file) <= lnr.file
      ensures old(handled) <= handled && old(state) <= state
      ensures ok && !quit ==> |old(lnr.file)| <= lnr.idx && (idle && lnr.idx == |lnr.file| ==> lnr.currLine == [])
      ensures !idle && FlushFree(old(lnr.trace)) ==> FlushFree(lnr.trace)
      ensures |handled| <= |old(handled)| + calm + 1 && (quit ==> |handled| == |old(handled)| + calm + 1)
      ensures |done| <= |handled| <= |done| + 1 && at <= lnr.idx
      ensures at == old(lnr.idx) || at < |old(lnr.file)|
      ensures faults == old(faults) - if ok then 0 else 1
    {
      var size, n := |lnr.file|, 0;
      quit, done, at := false, handled, lnr.idx;
      while true
        invariant Valid() && alive && lnr.start == old(lnr.start) && old(lnr.file) <= lnr.file
        invariant old(handled) <= handled && old(state) <= state && faults == old(faults) && !quit
        invariant n <= calm && |handled| == |old(handled)| + n
        invariant FlushFree(old(lnr.trace)) ==> FlushFree(lnr.trace)
        invariant lnr.idx == old(lnr.idx) || lnr.idx < size
        decreases lnr.Left()
      {
        ghost var file, idx := lnr.file, lnr.idx;
        done, at := handled, lnr.idx;
        var ln, more, sawEOF := lnr.ReadEntry();
        StillBooked(file, idx);
        if !more {
          if sawEOF && idle {
            ok := ForcePartial();
            return;
          }
          return false, true, done, at;
        }
        ok := Handle(ln);
        if !ok || lnr.idx >= size {
          return;
        }
        n := n + 1;
        quit := n > calm;
        if quit {
          return;
        }
      }
    }
  }

  /** On text whose carriage returns belong to line ends, the lines handled are the
      bytes from where the follower started to the saved offset, without line
      ends, whatever was forced and whenever the handler failed. */
  lemma HandledUpToOffset(f: Follower)
    requires f.Valid() && Settled(f.lnr.file[f.lnr.start..f.state])
    ensures Joined(f.handled) == Strip(f.lnr.file[f.lnr.start..f.state])
  {
    NothingSkipped(f.settled);
    assert Joined(f.handled) + [] == Joined(f.handled);
  }

  /** And while the follower lives with no line begun, that goes for all it has read,
      as when a file is removed. */
  lemma NothingLeftBehind(f: Follower)
    requires f.Valid() && f.alive && f.lnr.currLine == [] && Settled(f.lnr.file[f.lnr.start..f.lnr.idx])
    ensures Joined(f.handled) == Strip(f.lnr.file[f.lnr.start..f.lnr.idx])
  {
    NothingSkipped(f.lnr.trace);
    assert Joined(f.handled) + [] == Joined(f.handled);
  }

  /** With nothing forced, a new reader at the saved offset returns exactly the lines
      that have not been handled, of whatever the file comes to hold. */
  lemma RestartAtOffset(f: Follower, content: string)
    requires f.Valid() && FlushFree(f.settled) && f.lnr.file <= content && Tame(content[f.lnr.start..])
    ensures Lines(content[f.lnr.start..]) == f.handled + Lines(content[f.state..])
  {
    var q := content[f.state..];
    assert content[f.lnr.start..] == f.lnr.file[f.lnr.start..f.state] + q;
    Resumes(f.settled, q);
  }
}
