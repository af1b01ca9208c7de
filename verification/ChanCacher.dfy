/** ChanCacher: a channel pipeline with a bounded buffer and two backing files
    that swap roles (chancacher/chancacher.go). Its goroutines are interleaved one
    shared access at a time; in particular the flags that CacheHasData, Commit and
    cacheHandler look at without the lock are read in steps of their own. */
module ChanCacher {
  import opened Wrappers

  /** A value on its way through the cache, never nil. */
  type Value = nat

  /** What a cache file holds: the encoded values in order, and the gob encoders
      that wrote them since the file was last empty. */
  datatype Content = Content(vals: seq<Value>, encoders: set<nat>)

  const EMPTY := Content([], {})

  datatype Path = CacheA | CacheB

  datatype File = File(path: Path, data: Content)

  datatype Holder = RunHolds | HandlerHolds | CommitHolds

  /** run, by the next thing it does. */
  datatype RunPc =
    | Receive                  // range over In
    | TrySend(v: Value)        // the first select
    | Blocked(v: Value, open: bool)  // the second select, or the plain send; open is
                               // whether the pause channel it waits on is closed
    | Sizing(v: Value)         // cacheValue, before it has the lock
    | Encoding(v: Value)       // has the lock
    | Marking                  // about to set cacheModified and unlock
    | InputOver                // about to set runDone
    | ReadModified             // CacheHasData
    | ReadReading
    | ReadCommitted
    | Finishing                // about to call finishCache
    | AwaitAck
    | Closing                  // about to close Out
    | RunOver

  datatype HandlerPc =
    | Starting
    | Decoding
    | Pushing(v: Value)
    | Drained                  // end of file: about to clear cacheReading
    | Truncating
    | ReadDone
    | AwaitData                // polling cacheModified and cacheDone
    | Locking
    | Swapping
    | ClearModified
    | SetReading
    | HandlerOver

  /** Commit; stopped is its local readerStopped. */
  datatype CommitPc =
    | NotCalled
    | StopCache
    | ReadRunDone(stopped: bool)
    | ReadLength(stopped: bool)
    | Selecting(stopped: bool)
    | Holding(v: Value, stopped: bool)
    | Writing(v: Value, stopped: bool)
    | MarkingBack(stopped: bool)
    | ClosingFiles
    | Returned

  /** The plain variables the goroutines share. */
  datatype Flags = Flags(runDone: bool, modified: bool, reading: bool, committed: bool)

  /** Channels that are closed as a signal, the pause channel and the lock. */
  datatype Signals = Signals(inClosed: bool, outClosed: bool, paused: bool, done: bool, ack: bool, lock: Option<Holder>)

  /** The file being read, how far, the file being written, and its encoder. */
  datatype Files = Files(r: File, pos: nat, w: File, enc: nat)

  /** What came in, from In and at start-up, and what consumers took. */
  datatype Log = Log(accepted: multiset<Value>, recovered: multiset<Value>, consumed: multiset<Value>)

  datatype State = State(
    cap: nat, cache: bool, out: seq<Value>, fl: Flags, sig: Signals, fs: Files,
    run: RunPc, handler: HandlerPc, commit: CommitPc, log: Log)

  datatype Sender = FromRun | FromHandler

  datatype Event =
    | Offer(v: Value)
    | CloseIn
    | RunMoves(toCache: bool)
    | HandlerMoves
    | Consume
    | HandOff(from: Sender, toCommit: bool)
    | CacheStart
    | CacheStop
    | CallCommit
    | CommitMoves(takeAck: bool)

  function Encode(fs: Files, v: Value): Files {
    fs.(w := fs.w.(data := Content(fs.w.data.vals + [v], fs.w.data.encoders + {fs.enc})))
  }

  function Lock(s: State, h: Holder): Signals {
    s.sig.(lock := Some(h))
  }

  function Unlock(s: State): Signals {
    s.sig.(lock := None)
  }

  /** One step of run. A value that cannot move leaves the state as it is. */
  function RunStep(s: State, toCache: bool): State {
    if InputGoesOn(s.run) then RelayStep(s, toCache) else WindDownStep(s)
  }

  predicate InputGoesOn(p: RunPc) {
    p.Receive? || p.TrySend? || p.Blocked? || p.Sizing? || p.Encoding? || p.Marking?
  }

  /** The loop over In. */
  function RelayStep(s: State, toCache: bool): State
    requires InputGoesOn(s.run)
  {
    match s.run
    case Receive => if s.sig.inClosed then s.(run := InputOver) else s
    case TrySend(v) =>
      if |s.out| < s.cap then s.(out := s.out + [v], run := Receive) else s.(run := Blocked(v, !s.sig.paused))
    case Blocked(v, open) =>
      if toCache && s.cache && open then s.(run := Sizing(v))
      else if !toCache && |s.out| < s.cap then s.(out := s.out + [v], run := Receive)
      else s
    case Sizing(v) => if s.sig.lock.None? then s.(run := Encoding(v), sig := Lock(s, RunHolds)) else s
    case Encoding(v) => s.(fs := Encode(s.fs, v), run := Marking)
    case Marking => s.(fl := s.fl.(modified := true), sig := Unlock(s), run := Receive)
  }

  /** After In is closed. */
  function WindDownStep(s: State): State
    requires !InputGoesOn(s.run)
  {
    match s.run
    case InputOver => s.(fl := s.fl.(runDone := true), run := if s.cache then ReadModified else Closing)
    case ReadModified => s.(run := if s.fl.modified then ReadCommitted else ReadReading)
    case ReadReading => s.(run := if s.fl.reading then ReadCommitted else Finishing)
    case ReadCommitted => s.(run := if s.fl.committed then Finishing else ReadModified)
    case Finishing => if s.sig.lock.None? then s.(sig := s.sig.(done := true), run := AwaitAck) else s
    case AwaitAck => if s.sig.ack then s.(run := Closing) else s
    case Closing => s.(sig := s.sig.(outClosed := true), run := RunOver)
    case RunOver => s
  }

  /** One step of cacheHandler. */
  function HandlerStep(s: State): State {
    if ReadsFile(s.handler) then ReadFileStep(s) else SwapStep(s)
  }

  predicate ReadsFile(p: HandlerPc) {
    p.Starting? || p.Decoding? || p.Pushing? || p.Drained? || p.Truncating?
  }

  /** Draining the read file into Out. */
  function ReadFileStep(s: State): State
    requires ReadsFile(s.handler)
  {
    match s.handler
    case Starting => s.(fl := s.fl.(reading := true), handler := Decoding)
    case Decoding =>
      if s.fs.pos < |s.fs.r.data.vals|
      then s.(handler := Pushing(s.fs.r.data.vals[s.fs.pos]), fs := s.fs.(pos := s.fs.pos + 1))
      else s.(handler := Drained)
    case Pushing(v) => if |s.out| < s.cap then s.(out := s.out + [v], handler := Decoding) else s
    case Drained => s.(fl := s.fl.(reading := false), handler := Truncating)
    case Truncating => s.(fs := s.fs.(r := s.fs.r.(data := EMPTY), pos := 0), handler := ReadDone)
  }

  /** Waiting for data and swapping the files. */
  function SwapStep(s: State): State
    requires !ReadsFile(s.handler)
  {
    match s.handler
    case ReadDone => if s.sig.done then Acknowledge(s) else s.(handler := AwaitData)
    case AwaitData =>
      if s.fl.modified then s.(handler := Locking) else if s.sig.done then Acknowledge(s) else s
    case Locking => if s.sig.lock.None? then s.(sig := Lock(s, HandlerHolds), handler := Swapping) else s
    case Swapping => s.(fs := Files(s.fs.w, 0, s.fs.r, s.fs.enc + 1), handler := ClearModified)
    case ClearModified => s.(fl := s.fl.(modified := false), handler := SetReading)
    case SetReading => s.(fl := s.fl.(reading := true), sig := Unlock(s), handler := Decoding)
    case HandlerOver => s
  }

  function Acknowledge(s: State): State {
    s.(sig := s.sig.(ack := true), handler := HandlerOver)
  }

  /** One step of Commit. */
  function CommitStep(s: State, takeAck: bool): State {
    if PutsBack(s.commit) then PutBackStep(s) else CommitLoopStep(s, takeAck)
  }

  predicate PutsBack(p: CommitPc) {
    p.Holding? || p.Writing? || p.MarkingBack?
  }

  /** cacheValue, called from Commit. */
  function PutBackStep(s: State): State
    requires PutsBack(s.commit)
  {
    match s.commit
    case Holding(v, stopped) =>
      if s.sig.lock.None? then s.(sig := Lock(s, CommitHolds), commit := Writing(v, stopped)) else s
    case Writing(v, stopped) => s.(fs := Encode(s.fs, v), commit := MarkingBack(stopped))
    case MarkingBack(stopped) =>
      s.(fl := s.fl.(modified := true), sig := Unlock(s), commit := ReadRunDone(stopped))
  }

  function CommitLoopStep(s: State, takeAck: bool): State
    requires !PutsBack(s.commit)
  {
    match s.commit
    case NotCalled => s
    case StopCache =>
      if s.sig.lock.None? then s.(sig := s.sig.(done := true), commit := ReadRunDone(false)) else s
    case ReadRunDone(stopped) => s.(commit := if s.fl.runDone then ReadLength(stopped) else Selecting(stopped))
    case ReadLength(stopped) =>
      s.(commit := if s.out == [] && stopped then ClosingFiles else Selecting(stopped))
    case Selecting(stopped) =>
      if takeAck then if s.sig.ack then s.(commit := ReadRunDone(true)) else s
      else if s.out != [] then s.(out := s.out[1..], commit := Holding(s.out[0], stopped))
      else if s.sig.outClosed then s.(commit := ReadRunDone(stopped))
      else s
    case ClosingFiles => s.(fl := s.fl.(committed := true), commit := Returned)
    case Returned => s
  }

  /** The value a goroutine is trying to send on Out. */
  function Offered(s: State, from: Sender): Option<Value> {
    match from
    case FromRun => if s.run.TrySend? || s.run.Blocked? then Some(s.run.v) else None
    case FromHandler => if s.handler.Pushing? then Some(s.handler.v) else None
  }

  function Sent(s: State, from: Sender): State {
    match from
    case FromRun => s.(run := Receive)
    case FromHandler => s.(handler := Decoding)
  }

  /** With nothing buffered a sender may hand its value straight to a receiver;
      on an unbuffered Out there is no other way. */
  function HandOffStep(s: State, from: Sender, toCommit: bool): State {
    if s.out != [] || Offered(s, from).None? || (from.FromHandler? && !s.cache) then s
    else if toCommit && !s.commit.Selecting? then s
    else if toCommit then Sent(s, from).(commit := Holding(Offered(s, from).value, s.commit.stopped))
    else Consumed(Sent(s, from), Offered(s, from).value)
  }

  function Consumed(s: State, v: Value): State {
    s.(log := s.log.(consumed := s.log.consumed + multiset{v}))
  }

  function Step(s: State, ev: Event): State {
    match ev
    case Offer(v) =>
      if s.run.Receive? && !s.sig.inClosed
      then s.(run := TrySend(v), log := s.log.(accepted := s.log.accepted + multiset{v}))
      else s
    case CloseIn => s.(sig := s.sig.(inClosed := true))
    case RunMoves(toCache) => RunStep(s, toCache)
    case HandlerMoves => if s.cache then HandlerStep(s) else s
    case Consume => if s.out == [] then s else Consumed(s.(out := s.out[1..]), s.out[0])
    case HandOff(from, toCommit) => HandOffStep(s, from, toCommit)
    case CacheStart =>
      if s.cache && s.sig.lock.None?
      then s.(sig := s.sig.(paused := false), run := if s.run.Blocked? then s.run.(open := true) else s.run)
      else s
    case CacheStop => if s.cache && s.sig.lock.None? then s.(sig := s.sig.(paused := true)) else s
    case CallCommit =>
      if !s.commit.NotCalled? then s
      else if s.cache then s.(commit := StopCache)
      else s.(fl := s.fl.(committed := true), commit := Returned)
    case CommitMoves(takeAck) => CommitStep(s, takeAck)
  }

  function Run(s: State, evs: seq<Event>): State
    decreases |evs|
  {
    if evs == [] then s else Run(Step(s, evs[0]), evs[1..])
  }

  // Files on disk and start-up

  /** The two files of a cache directory, by name. */
  datatype Disk = Disk(a: Content, b: Content)

  /** One gob stream: a decoder can read the whole file. */
  predicate OneStream(c: Content) {
    forall x, y :: x in c.encoders && y in c.encoders ==> x == y
  }

  /** merge: decode one file after the other and encode everything anew. */
  method Merge(a: seq<Value>, b: seq<Value>, enc: nat) returns (merged: Content)
    ensures merged == if a + b == [] then EMPTY else Content(a + b, {enc})
  {
    merged := EMPTY;
    for i := 0 to |a|
      invariant merged == if i == 0 then EMPTY else Content(a[..i], {enc})
    {
      merged := Content(merged.vals + [a[i]], merged.encoders + {enc});
    }
    for i := 0 to |b|
      invariant merged == if |a| + i == 0 then EMPTY else Content(a + b[..i], {enc})
    {
      merged := Content(merged.vals + [b[i]], merged.encoders + {enc});
    }
  }

  /** What NewChanCacher does to the files of an earlier instance. */
  function Recover(d: Disk, enc: nat): Disk {
    if d.b.vals != [] && d.a.vals == [] then Disk(d.b, EMPTY)
    else if d.b.vals != [] && d.a.vals != [] then Disk(Content(d.a.vals + d.b.vals, {enc}), EMPTY)
    else Disk(d.a, EMPTY)
  }

  /** The shuffling of files at start-up: move the write file, merge, or neither. In
      each case the file to be read ends up with the values of both files, in order,
      as one stream if they were, and the file to be written is empty. */
  method ShuffleFiles(d: Disk, enc: nat) returns (rec: Disk)
    ensures rec.a.vals == d.a.vals + d.b.vals && rec.b == EMPTY
    ensures OneStream(d.a) && OneStream(d.b) ==> OneStream(rec.a)
    ensures rec == Recover(d, enc)
  {
    if d.b.vals != [] && d.a.vals == [] {
      return Disk(d.b, EMPTY);
    } else if d.b.vals != [] && d.a.vals != [] {
      var merged := Merge(d.a.vals, d.b.vals, enc);
      return Disk(merged, EMPTY);
    }
    return Disk(d.a, EMPTY);
  }

  function Open(d: Disk, cap: nat, cache: bool, enc: nat): State {
    var rec := if cache then Recover(d, enc) else Disk(EMPTY, EMPTY);
    State(cap, cache, [], Flags(false, rec.b.vals != [], false, false),
          Signals(false, false, false, false, false, None),
          Files(File(CacheA, rec.a), 0, File(CacheB, rec.b), enc + 1),
          Receive, Starting, NotCalled, Log(multiset{}, multiset(rec.a.vals), multiset{}))
  }

  /** The directory as an instance leaves it. */
  function OnDisk(s: State): Disk {
    if s.fs.r.path == CacheA then Disk(s.fs.r.data, s.fs.w.data) else Disk(s.fs.w.data, s.fs.r.data)
  }

  // Conservation

  /** The value in run's hand. */
  function InRun(p: RunPc): Option<Value> {
    match p
    case TrySend(v) => Some(v)
    case Blocked(v, _) => Some(v)
    case Sizing(v) => Some(v)
    case Encoding(v) => Some(v)
    case _ => None
  }

  function InHandler(p: HandlerPc): Option<Value> {
    if p.Pushing? then Some(p.v) else None
  }

  function InCommit(p: CommitPc): Option<Value> {
    match p
    case Holding(v, _) => Some(v)
    case Writing(v, _) => Some(v)
    case _ => None
  }

  function Unread(fs: Files): seq<Value> {
    if fs.pos <= |fs.r.data.vals| then fs.r.data.vals[fs.pos..] else []
  }

  /** What conservation is about: the buffer, what is left of the read file, the
      write file and the three hands. */
  datatype Stock = Stock(out: seq<Value>, unread: seq<Value>, w: seq<Value>,
                         run: Option<Value>, handler: Option<Value>, commit: Option<Value>)

  function StockOf(s: State): Stock {
    Stock(s.out, Unread(s.fs), s.fs.w.data.vals, InRun(s.run), InHandler(s.handler), InCommit(s.commit))
  }

  function Bit(b: bool): nat {
    if b then 1 else 0
  }

  /** Copies of v that have not reached a consumer. */
  function Copies(k: Stock, v: Value): nat {
    multiset(k.out)[v] + multiset(k.unread)[v] + multiset(k.w)[v]
    + Bit(k.run == Some(v)) + Bit(k.handler == Some(v)) + Bit(k.commit == Some(v))
  }

  ghost predicate Conserved(s: State, v: Value) {
    s.log.accepted[v] + s.log.recovered[v] == s.log.consumed[v] + Copies(StockOf(s), v)
  }

  // What every interleaving keeps

  /** The lock is held by the goroutine that is inside its critical section. */
  predicate LockOk(s: State) {
    && (s.sig.lock == Some(RunHolds) <==> s.run.Encoding? || s.run.Marking?)
    && (s.sig.lock == Some(HandlerHolds) <==> s.handler.Swapping? || s.handler.ClearModified? || s.handler.SetReading?)
    && (s.sig.lock == Some(CommitHolds) <==> s.commit.Writing? || s.commit.MarkingBack?)
  }

  /** Where cacheHandler stands in the file it reads, and what cacheModified says
      about the file being written. */
  predicate FilesOk(s: State) {
    var h := s.handler;
    && s.fs.pos <= |s.fs.r.data.vals|
    && (h.Drained? || h.Truncating? ==> s.fs.pos == |s.fs.r.data.vals|)
    && (h.ReadDone? || h.AwaitData? || h.Locking? || h.Swapping? || h.HandlerOver? ==> s.fs.r.data == EMPTY)
    && (h.ClearModified? ==> s.fs.w.data == EMPTY)
    && (h.Locking? || h.Swapping? || h.ClearModified? ==> s.fl.modified)
    && (s.fs.w.data != EMPTY ==> s.fl.modified || s.run.Marking? || s.commit.MarkingBack?)
    && (s.sig.ack <==> h.HandlerOver?)
  }

  /** Each file is one gob stream, and the write file that of the encoder in use. */
  predicate StreamsOk(fs: Files) {
    && fs.r.path != fs.w.path
    && OneStream(fs.r.data)
    && fs.w.data.encoders <= {fs.enc}
  }

  predicate RunEnded(p: RunPc) {
    || p.ReadModified? || p.ReadReading? || p.ReadCommitted?
    || p.Finishing? || p.AwaitAck? || p.Closing? || p.RunOver?
  }

  predicate ReaderStopped(p: CommitPc) {
    match p
    case ReadRunDone(stopped) => stopped
    case ReadLength(stopped) => stopped
    case Selecting(stopped) => stopped
    case Holding(_, stopped) => stopped
    case Writing(_, stopped) => stopped
    case MarkingBack(stopped) => stopped
    case _ => false
  }

  /** How far run and Commit have got on the way down. */
  predicate ShutdownOk(s: State) {
    && (s.fl.runDone <==> RunEnded(s.run))
    && (s.fl.runDone || s.run.InputOver? ==> s.sig.inClosed)
    && (s.sig.outClosed <==> s.run.RunOver?)
    && (s.run.Closing? || s.run.RunOver? ==> s.sig.ack || !s.cache)
    && (s.commit.ReadLength? ==> s.fl.runDone)
    && (ReaderStopped(s.commit) ==> s.sig.ack)
    && (CommitOver(s) ==> s.fl.runDone && s.sig.ack && s.out == [])
    && (s.fl.committed ==> s.commit.Returned?)
  }

  /** Commit has left its loop. */
  predicate CommitOver(s: State) {
    s.cache && (s.commit.ClosingFiles? || s.commit.Returned?)
  }

  /** run has found cacheModified clear and has not gone back to waiting. */
  predicate SeenUnmodified(p: RunPc) {
    p.ReadReading? || p.Finishing? || p.AwaitAck? || p.Closing? || p.RunOver?
  }

  /** Without Commit, run leaves its waiting loop only once the write file is
      empty for good. */
  predicate DrainOk(s: State) {
    s.cache && s.commit.NotCalled? && SeenUnmodified(s.run) ==> s.fs.w.data == EMPTY && !s.fl.modified
  }

  predicate NoCacheOk(s: State) {
    s.cache || (s.handler.Starting? && s.fs.r.data == EMPTY && s.fs.w.data == EMPTY
                && (s.commit.NotCalled? || s.commit.Returned?)
                && !s.run.Sizing? && !s.run.Encoding? && !s.run.Marking?)
  }

  predicate Books(s: State) {
    LockOk(s) && FilesOk(s) && StreamsOk(s.fs) && ShutdownOk(s) && DrainOk(s) && NoCacheOk(s)
  }

  // Proof of conservation

  lemma OutSplit(s: seq<Value>, v: Value)
    requires s != []
    ensures multiset(s)[v] == Bit(s[0] == v) + multiset(s[1..])[v]
  {
    assert s == [s[0]] + s[1..];
  }

  /** A goroutine's step moves at most one value, between its hand and the
      buffer or a file. */
  predicate RunMove(k: Stock, k': Stock) {
    || k' == k
    || (k.run.Some? && k' == k.(run := None, out := k.out + [k.run.value]))
    || (k.run.Some? && k' == k.(run := None, w := k.w + [k.run.value]))
  }

  predicate HandlerMove(k: Stock, k': Stock) {
    || k' == k
    || (k.handler.Some? && k' == k.(handler := None, out := k.out + [k.handler.value]))
    || (k.handler.None? && k.unread != [] && k' == k.(handler := Some(k.unread[0]), unread := k.unread[1..]))
    || (k.unread == [] && k' == k.(unread := k.w, w := []))
  }

  predicate CommitMove(k: Stock, k': Stock) {
    || k' == k
    || (k.commit.Some? && k' == k.(commit := None, w := k.w + [k.commit.value]))
    || (k.commit.None? && k.out != [] && k' == k.(commit := Some(k.out[0]), out := k.out[1..]))
  }

  lemma RunMoveConserves(k: Stock, k': Stock, v: Value)
    requires RunMove(k, k')
    ensures Copies(k', v) == Copies(k, v)
  {
  }

  lemma HandlerMoveConserves(k: Stock, k': Stock, v: Value)
    requires HandlerMove(k, k')
    ensures Copies(k', v) == Copies(k, v)
  {
    if k.unread != [] {
      OutSplit(k.unread, v);
    }
  }

  lemma CommitMoveConserves(k: Stock, k': Stock, v: Value)
    requires CommitMove(k, k')
    ensures Copies(k', v) == Copies(k, v)
  {
    if k.out != [] {
      OutSplit(k.out, v);
    }
  }

  lemma RelayMoves(s: State, toCache: bool)
    requires InputGoesOn(s.run)
    ensures var s' := RelayStep(s, toCache); s'.log == s.log && RunMove(StockOf(s), StockOf(s'))
  {
  }

  lemma WindDownMoves(s: State)
    requires !InputGoesOn(s.run)
    ensures var s' := WindDownStep(s); s'.log == s.log && StockOf(s') == StockOf(s)
  {
  }

  lemma ReadFileMoves(s: State)
    requires FilesOk(s) && ReadsFile(s.handler)
    ensures var s' := ReadFileStep(s); s'.log == s.log && HandlerMove(StockOf(s), StockOf(s'))
  {
  }

  lemma SwapMoves(s: State)
    requires FilesOk(s) && !ReadsFile(s.handler)
    ensures var s' := SwapStep(s); s'.log == s.log && HandlerMove(StockOf(s), StockOf(s'))
  {
  }

  lemma PutBackMoves(s: State)
    requires PutsBack(s.commit)
    ensures var s' := PutBackStep(s); s'.log == s.log && CommitMove(StockOf(s), StockOf(s'))
  {
  }

  lemma CommitLoopMoves(s: State, takeAck: bool)
    requires !PutsBack(s.commit)
    ensures var s' := CommitLoopStep(s, takeAck); s'.log == s.log && CommitMove(StockOf(s), StockOf(s'))
  {
  }

  lemma HandOffConserves(s: State, from: Sender, toCommit: bool, v: Value)
    requires Conserved(s, v)
    ensures Conserved(HandOffStep(s, from, toCommit), v)
  {
  }

  lemma RunConserves(s: State, toCache: bool, v: Value)
    requires Conserved(s, v)
    ensures Conserved(RunStep(s, toCache), v)
  {
    if InputGoesOn(s.run) {
      RelayMoves(s, toCache);
    } else {
      WindDownMoves(s);
    }
    RunMoveConserves(StockOf(s), StockOf(RunStep(s, toCache)), v);
  }

  lemma HandlerConserves(s: State, v: Value)
    requires Conserved(s, v) && FilesOk(s)
    ensures Conserved(HandlerStep(s), v)
  {
    if ReadsFile(s.handler) {
      ReadFileMoves(s);
    } else {
      SwapMoves(s);
    }
    HandlerMoveConserves(StockOf(s), StockOf(HandlerStep(s)), v);
  }

  lemma CommitConserves(s: State, takeAck: bool, v: Value)
    requires Conserved(s, v)
    ensures Conserved(CommitStep(s, takeAck), v)
  {
    if PutsBack(s.commit) {
      PutBackMoves(s);
    } else {
      CommitLoopMoves(s, takeAck);
    }
    CommitMoveConserves(StockOf(s), StockOf(CommitStep(s, takeAck)), v);
  }

  lemma OthersConserve(s: State, ev: Event, v: Value)
    requires Conserved(s, v) && !ev.RunMoves? && !ev.HandlerMoves? && !ev.CommitMoves? && !ev.HandOff?
    ensures Conserved(Step(s, ev), v)
  {
    if ev.Consume? && s.out != [] {
      OutSplit(s.out, v);
    }
  }

  lemma StepConserves(s: State, ev: Event, v: Value)
    requires Conserved(s, v) && FilesOk(s)
    ensures Conserved(Step(s, ev), v)
  {
    if ev.RunMoves? {
      RunConserves(s, ev.toCache, v);
    } else if ev.HandlerMoves? {
      HandlerConserves(s, v);
    } else if ev.CommitMoves? {
      CommitConserves(s, ev.takeAck, v);
    } else if ev.HandOff? {
      HandOffConserves(s, ev.from, ev.toCommit, v);
    } else {
      OthersConserve(s, ev, v);
    }
  }

  // The rest of the invariant, goroutine by goroutine

  /** The part of the books about the lock and the files. */
  predicate FileBooks(s: State) {
    LockOk(s) && FilesOk(s) && StreamsOk(s.fs)
  }

  lemma RelayKeepsBooks(s: State, toCache: bool)
    requires Books(s) && InputGoesOn(s.run)
    ensures Books(RelayStep(s, toCache))
  {
  }

  lemma WindDownKeepsFiles(s: State)
    requires FileBooks(s) && !InputGoesOn(s.run)
    ensures FileBooks(WindDownStep(s))
  {
  }

  lemma WindDownKeepsBooks(s: State)
    requires Books(s) && !InputGoesOn(s.run)
    ensures Books(WindDownStep(s))
  {
    var s' := WindDownStep(s);
    WindDownKeepsFiles(s);
    assert s'.commit == s.commit && s'.handler == s.handler && s'.fs == s.fs && s'.out == s.out;
  }

  lemma ReadFileKeepsBooks(s: State)
    requires Books(s) && s.cache && ReadsFile(s.handler)
    ensures Books(ReadFileStep(s))
  {
  }

  lemma SwapKeepsBooks(s: State)
    requires Books(s) && s.cache && !ReadsFile(s.handler)
    ensures Books(SwapStep(s))
  {
  }

  lemma PutBackKeepsBooks(s: State)
    requires Books(s) && PutsBack(s.commit)
    ensures Books(PutBackStep(s))
  {
  }

  lemma CommitLoopKeepsFiles(s: State, takeAck: bool)
    requires FileBooks(s) && !PutsBack(s.commit)
    ensures FileBooks(CommitLoopStep(s, takeAck))
  {
  }

  lemma CommitLoopKeepsBooks(s: State, takeAck: bool)
    requires Books(s) && !PutsBack(s.commit)
    ensures Books(CommitLoopStep(s, takeAck))
  {
    var s' := CommitLoopStep(s, takeAck);
    CommitLoopKeepsFiles(s, takeAck);
    assert s'.run == s.run && s'.handler == s.handler && s'.fs == s.fs;
  }

  lemma HandOffKeepsBooks(s: State, from: Sender, toCommit: bool)
    requires Books(s)
    ensures Books(HandOffStep(s, from, toCommit))
  {
  }

  lemma OthersKeepBooks(s: State, ev: Event)
    requires Books(s) && !ev.RunMoves? && !ev.HandlerMoves? && !ev.CommitMoves? && !ev.HandOff?
    ensures Books(Step(s, ev))
  {
  }

  lemma StepKeepsBooks(s: State, ev: Event)
    requires Books(s)
    ensures Books(Step(s, ev))
  {
    if ev.RunMoves? {
      if InputGoesOn(s.run) {
        RelayKeepsBooks(s, ev.toCache);
      } else {
        WindDownKeepsBooks(s);
      }
    } else if ev.HandlerMoves? {
      if s.cache && ReadsFile(s.handler) {
        ReadFileKeepsBooks(s);
      } else if s.cache {
        SwapKeepsBooks(s);
      }
    } else if ev.CommitMoves? {
      if PutsBack(s.commit) {
        PutBackKeepsBooks(s);
      } else {
        CommitLoopKeepsBooks(s, ev.takeAck);
      }
    } else if ev.HandOff? {
      HandOffKeepsBooks(s, ev.from, ev.toCommit);
    } else {
      OthersKeepBooks(s, ev);
    }
  }

  // Whole runs

  ghost predicate Inv(s: State) {
    Books(s) && forall v :: Conserved(s, v)
  }

  lemma {:induction false} RunKeepsInv(s: State, evs: seq<Event>)
    requires Inv(s)
    ensures Inv(Run(s, evs))
    decreases |evs|
  {
    if evs != [] {
      StepKeepsBooks(s, evs[0]);
      forall v ensures Conserved(Step(s, evs[0]), v) {
        assert Conserved(s, v);
        StepConserves(s, evs[0], v);
      }
      RunKeepsInv(Step(s, evs[0]), evs[1..]);
    }
  }

  /** Every file an instance can find is a single stream. */
  predicate Readable(d: Disk) {
    OneStream(d.a) && OneStream(d.b)
  }

  /** Start-up gathers the values of both files in the one it will read. */
  lemma RecoverGathers(d: Disk, enc: nat)
    requires Readable(d)
    ensures var rec := Recover(d, enc);
            && rec.a.vals == d.a.vals + d.b.vals
            && multiset(rec.a.vals) == multiset(d.a.vals) + multiset(d.b.vals)
            && OneStream(rec.a) && rec.b == EMPTY
  {
  }

  lemma OpenInv(d: Disk, cap: nat, cache: bool, enc: nat)
    requires Readable(d)
    ensures Inv(Open(d, cap, cache, enc))
  {
    var s := Open(d, cap, cache, enc);
    assert Unread(s.fs) == s.fs.r.data.vals;
  }

  function One(v: Option<Value>): multiset<Value> {
    if v.Some? then multiset{v.value} else multiset{}
  }

  /** Everything that has not reached a consumer. */
  function Everything(k: Stock): multiset<Value> {
    multiset(k.out) + multiset(k.unread) + multiset(k.w) + One(k.run) + One(k.handler) + One(k.commit)
  }

  lemma EverythingCopies(k: Stock, v: Value)
    ensures Everything(k)[v] == Copies(k, v)
  {
    assert One(k.run)[v] == Bit(k.run == Some(v));
    assert One(k.handler)[v] == Bit(k.handler == Some(v));
    assert One(k.commit)[v] == Bit(k.commit == Some(v));
  }

  lemma EverythingCounts(s: State)
    requires forall v :: Conserved(s, v)
    ensures s.log.accepted + s.log.recovered == s.log.consumed + Everything(StockOf(s))
  {
    var k := StockOf(s);
    forall v ensures s.log.accepted[v] + s.log.recovered[v] == s.log.consumed[v] + Everything(k)[v] {
      assert Conserved(s, v);
      EverythingCopies(k, v);
    }
  }

  /** In every interleaving, what came in is what was consumed plus what waits in
      Out, the files and the hands of the goroutines. */
  lemma NothingLostOrInvented(d: Disk, cap: nat, cache: bool, enc: nat, evs: seq<Event>)
    requires Readable(d)
    ensures var s := Run(Open(d, cap, cache, enc), evs);
            s.log.accepted + s.log.recovered ==
            s.log.consumed + multiset(s.out) + multiset(Unread(s.fs)) + multiset(s.fs.w.data.vals)
            + One(InRun(s.run)) + One(InHandler(s.handler)) + One(InCommit(s.commit))
  {
    OpenInv(d, cap, cache, enc);
    RunKeepsInv(Open(d, cap, cache, enc), evs);
    EverythingCounts(Run(Open(d, cap, cache, enc), evs));
  }

  /** Without Commit, Out is closed only after every value has been put on it,
      whenever cacheHandler happens to swap files while run looks at its flags. */
  lemma DrainedBeforeClose(d: Disk, cap: nat, cache: bool, enc: nat, evs: seq<Event>)
    requires Readable(d)
    ensures var s := Run(Open(d, cap, cache, enc), evs);
            s.sig.outClosed && s.commit.NotCalled? ==>
              s.log.accepted + s.log.recovered == s.log.consumed + multiset(s.out)
  {
    OpenInv(d, cap, cache, enc);
    RunKeepsInv(Open(d, cap, cache, enc), evs);
    EverythingCounts(Run(Open(d, cap, cache, enc), evs));
  }

  /** Nobody sends on Out once it is closed. */
  lemma NoSendAfterClose(d: Disk, cap: nat, cache: bool, enc: nat, evs: seq<Event>)
    requires Readable(d)
    ensures var s := Run(Open(d, cap, cache, enc), evs);
            s.sig.outClosed ==> Offered(s, FromRun).None? && Offered(s, FromHandler).None?
  {
    OpenInv(d, cap, cache, enc);
    RunKeepsInv(Open(d, cap, cache, enc), evs);
  }

  /** When Commit has returned, everything not consumed is in the write file. */
  lemma CommitLeavesAllInFile(s: State)
    requires Inv(s) && s.cache && s.commit.Returned?
    ensures s.log.accepted + s.log.recovered == s.log.consumed + multiset(s.fs.w.data.vals)
    ensures s.fs.r.data == EMPTY && StreamsOk(s.fs)
  {
    EverythingCounts(s);
    assert InRun(s.run).None? && InHandler(s.handler).None?;
  }

  /** Once Commit has returned, a new instance on the same directory finds in its
      read file exactly the values no consumer received, as a single stream, and
      an empty write file. */
  lemma CommitThenRecover(d: Disk, cap: nat, enc: nat, evs: seq<Event>, enc': nat)
    requires Readable(d) && Run(Open(d, cap, true, enc), evs).commit.Returned?
    ensures var s := Run(Open(d, cap, true, enc), evs);
            var next := Recover(OnDisk(s), enc');
            && s.log.accepted + s.log.recovered == s.log.consumed + multiset(next.a.vals)
            && Readable(OnDisk(s)) && OneStream(next.a) && next.b == EMPTY
  {
    var s := Run(Open(d, cap, true, enc), evs);
    OpenInv(d, cap, true, enc);
    RunKeepsInv(Open(d, cap, true, enc), evs);
    SameCache(Open(d, cap, true, enc), evs);
    CommitLeavesAllInFile(s);
    RecoverGathers(OnDisk(s), enc');
  }

  lemma {:induction false} SameCache(s: State, evs: seq<Event>)
    ensures Run(s, evs).cache == s.cache
    decreases |evs|
  {
    if evs != [] {
      SameCacheStep(s, evs[0]);
      SameCache(Step(s, evs[0]), evs[1..]);
    }
  }

  lemma SameCacheStep(s: State, ev: Event)
    ensures Step(s, ev).cache == s.cache
  {
  }
}
