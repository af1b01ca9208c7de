/** The sending half of a connection, as the code runs it: every operation holds
    the writer's mutex while the other end keeps going (ingest/entryWriter.go). */
module EntryWriters {
  import opened Wrappers
  import opened AckCodec
  import opened ConfBuffer
  import opened Link
  import opened LinkReplies

  datatype WriterError =
    | NotRunning | Timeout | ConnectionError | Cancelled | OversizedEntry
    | VersionTooOld | BlockRefused | TagRefused | Unexpected(cmd: uint32) | Ring(err: RingError)

  /** Outcome of ackCommand.decode on the buffered connection. */
  datatype AckRead = NotReady | TimedOut | ReadError | Command(ac: AckCommand)

  /** What can go wrong while the writer waits for acknowledgements, and why: a socket
      or context has failed, the other end is silent, or a confirmation has come for a
      ring that was ejected. */
  predicate Excused(err: Option<WriterError>, failed: bool, n: Net) {
    match err
    case None => true
    case Some(ConnectionError) => failed
    case Some(Cancelled) => failed
    case Some(Timeout) => failed || n.ackWire == []
    case Some(Ring(e)) => e == EmptyConfBuff && !n.intact
    case Some(_) => false
  }

  /** What can go wrong while a tag is negotiated. */
  predicate TagError(err: WriterError, failed: bool, n: Net) {
    err == TagRefused || err == Unexpected(THROTTLE) || Excused(Some(err), failed, n)
  }

  function RingFailure(e: Option<RingError>): Option<WriterError> {
    match e
    case None => None
    case Some(r) => Some(Ring(r))
  }

  /** The connection invariant holds whatever has happened. */
  lemma AlwaysInv(trace: seq<Event>)
    ensures Inv(Run(Start(), trace))
  {
    StartInv();
    RunKeepsInv(Start(), trace);
  }

  class EntryWriter {
    const ecb: EntryConfBuffer<EntryRef>
    var id: EntryId
    var net: Net
    var script: seq<Event>          // what the other end will still do
    var faults: nat                 // how often a socket, context or clock will still fail
    ghost var trace: seq<Event>     // what both ends have done

    ghost function State(): Link
      reads this, ecb, ecb.buff
      requires ecb.Valid()
    {
      Link(ecb.Contents(), id, net)
    }

    /** The object is a run of the connection from its start. */
    ghost predicate Connected()
      reads this, ecb, ecb.buff
    {
      && ecb.Valid()
      && State() == Run(Start(), trace)
      && forall ev :: ev in script ==> IsPeer(ev)
    }

    /** Between operations nothing but confirmations, throttles and keepalives
        is under way. */
    ghost predicate Valid()
      reads this, ecb, ecb.buff
    {
      Connected() && ecb.capacity >= 2 && (net.intact ==> Owed(net) == 0)
    }

    /** Bound on the commands that can still arrive. */
    ghost function Fuel(): nat
      reads this
    {
      |script| + |net.ackChan| + |net.ackWire|
    }

    constructor (unconfirmed: nat, script: seq<Event>, faults: nat)
      requires unconfirmed >= 2
      requires forall ev :: ev in script ==> IsPeer(ev)
      ensures Valid() && State() == Start() && fresh(ecb) && fresh(ecb.buff)
    {
      ecb := new EntryConfBuffer(unconfirmed);
      id, net, this.script, this.faults, trace := 1, Start().net, script, faults, [];
      new;
    }

    /** Whether the next operation on a socket or context fails. */
    method Fails() returns (b: bool)
      modifies this`faults
      ensures faults == old(faults) - if b then 1 else 0
    {
      b := *;
      b := b && faults > 0;
      if b {
        faults := faults - 1;
      }
    }

    /** The other end takes any number of steps. */
    method PeerRuns()
      requires Connected()
      modifies this`net, this`script, this`trace
      ensures Connected() && Fuel() <= old(Fuel()) && Heard(old(trace), trace)
      ensures Owed(net) <= old(Owed(net)) && net.intact == old(net.intact) && net.written == old(net.written)
      ensures old(net.receipts) <= net.receipts
    {
      var k: nat :| k <= |script|;
      while k > 0
        invariant Connected() && k <= |script| && Fuel() <= old(Fuel()) && Heard(old(trace), trace)
        invariant Owed(net) <= old(Owed(net)) && net.intact == old(net.intact) && net.written == old(net.written)
        invariant old(net.receipts) <= net.receipts
      {
        PeerStepOnce();
        k := k - 1;
      }
    }

    method PeerStepOnce()
      requires Connected() && script != []
      modifies this`net, this`script, this`trace
      ensures Connected() && Fuel() <= old(Fuel()) && |script| == old(|script|) - 1 && trace == old(trace + [script[0]])
      ensures Owed(net) <= old(Owed(net)) && net.intact == old(net.intact) && net.written == old(net.written)
      ensures old(net.receipts) <= net.receipts
    {
      var ev := script[0];
      ghost var was := State();
      PeerOwesNoMore(net, ev);
      net, script := PeerStep(net, ev), script[1..];
      Record(ev, was);
    }

    /** The change just made is one step of the connection. */
    ghost method Record(ev: Event, was: Link)
      requires ecb.Valid() && (forall e :: e in script ==> IsPeer(e))
      requires was == Run(Start(), trace) && State() == Step(was, ev)
      modifies this`trace
      ensures Connected() && trace == old(trace) + [ev]
    {
      RunSnoc(Start(), trace, ev);
      trace := trace + [ev];
    }

    /** ackCommand.decode. Without blocking, nothing is read unless a command is
        already buffered; with blocking, silence ends in a timeout. */
    method Decode(blocking: bool) returns (d: AckRead)
      requires Connected()
      modifies this`net, this`faults
      ensures faults <= old(faults) && (d.ReadError? ==> faults < old(faults))
      ensures d.TimedOut? ==> net.ackWire == [] && blocking
      ensures d.Command? ==> old(net.ackWire) != [] && ReadsAs(old(net.ackWire[0]), d.ac)
      ensures d.Command? ==> net == Step(old(State()), TakeAck).net
      ensures d.NotReady? ==> !blocking
      ensures !d.Command? ==> net == old(net)
    {
      var fails := Fails();
      var slow: bool := *;
      if !fails && !blocking && slow {
        return NotReady;
      } else if fails {
        return ReadError;
      } else if net.ackWire == [] {
        return if blocking then TimedOut else NotReady;
      }
      var ac := net.ackWire[0];
      if Size(ac) != 12 {
        var rest: uint64 := *;
        ac := ac.(val := rest);
      }
      net := net.(ackWire := net.ackWire[1..]);
      if IsConfirm(ac) {
        net := net.(settled := net.settled + 1);
      }
      return Command(ac);
    }

    /** Process a command that has just been decoded. */
    method TakeCommand(ac: AckCommand, ghost was: Link) returns (err: Option<WriterError>)
      requires ecb.Valid() && (forall e :: e in script ==> IsPeer(e))
      requires was == Run(Start(), trace)
      requires was.ring == ecb.Contents() && was.nextId == id
      requires was.net.ackWire != [] && ReadsAs(was.net.ackWire[0], ac) && net == Step(was, TakeAck).net
      modifies this`trace, ecb, ecb.buff
      ensures Connected() && trace == old(trace) + [TakeAck] && Took(trace, ac)
      ensures err == if IsConfirm(ac) && was.ring == [] then Some(Ring(EmptyConfBuff)) else None
      ensures err.Some? ==> !was.net.intact
      ensures ecb.count == if IsConfirm(ac) && was.ring != [] then |was.ring| - 1 else |was.ring|
      ensures Owed(net) == Owed(was.net) - if IsReply(ac.cmd) then 1 else 0
    {
      err := None;
      if IsConfirm(ac) {
        AlwaysInv(trace);
        ConfirmHitsHead(was);
        HeadRemoved(was.ring, ac.val);
        var e := ecb.Confirm(ac.val);
        err := RingFailure(e);
      }
      Record(TakeAck, was);
      assert trace[..|trace| - 1] == old(trace);
    }

    /** Wait for the other end, decode one command and process it. */
    method NextCommand(block: bool) returns (d: AckRead, err: Option<WriterError>)
      requires Connected()
      modifies this`net, this`script, this`faults, this`trace, ecb, ecb.buff
      ensures Connected() && (if d.Command? then Fuel() < old(Fuel()) else Fuel() <= old(Fuel()))
      ensures Heard(old(trace), trace) && (d.Command? ==> |old(trace)| < |trace| && Took(trace, d.ac))
      ensures net.intact == old(net.intact) && net.written == old(net.written)
      ensures Owed(net) <= old(Owed(net)) - if d.Command? && IsReply(d.ac.cmd) then 1 else 0
      ensures d.Command? ==> d.ac.cmd == THROTTLE || d.ac.cmd == PONG || IsConfirm(d.ac) || IsReply(d.ac.cmd)
      ensures if d.Command? && IsConfirm(d.ac) && old(ecb.count) > 0 then ecb.count == old(ecb.count) - 1
              else ecb.count == old(ecb.count)
      ensures d.NotReady? ==> !block
      ensures faults <= old(faults) && (d.ReadError? ==> faults < old(faults))
      ensures d.TimedOut? ==> net.ackWire == [] && block
      ensures err == if d.Command? && IsConfirm(d.ac) && old(ecb.count) == 0 then Some(Ring(EmptyConfBuff)) else None
      ensures err.Some? ==> !net.intact
    {
      PeerRuns();
      ghost var was := State();
      d := Decode(block);
      err := None;
      if d.Command? {
        err := TakeCommand(d.ac, was);
      }
    }

    /** readAcks */
    method ReadAcks(blocking: bool) returns (err: Option<WriterError>)
      requires Connected()
      modifies this`net, this`script, this`faults, this`trace, ecb, ecb.buff
      ensures Connected() && Fuel() <= old(Fuel()) && ecb.count <= old(ecb.count) && Heard(old(trace), trace)
      ensures Owed(net) <= old(Owed(net)) && net.intact == old(net.intact) && net.written == old(net.written)
      ensures faults <= old(faults) && Excused(err, faults < old(faults), net)
      ensures ecb.count < old(ecb.count) ==> Fuel() < old(Fuel())
      ensures err.None? && blocking && old(ecb.count) > 0 ==> Fuel() < old(Fuel())
      ensures err.None? && blocking && old(ecb.count) > 0 && old(Owed(net)) == 0 ==> ecb.count < old(ecb.count)
      ensures err == Some(Timeout) ==> blocking
    {
      var block, cnt := blocking, 0;
      err := None;
      while ecb.count > 0
        invariant Connected() && err.None? && Heard(old(trace), trace) && faults <= old(faults)
        invariant ecb.count <= old(ecb.count) && Fuel() <= old(Fuel())
        invariant Owed(net) <= old(Owed(net)) && net.intact == old(net.intact) && net.written == old(net.written)
        invariant (cnt > 0 ==> ecb.count < old(ecb.count)) && (block ==> blocking)
        invariant ecb.count < old(ecb.count) || (!block && blocking) ==> Fuel() < old(Fuel())
        invariant !block && blocking && old(Owed(net)) == 0 ==> cnt > 0
        decreases Fuel()
      {
        var d, e := NextCommand(block);
        if !d.Command? {
          err := if d.NotReady? || (d.TimedOut? && cnt > 0) then None
                 else if d.TimedOut? then Some(Timeout) else Some(ConnectionError);
          break;
        }
        block := false;
        if d.ac.cmd == CONFIRM_ENTRY {
          if e.Some? {
            err := e;
            break;
          }
          cnt := cnt + 1;
        } else if d.ac.cmd == THROTTLE || d.ac.cmd == PONG {
          block := blocking;
          var cancelled := Fails();
          if cancelled {
            err := Some(Cancelled);
            break;
          }
        }
      }
    }

    /** throwAckSync: ask the other end to flush its acknowledgements. */
    method ThrowAckSync() returns (err: Option<WriterError>)
      requires Connected()
      modifies this`net, this`faults, this`trace
      ensures Connected() && Owed(net) == old(Owed(net)) && Serviced(old(trace), trace)
      ensures faults == old(faults) - if err.Some? then 1 else 0
      ensures err.None? ==> net == old(net).(wire := old(net).wire + [Msg.ForceAck])
      ensures err.Some? ==> err == Some(ConnectionError) && net == old(net)
      ensures err.None? ==> trace == old(trace) + [SendControl(Msg.ForceAck)]
    {
      var fails := Fails();
      if fails {
        return Some(ConnectionError);
      }
      ghost var was := State();
      ExchangesAppend(net.wire, [Msg.ForceAck]);
      net := net.(wire := net.wire + [Msg.ForceAck]);
      Record(SendControl(Msg.ForceAck), was);
      return None;
    }

    method Flush() returns (err: Option<WriterError>)
      modifies this`faults
      ensures err.None? || err == Some(ConnectionError)
      ensures faults == old(faults) - if err.Some? then 1 else 0
    {
      var fails := Fails();
      return if fails then Some(ConnectionError) else None;
    }

    /** Ask for a sync and wait for what it brings. */
    method SyncAndRead() returns (err: Option<WriterError>)
      requires Connected()
      modifies this`net, this`script, this`faults, this`trace, ecb, ecb.buff
      ensures Connected() && Fuel() <= old(Fuel()) && ecb.count <= old(ecb.count) && Serviced(old(trace), trace)
      ensures Owed(net) <= old(Owed(net)) && net.intact == old(net.intact) && net.written == old(net.written)
      ensures faults <= old(faults) && Excused(err, faults < old(faults), net)
      ensures err.None? && old(ecb.count) > 0 ==> Fuel() < old(Fuel())
      ensures err.None? && old(ecb.count) > 0 && old(Owed(net)) == 0 ==> ecb.count < old(ecb.count)
      ensures err.None? || err == Some(Timeout) ==> Since(old(trace), trace, SendControl(Msg.ForceAck))
    {
      err := ThrowAckSync();
      if err.Some? {
        return;
      }
      err := ReadAcks(true);
      assert trace[|old(trace)|] == SendControl(Msg.ForceAck);
    }

    /** serviceAcks: asks for a sync only if the ring stays full or nothing has come. */
    method ServiceAcks(blocking: bool) returns (err: Option<WriterError>)
      requires Connected()
      modifies this`net, this`script, this`faults, this`trace, ecb, ecb.buff
      ensures Connected() && Fuel() <= old(Fuel()) && ecb.count <= old(ecb.count) && Serviced(old(trace), trace)
      ensures Owed(net) <= old(Owed(net)) && net.intact == old(net.intact) && net.written == old(net.written)
      ensures faults <= old(faults) && Excused(err, faults < old(faults), net)
      ensures err.None? && blocking && old(ecb.count) > 0 ==> Fuel() < old(Fuel())
      ensures err.None? && blocking && old(ecb.count) > 0 && old(Owed(net)) == 0 ==> ecb.count < old(ecb.count)
      ensures !blocking && !old(ecb.Full()) ==> Heard(old(trace), trace)
      ensures err == Some(Timeout) || (err.None? && ecb.Full()) ==> Since(old(trace), trace, SendControl(Msg.ForceAck))
    {
      if blocking {
        err := Flush();
        if err.Some? {
          return;
        }
      }
      err := ReadAcks(blocking);
      if err.Some? {
        if !(blocking && err == Some(Timeout)) {
          return;
        }
      } else if !ecb.Full() {
        return;
      }
      err := SyncAndRead();
    }

    /** forceAckNoLock, the sync barrier: success means that the ring is empty and,
        unless entries have been ejected, that the other end has taken in, in order,
        every entry written so far, whatever else has failed. */
    method ForceAck() returns (err: Option<WriterError>)
      requires Connected()
      modifies this`net, this`script, this`faults, this`trace, ecb, ecb.buff
      ensures Connected() && Fuel() <= old(Fuel()) && ecb.count <= old(ecb.count) && Serviced(old(trace), trace)
      ensures Owed(net) <= old(Owed(net)) && net.intact == old(net.intact) && net.written == old(net.written)
      ensures faults <= old(faults) && Excused(err, faults < old(faults), net)
      ensures err.None? ==> ecb.count == 0
      ensures old(ecb.count) == 0 ==> err.None? || faults < old(faults)
      ensures err.None? && Eject !in old(trace) ==> old(net.written) <= net.receipts
      ensures err.None? && net.intact ==> old(net.written) == net.receipts
    {
      err := ThrowAckSync();
      if err.Some? {
        return;
      }
      while ecb.count > 0
        invariant Connected() && Fuel() <= old(Fuel()) && ecb.count <= old(ecb.count) && Serviced(old(trace), trace)
        invariant Owed(net) <= old(Owed(net)) && net.intact == old(net.intact) && net.written == old(net.written)
        invariant err.None? && faults <= old(faults)
        decreases Fuel()
      {
        var cancelled := Fails();
        if cancelled {
          return Some(Cancelled);
        }
        err := ServiceAcks(true);
        if err.Some? {
          return;
        }
      }
      var cancelled := Fails();
      if cancelled {
        return Some(Cancelled);
      }
      NothingOutstanding(old(trace));
    }

    /** What the empty ring means to the caller. */
    lemma NothingOutstanding(was: seq<Event>)
      requires Connected() && ecb.count == 0 && Serviced(was, trace)
      ensures Eject !in was ==> net.written <= net.receipts
      ensures net.intact ==> net.written == net.receipts
    {
      AlwaysInv(trace);
      assert net.intact ==> |Outstanding(net)| == 0;
      if Eject !in was {
        assert Eject !in trace;
        EmptyRingMeansAllRead(trace);
      }
    }

    /** encodeAndSendEntry for an entry that is confirmed individually. */
    method EncodeAndSend(ent: EntryRef, tag: Tag, oversized: bool) returns (r: Result<EntryId, WriterError>)
      requires Connected() && net.intact && id + 1 < 0x1_0000_0000_0000_0000
      modifies this`id, this`net, this`faults, this`trace
      ensures faults == old(faults) - if r.Err? && r.error == ConnectionError then 1 else 0
      ensures r.Err? ==> Connected() && id == old(id) && net.written == old(net.written)
      ensures r.Err? ==> r.error == OversizedEntry || r.error == ConnectionError
      ensures r.Err? && r.error == OversizedEntry <==> oversized
      ensures r.Err? && r.error == OversizedEntry ==> net == old(net)
      ensures r.Err? && r.error != OversizedEntry ==> !net.intact
      ensures r.Ok? ==> r.value == old(id) && id == old(id) + 1 && trace == old(trace)
      ensures r.Ok? ==> net == Step(old(State()), Send(ent, tag)).net
    {
      if oversized {
        return Err(OversizedEntry);
      }
      var fails := Fails();
      if fails {
        ghost var was := State();
        var reached: bool := *;
        net := net.(wire := net.wire + (if reached then [NewEntry(id, ent, tag)] else []), intact := false);
        Record(SendFailed(ent, tag, reached), was);
        return Err(ConnectionError);
      }
      net := net.(wire := net.wire + [NewEntry(id, ent, tag)], written := net.written + [Receipt(id, ent, tag)]);
      r := Ok(id);
      id := id + 1;
    }

    /** The first half of writeEntry: a full ring waits for confirmations. */
    method AwaitSlot() returns (err: Option<WriterError>)
      requires Valid() && net.intact
      modifies this`net, this`script, this`faults, this`trace, ecb, ecb.buff
      ensures Valid() && net.intact && net.written == old(net.written) && ecb.count <= old(ecb.count)
      ensures faults <= old(faults) && Excused(err, faults < old(faults), net)
      ensures err.None? ==> !ecb.Full()
    {
      if ecb.Full() {
        err := Flush();
        if err.None? {
          err := ServiceAcks(true);
        }
      } else {
        err := None;
      }
    }

    /** The second half: send the entry and park it in the ring. */
    method SendAndPark(ent: EntryRef, tag: Tag, oversized: bool) returns (err: Option<WriterError>)
      requires Valid() && net.intact && !ecb.Full() && id + 1 < 0x1_0000_0000_0000_0000
      modifies this`id, this`net, this`faults, this`trace, ecb, ecb.buff
      ensures Valid() && (err.None? || err == Some(OversizedEntry) || err == Some(ConnectionError))
      ensures faults == old(faults) - if err == Some(ConnectionError) then 1 else 0
      ensures err == Some(OversizedEntry) <==> oversized
      ensures err.None? ==> net.written == old(net.written) + [Receipt(old(id), ent, tag)] && id == old(id) + 1
      ensures err.None? ==> net.intact && ecb.Contents() == old(ecb.Contents()) + [Confirmation(old(id), ent)]
      ensures err.Some? ==> net.written == old(net.written) && id == old(id) && ecb.Contents() == old(ecb.Contents())
    {
      ghost var was := State();
      ExchangesAppend(net.wire, [NewEntry(id, ent, tag)]);
      var r := EncodeAndSend(ent, tag, oversized);
      if r.Err? {
        return Some(r.error);
      }
      var full := ecb.Add(Confirmation(r.value, ent));
      Record(Send(ent, tag), was);
      return RingFailure(full);
    }

    /** writeEntry: the ring always has room for the entry just sent. An entry that is
        too long is never sent, and no other is refused for its length. */
    method WriteEntry(ent: EntryRef, tag: Tag, oversized: bool) returns (err: Option<WriterError>)
      requires Valid() && id + 1 < 0x1_0000_0000_0000_0000
      modifies this, ecb, ecb.buff
      ensures Valid()
      ensures err.None? ==> net.written == old(net.written) + [Receipt(old(id), ent, tag)] && id == old(id) + 1
      ensures err.None? ==> net.intact && ecb.count > 0 && ecb.Contents()[ecb.count - 1] == Confirmation(old(id), ent)
      ensures err.Some? ==> net.written == old(net.written) && id == old(id) && ecb.count <= old(ecb.count)
      ensures err != Some(Ring(FullBuffer)) && (err == Some(NotRunning) <==> !old(net.intact))
      ensures if oversized then err.Some? else err != Some(OversizedEntry)
      ensures faults <= old(faults)
      ensures err == Some(OversizedEntry) || !old(net.intact) || Excused(err, faults < old(faults), net)
    {
      if !net.intact {
        return Some(NotRunning);
      }
      err := AwaitSlot();
      if err.None? {
        err := SendAndPark(ent, tag, oversized);
      }
    }

    /** writeFlush, the body of Write and WriteSync. */
    method Write(ent: EntryRef, tag: Tag, oversized: bool) returns (err: Option<WriterError>)
      requires Valid() && id + 1 < 0x1_0000_0000_0000_0000
      modifies this, ecb, ecb.buff
      ensures Valid()
      ensures err.None? ==> net.written == old(net.written) + [Receipt(old(id), ent, tag)]
      ensures err.Some? ==> net.written == old(net.written)
      ensures err != Some(Ring(FullBuffer)) && (err == Some(NotRunning) <==> !old(net.intact))
      ensures if oversized then err.Some? else err != Some(OversizedEntry)
      ensures faults <= old(faults)
      ensures err == Some(OversizedEntry) || !old(net.intact) || Excused(err, faults < old(faults), net)
    {
      if !net.intact {
        return Some(NotRunning);
      }
      err := ServiceAcks(ecb.Full());
      if err.None? {
        err := WriteEntry(ent, tag, oversized);
      }
    }

    /** WriteBatch stops at the first failure and says how many were written; at the
        latest it stops at the first entry that is too long. */
    method WriteBatch(ents: seq<(EntryRef, Tag)>, long: set<EntryRef>) returns (n: nat, err: Option<WriterError>)
      requires Valid() && id + |ents| + 1 < 0x1_0000_0000_0000_0000
      modifies this, ecb, ecb.buff
      ensures Valid() && n <= |ents| && (err.None? ==> n == |ents|)
      ensures id == old(id) + n && net.written == old(net.written) + Numbered(ents[..n], old(id))
      ensures forall i :: 0 <= i < n ==> ents[i].0 !in long
      ensures err == Some(OversizedEntry) ==> n < |ents| && ents[n].0 in long
      ensures faults <= old(faults)
      ensures err == Some(OversizedEntry) || !old(net.intact) || Excused(err, faults < old(faults), net)
    {
      n, err := 0, None;
      while n < |ents|
        invariant Valid() && n <= |ents| && err.None?
        invariant id == old(id) + n && net.written == old(net.written) + Numbered(ents[..n], old(id))
        invariant forall i :: 0 <= i < n ==> ents[i].0 !in long
        invariant faults <= old(faults) && (old(net.intact) ==> net.intact)
      {
        err := WriteEntry(ents[n].0, ents[n].1, ents[n].0 in long);
        if err.Some? {
          return;
        }
        NumberedSnoc(ents[..n], old(id), ents[n]);
        assert ents[..n + 1] == ents[..n] + [ents[n]];
        n := n + 1;
      }
    }

    /** ejectOutstandingEntries */
    method EjectOutstanding() returns (ents: seq<EntryRef>)
      requires Valid()
      modifies this`net, this`trace, ecb
      ensures Valid() && ents == Ents(old(ecb.Contents())) && ecb.count == 0 && !net.intact
    {
      ghost var was := State();
      ents := ecb.EjectAll();
      net := net.(intact := false);
      Record(Eject, was);
    }

    /** readCommandsUntil: serve the stream until the awaited command arrives, and
        hand over the value it came with. */
    method ReadCommandsUntil(cmd: uint32) returns (r: Result<uint64, WriterError>)
      requires Connected() && IsReply(cmd)
      modifies this`net, this`script, this`faults, this`trace, ecb, ecb.buff
      ensures Connected() && net.intact == old(net.intact) && net.written == old(net.written)
      ensures ecb.count <= old(ecb.count) && Heard(old(trace), trace)
      ensures r.Ok? ==> Owed(net) < old(Owed(net)) && |old(trace)| < |trace| && Took(trace, AckCommand(cmd, r.value))
      ensures faults <= old(faults) && (r.Err? ==> Excused(Some(r.error), faults < old(faults), net))
    {
      while true
        invariant Connected() && net.intact == old(net.intact) && net.written == old(net.written)
        invariant Owed(net) <= old(Owed(net)) && ecb.count <= old(ecb.count) && Heard(old(trace), trace)
        invariant faults <= old(faults)
        decreases Fuel()
      {
        var d, err := NextCommand(true);
        if err.Some? {
          return Err(err.value);
        } else if !d.Command? {
          return Err(if d.TimedOut? then Timeout else ConnectionError);
        }
        if d.ac.cmd == cmd {
          return Ok(d.ac.val);
        } else if d.ac.cmd == THROTTLE {
          var cancelled := Fails();
          if cancelled {
            return Err(Cancelled);
          }
        }
      }
    }

    method SendRequest(reply: Reply)
      requires Connected()
      modifies this`net, this`trace
      ensures Connected() && Owed(net) == old(Owed(net)) + 1
      ensures net == old(net).(wire := old(net).wire + [Request(reply)])
    {
      ghost var was := State();
      ExchangesAppend(net.wire, [Request(reply)]);
      net := net.(wire := net.wire + [Request(reply)]);
      Record(SendControl(Request(reply)), was);
    }

    /** Give the connection up: its caller closes it. */
    method Abandon()
      requires Connected() && ecb.capacity >= 2
      modifies this`net, this`trace
      ensures Valid() && net == old(net).(intact := false) && trace == old(trace) + [Break]
    {
      ghost var was := State();
      net := net.(intact := false);
      Record(Break, was);
    }

    /** A request answered by one reply: IdentifyIngester, SendIngesterState and the
        like sync first, so the request travels alone and its answer comes back. */
    method Exchange(reply: Reply) returns (r: Result<uint64, WriterError>)
      requires Valid()
      modifies this`net, this`script, this`faults, this`trace, ecb, ecb.buff
      ensures Valid() && net.written == old(net.written)
      ensures r.Ok? ==> net.intact && ecb.count == 0 && (Size(reply) == 12 ==> r.value == reply.val)
      ensures faults <= old(faults) && (r.Err? && old(net.intact) ==> Excused(Some(r.error), faults < old(faults), net))
    {
      if !net.intact {
        return Err(NotRunning);
      }
      var err := ForceAck();
      if err.Some? {
        return Err(err.value);
      }
      r := Ask(reply);
    }

    /** The request itself, once nothing else is under way. */
    method Ask(reply: Reply) returns (r: Result<uint64, WriterError>)
      requires Connected() && ecb.capacity >= 2 && net.intact && Owed(net) == 0
      modifies this`net, this`script, this`faults, this`trace, ecb, ecb.buff
      ensures Valid() && net.written == old(net.written) && ecb.count <= old(ecb.count)
      ensures r.Ok? ==> net.intact && (Size(reply) == 12 ==> r.value == reply.val)
      ensures faults <= old(faults) && (r.Err? ==> Excused(Some(r.error), faults < old(faults), net))
    {
      QuietAnswers(net, reply);
      SendRequest(reply);
      ghost var was := trace;
      r := ReadCommandsUntil(reply.cmd);
      if r.Err? {
        Abandon();
      } else {
        TakesTheAnswer(was, trace, AckCommand(reply.cmd, r.value), reply);
      }
    }

    /** NegotiateTag: the indexer answers with its id for the tag or with an error.
        Here a throttle is not obeyed but ends the exchange. */
    method NegotiateTag(reply: Reply, serverVersion: nat) returns (r: Result<Tag, WriterError>)
      requires Valid() && (reply.cmd == CONFIRM_TAG || reply.cmd == ERROR_TAG)
      modifies this`net, this`script, this`faults, this`trace, ecb, ecb.buff
      ensures Valid() && net.written == old(net.written)
      ensures r.Ok? ==> net.intact && ecb.count == 0 && reply.cmd == CONFIRM_TAG && r.value == reply.val % 0x1_0000
      ensures r.Err? && r.error == TagRefused ==> net.intact && ecb.count == 0 && reply.cmd == ERROR_TAG
      ensures r.Err? && r.error == VersionTooOld <==> serverVersion < 0x2
      ensures faults <= old(faults)
      ensures r.Err? && old(net.intact) && serverVersion >= 0x2 ==> TagError(r.error, faults < old(faults), net)
    {
      if serverVersion < 0x2 {
        return Err(VersionTooOld);
      } else if !net.intact {
        return Err(NotRunning);
      }
      var err := ForceAck();
      if err.Some? {
        return Err(err.value);
      }
      r := AskTag(reply);
    }

    method AskTag(reply: Reply) returns (r: Result<Tag, WriterError>)
      requires Connected() && (reply.cmd == CONFIRM_TAG || reply.cmd == ERROR_TAG)
      requires ecb.capacity >= 2 && net.intact && Owed(net) == 0 && ecb.count == 0
      modifies this`net, this`script, this`faults, this`trace, ecb, ecb.buff
      ensures Valid() && net.written == old(net.written) && ecb.count == 0
      ensures r.Ok? ==> net.intact && reply.cmd == CONFIRM_TAG && r.value == reply.val % 0x1_0000
      ensures r.Err? && r.error == TagRefused ==> net.intact && reply.cmd == ERROR_TAG
      ensures faults <= old(faults) && (r.Err? ==> TagError(r.error, faults < old(faults), net))
    {
      QuietAnswers(net, reply);
      SendRequest(reply);
      r := ReadTagReply(reply);
      if r.Err? && r.error != TagRefused {
        Abandon();
      }
    }

    method ReadTagReply(ghost reply: Reply) returns (r: Result<Tag, WriterError>)
      requires Connected() && Answers(net, reply) && (reply.cmd == CONFIRM_TAG || reply.cmd == ERROR_TAG)
      requires Owed(net) == 1 && ecb.count == 0
      modifies this`net, this`script, this`faults, this`trace, ecb, ecb.buff
      ensures Connected() && net.intact == old(net.intact) && net.written == old(net.written) && ecb.count == 0
      ensures r.Ok? ==> Owed(net) == 0 && reply.cmd == CONFIRM_TAG && r.value == reply.val % 0x1_0000
      ensures r.Err? && r.error == TagRefused ==> Owed(net) == 0 && reply.cmd == ERROR_TAG
      ensures faults <= old(faults) && (r.Err? ==> TagError(r.error, faults < old(faults), net))
    {
      while true
        invariant Connected() && net.intact == old(net.intact) && net.written == old(net.written)
        invariant faults <= old(faults)
        invariant Owed(net) <= 1 && ecb.count == 0 && Heard(old(trace), trace)
        decreases Fuel()
      {
        var d, err := NextCommand(true);
        if err.Some? {
          return Err(err.value);
        } else if !d.Command? {
          return Err(if d.TimedOut? then Timeout else ConnectionError);
        }
        if IsReply(d.ac.cmd) {
          TakesTheAnswer(old(trace), trace, d.ac, reply);
        }
        if d.ac.cmd == CONFIRM_TAG {
          return Ok(d.ac.val % 0x1_0000);
        } else if d.ac.cmd == ERROR_TAG {
          return Err(TagRefused);
        } else if d.ac.cmd == PONG {
          var late := Fails();
          if late {
            return Err(Timeout);
          }
        } else if d.ac.cmd != CONFIRM_ENTRY {
          return Err(Unexpected(d.ac.cmd));
        }
      }
    }

    /** WriteDittoBlock: the block's entries use up ids but are confirmed by one
        reply, so they never enter the ring. Success means that the other end has read
        the block to its end and has accepted it since; an empty block never succeeds. */
    method WriteDittoBlock(ents: seq<(EntryRef, Tag)>, serverVersion: nat) returns (err: Option<WriterError>)
      requires Valid() && id + |ents| < 0x1_0000_0000_0000_0000
      modifies this, ecb, ecb.buff
      ensures Valid() && net.written == old(net.written) && ecb.count <= old(ecb.count) && old(trace) <= trace
      ensures err.None? ==> net.intact && id == old(id) + |ents| && net.wire == [] && net.skip == 0
      ensures err.None? ==> Since(old(trace), trace, DittoVerdict(0))
      ensures err.None? || err == Some(BlockRefused) ==> ents != []
      ensures err == Some(BlockRefused) ==> exists v: uint64 :: v != 0 && Since(old(trace), trace, DittoVerdict(v))
      ensures old(net.intact) ==> (err == Some(VersionTooOld) <==> serverVersion < 0x9)
      ensures faults <= old(faults)
      ensures old(net.intact) && serverVersion >= 0x9 ==>
                err == Some(BlockRefused) || Excused(err, faults < old(faults), net)
    {
      if !net.intact {
        return Some(NotRunning);
      } else if serverVersion < 0x9 {
        return Some(VersionTooOld);
      }
      var fails := Fails();
      if fails {
        var k: nat :| k <= |ents|;
        SendDittoPart(ents, k);
        return Some(ConnectionError);
      }
      err := SendBlock(ents);
    }

    method SendBlock(ents: seq<(EntryRef, Tag)>) returns (err: Option<WriterError>)
      requires Valid() && net.intact && id + |ents| < 0x1_0000_0000_0000_0000
      modifies this, ecb, ecb.buff
      ensures Valid() && net.written == old(net.written) && ecb.count <= old(ecb.count) && old(trace) <= trace
      ensures err.None? ==> net.intact && id == old(id) + |ents| && net.wire == [] && net.skip == 0
      ensures err.None? ==> Since(old(trace), trace, DittoVerdict(0))
      ensures err.None? || err == Some(BlockRefused) ==> ents != []
      ensures err == Some(BlockRefused) ==> exists v: uint64 :: v != 0 && Since(old(trace), trace, DittoVerdict(v))
      ensures faults <= old(faults) && (err == Some(BlockRefused) || Excused(err, faults < old(faults), net))
    {
      SendDittoWhole(ents);
      err := AwaitVerdict();
    }

    method AwaitVerdict() returns (err: Option<WriterError>)
      requires Connected() && ecb.capacity >= 2 && net.intact && Owed(net) <= 1
      requires Owed(net) == 1 ==> Awaiting(net, [])
      modifies this`net, this`script, this`faults, this`trace, ecb, ecb.buff
      ensures Valid() && net.written == old(net.written) && ecb.count <= old(ecb.count) && old(trace) <= trace
      ensures err.None? ==> net.intact && net.wire == [] && net.skip == 0
      ensures err.None? ==> Since(old(trace), trace, DittoVerdict(0))
      ensures err.None? || err == Some(BlockRefused) ==> old(Owed(net)) == 1
      ensures err == Some(BlockRefused) ==> exists v: uint64 :: v != 0 && Since(old(trace), trace, DittoVerdict(v))
      ensures faults <= old(faults) && (err == Some(BlockRefused) || Excused(err, faults < old(faults), net))
    {
      var r := ReadCommandsUntil(CONFIRM_DITTO_BLOCK);
      if r.Err? {
        Abandon();
        return Some(r.error);
      }
      TakesTheVerdict(old(trace), trace, AckCommand(CONFIRM_DITTO_BLOCK, r.value));
      return if r.value != 0 then Some(BlockRefused) else None;
    }

    method SendDittoWhole(ents: seq<(EntryRef, Tag)>)
      requires Connected() && net.intact && id + |ents| < 0x1_0000_0000_0000_0000
      modifies this`id, this`net, this`trace
      ensures Connected() && id == old(id) + |ents| && trace == old(trace) + [SendDitto(ents)]
      ensures Owed(net) == old(Owed(net)) + if ents == [] then 0 else 1
      ensures net.intact && net.written == old(net.written) && (old(Owed(net)) == 0 && ents != [] ==> Awaiting(net, []))
    {
      ghost var was := State();
      if ents != [] && Owed(net) == 0 {
        QuietAwaits(net, ents, id);
      }
      DittoExchanges(ents, id);
      ExchangesAppend(net.wire, [DittoHeader(|ents|)]);
      ExchangesAppend(net.wire + [DittoHeader(|ents|)], DittoMsgs(ents, id));
      net := net.(wire := net.wire + [DittoHeader(|ents|)] + DittoMsgs(ents, id));
      id := id + |ents|;
      Record(SendDitto(ents), was);
    }

    method SendDittoPart(ents: seq<(EntryRef, Tag)>, k: nat)
      requires Connected() && net.intact && ecb.capacity >= 2
      requires k <= |ents| && id + |ents| < 0x1_0000_0000_0000_0000
      modifies this`id, this`net, this`trace
      ensures Valid() && !net.intact && net.written == old(net.written) && old(trace) <= trace
    {
      ghost var was := State();
      net := net.(wire := net.wire + [DittoHeader(|ents|)] + DittoMsgs(ents[..k], id), intact := false);
      id := id + k;
      Record(DittoFailed(|ents|, ents[..k]), was);
    }
  }

  /** The receipts a batch amounts to when ids are handed out from id. */
  function Numbered(ents: seq<(EntryRef, Tag)>, id: EntryId): (r: seq<Receipt>)
    requires id + |ents| < 0x1_0000_0000_0000_0000
    ensures |r| == |ents|
  {
    seq(|ents|, i requires 0 <= i < |ents| => Receipt(id + i, ents[i].0, ents[i].1))
  }

  lemma NumberedSnoc(ents: seq<(EntryRef, Tag)>, id: EntryId, e: (EntryRef, Tag))
    requires id + |ents| + 1 < 0x1_0000_0000_0000_0000
    ensures Numbered(ents + [e], id) == Numbered(ents, id) + [Receipt(id + |ents|, e.0, e.1)]
  {
  }
}
