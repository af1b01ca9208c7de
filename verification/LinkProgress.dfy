/** What a connection that works can always get done, from any state it can be in: all
    that was written is read and confirmed, a request is answered, and a ditto block is
    judged (ingest/entryWriter.go, ingest/entryReader.go). */
module LinkProgress {
  import opened AckCodec
  import opened Link
  import opened LinkReplies

  /** The other end moves and the writer listens. */
  predicate Leads(l: Link, evs: seq<Event>, l': Link) {
    Run(l, evs) == l' && forall i :: 0 <= i < |evs| ==> Listening(evs[i])
  }

  lemma LeadsOn(l: Link, a: seq<Event>, l1: Link, b: seq<Event>, l2: Link)
    requires Leads(l, a, l1) && Leads(l1, b, l2)
    ensures Leads(l, a + b, l2)
  {
    RunAppend(l, a, b);
  }

  lemma LeadsOne(l: Link, ev: Event)
    requires Listening(ev)
    ensures Leads(l, [ev], Step(l, ev))
  {
    assert [ev][1..] == [];
  }

  // Reading

  function ReadMany(l: Link, n: nat): Link
    decreases n
  {
    if n == 0 then l else ReadMany(Step(l, Read), n - 1)
  }

  lemma {:induction false} ReadsMany(l: Link, n: nat) returns (evs: seq<Event>)
    ensures Leads(l, evs, ReadMany(l, n))
    decreases n
  {
    if n == 0 {
      evs := [];
    } else {
      LeadsOne(l, Read);
      var rest := ReadsMany(Step(l, Read), n - 1);
      evs := [Read] + rest;
      LeadsOn(l, [Read], Step(l, Read), rest, ReadMany(l, n));
    }
  }

  lemma ReadFrame(n: Net)
    requires n.wire != []
    ensures var n' := ReadStep(n);
            n'.wire == n.wire[1..] && n'.written == n.written && n'.intact == n.intact && n'.ackWire == n.ackWire
  {
  }

  /** After as many reads as there are messages on the wire, all is read that was written. */
  lemma {:induction false} ReadToTheEnd(l: Link)
    requires Inv(l)
    ensures var l' := ReadMany(l, |l.net.wire|);
            && Inv(l') && l'.net.wire == [] && l'.net.intact == l.net.intact
            && l'.net.written == l.net.written && l'.net.ackWire == l.net.ackWire
            && (l.net.intact ==> l'.net.receipts == l.net.written)
    decreases |l.net.wire|
  {
    if l.net.wire == [] {
      AllRead(l);
    } else {
      ReadKeepsInv(l);
      ReadFrame(l.net);
      ReadToTheEnd(Step(l, Read));
    }
  }

  lemma AllRead(l: Link)
    requires Inv(l) && l.net.wire == []
    ensures l.net.intact ==> l.net.receipts == l.net.written
  {
  }

  // Acknowledgements

  lemma FlushAll(l: Link)
    requires Inv(l)
    ensures var l' := Step(l, AckFlush(|l.net.ackChan|));
            Inv(l') && l'.net == l.net.(ackChan := [], ackWire := l.net.ackWire + OnWire(l.net.ackChan))
  {
    PeerKeepsInv(l, AckFlush(|l.net.ackChan|));
    assert l.net.ackChan[..|l.net.ackChan|] == l.net.ackChan;
  }

  /** The writer takes all but the last n acknowledgements in. */
  lemma {:induction false} TakesAllBut(l: Link, n: nat) returns (evs: seq<Event>, l': Link)
    requires Inv(l) && n <= |l.net.ackWire|
    ensures Leads(l, evs, l') && Inv(l')
    ensures l'.net == l.net.(ackWire := l.net.ackWire[|l.net.ackWire| - n..], settled := l'.net.settled)
    decreases |l.net.ackWire|
  {
    if n == |l.net.ackWire| {
      evs, l' := [], l;
    } else {
      LeadsOne(l, TakeAck);
      TakeAckKeepsInv(l);
      var rest;
      rest, l' := TakesAllBut(Step(l, TakeAck), n);
      evs := [TakeAck] + rest;
      LeadsOn(l, [TakeAck], Step(l, TakeAck), rest, l');
    }
  }

  /** Everything queued is put on the wire, and all but the last n commands taken in. */
  lemma FlushesAllBut(l: Link, n: nat) returns (evs: seq<Event>, l': Link)
    requires Inv(l) && n <= |l.net.ackWire| + |OnWire(l.net.ackChan)|
    ensures Leads(l, evs, l') && Inv(l')
    ensures var acks := l.net.ackWire + OnWire(l.net.ackChan);
            l'.net == l.net.(ackChan := [], ackWire := acks[|acks| - n..], settled := l'.net.settled)
  {
    var ev := AckFlush(|l.net.ackChan|);
    FlushAll(l);
    LeadsOne(l, ev);
    var rest;
    rest, l' := TakesAllBut(Step(l, ev), n);
    evs := [ev] + rest;
    LeadsOn(l, [ev], Step(l, ev), rest, l');
  }

  lemma NothingUnderWay(l: Link)
    requires Inv(l) && l.net.intact && l.net.wire == [] && l.net.ackChan == [] && l.net.ackWire == []
    ensures l.ring == [] && l.net.receipts == l.net.written
  {
    assert Ids(l.net.receipts[l.net.settled..]) == [];
    assert |l.net.receipts[l.net.settled..]| == 0;
  }

  /** From every state of a connection whose sends have succeeded, the two ends can get
      everything written read and confirmed: a sync need not fail. */
  lemma SyncCanSucceed(was: seq<Event>) returns (more: seq<Event>)
    requires Run(Start(), was).net.intact
    ensures forall i :: 0 <= i < |more| ==> Listening(more[i])
    ensures var l := Run(Start(), was + more);
            l.ring == [] && l.net.receipts == l.net.written == Run(Start(), was).net.written
  {
    var l := Run(Start(), was);
    StartInv();
    RunKeepsInv(Start(), was);
    var l1 := ReadMany(l, |l.net.wire|);
    var first := ReadsMany(l, |l.net.wire|);
    ReadToTheEnd(l);
    var rest, l2 := FlushesAllBut(l1, 0);
    LeadsOn(l, first, l1, rest, l2);
    more := first + rest;
    RunAppend(Start(), was, more);
    NothingUnderWay(l2);
  }

  // Answers

  lemma {:induction false} OnWireAppend(a: seq<AckCommand>, b: seq<AckCommand>)
    ensures OnWire(a + b) == OnWire(a) + OnWire(b)
  {
    if a == [] {
      assert a + b == b;
    } else {
      assert (a + b)[1..] == a[1..] + b;
      OnWireAppend(a[1..], b);
    }
  }

  /** Reading a wire that ends in a request queues its reply last. */
  lemma {:induction false} LastIsAnswered(l: Link, reply: Reply)
    requires l.net.wire != [] && l.net.wire[|l.net.wire| - 1] == Request(reply)
    ensures var n := ReadMany(l, |l.net.wire|).net; n.ackChan != [] && n.ackChan[|n.ackChan| - 1] == reply
    decreases |l.net.wire|
  {
    ReadFrame(l.net);
    if |l.net.wire| == 1 {
      assert ReadMany(Step(l, Read), 0) == Step(l, Read);
    } else {
      LastIsAnswered(Step(l, Read), reply);
    }
  }

  /** The last command queued arrives, and the writer takes it in after all others. */
  lemma LastArrives(was: seq<Event>, ac: AckCommand) returns (more: seq<Event>)
    requires var n := Run(Start(), was).net; n.ackChan != [] && n.ackChan[|n.ackChan| - 1] == ac && Size(ac) > 0
    ensures Heard(was, was + more) && Took(was + more, ac)
  {
    var l := Run(Start(), was);
    StartInv();
    RunKeepsInv(Start(), was);
    var front := l.net.ackChan[..|l.net.ackChan| - 1];
    assert l.net.ackChan == front + [ac];
    OnWireAppend(front, [ac]);
    assert OnWire([ac]) == [ac];
    var evs, l1 := FlushesAllBut(l, 1);
    RunAppend(Start(), was, evs);
    more := evs + [TakeAck];
    assert (was + more)[..|was + more| - 1] == was + evs;
  }

  /** A request that can be answered at all is answered: whatever the connection is doing,
      the writer can take its reply in by listening. */
  lemma AnswerArrives(was: seq<Event>, reply: Reply) returns (more: seq<Event>)
    requires Size(reply) > 0
    ensures var asked := was + [SendControl(Request(reply))];
            Heard(asked, asked + more) && Took(asked + more, reply)
  {
    var asked := was + [SendControl(Request(reply))];
    RunSnoc(Start(), was, SendControl(Request(reply)));
    LastIsAnswered(Run(Start(), asked), reply);
    var first := ReadsOut(asked);
    var rest := LastArrives(asked + first, reply);
    more := first + rest;
    assert asked + more == asked + first + rest;
  }

  /** The other end reads all there is on the wire. */
  lemma ReadsOut(was: seq<Event>) returns (more: seq<Event>)
    ensures var l := Run(Start(), was); Run(Start(), was + more) == ReadMany(l, |l.net.wire|)
    ensures Heard(was, was + more)
  {
    var l := Run(Start(), was);
    more := ReadsMany(l, |l.net.wire|);
    RunAppend(Start(), was, more);
  }

  // Verdicts

  lemma {:induction false} BlockIsRead(l: Link)
    requires EndsInBlock(l.net.wire, l.net.skip)
    ensures ReadMany(l, |l.net.wire|).net.block
    decreases |l.net.wire|
  {
    ReadFrame(l.net);
    if |l.net.wire| == 1 {
      assert ReadMany(Step(l, Read), 0) == Step(l, Read);
    } else {
      BlockIsRead(Step(l, Read));
    }
  }

  /** A ditto block with entries, sent when nothing else is under way, is read and judged:
      the writer can take the verdict in by listening, whatever the verdict is. */
  lemma VerdictArrives(was: seq<Event>, ents: seq<(EntryRef, Tag)>, v: uint64) returns (more: seq<Event>)
    requires var l := Run(Start(), was);
             l.net.intact && Owed(l.net) == 0 && l.nextId + |ents| < 0x1_0000_0000_0000_0000 && ents != []
    ensures var sent := was + [SendDitto(ents)];
            Heard(sent, sent + more) && Took(sent + more, AckCommand(CONFIRM_DITTO_BLOCK, v))
  {
    var sent := was + [SendDitto(ents)];
    RunSnoc(Start(), was, SendDitto(ents));
    QuietEnds(Run(Start(), was).net, ents, Run(Start(), was).nextId);
    BlockIsRead(Run(Start(), sent));
    var first := ReadsOut(sent);
    var rest := VerdictFollows(sent + first, v);
    more := first + rest;
    assert sent + more == sent + first + rest;
  }

  /** Once a block has been read the indexer can give its verdict. */
  lemma VerdictFollows(was: seq<Event>, v: uint64) returns (more: seq<Event>)
    requires Run(Start(), was).net.block
    ensures Heard(was, was + more) && Took(was + more, AckCommand(CONFIRM_DITTO_BLOCK, v))
  {
    RunSnoc(Start(), was, DittoVerdict(v));
    var rest := LastArrives(was + [DittoVerdict(v)], AckCommand(CONFIRM_DITTO_BLOCK, v));
    more := [DittoVerdict(v)] + rest;
    assert was + more == was + [DittoVerdict(v)] + rest;
  }

  lemma QuietEnds(n: Net, ents: seq<(EntryRef, Tag)>, id: EntryId)
    requires Owed(n) == 0 && id + |ents| < 0x1_0000_0000_0000_0000 && ents != []
    ensures EndsInBlock(n.wire + [DittoHeader(|ents|)] + DittoMsgs(ents, id), n.skip)
  {
    QuietAwaits(n, ents, id);
  }
}
