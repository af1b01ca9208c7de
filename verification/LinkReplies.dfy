/** What the other end still owes the writer, and what the writer learns from a run
    in which it only listens (ingest/entryWriter.go, ingest/entryReader.go). */
module LinkReplies {
  import opened AckCodec
  import opened Link

  // Replies still to come

  function Replies(acs: seq<AckCommand>): nat {
    if acs == [] then 0 else (if IsReply(acs[0].cmd) then 1 else 0) + Replies(acs[1..])
  }

  /** An empty ditto block gets no reply: what the reader keeps of it is no block. */
  function Exchanges(wire: seq<Msg>): nat {
    if wire == [] then 0
    else (if wire[0].Request? || (wire[0].DittoHeader? && wire[0].n > 0) then 1 else 0) + Exchanges(wire[1..])
  }

  /** Upper bound on the replies that can still reach the writer. */
  function Owed(n: Net): nat {
    Exchanges(n.wire) + (if n.skip > 0 then 1 else 0) + (if n.block then 1 else 0)
    + Replies(n.ackChan) + Replies(n.ackWire)
  }

  lemma {:induction false} RepliesAppend(a: seq<AckCommand>, b: seq<AckCommand>)
    ensures Replies(a + b) == Replies(a) + Replies(b)
  {
    if a == [] {
      assert a + b == b;
    } else {
      assert (a + b)[1..] == a[1..] + b;
      RepliesAppend(a[1..], b);
    }
  }

  lemma {:induction false} RepliesOnWire(acs: seq<AckCommand>)
    ensures Replies(OnWire(acs)) <= Replies(acs)
  {
    if acs != [] {
      RepliesOnWire(acs[1..]);
    }
  }

  lemma {:induction false} ExchangesAppend(a: seq<Msg>, b: seq<Msg>)
    ensures Exchanges(a + b) == Exchanges(a) + Exchanges(b)
  {
    if a == [] {
      assert a + b == b;
    } else {
      assert (a + b)[1..] == a[1..] + b;
      ExchangesAppend(a[1..], b);
    }
  }

  lemma {:induction false} DittoExchanges(ents: seq<(EntryRef, Tag)>, id: EntryId)
    requires id + |ents| < 0x1_0000_0000_0000_0000
    ensures Exchanges(DittoMsgs(ents, id)) == 0
    decreases |ents|
  {
    if ents != [] {
      DittoExchanges(ents[1..], id + 1);
      assert DittoMsgs(ents, id)[1..] == DittoMsgs(ents[1..], id + 1);
    }
  }

  lemma ReadOwesNoMore(n: Net)
    ensures Owed(ReadStep(n)) <= Owed(n)
  {
    if n.wire != [] {
      match n.wire[0] {
        case NewEntry(id, _, _) => RepliesAppend(n.ackChan, [AckCommand(CONFIRM_ENTRY, id)]);
        case ForceAck => RepliesAppend(n.ackChan, [AckCommand(FORCE_ACK, 0)]);
        case Request(reply) => RepliesAppend(n.ackChan, [reply]);
        case _ =>
      }
    }
  }

  lemma FlushOwesNoMore(n: Net, k: nat)
    ensures Owed(PeerStep(n, AckFlush(k))) <= Owed(n)
    ensures var n' := PeerStep(n, AckFlush(k)); |n'.ackChan| + |n'.ackWire| <= |n.ackChan| + |n.ackWire|
  {
    var m := if k < |n.ackChan| then k else |n.ackChan|;
    assert n.ackChan == n.ackChan[..m] + n.ackChan[m..];
    RepliesAppend(n.ackChan[..m], n.ackChan[m..]);
    RepliesAppend(n.ackWire, OnWire(n.ackChan[..m]));
    RepliesOnWire(n.ackChan[..m]);
    OnWireKeepsConfirms(n.ackChan[..m]);
  }

  /** The other end never owes more than it was asked for, and a finite number
      of its steps produces a finite number of commands. */
  lemma PeerOwesNoMore(n: Net, ev: Event)
    requires IsPeer(ev)
    ensures Owed(PeerStep(n, ev)) <= Owed(n)
    ensures var n' := PeerStep(n, ev);
            && |n'.ackChan| + |n'.ackWire| <= |n.ackChan| + |n.ackWire| + 1
            && n'.intact == n.intact && n'.written == n.written && n.receipts <= n'.receipts
  {
    match ev {
      case Read => ReadOwesNoMore(n);
      case AckFlush(k) => FlushOwesNoMore(n, k);
      case KeepAlive => RepliesAppend(n.ackWire, [AckCommand(PONG, 0)]);
      case SendThrottle(d) => RepliesAppend(n.ackChan, [AckCommand(THROTTLE, d)]);
      case DittoVerdict(v) => RepliesAppend(n.ackChan, [AckCommand(CONFIRM_DITTO_BLOCK, v)]);
    }
  }

  lemma {:induction false} NoReplies(acs: seq<AckCommand>)
    requires Replies(acs) == 0
    ensures forall i :: 0 <= i < |acs| ==> !IsReply(acs[i].cmd)
  {
    if acs != [] {
      NoReplies(acs[1..]);
      assert forall i :: 1 <= i < |acs| ==> acs[i] == acs[1..][i - 1];
    }
  }

  lemma {:induction false} NoExchanges(wire: seq<Msg>)
    requires Exchanges(wire) == 0
    ensures forall i :: 0 <= i < |wire| ==> !wire[i].Request? && !(wire[i].DittoHeader? && wire[i].n > 0)
  {
    if wire != [] {
      NoExchanges(wire[1..]);
      assert forall i :: 1 <= i < |wire| ==> wire[i] == wire[1..][i - 1];
    }
  }

  // Listening

  /** While the writer listens, the other end goes on and acknowledgements are taken. */
  predicate Listening(ev: Event) {
    IsPeer(ev) || ev.TakeAck?
  }

  predicate Heard(was: seq<Event>, now: seq<Event>) {
    was <= now && forall i :: |was| <= i < |now| ==> Listening(now[i])
  }

  /** While it services acknowledgements it may also ask for a flush. */
  predicate Serviced(was: seq<Event>, now: seq<Event>) {
    was <= now && forall i :: |was| <= i < |now| ==> Listening(now[i]) || now[i] == SendControl(ForceAck)
  }

  predicate Since(was: seq<Event>, now: seq<Event>, ev: Event) {
    exists i :: |was| <= i < |now| && now[i] == ev
  }

  /** A command without a value is decoded with any value. */
  predicate ReadsAs(sent: AckCommand, got: AckCommand) {
    got.cmd == sent.cmd && (Size(sent) == 12 ==> got.val == sent.val)
  }

  /** The last event of a connection is that the writer takes this command in. */
  ghost predicate Took(evs: seq<Event>, ac: AckCommand) {
    && evs != [] && evs[|evs| - 1] == TakeAck
    && var n := Run(Start(), evs[..|evs| - 1]).net;
       n.ackWire != [] && ReadsAs(n.ackWire[0], ac)
  }

  // The answer to a request

  predicate OnlyReply(acs: seq<AckCommand>, reply: Reply) {
    forall i :: 0 <= i < |acs| && IsReply(acs[i].cmd) ==> acs[i] == reply
  }

  predicate OnlyRequest(wire: seq<Msg>, reply: Reply) {
    forall i :: 0 <= i < |wire| ==>
      && (wire[i].Request? ==> wire[i].reply == reply)
      && (wire[i].DittoHeader? ==> wire[i].n == 0)
  }

  /** Whatever reply is under way or will be given is this one. */
  predicate Answers(n: Net, reply: Reply) {
    && !n.block && n.skip == 0
    && OnlyRequest(n.wire, reply) && OnlyReply(n.ackChan, reply) && OnlyReply(n.ackWire, reply)
  }

  lemma QuietAnswers(n: Net, reply: Reply)
    requires Owed(n) == 0
    ensures Answers(n.(wire := n.wire + [Request(reply)]), reply)
  {
    NoExchanges(n.wire);
    NoReplies(n.ackChan);
    NoReplies(n.ackWire);
  }

  lemma {:induction false} OnWireOnlyReply(acs: seq<AckCommand>, reply: Reply)
    requires OnlyReply(acs, reply)
    ensures OnlyReply(OnWire(acs), reply)
  {
    if acs != [] {
      assert acs[0] == reply || !IsReply(acs[0].cmd);
      assert forall i :: 1 <= i < |acs| ==> acs[i] == acs[1..][i - 1];
      OnWireOnlyReply(acs[1..], reply);
    }
  }

  lemma ListenKeepsAnswers(l: Link, ev: Event, reply: Reply)
    requires Listening(ev) && Answers(l.net, reply)
    ensures Answers(Step(l, ev).net, reply)
  {
    if ev.AckFlush? {
      var m := if ev.n < |l.net.ackChan| then ev.n else |l.net.ackChan|;
      OnWireOnlyReply(l.net.ackChan[..m], reply);
    }
  }

  lemma {:induction false} RunKeepsAnswers(l: Link, evs: seq<Event>, reply: Reply)
    requires (forall i :: 0 <= i < |evs| ==> Listening(evs[i])) && Answers(l.net, reply)
    ensures Answers(Run(l, evs).net, reply)
    decreases |evs|
  {
    if evs != [] {
      ListenKeepsAnswers(l, evs[0], reply);
      RunKeepsAnswers(Step(l, evs[0]), evs[1..], reply);
    }
  }

  /** The reply the writer takes in is the answer to its request. */
  lemma TakesTheAnswer(was: seq<Event>, now: seq<Event>, ac: AckCommand, reply: Reply)
    requires Heard(was, now) && |was| < |now| && Took(now, ac) && IsReply(ac.cmd)
    requires Answers(Run(Start(), was).net, reply)
    ensures ReadsAs(reply, ac)
  {
    var mid := now[|was|..|now| - 1];
    assert now[..|now| - 1] == was + mid;
    RunAppend(Start(), was, mid);
    RunKeepsAnswers(Run(Start(), was), mid, reply);
  }

  // The verdict on a ditto block

  /** The first thing on the wire that will be answered is a ditto block, and it is
      complete exactly at the end of the wire. */
  predicate EndsInBlock(wire: seq<Msg>, skip: nat) {
    if wire == [] then false
    else match wire[0]
      case NewEntry(_, _, _) =>
        if skip == 1 then wire[1..] == [] else EndsInBlock(wire[1..], if skip > 0 then skip - 1 else 0)
      case DittoHeader(n) => EndsInBlock(wire[1..], if skip > 0 then skip else n)
      case ForceAck => EndsInBlock(wire[1..], skip)
      case Request(_) => false
  }

  predicate OnlyVerdicts(acs: seq<AckCommand>, evs: seq<Event>) {
    forall i :: 0 <= i < |acs| && IsReply(acs[i].cmd) ==>
      acs[i].cmd == CONFIRM_DITTO_BLOCK && DittoVerdict(acs[i].val) in evs
  }

  /** Either the block has not been read to its end and no reply is under way, or
      everything has been read and every reply is a verdict given in these events. */
  predicate Awaiting(n: Net, evs: seq<Event>) {
    && OnlyVerdicts(n.ackChan, evs) && OnlyVerdicts(n.ackWire, evs)
    && (|| (n.wire == [] && n.skip == 0)
        || (EndsInBlock(n.wire, n.skip) && !n.block && Replies(n.ackChan) == 0 && Replies(n.ackWire) == 0))
  }

  lemma {:induction false} MsgsEndBlock(ents: seq<(EntryRef, Tag)>, id: EntryId)
    requires id + |ents| < 0x1_0000_0000_0000_0000 && ents != []
    ensures EndsInBlock(DittoMsgs(ents, id), |ents|)
    decreases |ents|
  {
    assert DittoMsgs(ents, id)[1..] == DittoMsgs(ents[1..], id + 1);
    if |ents| > 1 {
      MsgsEndBlock(ents[1..], id + 1);
    }
  }

  lemma {:induction false} QuietThenBlock(wire: seq<Msg>, block: seq<Msg>)
    requires Exchanges(wire) == 0 && EndsInBlock(block, 0)
    ensures EndsInBlock(wire + block, 0)
  {
    if wire == [] {
      assert wire + block == block;
    } else {
      assert (wire + block)[1..] == wire[1..] + block;
      QuietThenBlock(wire[1..], block);
    }
  }

  lemma QuietAwaits(n: Net, ents: seq<(EntryRef, Tag)>, id: EntryId)
    requires Owed(n) == 0 && id + |ents| < 0x1_0000_0000_0000_0000 && ents != []
    ensures Awaiting(n.(wire := n.wire + [DittoHeader(|ents|)] + DittoMsgs(ents, id)), [])
  {
    var block := [DittoHeader(|ents|)] + DittoMsgs(ents, id);
    NoReplies(n.ackChan);
    NoReplies(n.ackWire);
    MsgsEndBlock(ents, id);
    assert block[1..] == DittoMsgs(ents, id);
    QuietThenBlock(n.wire, block);
    assert n.wire + [DittoHeader(|ents|)] + DittoMsgs(ents, id) == n.wire + block;
  }

  lemma {:induction false} OnWireOnlyVerdicts(acs: seq<AckCommand>, evs: seq<Event>)
    requires OnlyVerdicts(acs, evs)
    ensures OnlyVerdicts(OnWire(acs), evs)
  {
    if acs != [] {
      assert IsReply(acs[0].cmd) ==> acs[0].cmd == CONFIRM_DITTO_BLOCK && DittoVerdict(acs[0].val) in evs;
      assert forall i :: 1 <= i < |acs| ==> acs[i] == acs[1..][i - 1];
      OnWireOnlyVerdicts(acs[1..], evs);
    }
  }

  lemma ReadKeepsAwaiting(n: Net, evs: seq<Event>)
    requires Awaiting(n, evs)
    ensures Awaiting(ReadStep(n), evs)
  {
    if n.wire != [] {
      match n.wire[0] {
        case NewEntry(id, _, _) => RepliesAppend(n.ackChan, [AckCommand(CONFIRM_ENTRY, id)]);
        case ForceAck => RepliesAppend(n.ackChan, [AckCommand(FORCE_ACK, 0)]);
        case _ =>
      }
    }
  }

  lemma FlushKeepsAwaiting(n: Net, k: nat, evs: seq<Event>)
    requires Awaiting(n, evs)
    ensures Awaiting(PeerStep(n, AckFlush(k)), evs)
  {
    var m := if k < |n.ackChan| then k else |n.ackChan|;
    OnWireOnlyVerdicts(n.ackChan[..m], evs);
    assert n.ackChan == n.ackChan[..m] + n.ackChan[m..];
    RepliesAppend(n.ackChan[..m], n.ackChan[m..]);
    RepliesAppend(n.ackWire, OnWire(n.ackChan[..m]));
    RepliesOnWire(n.ackChan[..m]);
  }

  lemma MoreEvents(n: Net, evs: seq<Event>, ev: Event)
    requires Awaiting(n, evs)
    ensures Awaiting(n, evs + [ev])
  {
  }

  lemma ListenKeepsAwaiting(l: Link, ev: Event, evs: seq<Event>)
    requires Listening(ev) && Awaiting(l.net, evs)
    ensures Awaiting(Step(l, ev).net, evs + [ev])
  {
    MoreEvents(l.net, evs, ev);
    match ev {
      case Read => ReadKeepsAwaiting(l.net, evs + [ev]);
      case AckFlush(k) => FlushKeepsAwaiting(l.net, k, evs + [ev]);
      case KeepAlive => RepliesAppend(l.net.ackWire, [AckCommand(PONG, 0)]);
      case SendThrottle(d) => RepliesAppend(l.net.ackChan, [AckCommand(THROTTLE, d)]);
      case DittoVerdict(v) =>
      case TakeAck =>
    }
  }

  lemma {:induction false} RunKeepsAwaiting(l: Link, seen: seq<Event>, evs: seq<Event>)
    requires (forall i :: 0 <= i < |evs| ==> Listening(evs[i])) && Awaiting(l.net, seen)
    ensures Awaiting(Run(l, evs).net, seen + evs)
    decreases |evs|
  {
    if evs == [] {
      assert seen + evs == seen;
    } else {
      ListenKeepsAwaiting(l, evs[0], seen);
      RunKeepsAwaiting(Step(l, evs[0]), seen + [evs[0]], evs[1..]);
      assert seen + [evs[0]] + evs[1..] == seen + evs;
    }
  }

  lemma VerdictIsLast(l: Link, evs: seq<Event>)
    requires Awaiting(l.net, evs) && l.net.ackWire != [] && IsReply(l.net.ackWire[0].cmd)
    ensures DittoVerdict(l.net.ackWire[0].val) in evs
    ensures var n := Step(l, TakeAck).net; n.wire == [] && n.skip == 0
  {
    assert Replies(l.net.ackWire) > 0;
  }

  /** The reply the writer takes in is a verdict given since, and by then the other
      end has read everything the writer has sent, the whole block included. */
  lemma TakesTheVerdict(was: seq<Event>, now: seq<Event>, ac: AckCommand)
    requires Heard(was, now) && |was| < |now| && Took(now, ac) && IsReply(ac.cmd)
    requires Awaiting(Run(Start(), was).net, [])
    ensures Since(was, now, DittoVerdict(ac.val))
    ensures var n := Run(Start(), now).net; n.wire == [] && n.skip == 0
  {
    var before := now[..|now| - 1];
    var mid := before[|was|..];
    assert before == was + mid && now == before + [TakeAck];
    RunAppend(Start(), was, mid);
    RunKeepsAwaiting(Run(Start(), was), [], mid);
    assert [] + mid == mid;
    VerdictIsLast(Run(Start(), before), mid);
    var i :| 0 <= i < |mid| && mid[i] == DittoVerdict(ac.val);
    assert now[|was| + i] == mid[i];
    RunSnoc(Start(), before, TakeAck);
  }
}
