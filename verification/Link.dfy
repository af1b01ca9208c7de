/** One connection between an EntryWriter and an EntryReader: the ring of
    unconfirmed entries, the bytes on their way out as messages, the reader, its
    queue of acknowledgements and the acknowledgements on their way back
    (ingest/entryWriter.go, ingest/entryReader.go). Both directions are FIFO. */
module Link {
  import opened Wrappers
  import opened AckCodec
  import opened ConfBuffer

  /** A pointer to an entry, and a 16 bit tag. */
  type EntryRef = nat
  type Tag = t: int | 0 <= t < 0x1_0000

  /** Ids start at one: a confirmation of id zero is never written. */
  type EntryId = x: int | 1 <= x < 0x1_0000_0000_0000_0000 witness 1

  /** A command that has a layout on the wire. */
  type WireAck = ac: AckCommand | Size(ac) > 0 witness AckCommand(PONG, 0)

  type Pending = Confirmation<EntryRef>

  /** What a writer puts on the wire. An entry is encoded with the tag it has at
      that moment; a ditto header announces n entries that are not confirmed one
      by one; a request is any exchange answered by a single reply. */
  datatype Msg =
    | NewEntry(id: EntryId, ent: EntryRef, tag: Tag)
    | DittoHeader(n: nat)
    | ForceAck
    | Request(reply: Reply)

  /** Commands that answer a request, as opposed to those that can arrive at any
      time (confirmations, throttles and keepalives). */
  predicate IsReply(c: uint32) {
    c == ERROR_TAG || c == CONFIRM_TAG || c == CONFIRM_ID || c == CONFIRM_API_VER ||
    c == CONFIRM_INGEST_OK || c == CONFIRM_INGESTER_STATE || c == CONFIRM_DITTO_BLOCK
  }

  type Reply = ac: AckCommand | IsReply(ac.cmd) witness AckCommand(CONFIRM_ID, 0)

  datatype Receipt = Receipt(id: EntryId, ent: EntryRef, tag: Tag)

  /** Everything between the two ends, and the reader.
      skip      entries still owed to the ditto block being read
      block     a ditto block has been read and awaits the indexer's verdict
      receipts  entries the reader has taken in and acknowledged, oldest first
      settled   how many of those acknowledgements the writer has processed
      written   entries the writer has sent successfully (outside ditto blocks)
      intact    false once a send has failed or the ring has been ejected */
  datatype Net = Net(
    wire: seq<Msg>,
    skip: nat,
    block: bool,
    ackChan: seq<AckCommand>,
    ackWire: seq<WireAck>,
    receipts: seq<Receipt>,
    settled: nat,
    written: seq<Receipt>,
    intact: bool)

  datatype Link = Link(ring: seq<Pending>, nextId: EntryId, net: Net)

  datatype Event =
    // the reader and its acknowledgement routine
    | Read
    | AckFlush(n: nat)
    | KeepAlive
    | SendThrottle(duration: uint64)
    | DittoVerdict(val: uint64)
    // the writer
    | Send(ent: EntryRef, tag: Tag)
    | SendFailed(ent: EntryRef, tag: Tag, reached: bool)
    | SendControl(msg: Msg)
    | SendDitto(ents: seq<(EntryRef, Tag)>)
    | DittoFailed(announced: nat, sent: seq<(EntryRef, Tag)>)
    | Break
    | TakeAck
    | Eject

  predicate IsConfirm(ac: AckCommand) {
    ac.cmd == CONFIRM_ENTRY && ac.val != 0
  }

  /** Ids confirmed by a list of acknowledgements, in order. */
  function Confirms(acs: seq<AckCommand>): seq<nat> {
    if acs == [] then []
    else if IsConfirm(acs[0]) then [acs[0].val] + Confirms(acs[1..])
    else Confirms(acs[1..])
  }

  lemma {:induction false} ConfirmsAppend(a: seq<AckCommand>, b: seq<AckCommand>)
    ensures Confirms(a + b) == Confirms(a) + Confirms(b)
  {
    if a == [] {
      assert a + b == b;
    } else {
      assert (a + b)[1..] == a[1..] + b;
      ConfirmsAppend(a[1..], b);
    }
  }

  /** What ackRoutine puts on the wire of a list of commands. */
  function OnWire(acs: seq<AckCommand>): seq<WireAck> {
    if acs == [] then []
    else if Size(acs[0]) == 0 then OnWire(acs[1..])
    else [acs[0]] + OnWire(acs[1..])
  }

  lemma {:induction false} OnWireKeepsConfirms(acs: seq<AckCommand>)
    ensures Confirms(OnWire(acs)) == Confirms(acs)
    ensures |OnWire(acs)| <= |acs|
  {
    if acs != [] {
      OnWireKeepsConfirms(acs[1..]);
    }
  }

  /** The commands this model keeps on the wire are those the writer decodes from the
      bytes of the stream. */
  lemma {:induction false} WireIsWhatDecodes(acs: seq<AckCommand>)
    ensures DecodeAll(Stream(acs)) == Seen(OnWire(acs)) && |Seen(OnWire(acs))| == |OnWire(acs)|
  {
    StreamRoundTrip(acs);
    OnWireIsSeen(acs);
  }

  lemma {:induction false} OnWireIsSeen(acs: seq<AckCommand>)
    ensures Seen(OnWire(acs)) == Seen(acs) && |Seen(OnWire(acs))| == |OnWire(acs)|
  {
    if acs != [] {
      OnWireIsSeen(acs[1..]);
      if Size(acs[0]) > 0 {
        assert OnWire(acs)[1..] == OnWire(acs[1..]);
      }
    }
  }

  /** Entries outside ditto blocks that the reader has still to take in. */
  function Unread(wire: seq<Msg>, skip: nat): seq<Receipt> {
    if wire == [] then []
    else match wire[0]
      case NewEntry(id, ent, tag) =>
        if skip > 0 then Unread(wire[1..], skip - 1)
        else [Receipt(id, ent, tag)] + Unread(wire[1..], 0)
      case DittoHeader(n) => Unread(wire[1..], if skip > 0 then skip else n)
      case _ => Unread(wire[1..], skip)
  }

  /** Entries a ditto block at the end of the wire is still short of. */
  function Lacking(wire: seq<Msg>, skip: nat): nat {
    if wire == [] then skip
    else match wire[0]
      case NewEntry(_, _, _) => Lacking(wire[1..], if skip > 0 then skip - 1 else 0)
      case DittoHeader(n) => Lacking(wire[1..], if skip > 0 then skip else n)
      case _ => Lacking(wire[1..], skip)
  }

  lemma {:induction false} WireAppend(a: seq<Msg>, b: seq<Msg>, skip: nat)
    ensures Unread(a + b, skip) == Unread(a, skip) + Unread(b, Lacking(a, skip))
    ensures Lacking(a + b, skip) == Lacking(b, Lacking(a, skip))
  {
    if a == [] {
      assert a + b == b;
    } else {
      assert (a + b)[1..] == a[1..] + b;
      var s := match a[0]
        case NewEntry(_, _, _) => if skip > 0 then skip - 1 else 0
        case DittoHeader(n) => if skip > 0 then skip else n
        case _ => skip;
      WireAppend(a[1..], b, s);
    }
  }

  function AsPending(rs: seq<Receipt>): (p: seq<Pending>)
    ensures |p| == |rs|
    ensures forall i :: 0 <= i < |rs| ==> p[i] == Confirmation(rs[i].id, rs[i].ent)
  {
    seq(|rs|, i requires 0 <= i < |rs| => Confirmation(rs[i].id, rs[i].ent))
  }

  function Ids(rs: seq<Receipt>): (s: seq<nat>)
    ensures |s| == |rs| && forall i :: 0 <= i < |rs| ==> s[i] == rs[i].id
  {
    seq(|rs|, i requires 0 <= i < |rs| => rs[i].id)
  }

  /** Sent entries whose confirmation the writer has still to process: those the
      reader has taken in, then those on the wire. */
  function Outstanding(n: Net): seq<Receipt>
    requires n.settled <= |n.receipts|
  {
    n.receipts[n.settled..] + Unread(n.wire, n.skip)
  }

  ghost predicate AcksInOrder(n: Net)
    requires n.settled <= |n.receipts|
  {
    Confirms(n.ackWire) + Confirms(n.ackChan) == Ids(n.receipts[n.settled..])
  }

  /** The connection invariant. The confirmations under way are exactly those
      of the entries read and not settled, in order; the ring is a prefix of the
      outstanding entries, and all of them as long as no send has failed. */
  ghost predicate Inv(l: Link) {
    var n := l.net;
    && n.settled <= |n.receipts|
    && AcksInOrder(n)
    && l.ring <= AsPending(Outstanding(n))
    && (n.intact ==>
          && Lacking(n.wire, n.skip) == 0
          && |l.ring| == |Outstanding(n)|
          && n.written == n.receipts + Unread(n.wire, n.skip))
  }

  function Start(): Link {
    Link([], 1, Net([], 0, false, [], [], [], 0, [], true))
  }

  lemma StartInv()
    ensures Inv(Start())
  {
  }

  function DittoMsgs(ents: seq<(EntryRef, Tag)>, id: EntryId): (ms: seq<Msg>)
    requires id + |ents| < 0x1_0000_0000_0000_0000
    ensures |ms| == |ents|
    decreases |ents|
  {
    if ents == [] then [] else [NewEntry(id, ents[0].0, ents[0].1)] + DittoMsgs(ents[1..], id + 1)
  }

  /** The reader takes the next message off the wire (fillHeader, read). A ditto block
      of no entries is kept as no block at all, and no verdict on it can be given. */
  function ReadStep(n: Net): Net {
    if n.wire == [] then n
    else
      var rest := n.(wire := n.wire[1..]);
      match n.wire[0]
      case NewEntry(id, ent, tag) =>
        if n.skip > 0 then rest.(skip := n.skip - 1, block := n.block || n.skip == 1)
        else rest.(ackChan := n.ackChan + [AckCommand(CONFIRM_ENTRY, id)],
                   receipts := n.receipts + [Receipt(id, ent, tag)])
      case DittoHeader(k) => rest.(skip := if n.skip > 0 then n.skip else k)
      case ForceAck => rest.(ackChan := n.ackChan + [AckCommand(FORCE_ACK, 0)])
      case Request(reply) => rest.(ackChan := n.ackChan + [reply])
  }

  function PeerStep(n: Net, ev: Event): Net {
    match ev
    case Read => ReadStep(n)
    case AckFlush(k) =>
      var m := if k < |n.ackChan| then k else |n.ackChan|;
      n.(ackWire := n.ackWire + OnWire(n.ackChan[..m]), ackChan := n.ackChan[m..])
    case KeepAlive => n.(ackWire := n.ackWire + [AckCommand(PONG, 0)])
    case SendThrottle(d) => n.(ackChan := n.ackChan + [AckCommand(THROTTLE, d)])
    case DittoVerdict(v) =>
      if n.block then n.(block := false, ackChan := n.ackChan + [AckCommand(CONFIRM_DITTO_BLOCK, v)]) else n
    case _ => n
  }

  predicate IsPeer(ev: Event) {
    ev.Read? || ev.AckFlush? || ev.KeepAlive? || ev.SendThrottle? || ev.DittoVerdict?
  }

  /** One step of either end; an event that is not enabled changes nothing. */
  function Step(l: Link, ev: Event): Link {
    var n := l.net;
    match ev
    case Send(ent, tag) =>
      if !n.intact || l.nextId + 1 >= 0x1_0000_0000_0000_0000 then l
      else Link(l.ring + [Confirmation(l.nextId, ent)], l.nextId + 1,
                n.(wire := n.wire + [NewEntry(l.nextId, ent, tag)],
                   written := n.written + [Receipt(l.nextId, ent, tag)]))
    case SendFailed(ent, tag, reached) =>
      if !n.intact then l
      else l.(net := n.(wire := n.wire + (if reached then [NewEntry(l.nextId, ent, tag)] else []), intact := false))
    case SendControl(m) =>
      if m.ForceAck? || m.Request? then l.(net := n.(wire := n.wire + [m])) else l
    case SendDitto(ents) =>
      if !n.intact || l.nextId + |ents| >= 0x1_0000_0000_0000_0000 then l
      else l.(nextId := l.nextId + |ents|,
              net := n.(wire := n.wire + [DittoHeader(|ents|)] + DittoMsgs(ents, l.nextId)))
    case DittoFailed(announced, sent) =>
      if !n.intact || l.nextId + |sent| >= 0x1_0000_0000_0000_0000 || |sent| > announced then l
      else l.(nextId := l.nextId + |sent|,
              net := n.(wire := n.wire + [DittoHeader(announced)] + DittoMsgs(sent, l.nextId), intact := false))
    case Break => l.(net := n.(intact := false))
    case TakeAck =>
      if n.ackWire == [] then l
      else
        var rest := n.(ackWire := n.ackWire[1..]);
        if !IsConfirm(n.ackWire[0]) then l.(net := rest)
        else Link(AfterConfirm(l.ring, n.ackWire[0].val), l.nextId, rest.(settled := n.settled + 1))
    case Eject => Link([], l.nextId, n.(intact := false))
    case _ => l.(net := PeerStep(n, ev))
  }

  /** Confirm on a ring whose window starts at slot zero. */
  function AfterConfirm(ring: seq<Pending>, id: nat): seq<Pending> {
    Without(ring, id)
  }

  function Run(l: Link, evs: seq<Event>): Link
    decreases |evs|
  {
    if evs == [] then l else Run(Step(l, evs[0]), evs[1..])
  }

  // Every step keeps the invariant

  /** Taking an entry in moves it from the wire to the receipts. */
  lemma ReadEntry(n: Net)
    requires n.settled <= |n.receipts| && AcksInOrder(n)
    requires n.wire != [] && n.wire[0].NewEntry? && n.skip == 0
    ensures var n' := ReadStep(n);
            && AcksInOrder(n')
            && Outstanding(n') == Outstanding(n)
            && n'.receipts + Unread(n'.wire, n'.skip) == n.receipts + Unread(n.wire, n.skip)
            && Lacking(n'.wire, n'.skip) == Lacking(n.wire, n.skip)
  {
    var n' := ReadStep(n);
    var NewEntry(id, ent, tag) := n.wire[0];
    var r := Receipt(id, ent, tag);
    var ac := AckCommand(CONFIRM_ENTRY, id);
    assert Unread(n.wire, n.skip) == [r] + Unread(n.wire[1..], 0);
    ConfirmsAppend(n.ackChan, [ac]);
    assert Confirms([ac]) == [id];
    assert n'.receipts[n.settled..] == n.receipts[n.settled..] + [r];
    assert Ids(n'.receipts[n.settled..]) == Ids(n.receipts[n.settled..]) + [id];
  }

  lemma ReadOther(n: Net)
    requires n.settled <= |n.receipts| && AcksInOrder(n)
    requires n.wire != [] && !(n.wire[0].NewEntry? && n.skip == 0)
    ensures var n' := ReadStep(n);
            && n'.receipts == n.receipts
            && AcksInOrder(n')
            && Unread(n'.wire, n'.skip) == Unread(n.wire, n.skip)
            && Lacking(n'.wire, n'.skip) == Lacking(n.wire, n.skip)
  {
    match n.wire[0] {
      case ForceAck => ConfirmsAppend(n.ackChan, [AckCommand(FORCE_ACK, 0)]);
      case Request(reply) => ConfirmsAppend(n.ackChan, [reply]);
      case _ =>
    }
  }

  lemma ReadKeepsInv(l: Link)
    requires Inv(l)
    ensures Inv(Step(l, Read))
  {
    if l.net.wire != [] {
      if l.net.wire[0].NewEntry? && l.net.skip == 0 {
        ReadEntry(l.net);
      } else {
        ReadOther(l.net);
      }
    }
  }

  lemma FlushKeepsOrder(n: Net, k: nat)
    requires n.settled <= |n.receipts| && AcksInOrder(n)
    ensures AcksInOrder(PeerStep(n, AckFlush(k)))
  {
    var m := if k < |n.ackChan| then k else |n.ackChan|;
    var moved, kept := n.ackChan[..m], n.ackChan[m..];
    assert n.ackChan == moved + kept;
    ConfirmsAppend(moved, kept);
    ConfirmsAppend(n.ackWire, OnWire(moved));
    OnWireKeepsConfirms(moved);
    assert Confirms(n.ackWire) + Confirms(moved) + Confirms(kept) == Confirms(n.ackWire) + Confirms(n.ackChan);
  }

  lemma QueueKeepsOrder(n: Net, ac: AckCommand, onWire: bool)
    requires n.settled <= |n.receipts| && AcksInOrder(n)
    requires !IsConfirm(ac) && (onWire ==> Size(ac) > 0)
    ensures AcksInOrder(if onWire then n.(ackWire := n.ackWire + [ac]) else n.(ackChan := n.ackChan + [ac]))
  {
    ConfirmsAppend(n.ackWire, [ac]);
    ConfirmsAppend(n.ackChan, [ac]);
    assert Confirms([ac]) == [];
  }

  lemma PeerKeepsInv(l: Link, ev: Event)
    requires Inv(l) && IsPeer(ev)
    ensures Inv(Step(l, ev))
  {
    var n := l.net;
    match ev {
      case Read =>
        ReadKeepsInv(l);
      case AckFlush(k) =>
        FlushKeepsOrder(n, k);
        SameBooks(l, PeerStep(n, ev));
      case KeepAlive =>
        QueueKeepsOrder(n, AckCommand(PONG, 0), true);
        SameBooks(l, PeerStep(n, ev));
      case SendThrottle(d) =>
        QueueKeepsOrder(n, AckCommand(THROTTLE, d), false);
        SameBooks(l, PeerStep(n, ev));
      case DittoVerdict(v) =>
        QueueKeepsOrder(n, AckCommand(CONFIRM_DITTO_BLOCK, v), false);
        if n.block {
          SameBooks(l, PeerStep(n, ev));
        }
    }
  }

  /** A step of the acknowledgement routine touches neither wire nor receipts. */
  lemma SameBooks(l: Link, n: Net)
    requires Inv(l) && n == l.net.(ackChan := n.ackChan, ackWire := n.ackWire, block := n.block) && AcksInOrder(n)
    ensures Inv(l.(net := n))
  {
    assert Outstanding(n) == Outstanding(l.net);
  }

  lemma SendKeepsInv(l: Link, ent: EntryRef, tag: Tag)
    requires Inv(l)
    ensures Inv(Step(l, Send(ent, tag)))
  {
    var n := l.net;
    var l' := Step(l, Send(ent, tag));
    if l' != l {
      var r := Receipt(l.nextId, ent, tag);
      WireAppend(n.wire, [NewEntry(l.nextId, ent, tag)], n.skip);
      assert Unread([NewEntry(l.nextId, ent, tag)], 0) == [r];
      assert Outstanding(l'.net) == Outstanding(n) + [r];
      assert l'.net.receipts + Unread(l'.net.wire, n.skip) == n.receipts + Unread(n.wire, n.skip) + [r];
      assert AsPending(Outstanding(n) + [r]) == AsPending(Outstanding(n)) + [Confirmation(l.nextId, ent)];
      assert l.ring == AsPending(Outstanding(n));
    }
  }

  lemma SendFailedKeepsInv(l: Link, ent: EntryRef, tag: Tag, reached: bool)
    requires Inv(l)
    ensures Inv(Step(l, SendFailed(ent, tag, reached)))
  {
    var n := l.net;
    var l' := Step(l, SendFailed(ent, tag, reached));
    if l' != l && reached {
      var r := Receipt(l.nextId, ent, tag);
      WireAppend(n.wire, [NewEntry(l.nextId, ent, tag)], n.skip);
      assert Unread([NewEntry(l.nextId, ent, tag)], 0) == [r];
      assert Outstanding(l'.net) == Outstanding(n) + [r];
      assert AsPending(Outstanding(n) + [r]) == AsPending(Outstanding(n)) + [Confirmation(l.nextId, ent)];
    } else if l' != l {
      assert l'.net.wire == n.wire;
    }
  }

  lemma SendControlKeepsInv(l: Link, m: Msg)
    requires Inv(l)
    ensures Inv(Step(l, SendControl(m)))
  {
    var n := l.net;
    if m.ForceAck? || m.Request? {
      WireAppend(n.wire, [m], n.skip);
      assert Unread([m], Lacking(n.wire, n.skip)) == [];
      assert Outstanding(n.(wire := n.wire + [m])) == Outstanding(n);
    }
  }

  lemma {:induction false} DittoIsSkipped(ents: seq<(EntryRef, Tag)>, id: EntryId, n: nat)
    requires id + |ents| < 0x1_0000_0000_0000_0000 && |ents| <= n
    ensures Unread(DittoMsgs(ents, id), n) == [] && Lacking(DittoMsgs(ents, id), n) == n - |ents|
    decreases |ents|
  {
    if ents != [] {
      DittoIsSkipped(ents[1..], id + 1, n - 1);
      assert DittoMsgs(ents, id)[1..] == DittoMsgs(ents[1..], id + 1);
    }
  }

  lemma DittoBlock(n: Net, ents: seq<(EntryRef, Tag)>, id: EntryId, announced: nat)
    requires id + |ents| < 0x1_0000_0000_0000_0000 && |ents| <= announced
    requires Lacking(n.wire, n.skip) == 0
    ensures var w := n.wire + [DittoHeader(announced)] + DittoMsgs(ents, id);
            Unread(w, n.skip) == Unread(n.wire, n.skip) && Lacking(w, n.skip) == announced - |ents|
  {
    var block := [DittoHeader(announced)] + DittoMsgs(ents, id);
    DittoIsSkipped(ents, id, announced);
    assert block[1..] == DittoMsgs(ents, id);
    WireAppend(n.wire, block, n.skip);
    assert n.wire + [DittoHeader(announced)] + DittoMsgs(ents, id) == n.wire + block;
  }

  lemma SendDittoKeepsInv(l: Link, ents: seq<(EntryRef, Tag)>, announced: nat)
    requires Inv(l)
    ensures Inv(Step(l, SendDitto(ents))) && Inv(Step(l, DittoFailed(announced, ents)))
  {
    if l.net.intact && l.nextId + |ents| < 0x1_0000_0000_0000_0000 {
      DittoBlock(l.net, ents, l.nextId, |ents|);
      if |ents| <= announced {
        DittoBlock(l.net, ents, l.nextId, announced);
      }
    }
  }

  /** The acknowledgement at the front of the wire, if it is a confirmation,
      confirms the oldest entry of the ring. */
  lemma ConfirmHitsHead(l: Link)
    requires Inv(l) && l.net.ackWire != [] && IsConfirm(l.net.ackWire[0])
    ensures l.net.settled < |l.net.receipts|
    ensures l.net.receipts[l.net.settled].id == l.net.ackWire[0].val
    ensures l.ring != [] ==>
              && l.ring[0].id == l.net.ackWire[0].val
              && l.ring[0].ent == l.net.receipts[l.net.settled].ent
    ensures l.net.intact ==> l.ring != []
  {
    var n := l.net;
    var id: nat := n.ackWire[0].val;
    assert Confirms(n.ackWire) == [id] + Confirms(n.ackWire[1..]);
    assert Ids(n.receipts[n.settled..])[0] == id;
    assert Outstanding(n)[0] == n.receipts[n.settled];
  }

  lemma SettleKeepsOrder(n: Net)
    requires n.settled < |n.receipts| && AcksInOrder(n)
    requires n.ackWire != [] && IsConfirm(n.ackWire[0])
    ensures var n' := n.(ackWire := n.ackWire[1..], settled := n.settled + 1);
            AcksInOrder(n') && Outstanding(n') == Outstanding(n)[1..]
  {
    var n' := n.(ackWire := n.ackWire[1..], settled := n.settled + 1);
    assert n.receipts[n.settled..][1..] == n'.receipts[n'.settled..];
    assert Ids(n.receipts[n.settled..])[1..] == Ids(n'.receipts[n'.settled..]);
    assert (Confirms(n.ackWire) + Confirms(n.ackChan))[1..] == Confirms(n.ackWire[1..]) + Confirms(n.ackChan);
  }

  lemma TakeAckKeepsInv(l: Link)
    requires Inv(l)
    ensures Inv(Step(l, TakeAck))
  {
    var n := l.net;
    if n.ackWire != [] && IsConfirm(n.ackWire[0]) {
      ConfirmHitsHead(l);
      SettleKeepsOrder(n);
      assert AsPending(Outstanding(n)[1..]) == AsPending(Outstanding(n))[1..];
      HeadRemoved(l.ring, n.ackWire[0].val);
    } else if n.ackWire != [] {
      assert Outstanding(Step(l, TakeAck).net) == Outstanding(n);
    }
  }

  lemma HeadRemoved(ring: seq<Pending>, id: nat)
    requires ring != [] ==> ring[0].id == id
    ensures Without(ring, id) == if ring == [] then [] else ring[1..]
  {
  }

  lemma StepKeepsInv(l: Link, ev: Event)
    requires Inv(l)
    ensures Inv(Step(l, ev))
  {
    match ev {
      case Send(ent, tag) => SendKeepsInv(l, ent, tag);
      case SendFailed(ent, tag, reached) => SendFailedKeepsInv(l, ent, tag, reached);
      case SendControl(m) => SendControlKeepsInv(l, m);
      case SendDitto(ents) => SendDittoKeepsInv(l, ents, 0);
      case DittoFailed(announced, sent) => SendDittoKeepsInv(l, sent, announced);
      case TakeAck => TakeAckKeepsInv(l);
      case Break =>
      case Eject =>
      case _ => PeerKeepsInv(l, ev);
    }
  }

  lemma {:induction false} RunKeepsInv(l: Link, evs: seq<Event>)
    requires Inv(l)
    ensures Inv(Run(l, evs))
    decreases |evs|
  {
    if evs != [] {
      StepKeepsInv(l, evs[0]);
      RunKeepsInv(Step(l, evs[0]), evs[1..]);
    }
  }

  lemma {:induction false} RunAppend(l: Link, a: seq<Event>, b: seq<Event>)
    ensures Run(l, a + b) == Run(Run(l, a), b)
    decreases |a|
  {
    if a == [] {
      assert a + b == b;
    } else {
      assert (a + b)[1..] == a[1..] + b;
      RunAppend(Step(l, a[0]), a[1..], b);
    }
  }

  lemma RunSnoc(l: Link, evs: seq<Event>, ev: Event)
    ensures Run(l, evs + [ev]) == Step(Run(l, evs), ev)
  {
    RunAppend(l, evs, [ev]);
    assert [ev][1..] == [];
  }

  /** After any run of a fresh connection whose sends have all succeeded, the
      ids in the ring are, in order, the confirmations on the wire, those queued
      in ackChan, and the entries still to be read. */
  lemma RingIsEverythingUnderWay(evs: seq<Event>)
    ensures var l := Run(Start(), evs);
            l.net.intact ==>
              seq(|l.ring|, i requires 0 <= i < |l.ring| => l.ring[i].id)
              == Confirms(l.net.ackWire) + Confirms(l.net.ackChan) + Ids(Unread(l.net.wire, l.net.skip))
  {
    var l := Run(Start(), evs);
    StartInv();
    RunKeepsInv(Start(), evs);
    var n := l.net;
    if n.intact {
      var ids := seq(|l.ring|, i requires 0 <= i < |l.ring| => l.ring[i].id);
      assert l.ring == AsPending(Outstanding(n));
      assert Ids(Outstanding(n)) == Ids(n.receipts[n.settled..]) + Ids(Unread(n.wire, n.skip));
      assert ids == Ids(Outstanding(n));
    }
  }

  // The sync barrier

  /** While nothing is ejected, everything written is among the entries read or on
      the wire, failed sends or not, and the ring holds those not yet settled. */
  ghost predicate Booked(l: Link) {
    var n := l.net;
    && n.written <= n.receipts + Unread(n.wire, n.skip)
    && l.ring == AsPending(Unsettled(n))
  }

  function Unsettled(n: Net): seq<Receipt> {
    if n.settled < |n.written| then n.written[n.settled..] else []
  }

  lemma SendKeepsBooked(l: Link, ent: EntryRef, tag: Tag)
    requires Inv(l) && Booked(l)
    ensures Booked(Step(l, Send(ent, tag)))
  {
    var n := l.net;
    var l' := Step(l, Send(ent, tag));
    if l' != l {
      var r := Receipt(l.nextId, ent, tag);
      WireAppend(n.wire, [NewEntry(l.nextId, ent, tag)], n.skip);
      assert Unread([NewEntry(l.nextId, ent, tag)], 0) == [r];
      assert l'.net.receipts + Unread(l'.net.wire, n.skip) == n.receipts + Unread(n.wire, n.skip) + [r];
      assert Unsettled(l'.net) == Unsettled(n) + [r];
    }
  }

  /** Whatever else goes on the wire leaves the books as they are. */
  lemma WireKeepsBooked(l: Link, l': Link, more: seq<Msg>)
    requires Booked(l) && l'.ring == l.ring
    requires l'.net == l.net.(wire := l.net.wire + more, intact := l'.net.intact)
    ensures Booked(l')
  {
    var n := l.net;
    WireAppend(n.wire, more, n.skip);
    assert n.receipts + (Unread(n.wire, n.skip) + Unread(more, Lacking(n.wire, n.skip)))
        == n.receipts + Unread(n.wire, n.skip) + Unread(more, Lacking(n.wire, n.skip));
  }

  lemma ReadKeepsBooked(l: Link)
    requires Inv(l) && Booked(l)
    ensures Booked(Step(l, Read))
  {
    if l.net.wire != [] {
      if l.net.wire[0].NewEntry? && l.net.skip == 0 {
        ReadEntry(l.net);
      } else {
        ReadOther(l.net);
      }
    }
  }

  lemma AcksKeepBooked(l: Link, n: Net)
    requires Booked(l) && n == l.net.(ackChan := n.ackChan, ackWire := n.ackWire, block := n.block)
    ensures Booked(l.(net := n))
  {
  }

  lemma TakeAckKeepsBooked(l: Link)
    requires Inv(l) && Booked(l)
    ensures Booked(Step(l, TakeAck))
  {
    var n := l.net;
    if n.ackWire != [] && IsConfirm(n.ackWire[0]) {
      ConfirmHitsHead(l);
      HeadRemoved(l.ring, n.ackWire[0].val);
      if l.ring != [] {
        assert Unsettled(Step(l, TakeAck).net) == Unsettled(n)[1..];
      }
    }
  }

  lemma StepKeepsBooked(l: Link, ev: Event)
    requires Inv(l) && Booked(l) && ev != Eject
    ensures Booked(Step(l, ev))
  {
    var l' := Step(l, ev);
    match ev {
      case Send(ent, tag) => SendKeepsBooked(l, ent, tag);
      case SendFailed(ent, tag, reached) =>
        if l' != l { WireKeepsBooked(l, l', if reached then [NewEntry(l.nextId, ent, tag)] else []); }
      case SendControl(m) =>
        if l' != l { WireKeepsBooked(l, l', [m]); }
      case SendDitto(ents) =>
        if l' != l { DittoKeepsBooked(l, l', |ents|, ents); }
      case DittoFailed(announced, sent) =>
        if l' != l { DittoKeepsBooked(l, l', announced, sent); }
      case TakeAck => TakeAckKeepsBooked(l);
      case Break =>
      case Read => ReadKeepsBooked(l);
      case _ => AcksKeepBooked(l, l'.net);
    }
  }

  lemma DittoKeepsBooked(l: Link, l': Link, announced: nat, ents: seq<(EntryRef, Tag)>)
    requires Booked(l) && l'.ring == l.ring && l.nextId + |ents| < 0x1_0000_0000_0000_0000
    requires l'.net == l.net.(wire := l.net.wire + [DittoHeader(announced)] + DittoMsgs(ents, l.nextId),
                              intact := l'.net.intact)
    ensures Booked(l')
  {
    var more := [DittoHeader(announced)] + DittoMsgs(ents, l.nextId);
    assert l'.net.wire == l.net.wire + more;
    WireKeepsBooked(l, l', more);
  }

  lemma {:induction false} RunKeepsBooked(l: Link, evs: seq<Event>)
    requires Inv(l) && Booked(l) && Eject !in evs
    ensures Booked(Run(l, evs))
    decreases |evs|
  {
    if evs != [] {
      StepKeepsInv(l, evs[0]);
      StepKeepsBooked(l, evs[0]);
      RunKeepsBooked(Step(l, evs[0]), evs[1..]);
    }
  }

  /** What an empty ring says: unless it was ejected, the other end has read, in
      order, everything written, even if a send has failed since. */
  lemma EmptyRingMeansAllRead(evs: seq<Event>)
    requires Eject !in evs
    ensures var l := Run(Start(), evs);
            && (l.ring == [] ==> l.net.written <= l.net.receipts)
            && (l.ring == [] && l.net.intact ==> l.net.written == l.net.receipts)
  {
    var l := Run(Start(), evs);
    StartInv();
    RunKeepsInv(Start(), evs);
    RunKeepsBooked(Start(), evs);
    if l.ring == [] {
      assert |l.net.written| <= l.net.settled <= |l.net.receipts|;
      assert l.net.intact ==> |Outstanding(l.net)| == 0;
    }
  }

  /** Ejecting empties the ring too: then everything written has been read exactly
      if the other end has taken in as many entries as were ejected. */
  lemma EjectingMeansAllReadIff(evs: seq<Event>)
    requires Eject !in evs
    ensures var l, l' := Run(Start(), evs), Run(Start(), evs + [Eject]);
            && l'.ring == []
            && (l'.net.written <= l'.net.receipts <==> |l.ring| <= |l.net.receipts| - l.net.settled)
  {
    var l := Run(Start(), evs);
    StartInv();
    RunKeepsInv(Start(), evs);
    RunKeepsBooked(Start(), evs);
    RunSnoc(Start(), evs, Eject);
    var n := l.net;
    assert |n.written| <= |n.receipts| ==> n.written <= n.receipts;
  }

  /** An entry is sent and ejected: the ring is empty and nothing has been read. */
  lemma EjectedUnread()
    ensures var l := Run(Start(), [Send(0, 0), Eject]);
            l.ring == [] && l.net.written == [Receipt(1, 0, 0)] && l.net.receipts == []
  {
    var evs := [Send(0, 0), Eject];
    assert evs[1..] == [Eject] && evs[1..][1..] == [];
  }

  /** In every run a confirmation that arrives names the oldest entry of the ring,
      unless that is empty, so the writer never has to look behind the head. */
  lemma ConfirmsAlwaysHitHead(evs: seq<Event>)
    ensures var l := Run(Start(), evs);
            l.net.ackWire != [] && IsConfirm(l.net.ackWire[0]) ==>
              && (l.ring == [] || l.ring[0].id == l.net.ackWire[0].val)
              && (l.net.intact ==> l.ring != [])
  {
    var l := Run(Start(), evs);
    StartInv();
    RunKeepsInv(Start(), evs);
    if l.net.ackWire != [] && IsConfirm(l.net.ackWire[0]) {
      ConfirmHitsHead(l);
    }
  }

  /** Whatever happens on a connection, an entry that leaves the ring without
      being ejected has been taken in by the reader. */
  lemma LeavesRingOnlyWhenRead(l: Link, ev: Event, i: nat)
    requires Inv(l) && ev != Eject && i < |l.ring|
    ensures var l' := Step(l, ev);
            || (exists j :: 0 <= j < |l'.ring| && l'.ring[j] == l.ring[i])
            || (exists j :: 0 <= j < |l'.net.receipts| && l'.net.receipts[j].ent == l.ring[i].ent)
  {
    if ev == TakeAck && l.net.ackWire != [] && IsConfirm(l.net.ackWire[0]) {
      LeavesRingWhenConfirmed(l, i);
    } else {
      assert Step(l, ev).ring[i] == l.ring[i];
    }
  }

  lemma LeavesRingWhenConfirmed(l: Link, i: nat)
    requires Inv(l) && i < |l.ring| && l.net.ackWire != [] && IsConfirm(l.net.ackWire[0])
    ensures var l' := Step(l, TakeAck);
            || (i > 0 && i - 1 < |l'.ring| && l'.ring[i - 1] == l.ring[i])
            || (exists j :: 0 <= j < |l'.net.receipts| && l'.net.receipts[j].ent == l.ring[i].ent)
  {
    ConfirmHitsHead(l);
    HeadRemoved(l.ring, l.net.ackWire[0].val);
    if i == 0 {
      assert Step(l, TakeAck).net.receipts[l.net.settled].ent == l.ring[0].ent;
    }
  }

  lemma ReceiptsGrow(l: Link, ev: Event)
    ensures l.net.receipts <= Step(l, ev).net.receipts
  {
  }
}
