/** Nothing is lost: whatever fails, an admitted entry has been read by an indexer
    or is still held somewhere in the muxer. */
module MuxerDelivery {
  import opened Wrappers
  import ConfBuffer
  import Link
  import opened Tags
  import opened Muxers

  /** The places an entry can be. */
  datatype Place = Feed | Parked | Relay(d: nat) | Reaped(d: nat) | Ring(c: nat) | Taken(c: nat)

  predicate InLoads(e: EntryRef, ls: seq<Load>) {
    exists i :: 0 <= i < |ls| && Some(e) in ls[i]
  }

  predicate InPart(e: EntryRef, load: Load, from: nat, to: nat) {
    exists i :: from <= i < to && i < |load| && load[i] == Some(e)
  }

  predicate InHand(e: EntryRef, p: Phase) {
    match p
    case Translating(_, load, _, _, _) => Some(e) in load
    case Writing(_, load, n, _) => InPart(e, load, n, |load|)
    case Failing(_, rest) => Some(e) in rest
    case Returning(rest) => Some(e) in rest
    case _ => false
  }

  /** In a relay's hand with its tag translated. */
  predicate InTranslated(e: EntryRef, p: Phase) {
    match p
    case Translating(_, load, k, _, _) => InPart(e, load, 0, k)
    case Writing(_, load, n, _) => InPart(e, load, n, |load|)
    case _ => false
  }

  predicate InRing(e: EntryRef, ring: seq<Link.Pending>) {
    exists i :: 0 <= i < |ring| && ring[i].ent == e
  }

  predicate InReceipts(e: EntryRef, rs: seq<Link.Receipt>) {
    exists i :: 0 <= i < |rs| && rs[i].ent == e
  }

  predicate At(m: Mux, p: Place, e: EntryRef) {
    match p
    case Feed => InLoads(e, m.feed)
    case Parked => InLoads(e, m.queue)
    case Relay(d) => d < |m.dests| && InHand(e, m.dests[d].relay)
    case Reaped(d) => d < |m.dests| && Some(e) in m.dests[d].reaped
    case Ring(c) => c < |m.conns| && InRing(e, m.conns[c].link.ring)
    case Taken(c) => c < |m.conns| && InReceipts(e, m.conns[c].link.net.receipts)
  }

  /** Held under a translated tag, or read. */
  predicate Marked(m: Mux, p: Place, e: EntryRef) {
    match p
    case Relay(d) => d < |m.dests| && InTranslated(e, m.dests[d].relay)
    case Ring(c) => At(m, p, e)
    case Taken(c) => At(m, p, e)
    case _ => false
  }

  /** Somewhere, and if its tag is not a known local id then because some relay or
      connection has translated it. */
  ghost predicate Safe(m: Mux, e: EntryRef) {
    && (exists p :: At(m, p, e))
    && (KnownTag(m, TagOf(m.tags, e)) || exists p :: Marked(m, p, e))
  }

  ghost predicate WellFormed(m: Mux) {
    Shape(m) && forall c :: 0 <= c < |m.conns| ==> Link.Inv(m.conns[c].link)
  }

  predicate Shape(m: Mux) {
    && 0 < |m.names| <= MAX_TAG_ID
    && (forall c :: 0 <= c < |m.conns| ==> 0 < |m.conns[c].tt.active| <= |m.names|)
    && (forall d :: 0 <= d < |m.dests| ==> DestOk(m, m.dests[d]))
  }

  predicate DestOk(m: Mux, w: Dest) {
    && PhaseOk(m, w.relay)
    && (w.conn.Some? ==> w.conn.value < |m.conns|)
    && (w.dialed.Some? ==> w.dialed.value < |m.conns|)
  }

  predicate PhaseOk(m: Mux, p: Phase) {
    match p
    case Translating(c, load, k, _, _) => c < |m.conns| && k <= |load|
    case Writing(c, load, n, _) => c < |m.conns| && n <= |load|
    case Ready(c) => c < |m.conns|
    case Failing(c, _) => c < |m.conns|
    case Closing(c) => c < |m.conns|
    case Clearing(c, _) => c < |m.conns|
    case _ => true
  }

  // Lists of loads

  lemma LoadsAppend(e: EntryRef, a: seq<Load>, b: seq<Load>)
    ensures InLoads(e, a + b) <==> InLoads(e, a) || InLoads(e, b)
  {
    if InLoads(e, a) {
      var i :| 0 <= i < |a| && Some(e) in a[i];
      assert (a + b)[i] == a[i];
    }
    if InLoads(e, b) {
      var i :| 0 <= i < |b| && Some(e) in b[i];
      assert (a + b)[|a| + i] == b[i];
    }
  }

  lemma LoadsWithout(e: EntryRef, ls: seq<Load>, i: nat)
    requires i < |ls| && InLoads(e, ls)
    ensures InLoads(e, ls[..i] + ls[i + 1..]) || Some(e) in ls[i]
  {
    assert ls == ls[..i] + [ls[i]] + ls[i + 1..];
    LoadsAppend(e, ls[..i] + [ls[i]], ls[i + 1..]);
    LoadsAppend(e, ls[..i], [ls[i]]);
    LoadsAppend(e, ls[..i], ls[i + 1..]);
  }

  lemma PushHolds(m: Mux, load: Load, toQueue: bool, e: EntryRef)
    ensures var m' := Push(m, load, toQueue);
            && (Some(e) in load ==> At(m', if toQueue then Parked else Feed, e))
            && (InLoads(e, m.feed) ==> InLoads(e, m'.feed))
            && (InLoads(e, m.queue) ==> InLoads(e, m'.queue))
  {
    LoadsAppend(e, m.feed, [load]);
    LoadsAppend(e, m.queue, [load]);
    assert [load][0] == load;
  }

  // Reversing tags

  /** Reversal never leaves an entry with an id the muxer does not know. */
  lemma {:induction false} ReverseLoadKnown(names: seq<string>, tags: map<EntryRef, Tag>, tt: TagTrans, load: Load,
                                            e: EntryRef)
    requires 0 < |names| && |tt.active| <= |names|
    ensures var t := TagOf(ReverseLoad(tags, tt, load), e);
            t == TagOf(tags, e) || t == GRAVWELL_TAG || t < |names|
    ensures Some(e) in load ==>
              var t := TagOf(ReverseLoad(tags, tt, load), e); t == GRAVWELL_TAG || t < |names|
    decreases |load|
  {
    if load != [] {
      match load[0] {
        case None => ReverseLoadKnown(names, tags, tt, load[1..], e);
        case Some(f) => ReverseLoadKnown(names, tags[f := Reverse(tt, TagOf(tags, f))], tt, load[1..], e);
      }
    }
  }

  lemma ReverseKnown(m: Mux, c: nat, load: Load, e: EntryRef)
    requires Shape(m) && c < |m.conns|
    ensures var m' := m.(tags := ReverseLoad(m.tags, m.conns[c].tt, load));
            && (KnownTag(m, TagOf(m.tags, e)) || Some(e) in load ==> KnownTag(m, TagOf(m'.tags, e)))
  {
    ReverseLoadKnown(m.names, m.tags, m.conns[c].tt, load, e);
  }

  // Steps of a relay

  /** A change confined to the tags, the feeds and one relay's phase keeps an entry
      safe if that relay passes on what it held. */
  lemma RelayMoves(m: Mux, m': Mux, d: nat, e: EntryRef)
    requires Safe(m, e) && d < |m.dests| == |m'.dests|
    requires forall x :: 0 <= x < |m.dests| && x != d ==> m'.dests[x] == m.dests[x]
    requires m'.dests[d].reaped == m.dests[d].reaped && m'.conns == m.conns && m'.names == m.names
    requires At(m, Feed, e) ==> At(m', Feed, e) || At(m', Relay(d), e)
    requires At(m, Parked, e) ==> At(m', Parked, e) || At(m', Relay(d), e)
    requires At(m, Relay(d), e) ==> At(m', Relay(d), e) || At(m', Feed, e) || At(m', Parked, e)
    requires KnownTag(m, TagOf(m.tags, e)) ==> KnownTag(m, TagOf(m'.tags, e)) || Marked(m', Relay(d), e)
    requires Marked(m, Relay(d), e) ==> Marked(m', Relay(d), e) || KnownTag(m, TagOf(m'.tags, e))
    ensures Safe(m', e)
  {
    var p :| At(m, p, e);
    var p' := if At(m', p, e) then p
              else if At(m', Relay(d), e) then Relay(d)
              else if At(m', Feed, e) then Feed else Parked;
    assert At(m', p', e);
    if !KnownTag(m', TagOf(m'.tags, e)) && !Marked(m', Relay(d), e) {
      var q :| Marked(m, q, e);
      assert Marked(m', q, e);
    }
  }

  lemma ReceiveSafe(m: Mux, d: nat, i: nat, e: EntryRef)
    requires Shape(m) && Safe(m, e) && d < |m.dests| && i < |m.feed| && m.dests[d].relay.Ready?
    ensures Safe(SetRelay(m.(feed := m.feed[..i] + m.feed[i + 1..]), d,
                          Translating(m.dests[d].relay.c, m.feed[i], 0, None, Feeder)), e)
  {
    if At(m, Feed, e) {
      LoadsWithout(e, m.feed, i);
    }
    RelayMoves(m, SetRelay(m.(feed := m.feed[..i] + m.feed[i + 1..]), d,
                           Translating(m.dests[d].relay.c, m.feed[i], 0, None, Feeder)), d, e);
  }

  lemma PopQueueSafe(m: Mux, d: nat, e: EntryRef)
    requires Shape(m) && Safe(m, e) && d < |m.dests| && m.queue != [] && m.dests[d].relay.Clearing?
    ensures var p := m.dests[d].relay;
            Safe(SetRelay(m.(queue := m.queue[1..]), d, Translating(p.c, m.queue[0], 0, None, Queue(p.newConn))), e)
  {
    var p := m.dests[d].relay;
    if At(m, Parked, e) {
      LoadsWithout(e, m.queue, 0);
      assert m.queue[..0] + m.queue[1..] == m.queue[1..];
    }
    var popped := m.(queue := m.queue[1..]);
    RelayMoves(m, SetRelay(popped, d, Translating(p.c, m.queue[0], 0, None, Queue(p.newConn))), d, e);
  }

  /** A dropped entry had a translated tag, so another holder remains. */
  lemma UntranslatableSafe(m: Mux, d: nat, e: EntryRef)
    requires Shape(m) && Safe(m, e) && d < |m.dests|
    requires var p := m.dests[d].relay;
             p.Translating? && p.k < |p.load| && p.load[p.k].Some? && p.c < |m.conns|
    ensures Safe(Untranslatable(m, d, m.dests[d].relay), e)
  {
    var p := m.dests[d].relay;
    var prefix := p.load[..p.k];
    ReverseKnown(m, p.c, prefix, e);
    assert InTranslated(e, p) ==> Some(e) in prefix;
    if p.src.Queue? {
      PushHolds(m.(tags := ReverseLoad(m.tags, m.conns[p.c].tt, prefix)), p.load, true, e);
      RelayMoves(m, Untranslatable(m, d, p), d, e);
    } else {
      GivenUpSafe(m, Untranslatable(m, d, p), d, e);
    }
  }

  /** A relay keeps its load, apart from an entry of unknown tag, to recycle it. */
  lemma GivenUpSafe(m: Mux, m': Mux, d: nat, e: EntryRef)
    requires Safe(m, e) && d < |m.dests| && m.dests[d].relay.Translating?
    requires var p := m.dests[d].relay;
             && p.k < |p.load| && p.load[p.k].Some?
             && var rest := if KnownTag(m, TagOf(m.tags, p.load[p.k].value)) then p.load else p.load[p.k := None];
                m' == SetRelay(m.(tags := m'.tags), d, Failing(p.c, rest))
    requires KnownTag(m, TagOf(m.tags, e)) || InTranslated(e, m.dests[d].relay) ==> KnownTag(m, TagOf(m'.tags, e))
    ensures Safe(m', e)
  {
    var p := m.dests[d].relay;
    if p.load[p.k] == Some(e) && !KnownTag(m, TagOf(m.tags, e)) {
      var q :| Marked(m, q, e);
      if q == Relay(d) {
        var i :| 0 <= i < p.k && p.load[i] == Some(e);
        assert p.load[p.k := None][i] == Some(e);
        RelayMoves(m, m', d, e);
      } else {
        assert At(m', q, e) && Marked(m', q, e);
      }
    } else {
      KeptInLoad(p.load, p.k, e);
      RelayMoves(m, m', d, e);
    }
  }

  lemma KeptInLoad(load: Load, k: nat, e: EntryRef)
    requires k < |load|
    ensures Some(e) in load && load[k] != Some(e) ==> Some(e) in load[k := None]
  {
    if Some(e) in load && load[k] != Some(e) {
      var i :| 0 <= i < |load| && load[i] == Some(e);
      assert load[k := None][i] == Some(e);
    }
  }

  lemma TranslateSafe(m: Mux, d: nat, e: EntryRef)
    requires Shape(m) && Safe(m, e) && d < |m.dests|
    ensures Safe(TranslateStep(m, d), e)
  {
    var p := m.dests[d].relay;
    var m' := TranslateStep(m, d);
    if p.Translating? && m' != m {
      if p.k >= |p.load| {
        RelayMoves(m, m', d, e);
      } else if p.load[p.k].None? {
        RelayMoves(m, m', d, e);
      } else {
        var f := p.load[p.k].value;
        if Translate(m.conns[p.c].tt, TagOf(m.tags, f)).Some? {
          assert InTranslated(f, m'.dests[d].relay) by {
            assert p.load[p.k] == Some(f);
          }
          RelayMoves(m, m', d, e);
        } else if p.src.Feeder? && p.neg.None? && m.conns[p.c].tt.toNegotiate != [] {
          RelayMoves(m, m', d, e);
        } else {
          UntranslatableSafe(m, d, e);
        }
      }
    }
  }

  /** Changing one connection, and possibly one relay's phase, keeps an entry safe
      if nothing leaves its ring unread and the relay passes on what it held. */
  lemma ConnMoves(m: Mux, m': Mux, c: nat, d: nat, e: EntryRef)
    requires Safe(m, e) && c < |m.conns| == |m'.conns| && |m'.dests| == |m.dests|
    requires forall x :: 0 <= x < |m.conns| && x != c ==> m'.conns[x].link == m.conns[x].link
    requires forall x :: 0 <= x < |m.dests| ==> m'.dests[x].reaped == m.dests[x].reaped
    requires forall x :: 0 <= x < |m.dests| && x != d ==> m'.dests[x].relay == m.dests[x].relay
    requires m'.names == m.names
    requires At(m, Feed, e) ==> At(m', Feed, e)
    requires At(m, Parked, e) ==> At(m', Parked, e)
    requires At(m, Ring(c), e) ==> At(m', Ring(c), e) || At(m', Taken(c), e)
    requires At(m, Taken(c), e) ==> At(m', Taken(c), e)
    requires At(m, Relay(d), e) ==> At(m', Relay(d), e) || At(m', Ring(c), e) || At(m', Parked, e)
    requires Marked(m, Relay(d), e) ==> Marked(m', Relay(d), e) || At(m', Ring(c), e) || KnownTag(m, TagOf(m'.tags, e))
    requires KnownTag(m, TagOf(m.tags, e)) ==> KnownTag(m, TagOf(m'.tags, e))
    ensures Safe(m', e)
  {
    var p :| At(m, p, e);
    var p' := if At(m', p, e) then p
              else if At(m', Ring(c), e) then Ring(c)
              else if At(m', Taken(c), e) then Taken(c)
              else if At(m', Relay(d), e) then Relay(d) else Parked;
    assert At(m', p', e);
    if !KnownTag(m', TagOf(m'.tags, e)) {
      var q :| Marked(m, q, e);
      var q' := if Marked(m', q, e) then q else if At(m', Ring(c), e) then Ring(c) else Taken(c);
      assert Marked(m', q', e);
    }
  }

  lemma LinkKeepsRing(m: Mux, c: nat, ev: Link.Event, e: EntryRef)
    requires WellFormed(m) && c < |m.conns| && ev != Link.Eject
    ensures var m' := SetLink(m, c, Link.Step(m.conns[c].link, ev));
            && (At(m, Ring(c), e) ==> At(m', Ring(c), e) || At(m', Taken(c), e))
            && (At(m, Taken(c), e) ==> At(m', Taken(c), e))
  {
    var l := m.conns[c].link;
    Link.ReceiptsGrow(l, ev);
    if At(m, Ring(c), e) {
      var i :| 0 <= i < |l.ring| && l.ring[i].ent == e;
      Link.LeavesRingOnlyWhenRead(l, ev, i);
    }
  }

  lemma OnLinkSafe(m: Mux, c: nat, ev: Link.Event, e: EntryRef)
    requires WellFormed(m) && Safe(m, e) && c < |m.conns| && Spontaneous(ev)
    ensures Safe(SetLink(m, c, Link.Step(m.conns[c].link, ev)), e)
  {
    LinkKeepsRing(m, c, ev, e);
    ConnMoves(m, SetLink(m, c, Link.Step(m.conns[c].link, ev)), c, |m.dests|, e);
  }

  /** What a successful write changes. */
  predicate Written(m: Mux, m': Mux, d: nat)
    requires d < |m.dests| && m.dests[d].relay.Writing?
  {
    var p := m.dests[d].relay;
    && p.n < |p.load| && p.load[p.n].Some? && p.c < |m.conns| == |m'.conns|
    && m'.conns[p.c].link.ring ==
       m.conns[p.c].link.ring + [ConfBuffer.Confirmation(m.conns[p.c].link.nextId, p.load[p.n].value)]
    && m'.conns[p.c].tt == m.conns[p.c].tt
    && m'.conns == m.conns[p.c := m'.conns[p.c]]
    && m'.dests == m.dests[d := m.dests[d].(relay := p.(n := p.n + 1))]
    && m'.feed == m.feed && m'.queue == m.queue && m'.tags == m.tags && m'.home == m.home && m'.names == m.names
  }

  lemma WriteOkFrame(m: Mux, d: nat, reached: bool)
    requires d < |m.dests| && WriteStep(m, d, true, reached) != m
    requires var p := m.dests[d].relay; p.Writing? && p.n < |p.load| && p.load[p.n].Some?
    ensures Written(m, WriteStep(m, d, true, reached), d)
  {
  }

  lemma WriteOkSafe(m: Mux, d: nat, reached: bool, e: EntryRef)
    requires WellFormed(m) && Safe(m, e) && d < |m.dests|
    requires var p := m.dests[d].relay; p.Writing? && p.n < |p.load| && p.load[p.n].Some?
    ensures Safe(WriteStep(m, d, true, reached), e)
  {
    var p := m.dests[d].relay;
    if WriteStep(m, d, true, reached) != m {
      WriteOkFrame(m, d, reached);
      LinkKeepsRing(m, p.c, Link.Send(p.load[p.n].value, TagOf(m.tags, p.load[p.n].value)), e);
      WrittenSafe(m, WriteStep(m, d, true, reached), d, e);
    }
  }

  lemma WrittenSafe(m: Mux, m': Mux, d: nat, e: EntryRef)
    requires Safe(m, e) && d < |m.dests| && m.dests[d].relay.Writing? && Written(m, m', d)
    requires var c := m.dests[d].relay.c;
             && (At(m, Ring(c), e) ==> At(m', Ring(c), e) || At(m', Taken(c), e))
             && (At(m, Taken(c), e) ==> At(m', Taken(c), e))
    ensures Safe(m', e)
  {
    var p := m.dests[d].relay;
    assert m'.conns[p.c].link.ring[|m.conns[p.c].link.ring|].ent == p.load[p.n].value;
    if InPart(e, p.load, p.n, |p.load|) && p.load[p.n] != Some(e) {
      var i :| p.n <= i < |p.load| && p.load[i] == Some(e);
      assert i > p.n;
    }
    ConnMoves(m, m', p.c, d, e);
  }

  lemma PartInSuffix(e: EntryRef, load: Load, n: nat)
    requires n <= |load|
    ensures InPart(e, load, n, |load|) ==> Some(e) in load[n..] && Some(e) in load
  {
    if InPart(e, load, n, |load|) {
      var i :| n <= i < |load| && load[i] == Some(e);
      assert load[n..][i - n] == Some(e);
    }
  }

  lemma WriteFailedFromFeeder(m: Mux, d: nat, reached: bool, e: EntryRef)
    requires WellFormed(m) && Safe(m, e) && d < |m.dests|
    requires var p := m.dests[d].relay; p.Writing? && p.n < |p.load| && p.load[p.n].Some? && p.src.Feeder?
    ensures Safe(WriteStep(m, d, false, reached), e)
  {
    var p := m.dests[d].relay;
    var f := p.load[p.n].value;
    LinkKeepsRing(m, p.c, Link.SendFailed(f, TagOf(m.tags, f), reached), e);
    PartInSuffix(e, p.load, p.n);
    ReverseKnown(m, p.c, p.load[p.n..], e);
    ConnMoves(m, WriteStep(m, d, false, reached), p.c, d, e);
  }

  lemma WriteFailedFromQueue(m: Mux, d: nat, reached: bool, e: EntryRef)
    requires WellFormed(m) && Safe(m, e) && d < |m.dests|
    requires var p := m.dests[d].relay; p.Writing? && p.n < |p.load| && p.src.Queue?
    ensures Safe(WriteStep(m, d, false, reached), e)
  {
    var p := m.dests[d].relay;
    assert DestOk(m, m.dests[d]);
    if p.load[p.n].Some? {
      var f := p.load[p.n].value;
      FlushFailsSafe(m, d, Link.SendFailed(f, TagOf(m.tags, f), reached), e);
    } else {
      FlushFailsSafe(m, d, Link.Break, e);
    }
  }

  lemma FlushFailsSafe(m: Mux, d: nat, ev: Link.Event, e: EntryRef)
    requires WellFormed(m) && Safe(m, e) && d < |m.dests| && ev != Link.Eject
    requires var p := m.dests[d].relay; p.Writing? && p.c < |m.conns| && p.n < |p.load| && p.src.Queue?
    ensures Safe(FlushFails(m, d, m.dests[d].relay, ev), e)
  {
    var p := m.dests[d].relay;
    LinkKeepsRing(m, p.c, ev, e);
    PartInSuffix(e, p.load, p.n);
    ReverseKnown(m, p.c, p.load, e);
    LoadsAppend(e, m.queue, [p.load]);
    assert [p.load][0] == p.load;
    ConnMoves(m, FlushFails(m, d, p, ev), p.c, d, e);
  }

  lemma WriteSafe(m: Mux, d: nat, ok: bool, reached: bool, e: EntryRef)
    requires WellFormed(m) && Safe(m, e) && d < |m.dests|
    ensures Safe(WriteStep(m, d, ok, reached), e)
  {
    var p := m.dests[d].relay;
    if p.Writing? {
      if p.n >= |p.load| {
        RelayMoves(m, WriteStep(m, d, ok, reached), d, e);
      } else if p.src.Queue? && !ok {
        WriteFailedFromQueue(m, d, reached, e);
      } else if p.load[p.n].Some? {
        if ok {
          WriteOkSafe(m, d, reached, e);
        } else {
          WriteFailedFromFeeder(m, d, reached, e);
        }
      }
    }
  }

  lemma NegotiateSafe(m: Mux, d: nat, ok: bool, srv: Servers, e: EntryRef)
    requires Shape(m) && Safe(m, e) && d < |m.dests|
    ensures Safe(NegotiateStep(m, d, ok, srv), e)
  {
    var p := m.dests[d].relay;
    var m' := NegotiateStep(m, d, ok, srv);
    if p.Translating? && m' != m {
      if m'.conns == m.conns {
        UntranslatableSafe(m, d, e);
      } else {
        ConnMoves(m, m', p.c, d, e);
      }
    }
  }

  // Ejecting, recycling and reconnecting

  lemma RecycleSafe(m: Mux, d: nat, toQueue: bool, next: Phase, e: EntryRef)
    requires Shape(m) && Safe(m, e) && d < |m.dests|
    requires m.dests[d].relay.Failing? || m.dests[d].relay.Returning?
    ensures Safe(SetRelay(Push(m, m.dests[d].relay.rest, toQueue), d, next), e)
  {
    PushHolds(m, m.dests[d].relay.rest, toQueue, e);
    RelayMoves(m, SetRelay(Push(m, m.dests[d].relay.rest, toQueue), d, next), d, e);
  }

  lemma RecycleReapedSafe(m: Mux, d: nat, toQueue: bool, e: EntryRef)
    requires Shape(m) && Safe(m, e) && d < |m.dests|
    ensures var w := m.dests[d];
            Safe(Push(m, w.reaped, toQueue).(dests := m.dests[d := w.(reaped := [])]), e)
  {
    var w := m.dests[d];
    var m' := Push(m, w.reaped, toQueue).(dests := m.dests[d := w.(reaped := [])]);
    PushHolds(m, w.reaped, toQueue, e);
    var p :| At(m, p, e);
    var p' := if p == Reaped(d) then (if toQueue then Parked else Feed) else p;
    assert At(m', p', e);
    if !KnownTag(m, TagOf(m.tags, e)) {
      var q :| Marked(m, q, e);
      assert Marked(m', q, e);
    }
  }

  /** The ring of a connection moves, tags reversed, into somebody's hand. */
  lemma EjectedSafe(m: Mux, m': Mux, c: nat, d: nat, hand: Place, e: EntryRef)
    requires Shape(m) && Safe(m, e) && c < |m.conns| == |m'.conns| && d < |m.dests| == |m'.dests|
    requires m'.names == m.names && m'.feed == m.feed && m'.queue == m.queue
    requires m'.tags == ReverseLoad(m.tags, m.conns[c].tt, AsLoad(m.conns[c].link.ring))
    requires forall x :: 0 <= x < |m.conns| && x != c ==> m'.conns[x].link == m.conns[x].link
    requires m'.conns[c].link.net.receipts == m.conns[c].link.net.receipts
    requires forall x :: 0 <= x < |m.dests| && x != d ==> m'.dests[x] == m.dests[x]
    requires !InHand(e, m.dests[d].relay)
    requires m'.dests[d].reaped == m.dests[d].reaped || m.dests[d].reaped == []
    requires At(m, Ring(c), e) ==> At(m', hand, e)
    ensures Safe(m', e)
  {
    ReverseKnown(m, c, AsLoad(m.conns[c].link.ring), e);
    if At(m, Ring(c), e) {
      InAsLoad(m.conns[c].link.ring, e);
    }
    var p :| At(m, p, e);
    assert At(m', if p == Ring(c) then hand else p, e);
    if !KnownTag(m', TagOf(m'.tags, e)) {
      var q :| Marked(m, q, e);
      TranslatedInHand(m, q, e);
      assert Marked(m', q, e);
    }
  }

  lemma InAsLoad(ring: seq<Link.Pending>, e: EntryRef)
    requires InRing(e, ring)
    ensures Some(e) in AsLoad(ring)
  {
    var i :| 0 <= i < |ring| && ring[i].ent == e;
    assert AsLoad(ring)[i] == Some(e);
  }

  lemma EjectSafe(m: Mux, d: nat, e: EntryRef)
    requires Shape(m) && Safe(m, e) && d < |m.dests|
    ensures Safe(EjectStep(m, d), e)
  {
    var p := m.dests[d].relay;
    if p.Closing? {
      if At(m, Ring(p.c), e) {
        InAsLoad(m.conns[p.c].link.ring, e);
      }
      EjectedSafe(m, EjectStep(m, d), p.c, d, Relay(d), e);
    }
  }

  lemma ReapSafe(m: Mux, d: nat, e: EntryRef)
    requires Shape(m) && Safe(m, e) && d < |m.dests|
    ensures Safe(ReapStep(m, d), e)
  {
    var m' := ReapStep(m, d);
    if m' != m {
      var c := m.dests[d].conn.value;
      if At(m, Ring(c), e) {
        InAsLoad(m.conns[c].link.ring, e);
      }
      EjectedSafe(m, m', c, d, Reaped(d), e);
    }
  }

  /** Steps that leave every place an entry can be as it was. */
  lemma SamePlaces(m: Mux, m': Mux, e: EntryRef)
    requires Safe(m, e)
    requires m'.tags == m.tags && m'.feed == m.feed && m'.queue == m.queue && m.names <= m'.names
    requires |m.conns| <= |m'.conns| && |m'.dests| == |m.dests|
    requires forall c :: 0 <= c < |m.conns| ==> m'.conns[c].link == m.conns[c].link
    requires forall d :: 0 <= d < |m.dests| ==> m'.dests[d].reaped == m.dests[d].reaped
    requires forall d :: 0 <= d < |m.dests| ==> m'.dests[d].relay == m.dests[d].relay || !InHand(e, m.dests[d].relay)
    ensures Safe(m', e)
  {
    var p :| At(m, p, e);
    assert At(m', p, e);
    if !KnownTag(m', TagOf(m'.tags, e)) {
      var q :| Marked(m, q, e);
      TranslatedInHand(m, q, e);
      assert Marked(m', q, e);
    }
  }

  lemma TranslatedInHand(m: Mux, q: Place, e: EntryRef)
    requires Marked(m, q, e)
    ensures At(m, q, e)
  {
  }

  lemma ReconnectSafe(m: Mux, ev: Event, srv: Servers, e: EntryRef)
    requires ev.EjectConn? || ev.Reap? || ev.RecycleReaped? || ev.Dial? || ev.Install? || ev.HandOver?
    requires ev.d < |m.dests| && Shape(m) && Safe(m, e)
    ensures Safe(DestStep(m, ev, srv), e)
  {
    match ev {
      case EjectConn(_) => EjectSafe(m, ev.d, e);
      case Reap(_) => ReapSafe(m, ev.d, e);
      case RecycleReaped(_, toQueue) => RecycleReapedSafe(m, ev.d, toQueue, e);
      case Dial(_) => SamePlaces(m, DestStep(m, ev, srv), e);
      case Install(_) => SamePlaces(m, DestStep(m, ev, srv), e);
      case HandOver(_) => SamePlaces(m, DestStep(m, ev, srv), e);
    }
  }

  lemma SelectSafe(m: Mux, ev: Event, srv: Servers, e: EntryRef)
    requires ev.Receive? || ev.PopQueue? || ev.Recycle? || ev.ClearDone? || ev.Tick? || ev.Fault?
    requires ev.d < |m.dests| && Shape(m) && Safe(m, e)
    ensures Safe(DestStep(m, ev, srv), e)
  {
    var d := ev.d;
    var p := m.dests[d].relay;
    match ev {
      case Receive(_, i) => if p.Ready? && i < |m.feed| { ReceiveSafe(m, d, i, e); }
      case PopQueue(_) => if p.Clearing? && m.queue != [] { PopQueueSafe(m, d, e); }
      case Recycle(_, toQueue) =>
        if p.Failing? {
          RecycleSafe(m, d, toQueue, Closing(p.c), e);
        } else if p.Returning? {
          RecycleSafe(m, d, toQueue, Waiting, e);
        }
      case ClearDone(_, _) => SamePlaces(m, DestStep(m, ev, srv), e);
      case Tick(_) => SamePlaces(m, DestStep(m, ev, srv), e);
      case Fault(_) => SamePlaces(m, DestStep(m, ev, srv), e);
    }
  }

  lemma DestStepSafe(m: Mux, ev: Event, srv: Servers, e: EntryRef)
    requires !ev.Admit? && !ev.NewTag? && !ev.OnLink? && ev.d < |m.dests|
    requires WellFormed(m) && Safe(m, e)
    ensures Safe(DestStep(m, ev, srv), e)
  {
    if ev.TranslateOne? {
      TranslateSafe(m, ev.d, e);
    } else if ev.Negotiate? {
      NegotiateSafe(m, ev.d, ev.ok, srv, e);
    } else if ev.WriteOne? {
      WriteSafe(m, ev.d, ev.ok, ev.reached, e);
    } else if ev.Receive? || ev.PopQueue? || ev.Recycle? || ev.ClearDone? || ev.Tick? || ev.Fault? {
      SelectSafe(m, ev, srv, e);
    } else {
      ReconnectSafe(m, ev, srv, e);
    }
  }

  // Admission

  lemma {:induction false} TagsOfKeys(ents: seq<(EntryRef, Tag)>, e: EntryRef)
    ensures e in TagsOf(ents) <==> exists i :: 0 <= i < |ents| && ents[i].0 == e
    ensures e in TagsOf(ents) ==> exists i :: 0 <= i < |ents| && ents[i] == (e, TagsOf(ents)[e])
  {
    if ents != [] {
      var front := ents[..|ents| - 1];
      TagsOfKeys(front, e);
      if e in TagsOf(front) {
        var i :| 0 <= i < |front| && front[i] == (e, TagsOf(front)[e]);
        assert ents[i] == front[i];
      }
      assert ents[|ents| - 1].0 == e ==> ents[|ents| - 1] == (e, TagsOf(ents)[e]);
    }
  }

  lemma AdmitSafe(m: Mux, ents: seq<(EntryRef, Tag)>, e: EntryRef)
    requires e in m.home ==> Safe(m, e)
    requires e in AdmitStep(m, ents).home
    ensures Safe(AdmitStep(m, ents), e)
  {
    var m' := AdmitStep(m, ents);
    if m' != m {
      LoadsAppend(e, m.feed, [LoadOf(ents)]);
      if e in m.home {
        AdmittedOther(m, ents, e);
        var p :| At(m, p, e);
        assert At(m', p, e);
        if !KnownTag(m', TagOf(m'.tags, e)) {
          var q :| Marked(m, q, e);
          assert Marked(m', q, e);
        }
      } else {
        TagsOfKeys(ents, e);
        var i :| 0 <= i < |ents| && ents[i] == (e, TagsOf(ents)[e]);
        assert LoadOf(ents)[i] == Some(e) && [LoadOf(ents)][0] == LoadOf(ents);
        assert At(m', Feed, e);
      }
    }
  }

  lemma AdmittedOther(m: Mux, ents: seq<(EntryRef, Tag)>, e: EntryRef)
    requires e in m.home && AdmitStep(m, ents) != m
    ensures var m' := AdmitStep(m, ents);
            TagOf(m'.tags, e) == TagOf(m.tags, e) && e in m'.home && m'.home[e] == m.home[e]
  {
    TagsOfKeys(ents, e);
  }

  // Well-formedness

  ghost predicate ConnOk(m: Mux, k: Conn) {
    Link.Inv(k.link) && 0 < |k.tt.active| <= |m.names|
  }

  /** Enough for a step of one destination to leave the muxer well formed. */
  lemma StaysWellFormed(m: Mux, m': Mux, d: nat)
    requires WellFormed(m) && m'.names == m.names && |m.conns| <= |m'.conns| && |m'.dests| == |m.dests|
    requires forall c :: 0 <= c < |m'.conns| ==> (c < |m.conns| && m'.conns[c] == m.conns[c]) || ConnOk(m, m'.conns[c])
    requires forall x :: 0 <= x < |m.dests| && x != d ==> m'.dests[x] == m.dests[x]
    requires d < |m.dests| ==> DestOk(m', m'.dests[d])
    ensures WellFormed(m')
  {
    forall c | 0 <= c < |m'.conns| ensures ConnOk(m', m'.conns[c]) {
    }
    forall x | 0 <= x < |m'.dests| ensures DestOk(m', m'.dests[x]) {
      assert x != d ==> DestOk(m, m.dests[x]);
    }
  }

  lemma LinkStepOk(m: Mux, c: nat, ev: Link.Event)
    requires WellFormed(m) && c < |m.conns|
    ensures ConnOk(m, m.conns[c].(link := Link.Step(m.conns[c].link, ev)))
  {
    Link.StepKeepsInv(m.conns[c].link, ev);
  }

  /** A step of a relay that touches no connection. */
  lemma RelayStaysWellFormed(m: Mux, m': Mux, d: nat)
    requires WellFormed(m) && d < |m.dests| == |m'.dests| && m'.names == m.names && m'.conns == m.conns
    requires forall x :: 0 <= x < |m.dests| && x != d ==> m'.dests[x] == m.dests[x]
    requires m'.dests[d].conn == m.dests[d].conn && m'.dests[d].dialed == m.dests[d].dialed
    requires PhaseOk(m, m'.dests[d].relay)
    ensures WellFormed(m')
  {
    assert DestOk(m, m.dests[d]);
    StaysWellFormed(m, m', d);
  }

  lemma UntranslatableWellFormed(m: Mux, d: nat)
    requires WellFormed(m) && d < |m.dests|
    requires var p := m.dests[d].relay; p.Translating? && p.k < |p.load| && p.load[p.k].Some? && p.c < |m.conns|
    ensures WellFormed(Untranslatable(m, d, m.dests[d].relay))
  {
    RelayStaysWellFormed(m, Untranslatable(m, d, m.dests[d].relay), d);
  }

  lemma TranslateWellFormed(m: Mux, d: nat)
    requires WellFormed(m) && d < |m.dests|
    ensures WellFormed(TranslateStep(m, d))
  {
    var p := m.dests[d].relay;
    var m' := TranslateStep(m, d);
    assert DestOk(m, m.dests[d]);
    if p.Translating? && p.k < |p.load| && p.load[p.k].Some? && m' == Untranslatable(m, d, p) {
      UntranslatableWellFormed(m, d);
    } else if m' != m {
      RelayStaysWellFormed(m, m', d);
    }
  }

  lemma SetLinkWellFormed(m: Mux, c: nat, ev: Link.Event)
    requires WellFormed(m) && c < |m.conns|
    ensures WellFormed(SetLink(m, c, Link.Step(m.conns[c].link, ev)))
  {
    Link.StepKeepsInv(m.conns[c].link, ev);
    NewLinkWellFormed(m, c, Link.Step(m.conns[c].link, ev));
  }

  lemma NewLinkWellFormed(m: Mux, c: nat, l: Link.Link)
    requires WellFormed(m) && c < |m.conns| && Link.Inv(l)
    ensures WellFormed(SetLink(m, c, l))
  {
    StaysWellFormed(m, SetLink(m, c, l), |m.dests|);
  }

  lemma SetRelayWellFormed(m: Mux, d: nat, p: Phase)
    requires WellFormed(m) && d < |m.dests| && PhaseOk(m, p)
    ensures WellFormed(SetRelay(m, d, p))
  {
    RelayStaysWellFormed(m, SetRelay(m, d, p), d);
  }

  lemma WriteOkWellFormed(m: Mux, d: nat, reached: bool)
    requires WellFormed(m) && d < |m.dests|
    ensures WellFormed(WriteStep(m, d, true, reached))
  {
    var p := m.dests[d].relay;
    assert DestOk(m, m.dests[d]);
    if p.Writing? && p.n >= |p.load| {
      SetRelayWellFormed(m, d, if p.src.Feeder? then Ready(p.c) else Clearing(p.c, p.src.newConn));
    } else if p.Writing? && p.load[p.n].Some? {
      var ev := Link.Send(p.load[p.n].value, TagOf(m.tags, p.load[p.n].value));
      SetLinkWellFormed(m, p.c, ev);
      SetRelayWellFormed(SetLink(m, p.c, Link.Step(m.conns[p.c].link, ev)), d, p.(n := p.n + 1));
    }
  }

  lemma WriteFailedWellFormed(m: Mux, d: nat, reached: bool)
    requires WellFormed(m) && d < |m.dests|
    ensures WellFormed(WriteStep(m, d, false, reached))
  {
    var p := m.dests[d].relay;
    assert DestOk(m, m.dests[d]);
    if p.Writing? && p.n >= |p.load| {
      SetRelayWellFormed(m, d, if p.src.Feeder? then Ready(p.c) else Clearing(p.c, p.src.newConn));
    } else if p.Writing? {
      var ev := if p.load[p.n].None? then Link.Break
                else Link.SendFailed(p.load[p.n].value, TagOf(m.tags, p.load[p.n].value), reached);
      SetLinkWellFormed(m, p.c, ev);
      var broken := SetLink(m, p.c, Link.Step(m.conns[p.c].link, ev));
      var tt := m.conns[p.c].tt;
      if p.src.Feeder? {
        RecycledWellFormed(broken, d, Failing(p.c, p.load[p.n..]), [], ReverseLoad(m.tags, tt, p.load[p.n..]));
      } else {
        RecycledWellFormed(broken, d, if p.src.newConn then Waiting else Closing(p.c), p.load,
                           ReverseLoad(m.tags, tt, p.load));
      }
    }
  }

  lemma RecycledWellFormed(m: Mux, d: nat, p: Phase, load: Load, tags: map<EntryRef, Tag>)
    requires WellFormed(m) && d < |m.dests| && PhaseOk(m, p)
    ensures WellFormed(SetRelay(m.(tags := tags), d, p))
    ensures WellFormed(SetRelay(Push(m.(tags := tags), load, true), d, p))
  {
    RelayStaysWellFormed(m, SetRelay(m.(tags := tags), d, p), d);
    RelayStaysWellFormed(m, SetRelay(Push(m.(tags := tags), load, true), d, p), d);
  }

  lemma NegotiateWellFormed(m: Mux, d: nat, ok: bool, srv: Servers)
    requires WellFormed(m) && d < |m.dests| && TablesFollow(m)
    ensures WellFormed(NegotiateStep(m, d, ok, srv))
  {
    var p := m.dests[d].relay;
    var m' := NegotiateStep(m, d, ok, srv);
    assert DestOk(m, m.dests[d]);
    if p.Translating? && m' != m {
      if m' == Untranslatable(m, d, p) {
        UntranslatableWellFormed(m, d);
      } else {
        StaysWellFormed(m, m', d);
      }
    }
  }

  /** Every pending tag of a translator is known under its local id. */
  ghost predicate TablesFollow(m: Mux) {
    forall c :: 0 <= c < |m.conns| ==> PendingOk(m.names, m.conns[c].tt.toNegotiate)
  }

  predicate PendingOk(names: seq<string>, us: seq<Unnegotiated>) {
    forall k :: 0 <= k < |us| ==> us[k].local < |names| && names[us[k].local] == us[k].name
  }

  lemma EjectWellFormed(m: Mux, d: nat)
    requires d < |m.dests| && WellFormed(m)
    ensures WellFormed(EjectStep(m, d)) && WellFormed(ReapStep(m, d))
  {
    var w := m.dests[d];
    assert DestOk(m, w);
    if w.relay.Closing? {
      LinkStepOk(m, w.relay.c, Link.Eject);
      StaysWellFormed(m, EjectStep(m, d), d);
    }
    if ReapStep(m, d) != m {
      LinkStepOk(m, w.conn.value, Link.Eject);
      StaysWellFormed(m, ReapStep(m, d), d);
    }
  }

  lemma DialWellFormed(m: Mux, d: nat, srv: Servers)
    requires d < |m.dests| && WellFormed(m)
    ensures WellFormed(DialStep(m, d, srv)) && WellFormed(InstallStep(m, d)) && WellFormed(HandOverStep(m, d))
  {
    assert DestOk(m, m.dests[d]);
    Link.StartInv();
    StaysWellFormed(m, DialStep(m, d, srv), d);
    StaysWellFormed(m, InstallStep(m, d), d);
    StaysWellFormed(m, HandOverStep(m, d), d);
  }

  lemma RelayWellFormed(m: Mux, ev: Event, srv: Servers)
    requires ev.Receive? || ev.PopQueue? || ev.Recycle? || ev.RecycleReaped? || ev.ClearDone? || ev.Tick? || ev.Fault?
    requires ev.d < |m.dests| && WellFormed(m)
    ensures WellFormed(DestStep(m, ev, srv))
  {
    assert DestOk(m, m.dests[ev.d]);
    RelayStaysWellFormed(m, DestStep(m, ev, srv), ev.d);
  }

  lemma DestStepWellFormed(m: Mux, ev: Event, srv: Servers)
    requires !ev.Admit? && !ev.NewTag? && !ev.OnLink? && ev.d < |m.dests|
    requires WellFormed(m) && TablesFollow(m)
    ensures WellFormed(DestStep(m, ev, srv))
  {
    if ev.Negotiate? {
      NegotiateWellFormed(m, ev.d, ev.ok, srv);
    } else if ev.TranslateOne? {
      TranslateWellFormed(m, ev.d);
    } else if ev.WriteOne? {
      if ev.ok {
        WriteOkWellFormed(m, ev.d, ev.reached);
      } else {
        WriteFailedWellFormed(m, ev.d, ev.reached);
      }
    } else if ev.EjectConn? || ev.Reap? {
      EjectWellFormed(m, ev.d);
    } else if ev.Dial? || ev.Install? || ev.HandOver? {
      DialWellFormed(m, ev.d, srv);
    } else {
      RelayWellFormed(m, ev, srv);
    }
  }

  lemma NewTagWellFormed(m: Mux, name: string)
    requires WellFormed(m) && TablesFollow(m)
    ensures WellFormed(NewTagStep(m, name)) && TablesFollow(NewTagStep(m, name))
  {
    var m' := NewTagStep(m, name);
    forall d | 0 <= d < |m'.dests| ensures DestOk(m', m'.dests[d]) {
      assert DestOk(m, m.dests[d]);
    }
    forall c | 0 <= c < |m'.conns| ensures PendingOk(m'.names, m'.conns[c].tt.toNegotiate) {
      assert PendingOk(m.names, m.conns[c].tt.toNegotiate);
    }
  }

  ghost predicate SameTables(m: Mux, m': Mux) {
    && m'.names == m.names && |m'.conns| == |m.conns|
    && forall c :: 0 <= c < |m.conns| ==> m'.conns[c].tt == m.conns[c].tt && m'.conns[c].dest == m.conns[c].dest
  }

  lemma TranslateTables(m: Mux, d: nat)
    requires d < |m.dests|
    ensures SameTables(m, TranslateStep(m, d))
  {
  }

  lemma WriteTables(m: Mux, d: nat, ok: bool, reached: bool)
    requires d < |m.dests|
    ensures SameTables(m, WriteStep(m, d, ok, reached))
  {
  }

  lemma NegotiateTables(m: Mux, d: nat, ok: bool, srv: Servers)
    requires d < |m.dests| && TablesFollow(m)
    ensures TablesFollow(NegotiateStep(m, d, ok, srv))
  {
    var p := m.dests[d].relay;
    var m' := NegotiateStep(m, d, ok, srv);
    if p.Translating? && m'.conns != m.conns {
      assert PendingOk(m.names, m.conns[p.c].tt.toNegotiate);
      assert m'.conns[p.c].tt.toNegotiate == m.conns[p.c].tt.toNegotiate[1..];
    }
  }

  lemma DestStepTables(m: Mux, ev: Event, srv: Servers)
    requires !ev.Admit? && !ev.NewTag? && !ev.OnLink? && ev.d < |m.dests| && TablesFollow(m)
    ensures TablesFollow(DestStep(m, ev, srv))
  {
    if ev.Negotiate? {
      NegotiateTables(m, ev.d, ev.ok, srv);
    } else if ev.TranslateOne? {
      TranslateTables(m, ev.d);
    } else if ev.WriteOne? {
      WriteTables(m, ev.d, ev.ok, ev.reached);
    } else if ev.Dial? {
      assert PendingOk(m.names, FreshTable(m, ev.d, srv).toNegotiate);
    } else {
      OthersKeepTables(m, ev, srv);
    }
  }

  lemma OthersKeepTables(m: Mux, ev: Event, srv: Servers)
    requires !ev.Admit? && !ev.NewTag? && !ev.OnLink? && ev.d < |m.dests|
    requires !ev.Negotiate? && !ev.TranslateOne? && !ev.WriteOne? && !ev.Dial?
    ensures SameTables(m, DestStep(m, ev, srv))
  {
  }

  // The theorem

  ghost predicate AllSafe(m: Mux) {
    WellFormed(m) && TablesFollow(m) && forall e :: e in m.home ==> Safe(m, e)
  }

  lemma AdmitAllSafe(m: Mux, ents: seq<(EntryRef, Tag)>)
    requires AllSafe(m)
    ensures AllSafe(AdmitStep(m, ents))
  {
    var m' := AdmitStep(m, ents);
    StaysWellFormed(m, m', |m.dests|);
    forall e | e in m'.home ensures Safe(m', e) {
      AdmitSafe(m, ents, e);
    }
  }

  lemma NewTagAllSafe(m: Mux, name: string)
    requires AllSafe(m)
    ensures AllSafe(NewTagStep(m, name))
  {
    var m' := NewTagStep(m, name);
    NewTagWellFormed(m, name);
    forall e | e in m'.home ensures Safe(m', e) {
      SamePlaces(m, m', e);
    }
  }

  lemma OnLinkAllSafe(m: Mux, c: nat, x: Link.Event)
    requires AllSafe(m) && c < |m.conns| && Spontaneous(x)
    ensures AllSafe(SetLink(m, c, Link.Step(m.conns[c].link, x)))
  {
    var m' := SetLink(m, c, Link.Step(m.conns[c].link, x));
    OnLinkWellFormed(m, c, x);
    forall e | e in m'.home ensures Safe(m', e) {
      OnLinkSafe(m, c, x, e);
    }
  }

  lemma OnLinkWellFormed(m: Mux, c: nat, x: Link.Event)
    requires WellFormed(m) && TablesFollow(m) && c < |m.conns|
    ensures var m' := SetLink(m, c, Link.Step(m.conns[c].link, x)); WellFormed(m') && TablesFollow(m')
  {
    SetLinkWellFormed(m, c, x);
  }

  lemma DestStepAllSafe(m: Mux, ev: Event, srv: Servers)
    requires AllSafe(m) && !ev.Admit? && !ev.NewTag? && !ev.OnLink? && ev.d < |m.dests|
    ensures AllSafe(DestStep(m, ev, srv))
  {
    DestStepWellFormed(m, ev, srv);
    DestStepTables(m, ev, srv);
    forall e | e in DestStep(m, ev, srv).home ensures Safe(DestStep(m, ev, srv), e) {
      DestStepSafe(m, ev, srv, e);
    }
  }

  lemma StepSafe(m: Mux, ev: Event, srv: Servers)
    requires AllSafe(m)
    ensures AllSafe(Step(m, ev, srv))
  {
    if ev.Admit? {
      AdmitAllSafe(m, ev.ents);
    } else if ev.NewTag? {
      NewTagAllSafe(m, ev.name);
    } else if ev.OnLink? {
      if ev.c < |m.conns| && Spontaneous(ev.ev) {
        OnLinkAllSafe(m, ev.c, ev.ev);
      }
    } else if ev.d < |m.dests| {
      DestStepAllSafe(m, ev, srv);
    }
  }

  lemma {:induction false} RunSafe(m: Mux, evs: seq<Event>, srv: Servers)
    requires AllSafe(m)
    ensures AllSafe(Run(m, evs, srv))
    decreases |evs|
  {
    if evs != [] && !Crashes(m, evs[0], srv) {
      StepSafe(m, evs[0], srv);
      RunSafe(Step(m, evs[0], srv), evs[1..], srv);
    }
  }
}
