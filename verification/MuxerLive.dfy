/** Which connections a destination answers for: a ring with entries in it always
    belongs to a connection that its destination still holds, so it will be
    ejected and recycled if that connection dies. */
module MuxerLive {
  import opened Wrappers
  import Link
  import opened Tags
  import opened Muxers
  import opened MuxerDelivery

  /** The relay works on a connection. */
  predicate AtWork(p: Phase) {
    !p.Waiting? && !p.Returning?
  }

  predicate DestLive(conns: seq<Conn>, d: nat, w: Dest) {
    && (AtWork(w.relay) ==> w.conn == Some(w.relay.c))
    && (w.dialed.Some? ==>
          && w.conn.None? && w.relay.Waiting? && w.dialed.value < |conns|
          && conns[w.dialed.value].dest == d && conns[w.dialed.value].link.ring == [])
    && (w.conn.Some? ==> w.conn.value < |conns| && conns[w.conn.value].dest == d)
  }

  /** Connection c is the one its destination holds. */
  predicate Held(m: Mux, c: nat) {
    c < |m.conns| && m.conns[c].dest < |m.dests| && m.dests[m.conns[c].dest].conn == Some(c)
  }

  predicate Live(m: Mux) {
    && (forall d :: 0 <= d < |m.dests| ==> DestLive(m.conns, d, m.dests[d]))
    && (forall c :: 0 <= c < |m.conns| && m.conns[c].link.ring != [] ==> Held(m, c))
  }

  /** Connections keep their destination, and only those of d change their ring. */
  predicate ConnsOf(m: Mux, m': Mux, d: nat) {
    && |m.conns| <= |m'.conns|
    && (forall c :: 0 <= c < |m.conns| ==>
          m'.conns[c].dest == m.conns[c].dest &&
          (m'.conns[c].link.ring == m.conns[c].link.ring || m'.conns[c].link.ring == [] || m.conns[c].dest == d))
    && (forall c :: |m.conns| <= c < |m'.conns| ==> m'.conns[c].link.ring == [])
  }

  lemma StaysLive(m: Mux, m': Mux, d: nat)
    requires Live(m) && |m'.dests| == |m.dests| && ConnsOf(m, m', d)
    requires forall x :: 0 <= x < |m.dests| && x != d ==> m'.dests[x] == m.dests[x]
    requires d < |m.dests| ==> DestLive(m'.conns, d, m'.dests[d])
    requires forall c :: 0 <= c < |m.conns| && m.conns[c].dest == d && m'.conns[c].link.ring != [] ==> Held(m', c)
    ensures Live(m')
  {
    forall x | 0 <= x < |m'.dests| ensures DestLive(m'.conns, x, m'.dests[x]) {
      assert x != d ==> DestLive(m.conns, x, m.dests[x]);
    }
    forall c | 0 <= c < |m'.conns| && m'.conns[c].link.ring != [] ensures Held(m', c) {
      if m.conns[c].dest != d {
        assert Held(m, c);
      }
    }
  }

  /** Destination d keeps the connection it holds, if any. */
  lemma SameConn(m: Mux, m': Mux, d: nat)
    requires Live(m) && d < |m.dests| == |m'.dests| && ConnsOf(m, m', d)
    requires forall x :: 0 <= x < |m.dests| && x != d ==> m'.dests[x] == m.dests[x]
    requires m'.dests[d].conn == m.dests[d].conn && DestLive(m'.conns, d, m'.dests[d])
    requires forall c :: 0 <= c < |m.conns| && m.conns[c].dest == d && m.conns[c].link.ring == [] ==>
               m'.conns[c].link.ring == [] || m.dests[d].conn == Some(c)
    ensures Live(m')
  {
    forall c | 0 <= c < |m.conns| && m.conns[c].dest == d && m'.conns[c].link.ring != [] ensures Held(m', c) {
      assert m.conns[c].link.ring != [] ==> Held(m, c);
    }
    StaysLive(m, m', d);
  }

  lemma UntranslatableLive(m: Mux, d: nat)
    requires Live(m) && d < |m.dests|
    requires var p := m.dests[d].relay; p.Translating? && p.k < |p.load| && p.load[p.k].Some? && p.c < |m.conns|
    ensures Live(Untranslatable(m, d, m.dests[d].relay))
  {
    assert DestLive(m.conns, d, m.dests[d]);
    SameConn(m, Untranslatable(m, d, m.dests[d].relay), d);
  }

  lemma TranslateLive(m: Mux, d: nat)
    requires Live(m) && d < |m.dests|
    ensures Live(TranslateStep(m, d))
  {
    var p := m.dests[d].relay;
    var m' := TranslateStep(m, d);
    assert DestLive(m.conns, d, m.dests[d]);
    if p.Translating? && p.k < |p.load| && p.load[p.k].Some? && m' == Untranslatable(m, d, p) {
      UntranslatableLive(m, d);
    } else {
      SameConn(m, m', d);
    }
  }

  lemma NegotiateLive(m: Mux, d: nat, ok: bool, srv: Servers)
    requires Live(m) && d < |m.dests|
    ensures Live(NegotiateStep(m, d, ok, srv))
  {
    var p := m.dests[d].relay;
    var m' := NegotiateStep(m, d, ok, srv);
    assert DestLive(m.conns, d, m.dests[d]);
    if p.Translating? && m' != m {
      if m'.conns == m.conns {
        UntranslatableLive(m, d);
      } else {
        SameConn(m, m', d);
      }
    }
  }

  lemma WriteLive(m: Mux, d: nat, ok: bool, reached: bool)
    requires Live(m) && d < |m.dests|
    ensures Live(WriteStep(m, d, ok, reached))
  {
    var p := m.dests[d].relay;
    assert DestLive(m.conns, d, m.dests[d]);
    if p.Writing? && p.c < |m.conns| {
      WriteFrame(m, d, ok, reached);
      SameConn(m, WriteStep(m, d, ok, reached), d);
    }
  }

  lemma WriteFrame(m: Mux, d: nat, ok: bool, reached: bool)
    requires d < |m.dests| && m.dests[d].relay.Writing? && m.dests[d].relay.c < |m.conns|
    ensures var c := m.dests[d].relay.c;
            var m' := WriteStep(m, d, ok, reached);
            && m'.conns == m.conns[c := m.conns[c].(link := m'.conns[c].link)]
            && m'.dests == m.dests[d := m.dests[d].(relay := m'.dests[d].relay)]
            && (var p := m'.dests[d].relay; p.Waiting? || p.c == c)
  {
  }

  lemma EjectLive(m: Mux, d: nat)
    requires Live(m) && d < |m.dests|
    ensures Live(EjectStep(m, d))
  {
    assert DestLive(m.conns, d, m.dests[d]);
    SameConn(m, EjectStep(m, d), d);
  }

  lemma ReapLive(m: Mux, d: nat)
    requires Live(m) && d < |m.dests|
    ensures Live(ReapStep(m, d))
  {
    assert DestLive(m.conns, d, m.dests[d]);
    var m' := ReapStep(m, d);
    forall c | 0 <= c < |m.conns| && m.conns[c].dest == d && m'.conns[c].link.ring != [] ensures Held(m', c) {
      assert m.conns[c].link.ring != [] ==> Held(m, c);
    }
    StaysLive(m, m', d);
  }

  lemma DialLive(m: Mux, d: nat, srv: Servers)
    requires Live(m) && d < |m.dests|
    ensures Live(DialStep(m, d, srv)) && Live(HandOverStep(m, d))
  {
    assert DestLive(m.conns, d, m.dests[d]);
    SameConn(m, DialStep(m, d, srv), d);
    SameConn(m, HandOverStep(m, d), d);
  }

  lemma InstallLive(m: Mux, d: nat)
    requires Live(m) && d < |m.dests|
    ensures Live(InstallStep(m, d))
  {
    assert DestLive(m.conns, d, m.dests[d]);
    var m' := InstallStep(m, d);
    forall c | 0 <= c < |m.conns| && m.conns[c].dest == d && m'.conns[c].link.ring != [] ensures Held(m', c) {
      assert m.conns[c].link.ring != [] ==> Held(m, c);
    }
    StaysLive(m, m', d);
  }

  /** Steps of a relay that touch no connection. */
  lemma RelayLive(m: Mux, ev: Event, srv: Servers)
    requires ev.Receive? || ev.PopQueue? || ev.Recycle? || ev.RecycleReaped? || ev.ClearDone? || ev.Tick? || ev.Fault?
    requires Live(m) && ev.d < |m.dests|
    ensures Live(DestStep(m, ev, srv))
  {
    assert DestLive(m.conns, ev.d, m.dests[ev.d]);
    RelayKeepsConn(m, ev, srv);
    SameConn(m, DestStep(m, ev, srv), ev.d);
  }

  ghost predicate KeepsConn(m: Mux, m': Mux, d: nat)
    requires d < |m.dests|
  {
    && m'.conns == m.conns && |m'.dests| == |m.dests| && m'.dests == m.dests[d := m'.dests[d]]
    && m'.dests[d].conn == m.dests[d].conn && DestLive(m'.conns, d, m'.dests[d])
  }

  lemma RelayKeepsConn(m: Mux, ev: Event, srv: Servers)
    requires ev.Receive? || ev.PopQueue? || ev.Recycle? || ev.RecycleReaped? || ev.ClearDone? || ev.Tick? || ev.Fault?
    requires ev.d < |m.dests| && DestLive(m.conns, ev.d, m.dests[ev.d])
    ensures KeepsConn(m, DestStep(m, ev, srv), ev.d)
  {
    if ev.Recycle? || ev.RecycleReaped? {
      RecycleKeepsConn(m, ev, srv);
    }
  }

  lemma RecycleKeepsConn(m: Mux, ev: Event, srv: Servers)
    requires ev.Recycle? || ev.RecycleReaped?
    requires ev.d < |m.dests| && DestLive(m.conns, ev.d, m.dests[ev.d])
    ensures KeepsConn(m, DestStep(m, ev, srv), ev.d)
  {
  }

  lemma DestStepLive(m: Mux, ev: Event, srv: Servers)
    requires !ev.Admit? && !ev.NewTag? && !ev.OnLink? && ev.d < |m.dests| && Live(m)
    ensures Live(DestStep(m, ev, srv))
  {
    if ev.Negotiate? {
      NegotiateLive(m, ev.d, ev.ok, srv);
    } else if ev.TranslateOne? {
      TranslateLive(m, ev.d);
    } else if ev.WriteOne? {
      WriteLive(m, ev.d, ev.ok, ev.reached);
    } else if ev.EjectConn? {
      EjectLive(m, ev.d);
    } else if ev.Reap? {
      ReapLive(m, ev.d);
    } else if ev.Install? {
      InstallLive(m, ev.d);
    } else if ev.Dial? || ev.HandOver? {
      DialLive(m, ev.d, srv);
    } else {
      RelayLive(m, ev, srv);
    }
  }

  /** Acknowledgements only shorten a ring. */
  lemma OnLinkLive(m: Mux, c: nat, x: Link.Event)
    requires Live(m) && c < |m.conns| && Spontaneous(x)
    ensures Live(SetLink(m, c, Link.Step(m.conns[c].link, x)))
  {
    var l' := Link.Step(m.conns[c].link, x);
    assert m.conns[c].link.ring == [] ==> l'.ring == [];
    RingShrinksLive(m, c, l');
  }

  lemma RingShrinksLive(m: Mux, c: nat, l: Link.Link)
    requires Live(m) && c < |m.conns| && (m.conns[c].link.ring == [] ==> l.ring == [])
    ensures Live(SetLink(m, c, l))
  {
    var m' := SetLink(m, c, l);
    forall d | 0 <= d < |m'.dests| ensures DestLive(m'.conns, d, m'.dests[d]) {
      assert DestLive(m.conns, d, m.dests[d]);
    }
    forall x | 0 <= x < |m'.conns| && m'.conns[x].link.ring != [] ensures Held(m', x) {
      assert Held(m, x);
    }
  }

  lemma NewTagLive(m: Mux, name: string)
    requires Live(m)
    ensures Live(NewTagStep(m, name))
  {
    var m' := NewTagStep(m, name);
    forall d | 0 <= d < |m'.dests| ensures DestLive(m'.conns, d, m'.dests[d]) {
      assert DestLive(m.conns, d, m.dests[d]);
    }
    forall x | 0 <= x < |m'.conns| && m'.conns[x].link.ring != [] ensures Held(m', x) {
      assert Held(m, x);
    }
  }

  lemma StepLive(m: Mux, ev: Event, srv: Servers)
    requires Live(m)
    ensures Live(Step(m, ev, srv))
  {
    if ev.Admit? {
      StaysLive(m, Step(m, ev, srv), |m.dests|);
    } else if ev.NewTag? {
      NewTagLive(m, ev.name);
    } else if ev.OnLink? {
      if ev.c < |m.conns| && Spontaneous(ev.ev) {
        OnLinkLive(m, ev.c, ev.ev);
      }
    } else if ev.d < |m.dests| {
      DestStepLive(m, ev, srv);
    }
  }

  lemma {:induction false} RunLive(m: Mux, evs: seq<Event>, srv: Servers)
    requires Live(m)
    ensures Live(Run(m, evs, srv))
    decreases |evs|
  {
    if evs != [] && !Crashes(m, evs[0], srv) {
      StepLive(m, evs[0], srv);
      RunLive(Step(m, evs[0], srv), evs[1..], srv);
    }
  }

  /** In every run of the muxer, whatever connections fail, tags appear or
      batches are cut short, each admitted entry has been read by an indexer or is
      in a channel, the emergency queue, a relay's or connection routine's hand,
      or the ring of the connection its destination holds. A run goes as far as the
      process lives (see Muxers.Crashes). */
  lemma AtLeastOnce(names: seq<string>, dests: nat, evs: seq<Event>, srv: Servers, e: EntryRef)
    requires 0 < |names| <= MAX_TAG_ID
    requires e in Run(Start(names, dests), evs, srv).home
    ensures var m := Run(Start(names, dests), evs, srv);
            exists p :: At(m, p, e) && (p.Ring? ==> Held(m, p.c))
  {
    var m := Run(Start(names, dests), evs, srv);
    assert AllSafe(Start(names, dests));
    RunSafe(Start(names, dests), evs, srv);
    assert Live(Start(names, dests));
    RunLive(Start(names, dests), evs, srv);
    assert Safe(m, e);
    var p :| At(m, p, e);
    if p.Ring? {
      assert m.conns[p.c].link.ring != [];
    }
    assert At(m, p, e) && (p.Ring? ==> Held(m, p.c));
  }
}
