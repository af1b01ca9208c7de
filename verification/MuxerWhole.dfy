/** Empty slots: a batch gets one only when an entry is dropped, and a relay that
    meets one brings the process down. */
module MuxerWhole {
  import opened Muxers
  import opened MuxerDelivery
  import opened MuxerTags

  predicate Whole(load: Load) {
    forall i :: 0 <= i < |load| ==> load[i].Some?
  }

  predicate HandWhole(p: Phase) {
    match p
    case Translating(_, load, _, _, _) => Whole(load)
    case Writing(_, load, _, _) => Whole(load)
    case Failing(_, rest) => Whole(rest)
    case Returning(rest) => Whole(rest)
    case _ => true
  }

  predicate DestWhole(w: Dest) {
    HandWhole(w.relay) && Whole(w.reaped)
  }

  /** No load anywhere in the muxer has an empty slot. */
  predicate HoleFree(m: Mux) {
    && (forall i :: 0 <= i < |m.feed| ==> Whole(m.feed[i]))
    && (forall i :: 0 <= i < |m.queue| ==> Whole(m.queue[i]))
    && (forall d :: 0 <= d < |m.dests| ==> DestWhole(m.dests[d]))
  }

  /** Without empty slots nothing crashes. */
  lemma WholeSurvives(m: Mux, ev: Event, srv: Servers)
    requires HoleFree(m)
    ensures !Crashes(m, ev, srv)
  {
    if (ev.WriteOne? || ev.TranslateOne? || ev.Negotiate?) && ev.d < |m.dests| {
      assert DestWhole(m.dests[ev.d]);
    }
  }

  /** Translating a load crashes exactly if the relay gives it up with an empty slot among
      those it has passed. */
  lemma GivingUpCrashes(m: Mux, d: nat, srv: Servers)
    requires d < |m.dests| && m.dests[d].relay.Translating? && m.dests[d].relay.c < |m.conns|
    ensures var p, p' := m.dests[d].relay, Step(m, TranslateOne(d), srv).dests[d].relay;
            Crashes(m, TranslateOne(d), srv) <==>
              && !p'.Translating? && !p'.Writing?
              && exists i :: 0 <= i < p.k && i < |p.load| && p.load[i].None?
  {
  }

  /** A step of destination d that adds at most whole loads. */
  lemma StaysWhole(m: Mux, m': Mux, d: nat)
    requires HoleFree(m) && d < |m.dests| == |m'.dests|
    requires forall x :: 0 <= x < |m.dests| && x != d ==> m'.dests[x] == m.dests[x]
    requires DestWhole(m'.dests[d])
    requires forall i :: 0 <= i < |m'.feed| ==> Whole(m'.feed[i])
    requires forall i :: 0 <= i < |m'.queue| ==> Whole(m'.queue[i])
    ensures HoleFree(m')
  {
  }

  lemma PushWhole(m: Mux, load: Load, toQueue: bool)
    requires HoleFree(m) && Whole(load)
    ensures var m' := Push(m, load, toQueue);
            && (forall i :: 0 <= i < |m'.feed| ==> Whole(m'.feed[i]))
            && (forall i :: 0 <= i < |m'.queue| ==> Whole(m'.queue[i]))
  {
  }

  /** The muxer knows the tag of the entry a relay is translating. */
  predicate NextKnown(m: Mux, d: nat)
    requires d < |m.dests|
  {
    var p := m.dests[d].relay;
    p.Translating? && p.k < |p.load| && p.load[p.k].Some? ==> KnownTag(m, TagOf(m.tags, p.load[p.k].value))
  }

  lemma UntranslatableWhole(m: Mux, d: nat)
    requires HoleFree(m) && d < |m.dests| && NextKnown(m, d)
    requires var p := m.dests[d].relay; p.Translating? && p.k < |p.load| && p.load[p.k].Some? && p.c < |m.conns|
    ensures HoleFree(Untranslatable(m, d, m.dests[d].relay))
  {
    var p := m.dests[d].relay;
    assert DestWhole(m.dests[d]);
    PushWhole(m.(tags := ReverseLoad(m.tags, m.conns[p.c].tt, p.load[..p.k])), p.load, true);
    StaysWhole(m, Untranslatable(m, d, p), d);
  }

  lemma TranslateWhole(m: Mux, d: nat)
    requires HoleFree(m) && d < |m.dests| && NextKnown(m, d)
    ensures HoleFree(TranslateStep(m, d))
  {
    var p := m.dests[d].relay;
    var m' := TranslateStep(m, d);
    assert DestWhole(m.dests[d]);
    if p.Translating? && p.c < |m.conns| && p.k < |p.load| && p.load[p.k].Some? && m' == Untranslatable(m, d, p) {
      UntranslatableWhole(m, d);
    } else {
      StaysWhole(m, m', d);
    }
  }

  lemma NegotiateWhole(m: Mux, d: nat, ok: bool, srv: Servers)
    requires HoleFree(m) && d < |m.dests| && NextKnown(m, d)
    ensures HoleFree(NegotiateStep(m, d, ok, srv))
  {
    var p := m.dests[d].relay;
    var m' := NegotiateStep(m, d, ok, srv);
    assert DestWhole(m.dests[d]);
    if p.Translating? && m' != m {
      if m'.conns == m.conns {
        UntranslatableWhole(m, d);
      } else {
        StaysWhole(m, m', d);
      }
    }
  }

  lemma WriteWhole(m: Mux, d: nat, ok: bool, reached: bool)
    requires HoleFree(m) && d < |m.dests|
    ensures HoleFree(WriteStep(m, d, ok, reached))
  {
    var p := m.dests[d].relay;
    assert DestWhole(m.dests[d]);
    if p.Writing? && p.c < |m.conns| {
      PushWhole(m, p.load, true);
      if p.src.Queue? && !ok && p.n < |p.load| {
        WriteFailedFrame(m, d, reached);
      }
      StaysWhole(m, WriteStep(m, d, ok, reached), d);
    }
  }

  lemma EjectWhole(m: Mux, d: nat)
    requires HoleFree(m) && d < |m.dests|
    ensures HoleFree(EjectStep(m, d)) && HoleFree(ReapStep(m, d))
  {
    assert DestWhole(m.dests[d]);
    StaysWhole(m, EjectStep(m, d), d);
    StaysWhole(m, ReapStep(m, d), d);
  }

  lemma ReconnectWhole(m: Mux, d: nat, srv: Servers)
    requires HoleFree(m) && d < |m.dests|
    ensures HoleFree(DialStep(m, d, srv)) && HoleFree(InstallStep(m, d)) && HoleFree(HandOverStep(m, d))
  {
    assert DestWhole(m.dests[d]);
    StaysWhole(m, DialStep(m, d, srv), d);
    StaysWhole(m, InstallStep(m, d), d);
    StaysWhole(m, HandOverStep(m, d), d);
  }

  lemma RelayWhole(m: Mux, ev: Event, srv: Servers)
    requires ev.Receive? || ev.PopQueue? || ev.ClearDone? || ev.Tick? || ev.Fault?
    requires HoleFree(m) && ev.d < |m.dests|
    ensures HoleFree(DestStep(m, ev, srv))
  {
    assert DestWhole(m.dests[ev.d]);
    StaysWhole(m, DestStep(m, ev, srv), ev.d);
  }

  lemma RecycleWhole(m: Mux, ev: Event, srv: Servers)
    requires (ev.Recycle? || ev.RecycleReaped?) && HoleFree(m) && ev.d < |m.dests|
    ensures HoleFree(DestStep(m, ev, srv))
  {
    var w := m.dests[ev.d];
    assert DestWhole(w);
    if ev.RecycleReaped? {
      PushWhole(m, w.reaped, ev.toQueue);
    } else if w.relay.Failing? || w.relay.Returning? {
      PushWhole(m, w.relay.rest, ev.toQueue);
    }
    StaysWhole(m, DestStep(m, ev, srv), ev.d);
  }

  lemma DestStepWhole(m: Mux, ev: Event, srv: Servers)
    requires !ev.Admit? && !ev.NewTag? && !ev.OnLink? && ev.d < |m.dests|
    requires HoleFree(m) && NextKnown(m, ev.d)
    ensures HoleFree(DestStep(m, ev, srv))
  {
    if ev.TranslateOne? {
      TranslateWhole(m, ev.d);
    } else if ev.Negotiate? {
      NegotiateWhole(m, ev.d, ev.ok, srv);
    } else if ev.WriteOne? {
      WriteWhole(m, ev.d, ev.ok, ev.reached);
    } else if ev.EjectConn? || ev.Reap? {
      EjectWhole(m, ev.d);
    } else if ev.Dial? || ev.Install? || ev.HandOver? {
      ReconnectWhole(m, ev.d, srv);
    } else if ev.Recycle? || ev.RecycleReaped? {
      RecycleWhole(m, ev, srv);
    } else {
      RelayWhole(m, ev, srv);
    }
  }

  /** On a clean state nothing is dropped, so nothing gets an empty slot. */
  lemma CleanStepWhole(m: Mux, ev: Event, srv: Servers)
    requires !ev.Admit? && !ev.NewTag? && !ev.OnLink? && ev.d < |m.dests|
    requires HoleFree(m) && Shape(m) && NextClean(m, ev.d)
    ensures HoleFree(DestStep(m, ev, srv))
  {
    var p := m.dests[ev.d].relay;
    if p.Translating? && p.k < |p.load| && p.load[p.k].Some? {
      NothingDropped(m, ev.d);
    }
    DestStepWhole(m, ev, srv);
  }

  lemma AdmitWhole(m: Mux, ents: seq<(EntryRef, Tag)>)
    requires HoleFree(m)
    ensures HoleFree(AdmitStep(m, ents))
  {
  }
}
