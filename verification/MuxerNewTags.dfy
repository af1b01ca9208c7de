/** Tags that appear while connections are up: an installed connection learns of each,
    and its relay negotiates them on the spot instead of giving the connection up. */
module MuxerNewTags {
  import opened Wrappers
  import opened Tags
  import opened Muxers
  import opened MuxerDelivery
  import opened MuxerLive
  import opened MuxerTags
  import opened MuxerWhole
  import opened MuxerTagRuns

  /** The pending tags of a translator continue its active ones, to the last tag known. */
  ghost predicate Covers(names: seq<string>, tt: TagTrans) {
    && |tt.active| + |tt.toNegotiate| == |names| <= MAX_TAG_ID
    && forall k :: 0 <= k < |tt.toNegotiate| ==>
         tt.toNegotiate[k] == Unnegotiated(|tt.active| + k, names[|tt.active| + k])
  }

  /** A connection is installed while its destination holds it, and not before. */
  predicate Installs(m: Mux) {
    |m.names| <= MAX_TAG_ID &&
    forall d :: 0 <= d < |m.dests| ==>
      && (m.dests[d].conn.Some? ==> m.dests[d].conn.value < |m.conns| && m.conns[m.dests[d].conn.value].installed)
      && (m.dests[d].dialed.Some? ==>
            && m.dests[d].dialed.value < |m.conns|
            && !m.conns[m.dests[d].dialed.value].installed
            && m.conns[m.dests[d].dialed.value].tt.toNegotiate == [])
  }

  /** Connection c has been installed and, while it is, misses no tag. */
  ghost predicate Learned(m: Mux, c: nat) {
    && c < |m.conns|
    && (forall d :: 0 <= d < |m.dests| ==> m.dests[d].dialed != Some(c))
    && (m.conns[c].installed ==> Covers(m.names, m.conns[c].tt))
  }

  // Every step keeps a connection informed

  /** The step leaves names, translators and connections held alone. */
  ghost predicate NothingInstalled(m: Mux, m': Mux) {
    && m'.names == m.names && |m'.conns| == |m.conns| && |m'.dests| == |m.dests|
    && (forall c :: 0 <= c < |m.conns| ==>
          m'.conns[c].tt == m.conns[c].tt && m'.conns[c].installed == m.conns[c].installed)
    && (forall d :: 0 <= d < |m.dests| ==>
          m'.dests[d].conn == m.dests[d].conn && m'.dests[d].dialed == m.dests[d].dialed)
  }

  lemma TranslateInstallsNothing(m: Mux, d: nat)
    requires d < |m.dests|
    ensures NothingInstalled(m, TranslateStep(m, d))
  {
  }

  lemma WriteInstallsNothing(m: Mux, d: nat, ok: bool, reached: bool)
    requires d < |m.dests|
    ensures NothingInstalled(m, WriteStep(m, d, ok, reached))
  {
    var p := m.dests[d].relay;
    if p.Writing? && p.c < |m.conns| {
      WriteFrame(m, d, ok, reached);
      WriteTables(m, d, ok, reached);
    }
  }

  lemma SelectInstallsNothing(m: Mux, ev: Event, srv: Servers)
    requires ev.Receive? || ev.PopQueue? || ev.EjectConn? || ev.HandOver? || ev.ClearDone? || ev.Tick? || ev.Fault?
    requires ev.d < |m.dests|
    ensures NothingInstalled(m, DestStep(m, ev, srv))
  {
  }

  lemma RecycleInstallsNothing(m: Mux, ev: Event, srv: Servers)
    requires (ev.Recycle? || ev.RecycleReaped?) && ev.d < |m.dests|
    ensures NothingInstalled(m, DestStep(m, ev, srv))
  {
    var w := m.dests[ev.d];
    if ev.RecycleReaped? {
      PushFrame(m, w.reaped, ev.toQueue);
    } else if w.relay.Failing? || w.relay.Returning? {
      PushFrame(m, w.relay.rest, ev.toQueue);
    }
  }

  lemma PushFrame(m: Mux, load: Load, toQueue: bool)
    ensures var m' := Push(m, load, toQueue); m' == m.(feed := m'.feed, queue := m'.queue)
  {
  }

  lemma StaysLearned(m: Mux, m': Mux, c: nat)
    requires NothingInstalled(m, m')
    ensures Installs(m) ==> Installs(m')
    ensures Learned(m, c) ==> Learned(m', c)
  {
  }

  /** One more exchange: the oldest pending tag has become the newest active one. */
  lemma ExchangeCovers(names: seq<string>, tt: TagTrans, remote: Tag)
    requires Covers(names, tt) && tt.toNegotiate != []
    ensures var u := tt.toNegotiate[0];
            && RegisterTag(tt, u.local, remote) == Ok(tt.(active := tt.active + [remote]))
            && var tt' := ClearToNegotiate(tt.(active := tt.active + [remote]), 1);
               tt' == TagTrans(tt.active + [remote], tt.toNegotiate[1..]) && Covers(names, tt')
  {
  }

  /** What an exchange can change. */
  lemma NegotiateFrame(m: Mux, d: nat, ok: bool, srv: Servers)
    requires d < |m.dests|
    ensures var m' := NegotiateStep(m, d, ok, srv);
            var p := m.dests[d].relay;
            || NothingInstalled(m, m')
            || (&& p.Translating? && p.c < |m.conns| && m.conns[p.c].tt.toNegotiate != []
                && var tt := m.conns[p.c].tt;
                   var u := tt.toNegotiate[0];
                   var r := RegisterTag(tt, u.local, srv(m.conns[p.c].dest, u.name));
                   && r.Ok?
                   && m' == SetRelay(m.(conns := m.conns[p.c := m.conns[p.c].(tt := ClearToNegotiate(r.value, 1))]), d,
                                     p.(neg := Some(p.neg.value - 1))))
  {
  }

  lemma NegotiateLearned(m: Mux, d: nat, ok: bool, srv: Servers, c: nat)
    requires Live(m) && Installs(m) && d < |m.dests|
    ensures Installs(NegotiateStep(m, d, ok, srv))
    ensures Learned(m, c) ==> Learned(NegotiateStep(m, d, ok, srv), c)
  {
    NegotiateFrame(m, d, ok, srv);
    var m' := NegotiateStep(m, d, ok, srv);
    if NothingInstalled(m, m') {
      StaysLearned(m, m', c);
    } else {
      var p := m.dests[d].relay;
      var tt := m.conns[p.c].tt;
      assert DestLive(m.conns, d, m.dests[d]);
      assert m.conns[p.c].installed;
      if Learned(m, c) && p.c == c {
        ExchangeCovers(m.names, tt, srv(m.conns[c].dest, tt.toNegotiate[0].name));
      }
    }
  }

  lemma ReapLearned(m: Mux, d: nat, c: nat)
    requires Live(m) && Installs(m) && d < |m.dests|
    ensures Installs(ReapStep(m, d))
    ensures Learned(m, c) ==> Learned(ReapStep(m, d), c)
  {
    var m' := ReapStep(m, d);
    if m' != m {
      assert DestLive(m.conns, d, m.dests[d]);
      forall x | 0 <= x < |m.dests| && x != d ensures m'.dests[x].conn != m.dests[d].conn {
        assert DestLive(m.conns, x, m.dests[x]);
      }
    }
  }

  lemma DialLearned(m: Mux, d: nat, srv: Servers, c: nat)
    requires Installs(m) && d < |m.dests|
    ensures Installs(DialStep(m, d, srv))
    ensures Learned(m, c) ==> Learned(DialStep(m, d, srv), c)
  {
  }

  lemma InstallLearned(m: Mux, d: nat, c: nat)
    requires Live(m) && Installs(m) && d < |m.dests|
    ensures Installs(InstallStep(m, d))
    ensures Learned(m, c) ==> Learned(InstallStep(m, d), c)
    ensures m.dests[d].dialed == Some(c) && Covers(m.names, m.conns[c].tt) ==> Learned(InstallStep(m, d), c)
  {
    var m' := InstallStep(m, d);
    assert DestLive(m.conns, d, m.dests[d]);
    forall x | 0 <= x < |m.dests| && x != d && m.dests[d].dialed.Some?
      ensures m.dests[x].dialed != m.dests[d].dialed
    {
      assert DestLive(m.conns, x, m.dests[x]);
    }
  }

  lemma NewTagLearned(m: Mux, name: string, c: nat)
    requires Installs(m)
    ensures Installs(NewTagStep(m, name))
    ensures Learned(m, c) ==> Learned(NewTagStep(m, name), c)
  {
  }

  lemma DestStepLearned(m: Mux, ev: Event, srv: Servers, c: nat)
    requires !ev.Admit? && !ev.NewTag? && !ev.OnLink? && ev.d < |m.dests| && Live(m) && Installs(m)
    ensures Installs(DestStep(m, ev, srv))
    ensures Learned(m, c) ==> Learned(DestStep(m, ev, srv), c)
  {
    if ev.Negotiate? {
      NegotiateLearned(m, ev.d, ev.ok, srv, c);
    } else if ev.Reap? {
      ReapLearned(m, ev.d, c);
    } else if ev.Dial? {
      DialLearned(m, ev.d, srv, c);
    } else if ev.Install? {
      InstallLearned(m, ev.d, c);
    } else {
      InstallsNothing(m, ev, srv);
      StaysLearned(m, DestStep(m, ev, srv), c);
    }
  }

  lemma InstallsNothing(m: Mux, ev: Event, srv: Servers)
    requires !ev.Admit? && !ev.NewTag? && !ev.OnLink? && ev.d < |m.dests|
    requires !ev.Negotiate? && !ev.Reap? && !ev.Dial? && !ev.Install?
    ensures NothingInstalled(m, DestStep(m, ev, srv))
  {
    if ev.TranslateOne? {
      TranslateInstallsNothing(m, ev.d);
    } else if ev.WriteOne? {
      WriteInstallsNothing(m, ev.d, ev.ok, ev.reached);
    } else if ev.Recycle? || ev.RecycleReaped? {
      RecycleInstallsNothing(m, ev, srv);
    } else {
      SelectInstallsNothing(m, ev, srv);
    }
  }

  lemma StepLearned(m: Mux, ev: Event, srv: Servers, c: nat)
    requires Live(m) && Installs(m)
    ensures Installs(Step(m, ev, srv))
    ensures Learned(m, c) ==> Learned(Step(m, ev, srv), c)
  {
    if ev.NewTag? {
      NewTagLearned(m, ev.name, c);
    } else if ev.Admit? || ev.OnLink? {
      StaysLearned(m, Step(m, ev, srv), c);
    } else if ev.d < |m.dests| {
      DestStepLearned(m, ev, srv, c);
    }
  }

  lemma {:induction false} RunLearned(m: Mux, evs: seq<Event>, srv: Servers, c: nat)
    requires Live(m) && Installs(m)
    ensures Live(Run(m, evs, srv)) && Installs(Run(m, evs, srv))
    ensures Learned(m, c) ==> Learned(Run(m, evs, srv), c)
    decreases |evs|
  {
    if evs != [] && !Crashes(m, evs[0], srv) {
      StepLive(m, evs[0], srv);
      StepLearned(m, evs[0], srv, c);
      RunLearned(Step(m, evs[0], srv), evs[1..], srv, c);
    }
  }

  /** In every run, a connection that is installed with an id for every tag known then
      has, as long as it is installed, each later tag among those to be negotiated or
      negotiated already, in the order they appeared. */
  lemma InstalledLearnsTags(names: seq<string>, dests: nat, before: seq<Event>, d: nat, after: seq<Event>, srv: Servers)
    requires |names| <= MAX_TAG_ID
    requires var m := Run(Start(names, dests), before, srv);
             && d < |m.dests| && m.dests[d].dialed.Some? && m.dests[d].dialed.value < |m.conns|
             && |m.conns[m.dests[d].dialed.value].tt.active| == |m.names|
    ensures var m := Run(Start(names, dests), before, srv);
            var c := m.dests[d].dialed.value;
            var m' := Run(Step(m, Install(d), srv), after, srv);
            c < |m'.conns| && (m'.conns[c].installed ==> Covers(m'.names, m'.conns[c].tt))
  {
    var start := Start(names, dests);
    var m := Run(start, before, srv);
    assert Live(start) && Installs(start);
    RunLearned(start, before, srv, 0);
    InstallLearned(m, d, m.dests[d].dialed.value);
    StepLive(m, Install(d), srv);
    RunLearned(Step(m, Install(d), srv), after, srv, m.dests[d].dialed.value);
  }

  // A relay that meets a new tag

  /** While a relay negotiates on connection c, what it has left to negotiate is enough
      for the tag of the entry at hand. */
  predicate Enough(m: Mux, d: nat, c: nat)
    requires d < |m.dests| && c < |m.conns|
  {
    var p := m.dests[d].relay;
    p.Translating? && p.c == c && p.neg.Some? ==>
      && p.src.Feeder? && p.k < |p.load| && p.load[p.k].Some? && p.load[p.k].value in m.home
      && p.neg.value <= |m.conns[c].tt.toNegotiate|
      && var t := m.home[p.load[p.k].value];
         t == GRAVWELL_TAG || t < |m.conns[c].tt.active| + p.neg.value
  }

  ghost predicate Quick(m: Mux, c: nat, srv: Servers) {
    && AllClean(m, srv) && Live(m) && Installs(m) && Learned(m, c)
    && forall d :: 0 <= d < |m.dests| ==> Enough(m, d, c)
  }

  /** A relay at work on c has it installed, and nobody else works on it. */
  lemma WorksAlone(m: Mux, d: nat, x: nat, c: nat)
    requires Live(m) && Installs(m) && d < |m.dests| && x < |m.dests|
    requires AtWork(m.dests[d].relay) && m.dests[d].relay.c == c
    ensures c < |m.conns| && m.conns[c].installed
    ensures AtWork(m.dests[x].relay) && m.dests[x].relay.c == c ==> x == d
  {
    assert DestLive(m.conns, d, m.dests[d]) && DestLive(m.conns, x, m.dests[x]);
  }

  lemma TranslateEnough(m: Mux, d: nat, c: nat, srv: Servers)
    requires Quick(m, c, srv) && d < |m.dests|
    ensures |TranslateStep(m, d).conns| == |m.conns| && Enough(TranslateStep(m, d), d, c)
  {
    var p := m.dests[d].relay;
    TranslateInstallsNothing(m, d);
    TranslateNegotiates(m, d);
    assert Enough(m, d, c);
    if p.Translating? && p.c == c && p.k < |p.load| && p.load[p.k].Some? {
      var e := p.load[p.k].value;
      assert Clean(m, e);
      NextIsHome(m, d, e);
      WorksAlone(m, d, d, c);
    }
  }

  /** How a translation can leave the relay with something to negotiate. */
  lemma TranslateNegotiates(m: Mux, d: nat)
    requires d < |m.dests|
    ensures var p, m' := m.dests[d].relay, TranslateStep(m, d);
            var p' := m'.dests[d].relay;
            && m'.home == m.home
            && (p'.Translating? && p'.neg.Some? ==>
                  && p.Translating? && p' == p.(neg := p'.neg)
                  && (p' == p || (&& p.src.Feeder? && p.c < |m.conns| && p.k < |p.load| && p.load[p.k].Some?
                                  && p'.neg == Some(|m.conns[p.c].tt.toNegotiate|))))
  {
  }

  lemma NegotiateEnough(m: Mux, d: nat, ok: bool, c: nat, srv: Servers, x: nat)
    requires Quick(m, c, srv) && d < |m.dests| && x < |m.dests|
    ensures var m' := NegotiateStep(m, d, ok, srv); |m'.conns| == |m.conns| && Enough(m', x, c)
  {
    var p, m' := m.dests[d].relay, NegotiateStep(m, d, ok, srv);
    assert Enough(m, d, c) && Enough(m, x, c);
    NegotiateFrame(m, d, ok, srv);
    if NothingInstalled(m, m') {
      NegotiateElsewhere(m, d, ok, srv);
    } else if p.c == c {
      WorksAlone(m, d, x, c);
      ExchangeCovers(m.names, m.conns[c].tt, srv(m.conns[c].dest, m.conns[c].tt.toNegotiate[0].name));
    }
  }

  lemma NegotiateElsewhere(m: Mux, d: nat, ok: bool, srv: Servers)
    requires d < |m.dests| && NothingInstalled(m, NegotiateStep(m, d, ok, srv))
    ensures var m' := NegotiateStep(m, d, ok, srv);
            && m'.home == m.home && m'.dests == m.dests[d := m'.dests[d]]
            && (m'.dests[d].relay.Translating? ==> m' == m)
  {
    var p := m.dests[d].relay;
    if p.Translating? && p.neg.Some? && p.neg.value > 0 {
      assert p.(neg := Some(p.neg.value - 1)) != p;
    }
  }

  /** Nobody starts or goes on negotiating, and no translator changes. */
  ghost predicate NobodyNegotiates(m: Mux, m': Mux) {
    && |m'.dests| == |m.dests| && |m.conns| <= |m'.conns| && m'.home == m.home
    && (forall c :: 0 <= c < |m.conns| ==> m'.conns[c].tt == m.conns[c].tt)
    && (forall x :: 0 <= x < |m.dests| ==>
          var p := m'.dests[x].relay; p == m.dests[x].relay || (p.Translating? ==> p.neg.None?))
  }

  lemma ConnectionEventsQuiet(m: Mux, ev: Event, srv: Servers)
    requires (ev.Dial? || ev.Install? || ev.HandOver? || ev.Reap? || ev.EjectConn?) && ev.d < |m.dests|
    ensures NobodyNegotiates(m, DestStep(m, ev, srv))
  {
  }

  lemma LoadEventsQuiet(m: Mux, ev: Event, srv: Servers)
    requires ev.Receive? || ev.PopQueue? || ev.ClearDone? || ev.Tick? || ev.Fault? || ev.Recycle? || ev.RecycleReaped?
    requires ev.d < |m.dests|
    ensures NobodyNegotiates(m, DestStep(m, ev, srv))
  {
    var w := m.dests[ev.d];
    if ev.RecycleReaped? {
      PushFrame(m, w.reaped, ev.toQueue);
    } else if ev.Recycle? && (w.relay.Failing? || w.relay.Returning?) {
      PushFrame(m, w.relay.rest, ev.toQueue);
    }
  }

  lemma WriteQuiet(m: Mux, d: nat, ok: bool, reached: bool)
    requires d < |m.dests|
    ensures NobodyNegotiates(m, WriteStep(m, d, ok, reached))
  {
    var p := m.dests[d].relay;
    if p.Writing? && p.c < |m.conns| {
      WriteFrame(m, d, ok, reached);
      WriteTables(m, d, ok, reached);
      WriteLeavesPhase(m, d, ok, reached);
    }
  }

  lemma WriteLeavesPhase(m: Mux, d: nat, ok: bool, reached: bool)
    requires d < |m.dests| && m.dests[d].relay.Writing?
    ensures !WriteStep(m, d, ok, reached).dests[d].relay.Translating?
  {
  }

  lemma QuietEnough(m: Mux, m': Mux, c: nat, x: nat)
    requires NobodyNegotiates(m, m') && x < |m.dests| && c < |m.conns| && Enough(m, x, c)
    ensures Enough(m', x, c)
  {
  }

  lemma DestStepEnough(m: Mux, ev: Event, srv: Servers, c: nat, x: nat)
    requires !ev.Admit? && !ev.NewTag? && !ev.OnLink? && ev.d < |m.dests| && Quick(m, c, srv) && x < |m.dests|
    ensures c < |DestStep(m, ev, srv).conns| && Enough(DestStep(m, ev, srv), x, c)
  {
    assert Enough(m, x, c);
    if ev.Negotiate? {
      NegotiateEnough(m, ev.d, ev.ok, c, srv, x);
    } else if ev.TranslateOne? {
      TranslateEnough(m, ev.d, c, srv);
      TranslateInstallsNothing(m, ev.d);
      TranslateElsewhere(m, ev.d);
    } else if ev.WriteOne? {
      WriteQuiet(m, ev.d, ev.ok, ev.reached);
      QuietEnough(m, DestStep(m, ev, srv), c, x);
    } else {
      if ev.Dial? || ev.Install? || ev.HandOver? || ev.Reap? || ev.EjectConn? {
        ConnectionEventsQuiet(m, ev, srv);
      } else {
        LoadEventsQuiet(m, ev, srv);
      }
      QuietEnough(m, DestStep(m, ev, srv), c, x);
    }
  }

  lemma TranslateElsewhere(m: Mux, d: nat)
    requires d < |m.dests|
    ensures var m' := TranslateStep(m, d); m'.home == m.home && m'.dests == m.dests[d := m'.dests[d]]
  {
  }

  lemma StepEnough(m: Mux, ev: Event, srv: Servers, c: nat, x: nat)
    requires Quick(m, c, srv) && x < |m.dests|
    ensures var m' := Step(m, ev, srv); |m'.dests| == |m.dests| && c < |m'.conns| && Enough(m', x, c)
  {
    assert Enough(m, x, c);
    if ev.Admit? {
      AdmitEnough(m, ev.ents, c, x);
    } else if ev.NewTag? {
      NewTagEnough(m, ev.name, c, x);
    } else if !ev.OnLink? && ev.d < |m.dests| {
      DestStepEnough(m, ev, srv, c, x);
    }
  }

  lemma AdmitEnough(m: Mux, ents: seq<(EntryRef, Tag)>, c: nat, x: nat)
    requires x < |m.dests| && c < |m.conns| && Enough(m, x, c)
    ensures var m' := AdmitStep(m, ents); m'.dests == m.dests && m'.conns == m.conns && Enough(m', x, c)
  {
    var p := m.dests[x].relay;
    if p.Translating? && p.c == c && p.neg.Some? && AdmitStep(m, ents) != m {
      AdmittedOther(m, ents, p.load[p.k].value);
    }
  }

  lemma NewTagEnough(m: Mux, name: string, c: nat, x: nat)
    requires x < |m.dests| && c < |m.conns| && Enough(m, x, c)
    ensures var m' := NewTagStep(m, name); m'.dests == m.dests && |m'.conns| == |m.conns| && Enough(m', x, c)
  {
  }

  lemma StepQuick(m: Mux, ev: Event, srv: Servers, c: nat)
    requires Quick(m, c, srv) && ServersOk(srv, m.names) && !BreaksOff(m, ev)
    ensures Quick(Step(m, ev, srv), c, srv)
  {
    StepClean(m, ev, srv);
    StepLive(m, ev, srv);
    StepLearned(m, ev, srv, c);
    forall x | 0 <= x < |Step(m, ev, srv).dests| ensures Enough(Step(m, ev, srv), x, c) {
      StepKeepsDests(m, ev, srv);
      StepEnough(m, ev, srv, c, x);
    }
  }

  lemma StepKeepsDests(m: Mux, ev: Event, srv: Servers)
    ensures |Step(m, ev, srv).dests| == |m.dests|
  {
  }

  lemma {:induction false} RunQuick(m: Mux, evs: seq<Event>, srv: Servers, c: nat)
    requires Quick(m, c, srv) && ServersOk(srv, Run(m, evs, srv).names) && CleanRun(m, evs, srv)
    ensures Quick(Run(m, evs, srv), c, srv) && Survives(m, evs, srv)
    decreases |evs|
  {
    if evs != [] {
      WholeSurvives(m, evs[0], srv);
      NamesGrow(m, evs, srv);
      FewerNames(srv, m.names, Run(m, evs, srv).names);
      StepQuick(m, evs[0], srv, c);
      RunQuick(Step(m, evs[0], srv), evs[1..], srv, c);
    }
  }

  // Translating on the spot

  /** The relay goes on with the load it has, on the connection it has. */
  predicate GoesOn(p: Phase, p': Phase)
    requires p.Translating?
  {
    || (p'.Translating? && p'.c == p.c && p'.load == p.load && p'.src == p.src && p.k <= p'.k)
    || p' == Writing(p.c, p.load, 0, p.src)
  }

  /** What the relay needs to go on: the entry at hand, if there is one, has a tag that
      the connection knows or will know when all that is pending is negotiated. */
  ghost predicate Able(m: Mux, d: nat)
    requires d < |m.dests|
  {
    var p := m.dests[d].relay;
    && p.Translating? && p.src.Feeder? && p.c < |m.conns|
    && Covers(m.names, m.conns[p.c].tt)
    && (p.neg.Some? ==> p.k < |p.load| && p.load[p.k].Some? && p.neg.value <= |m.conns[p.c].tt.toNegotiate|)
    && (p.k < |p.load| && p.load[p.k].Some? ==>
          var t := TagOf(m.tags, p.load[p.k].value);
          || t == GRAVWELL_TAG
          || t < |m.conns[p.c].tt.active| + if p.neg.Some? then p.neg.value else |m.conns[p.c].tt.toNegotiate|)
  }

  lemma QuickAble(m: Mux, d: nat, c: nat, srv: Servers)
    requires Quick(m, c, srv) && d < |m.dests|
    requires var p := m.dests[d].relay; p.Translating? && p.src.Feeder? && p.c == c
    ensures Able(m, d)
  {
    var p := m.dests[d].relay;
    assert Enough(m, d, c);
    WorksAlone(m, d, d, c);
    if p.k < |p.load| && p.load[p.k].Some? {
      var e := p.load[p.k].value;
      assert Clean(m, e);
      NextIsHome(m, d, e);
    }
  }

  lemma AbleTranslates(m: Mux, d: nat)
    requires d < |m.dests| && Able(m, d)
    ensures var p, p' := m.dests[d].relay, TranslateStep(m, d).dests[d].relay;
            GoesOn(p, p') && (p' == p ==> p.neg.Some? && p.neg.value > 0)
  {
  }

  lemma AbleNegotiates(m: Mux, d: nat, srv: Servers)
    requires d < |m.dests| && Able(m, d)
    ensures var p, p' := m.dests[d].relay, NegotiateStep(m, d, true, srv).dests[d].relay;
            p' == if p.neg.Some? && p.neg.value > 0 then p.(neg := Some(p.neg.value - 1)) else p
  {
    var p := m.dests[d].relay;
    if p.neg.Some? && p.neg.value > 0 {
      ExchangeCovers(m.names, m.conns[p.c].tt, srv(m.conns[p.c].dest, m.conns[p.c].tt.toNegotiate[0].name));
    }
  }

  /** Neither a new tag nor any other keeps the relay from going on, and one of its two
      moves gets it ahead: an exchange while one is outstanding, else a translation. */
  lemma NeverGivesUp(m: Mux, d: nat, c: nat, srv: Servers)
    requires Quick(m, c, srv) && d < |m.dests|
    requires var p := m.dests[d].relay; p.Translating? && p.src.Feeder? && p.c == c
    ensures var p := m.dests[d].relay;
            && GoesOn(p, Step(m, TranslateOne(d), srv).dests[d].relay)
            && GoesOn(p, Step(m, Negotiate(d, true), srv).dests[d].relay)
            && if p.neg.Some? && p.neg.value > 0
               then Step(m, Negotiate(d, true), srv).dests[d].relay == p.(neg := Some(p.neg.value - 1))
               else Step(m, TranslateOne(d), srv).dests[d].relay != p
  {
    QuickAble(m, d, c, srv);
    AbleTranslates(m, d);
    AbleNegotiates(m, d, srv);
  }

  // From the start

  /** A clean run from the start in which destination d installs connection c, whose
      table has every tag known then, before it goes on to m. */
  ghost predicate InstalledThen(names: seq<string>, dests: nat, before: seq<Event>, d: nat, c: nat, after: seq<Event>,
                                srv: Servers, m: Mux) {
    && 0 < |names| <= MAX_TAG_ID && NamesDistinct(names)
    && CleanRun(Start(names, dests), before, srv)
    && var m1 := Run(Start(names, dests), before, srv);
       && d < |m1.dests| && m1.dests[d].dialed == Some(c) && c < |m1.conns|
       && |m1.conns[c].tt.active| == |m1.names|
       && CleanRun(Step(m1, Install(d), srv), after, srv)
       && m == Run(Step(m1, Install(d), srv), after, srv) && ServersOk(srv, m.names)
  }

  lemma JustInstalled(m: Mux, d: nat, c: nat, srv: Servers)
    requires AllClean(m, srv) && ServersOk(srv, m.names) && Live(m) && Installs(m)
    requires d < |m.dests| && m.dests[d].dialed == Some(c) && c < |m.conns| && |m.conns[c].tt.active| == |m.names|
    ensures Quick(Step(m, Install(d), srv), c, srv)
  {
    var m' := Step(m, Install(d), srv);
    StepClean(m, Install(d), srv);
    StepLive(m, Install(d), srv);
    InstallLearned(m, d, c);
    forall x | 0 <= x < |m'.dests| ensures Enough(m', x, c) {
      NobodyThereYet(m, d, c, x, srv);
    }
  }

  lemma NobodyThereYet(m: Mux, d: nat, c: nat, x: nat, srv: Servers)
    requires Live(m) && d < |m.dests| && m.dests[d].dialed == Some(c) && c < |m.conns| && x < |m.dests|
    ensures var m' := Step(m, Install(d), srv); |m'.dests| == |m.dests| && c < |m'.conns| && Enough(m', x, c)
  {
    assert DestLive(m.conns, x, m.dests[x]) && DestLive(m.conns, d, m.dests[d]);
  }

  lemma InstalledQuick(names: seq<string>, dests: nat, before: seq<Event>, d: nat, c: nat, after: seq<Event>,
                       srv: Servers, m: Mux)
    requires InstalledThen(names, dests, before, d, c, after, srv, m)
    ensures Quick(m, c, srv)
  {
    var m1 := Run(Start(names, dests), before, srv);
    var m2 := Step(m1, Install(d), srv);
    NamesGrow(m2, after, srv);
    FewerNames(srv, m1.names, m.names);
    StartsWell(names, dests, before, srv);
    JustInstalled(m1, d, c, srv);
    RunQuick(m2, after, srv, c);
  }

  lemma StartsWell(names: seq<string>, dests: nat, evs: seq<Event>, srv: Servers)
    requires 0 < |names| <= MAX_TAG_ID && NamesDistinct(names)
    requires CleanRun(Start(names, dests), evs, srv) && ServersOk(srv, Run(Start(names, dests), evs, srv).names)
    ensures var m := Run(Start(names, dests), evs, srv); AllClean(m, srv) && Live(m) && Installs(m)
  {
    CleanState(names, dests, evs, srv);
    assert Live(Start(names, dests)) && Installs(Start(names, dests));
    RunLearned(Start(names, dests), evs, srv, 0);
  }

  /** New tags need no new connection: on every clean run, a relay that takes entries from
      a channel to such a connection never gives up a load, as long as the exchanges it
      makes succeed, and always has a move that gets it ahead. */
  lemma NewTagsNeedNoReconnect(names: seq<string>, dests: nat, before: seq<Event>, d: nat, c: nat, after: seq<Event>,
                               srv: Servers, m: Mux)
    requires InstalledThen(names, dests, before, d, c, after, srv, m) && d < |m.dests|
    requires var p := m.dests[d].relay; p.Translating? && p.src.Feeder? && p.c == c
    ensures var p := m.dests[d].relay;
            && GoesOn(p, Step(m, TranslateOne(d), srv).dests[d].relay)
            && GoesOn(p, Step(m, Negotiate(d, true), srv).dests[d].relay)
            && if p.neg.Some? && p.neg.value > 0
               then Step(m, Negotiate(d, true), srv).dests[d].relay == p.(neg := Some(p.neg.value - 1))
               else Step(m, TranslateOne(d), srv).dests[d].relay != p
  {
    InstalledQuick(names, dests, before, d, c, after, srv, m);
    NeverGivesUp(m, d, c, srv);
  }
}
