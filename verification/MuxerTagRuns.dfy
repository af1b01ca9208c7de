/** Tags over whole runs of the muxer: what indexers read, and what a flush of
    the emergency queue that breaks off does. */
module MuxerTagRuns {
  import opened Wrappers
  import Link
  import opened Tags
  import opened Muxers
  import opened MuxerDelivery
  import opened MuxerCount
  import opened MuxerTags
  import opened MuxerWhole

  /** Everything a connection has carried outside ditto blocks: what its reader
      has taken in, then what is on the wire. */
  function Travelled(l: Link.Link): seq<Link.Receipt> {
    l.net.receipts + Link.Unread(l.net.wire, l.net.skip)
  }

  lemma TravelledQuiet(l: Link.Link, ev: Link.Event)
    requires Link.Inv(l) && (Spontaneous(ev) || ev == Link.Eject)
    ensures Travelled(Link.Step(l, ev)) == Travelled(l)
  {
    var n := l.net;
    match ev {
      case Read =>
        if n.wire != [] {
          if n.wire[0].NewEntry? && n.skip == 0 {
            Link.ReadEntry(n);
          } else {
            Link.ReadOther(n);
          }
        }
      case SendControl(msg) => Link.WireAppend(n.wire, [msg], n.skip);
      case SendDitto(ents) =>
        if n.intact && l.nextId + |ents| < 0x1_0000_0000_0000_0000 { Link.DittoBlock(n, ents, l.nextId, |ents|); }
      case DittoFailed(announced, sent) =>
        if n.intact && l.nextId + |sent| < 0x1_0000_0000_0000_0000 && |sent| <= announced {
          Link.DittoBlock(n, sent, l.nextId, announced);
        }
      case AckFlush(_) =>
      case KeepAlive =>
      case SendThrottle(_) =>
      case DittoVerdict(_) =>
      case Break =>
      case TakeAck =>
      case Eject =>
    }
  }

  /** A send adds its entry, with the tag it has at that moment, at the end. */
  lemma TravelledSend(l: Link.Link, ent: EntryRef, tag: Tag, reached: bool)
    requires Link.Inv(l)
    ensures var r := Link.Receipt(l.nextId, ent, tag);
            && (Travelled(Link.Step(l, Link.Send(ent, tag))) == Travelled(l)
                || Travelled(Link.Step(l, Link.Send(ent, tag))) == Travelled(l) + [r])
            && (Travelled(Link.Step(l, Link.SendFailed(ent, tag, reached))) == Travelled(l)
                || Travelled(Link.Step(l, Link.SendFailed(ent, tag, reached))) == Travelled(l) + [r])
  {
    var n := l.net;
    if n.intact {
      Link.WireAppend(n.wire, [Link.NewEntry(l.nextId, ent, tag)], n.skip);
      assert n.wire + [] == n.wire;
    }
  }

  predicate TripRight(home: map<EntryRef, Tag>, tt: TagTrans, r: Link.Receipt) {
    r.ent in home && Translate(tt, home[r.ent]) == Some(r.tag)
  }

  ghost predicate TripsOk(home: map<EntryRef, Tag>, k: Conn) {
    forall i :: 0 <= i < |Travelled(k.link)| ==> TripRight(home, k.tt, Travelled(k.link)[i])
  }

  /** Every entry a connection has carried had that indexer's id for its tag. */
  ghost predicate Trips(m: Mux) {
    forall c :: 0 <= c < |m.conns| ==> TripsOk(m.home, m.conns[c])
  }

  lemma TripsGrow(home: map<EntryRef, Tag>, home': map<EntryRef, Tag>, k: Conn, k': Conn)
    requires TripsOk(home, k) && Travelled(k'.link) == Travelled(k.link) && k.tt.active <= k'.tt.active
    requires forall e :: e in home ==> e in home' && home'[e] == home[e]
    ensures TripsOk(home', k')
  {
    forall i | 0 <= i < |Travelled(k'.link)| ensures TripRight(home', k'.tt, Travelled(k'.link)[i]) {
      var r := Travelled(k.link)[i];
      assert TripRight(home, k.tt, r);
      TranslateGrows(k.tt, k'.tt, home[r.ent]);
    }
  }

  lemma TripsAppend(home: map<EntryRef, Tag>, k: Conn, k': Conn, r: Link.Receipt)
    requires TripsOk(home, k) && TripRight(home, k.tt, r)
    requires Travelled(k'.link) == Travelled(k.link) + [r] && k'.tt == k.tt
    ensures TripsOk(home, k')
  {
    forall i | 0 <= i < |Travelled(k'.link)| ensures TripRight(home, k'.tt, Travelled(k'.link)[i]) {
      assert i < |Travelled(k.link)| ==> TripRight(home, k.tt, Travelled(k.link)[i]);
    }
  }

  /** An entry about to be written has the connection's tag. */
  lemma WrittenRight(m: Mux, d: nat)
    requires Shape(m) && d < |m.dests| && NextClean(m, d)
    requires var p := m.dests[d].relay; p.Writing? && p.n < |p.load| && p.load[p.n].Some?
    ensures var p := m.dests[d].relay;
            var f := p.load[p.n].value;
            p.c < |m.conns| && f in m.home && Translate(m.conns[p.c].tt, m.home[f]) == Some(TagOf(m.tags, f))
  {
    var p := m.dests[d].relay;
    assert InPart(p.load[p.n].value, p.load, p.n, |p.load|);
    HandOnce(m, d, p.load[p.n].value);
  }

  lemma WriteTrips(m: Mux, d: nat, ok: bool, reached: bool)
    requires WellFormed(m) && Trips(m) && d < |m.dests| && NextClean(m, d)
    ensures Trips(WriteStep(m, d, ok, reached))
  {
    var p := m.dests[d].relay;
    if p.Writing? && p.n < |p.load| && p.load[p.n].Some? && WriteStep(m, d, ok, reached) != m {
      WrittenRight(m, d);
      WriteConns(m, d, ok, reached);
      SentTrips(m, WriteStep(m, d, ok, reached), p.c, p.load[p.n].value, ok, reached);
    } else if p.Writing? && p.n < |p.load| && p.load[p.n].None? && WriteStep(m, d, ok, reached) != m {
      QuietTrips(m, WriteStep(m, d, ok, reached), p.c, Link.Break);
    }
  }

  /** A connection on which an entry with the right tag is sent, or fails to be. */
  lemma SentTrips(m: Mux, m': Mux, c: nat, f: EntryRef, ok: bool, reached: bool)
    requires Trips(m) && c < |m.conns| == |m'.conns| && Link.Inv(m.conns[c].link) && m'.home == m.home
    requires TripRight(m.home, m.conns[c].tt, Link.Receipt(m.conns[c].link.nextId, f, TagOf(m.tags, f)))
    requires var t := TagOf(m.tags, f);
             m'.conns == m.conns[c := m.conns[c].(link := Link.Step(m.conns[c].link,
                if ok then Link.Send(f, t) else Link.SendFailed(f, t, reached)))]
    ensures Trips(m')
  {
    var k, k' := m.conns[c], m'.conns[c];
    TravelledSend(k.link, f, TagOf(m.tags, f), reached);
    assert TripsOk(m.home, k);
    if Travelled(k'.link) == Travelled(k.link) {
      TripsGrow(m.home, m.home, k, k');
    } else {
      TripsAppend(m.home, k, k', Link.Receipt(k.link.nextId, f, TagOf(m.tags, f)));
    }
  }

  lemma WriteConns(m: Mux, d: nat, ok: bool, reached: bool)
    requires d < |m.dests| && WriteStep(m, d, ok, reached) != m
    requires var p := m.dests[d].relay; p.Writing? && p.n < |p.load| && p.load[p.n].Some? && p.c < |m.conns|
    ensures var p := m.dests[d].relay;
            var f, k := p.load[p.n].value, m.conns[p.c];
            var t := TagOf(m.tags, f);
            var l' := Link.Step(k.link, if ok then Link.Send(f, t) else Link.SendFailed(f, t, reached));
            WriteStep(m, d, ok, reached).conns == m.conns[p.c := k.(link := l')]
  {
  }

  lemma QuietTrips(m: Mux, m': Mux, c: nat, ev: Link.Event)
    requires WellFormed(m) && Trips(m) && c < |m.conns| == |m'.conns| && m'.home == m.home
    requires m'.conns == m.conns[c := m'.conns[c]] && m'.conns[c].tt == m.conns[c].tt
    requires m'.conns[c].link == Link.Step(m.conns[c].link, ev) && (Spontaneous(ev) || ev == Link.Eject)
    ensures Trips(m')
  {
    TravelledQuiet(m.conns[c].link, ev);
    assert TripsOk(m.home, m.conns[c]);
    TripsGrow(m.home, m.home, m.conns[c], m'.conns[c]);
  }

  lemma NegotiateTrips(m: Mux, d: nat, ok: bool, srv: Servers)
    requires Trips(m) && d < |m.dests|
    ensures Trips(NegotiateStep(m, d, ok, srv))
  {
    var p := m.dests[d].relay;
    var m' := NegotiateStep(m, d, ok, srv);
    if p.Translating? && m'.conns != m.conns {
      assert TripsOk(m.home, m.conns[p.c]);
      TripsGrow(m.home, m.home, m.conns[p.c], m'.conns[p.c]);
    }
  }

  lemma ConnTrips(m: Mux, ev: Event, srv: Servers)
    requires ev.EjectConn? || ev.Reap? || ev.Dial? || ev.Install?
    requires WellFormed(m) && Trips(m) && ev.d < |m.dests|
    ensures Trips(DestStep(m, ev, srv))
  {
    var d := ev.d;
    var m' := DestStep(m, ev, srv);
    var w := m.dests[d];
    assert DestOk(m, w);
    match ev {
      case EjectConn(_) => if w.relay.Closing? { QuietTrips(m, m', w.relay.c, Link.Eject); }
      case Reap(_) => if m' != m { QuietTrips(m, m', w.conn.value, Link.Eject); }
      case Dial(_) => if m' != m { assert Travelled(Link.Start()) == []; }
      case Install(_) =>
        if m' != m {
          assert TripsOk(m.home, m.conns[w.dialed.value]);
          TripsGrow(m.home, m.home, m.conns[w.dialed.value], m'.conns[w.dialed.value]);
        }
    }
  }

  lemma DestStepTrips(m: Mux, ev: Event, srv: Servers)
    requires !ev.Admit? && !ev.NewTag? && !ev.OnLink? && ev.d < |m.dests|
    requires WellFormed(m) && Trips(m) && NextClean(m, ev.d)
    ensures Trips(DestStep(m, ev, srv))
  {
    if ev.WriteOne? {
      WriteTrips(m, ev.d, ev.ok, ev.reached);
    } else if ev.Negotiate? {
      NegotiateTrips(m, ev.d, ev.ok, srv);
    } else if ev.EjectConn? || ev.Reap? || ev.Dial? || ev.Install? {
      ConnTrips(m, ev, srv);
    } else {
      SameConns(m, ev, srv);
    }
  }

  lemma SameConns(m: Mux, ev: Event, srv: Servers)
    requires ev.Receive? || ev.PopQueue? || ev.TranslateOne? || ev.Recycle? || ev.RecycleReaped? || ev.HandOver?
             || ev.ClearDone? || ev.Tick? || ev.Fault?
    requires ev.d < |m.dests|
    ensures DestStep(m, ev, srv).conns == m.conns
  {
  }

  // Tables

  lemma NegotiateTable(m: Mux, d: nat, ok: bool, srv: Servers)
    requires Tables(m, srv) && TablesFollow(m) && d < |m.dests|
    ensures Tables(NegotiateStep(m, d, ok, srv), srv)
  {
    var p := m.dests[d].relay;
    var m' := NegotiateStep(m, d, ok, srv);
    if p.Translating? && m'.conns != m.conns {
      assert PendingOk(m.names, m.conns[p.c].tt.toNegotiate);
      assert TableOk(m.names, m.conns[p.c], srv);
      assert TableOk(m.names, m'.conns[p.c], srv);
    }
  }

  lemma DestStepTable(m: Mux, ev: Event, srv: Servers)
    requires !ev.Admit? && !ev.NewTag? && !ev.OnLink? && ev.d < |m.dests|
    requires Tables(m, srv) && TablesFollow(m)
    ensures Tables(DestStep(m, ev, srv), srv)
  {
    if ev.Negotiate? {
      NegotiateTable(m, ev.d, ev.ok, srv);
    } else if ev.TranslateOne? {
      TranslateTables(m, ev.d);
      TablesStay(m, DestStep(m, ev, srv), srv);
    } else if ev.WriteOne? {
      WriteTables(m, ev.d, ev.ok, ev.reached);
      TablesStay(m, DestStep(m, ev, srv), srv);
    } else if ev.Dial? {
      assert TableOk(m.names, Conn(ev.d, Link.Start(), FreshTable(m, ev.d, srv), false), srv);
    } else {
      OthersKeepTables(m, ev, srv);
      TablesStay(m, DestStep(m, ev, srv), srv);
    }
  }

  lemma TablesStay(m: Mux, m': Mux, srv: Servers)
    requires Tables(m, srv) && SameTables(m, m')
    ensures Tables(m', srv)
  {
    forall c | 0 <= c < |m'.conns| ensures TableOk(m'.names, m'.conns[c], srv) {
      assert TableOk(m.names, m.conns[c], srv);
    }
  }

  lemma NewTagTables(m: Mux, name: string, srv: Servers)
    requires Tables(m, srv)
    ensures Tables(NewTagStep(m, name), srv)
  {
    var m' := NewTagStep(m, name);
    forall c | 0 <= c < |m'.conns| ensures TableOk(m'.names, m'.conns[c], srv) {
      assert TableOk(m.names, m.conns[c], srv);
    }
  }

  // Every step of a run

  ghost predicate AllClean(m: Mux, srv: Servers) {
    && WellFormed(m) && TablesFollow(m) && Tables(m, srv) && Trips(m) && HoleFree(m)
    && forall e :: Clean(m, e)
  }

  lemma SelectClean(m: Mux, ev: Event, srv: Servers, e: EntryRef)
    requires ev.Receive? || ev.PopQueue? || ev.Recycle? || ev.RecycleReaped?
    requires ev.d < |m.dests| && Shape(m) && Clean(m, e)
    ensures Clean(DestStep(m, ev, srv), e)
  {
    var d := ev.d;
    var p := m.dests[d].relay;
    match ev {
      case Receive(_, i) => if p.Ready? && i < |m.feed| { ReceiveClean(m, d, i, e); }
      case PopQueue(_) => if p.Clearing? && m.queue != [] { PopQueueClean(m, d, e); }
      case Recycle(_, toQueue) =>
        if p.Failing? {
          RecycleClean(m, d, toQueue, Closing(p.c), e);
        } else if p.Returning? {
          RecycleClean(m, d, toQueue, Waiting, e);
        }
      case RecycleReaped(_, toQueue) => RecycleReapedClean(m, d, toQueue, e);
    }
  }

  lemma DestStepClean(m: Mux, ev: Event, srv: Servers, e: EntryRef)
    requires !ev.Admit? && !ev.NewTag? && !ev.OnLink? && ev.d < |m.dests| && !BreaksOff(m, ev)
    requires ServersOk(srv, m.names) && Shape(m) && Tables(m, srv) && Clean(m, e) && NextClean(m, ev.d)
    ensures Clean(DestStep(m, ev, srv), e)
  {
    if ev.TranslateOne? {
      TranslateClean(m, ev.d, srv, e);
    } else if ev.Negotiate? {
      NegotiateClean(m, ev.d, ev.ok, srv, e);
    } else if ev.WriteOne? {
      WriteClean(m, ev.d, ev.ok, ev.reached, srv, e);
    } else if ev.EjectConn? {
      EjectClean(m, ev.d, srv, e);
    } else if ev.Reap? {
      ReapClean(m, ev.d, srv, e);
    } else if ev.Dial? {
      DialClean(m, ev.d, srv, e);
    } else if ev.Install? || ev.HandOver? || ev.ClearDone? || ev.Tick? || ev.Fault? {
      QuietClean(m, ev, srv, e);
    } else {
      SelectClean(m, ev, srv, e);
    }
  }

  lemma QuietClean(m: Mux, ev: Event, srv: Servers, e: EntryRef)
    requires ev.Install? || ev.HandOver? || ev.ClearDone? || ev.Tick? || ev.Fault?
    requires ev.d < |m.dests| && Shape(m) && Clean(m, e)
    ensures Clean(DestStep(m, ev, srv), e)
  {
    QuietStep(m, ev, srv);
    IdleClean(m, DestStep(m, ev, srv), ev.d, e);
  }

  lemma QuietStep(m: Mux, ev: Event, srv: Servers)
    requires ev.Install? || ev.HandOver? || ev.ClearDone? || ev.Tick? || ev.Fault?
    requires ev.d < |m.dests|
    ensures NothingMoves(m, DestStep(m, ev, srv), ev.d)
  {
  }

  lemma DestStepAllClean(m: Mux, ev: Event, srv: Servers)
    requires !ev.Admit? && !ev.NewTag? && !ev.OnLink? && ev.d < |m.dests| && !BreaksOff(m, ev)
    requires ServersOk(srv, m.names) && AllClean(m, srv)
    ensures AllClean(DestStep(m, ev, srv), srv)
  {
    assert NextClean(m, ev.d);
    DestStepWellFormed(m, ev, srv);
    DestStepTables(m, ev, srv);
    DestStepTable(m, ev, srv);
    DestStepTrips(m, ev, srv);
    CleanStepWhole(m, ev, srv);
    forall e ensures Clean(DestStep(m, ev, srv), e) {
      assert Clean(m, e);
      DestStepClean(m, ev, srv, e);
    }
  }

  lemma OnLinkAllClean(m: Mux, c: nat, x: Link.Event, srv: Servers)
    requires AllClean(m, srv) && c < |m.conns| && Spontaneous(x)
    ensures AllClean(SetLink(m, c, Link.Step(m.conns[c].link, x)), srv)
  {
    OnLinkWellFormed(m, c, x);
    OnLinkTrips(m, c, x);
    OnLinkTables(m, c, Link.Step(m.conns[c].link, x), srv);
    forall e ensures Clean(SetLink(m, c, Link.Step(m.conns[c].link, x)), e) {
      assert Clean(m, e);
      OnLinkClean(m, c, x, e);
    }
  }

  lemma OnLinkTrips(m: Mux, c: nat, x: Link.Event)
    requires WellFormed(m) && Trips(m) && c < |m.conns| && Spontaneous(x)
    ensures Trips(SetLink(m, c, Link.Step(m.conns[c].link, x)))
  {
    var k := m.conns[c];
    var k' := k.(link := Link.Step(k.link, x));
    TravelledQuiet(k.link, x);
    assert TripsOk(m.home, k);
    TripsGrow(m.home, m.home, k, k');
  }

  lemma OnLinkTables(m: Mux, c: nat, l: Link.Link, srv: Servers)
    requires Tables(m, srv) && c < |m.conns|
    ensures Tables(SetLink(m, c, l), srv)
  {
    TablesStay(m, SetLink(m, c, l), srv);
  }

  lemma NewTagAllClean(m: Mux, name: string, srv: Servers)
    requires AllClean(m, srv)
    ensures AllClean(NewTagStep(m, name), srv)
  {
    var m' := NewTagStep(m, name);
    NewTagWellFormed(m, name);
    NewTagTables(m, name, srv);
    forall c | 0 <= c < |m'.conns| ensures TripsOk(m'.home, m'.conns[c]) {
      assert TripsOk(m.home, m.conns[c]);
      TripsGrow(m.home, m.home, m.conns[c], m'.conns[c]);
    }
    forall e ensures Clean(m', e) {
      assert Clean(m, e);
      NewTagClean(m, name, e);
    }
  }

  lemma AdmitAllClean(m: Mux, ents: seq<(EntryRef, Tag)>, srv: Servers)
    requires AllClean(m, srv)
    ensures AllClean(AdmitStep(m, ents), srv)
  {
    var m' := AdmitStep(m, ents);
    StaysWellFormed(m, m', |m.dests|);
    TablesStay(m, m', srv);
    AdmitTrips(m, ents);
    AdmitWhole(m, ents);
    forall e ensures Clean(m', e) {
      assert Clean(m, e);
      AdmitClean(m, ents, e);
    }
  }

  lemma AdmitTrips(m: Mux, ents: seq<(EntryRef, Tag)>)
    requires Trips(m)
    ensures Trips(AdmitStep(m, ents))
  {
    var m' := AdmitStep(m, ents);
    forall e | e in m.home ensures e in m'.home && m'.home[e] == m.home[e] {
      if m' != m {
        AdmittedOther(m, ents, e);
      }
    }
    forall c | 0 <= c < |m'.conns| ensures TripsOk(m'.home, m'.conns[c]) {
      assert TripsOk(m.home, m.conns[c]);
      TripsGrow(m.home, m'.home, m.conns[c], m.conns[c]);
    }
  }

  lemma StepClean(m: Mux, ev: Event, srv: Servers)
    requires ServersOk(srv, m.names) && AllClean(m, srv) && !BreaksOff(m, ev)
    ensures AllClean(Step(m, ev, srv), srv)
  {
    if ev.Admit? {
      AdmitAllClean(m, ev.ents, srv);
    } else if ev.NewTag? {
      NewTagAllClean(m, ev.name, srv);
    } else if ev.OnLink? {
      if ev.c < |m.conns| && Spontaneous(ev.ev) {
        OnLinkAllClean(m, ev.c, ev.ev, srv);
      }
    } else if ev.d < |m.dests| {
      DestStepAllClean(m, ev, srv);
    }
  }

  lemma NamesGrowStep(m: Mux, ev: Event, srv: Servers)
    ensures m.names <= Step(m, ev, srv).names
  {
    if ev.Negotiate? && ev.d < |m.dests| {
      NegotiateNames(m, ev.d, ev.ok, srv);
    } else if ev.TranslateOne? && ev.d < |m.dests| {
      TranslateTables(m, ev.d);
    } else if ev.WriteOne? && ev.d < |m.dests| {
      WriteTables(m, ev.d, ev.ok, ev.reached);
    }
  }

  lemma NegotiateNames(m: Mux, d: nat, ok: bool, srv: Servers)
    requires d < |m.dests|
    ensures NegotiateStep(m, d, ok, srv).names == m.names
  {
  }

  /** No flush of the emergency queue breaks off in the middle of a batch. */
  predicate CleanRun(m: Mux, evs: seq<Event>, srv: Servers)
    decreases |evs|
  {
    evs == [] || (!BreaksOff(m, evs[0]) && CleanRun(Step(m, evs[0], srv), evs[1..], srv))
  }

  predicate NoFailedWrite(evs: seq<Event>) {
    forall i :: 0 <= i < |evs| ==> evs[i].WriteOne? ==> evs[i].ok
  }

  lemma {:induction false} NoFailureClean(m: Mux, evs: seq<Event>, srv: Servers)
    requires NoFailedWrite(evs)
    ensures CleanRun(m, evs, srv)
    decreases |evs|
  {
    if evs != [] {
      NoFailureClean(Step(m, evs[0], srv), evs[1..], srv);
    }
  }

  lemma {:induction false} NamesGrow(m: Mux, evs: seq<Event>, srv: Servers)
    ensures m.names <= Run(m, evs, srv).names
    decreases |evs|
  {
    if evs != [] && !Crashes(m, evs[0], srv) {
      NamesGrowStep(m, evs[0], srv);
      NamesGrow(Step(m, evs[0], srv), evs[1..], srv);
    }
  }

  lemma FewerNames(srv: Servers, few: seq<string>, many: seq<string>)
    requires ServersOk(srv, many) && few <= many
    ensures ServersOk(srv, few)
  {
    forall d: nat, i, j | 0 <= i < j < |few| ensures srv(d, few[i]) != srv(d, few[j]) {
      assert few[i] == many[i] && few[j] == many[j];
    }
    forall d: nat, i | 0 <= i < |few| ensures srv(d, few[i]) != GRAVWELL_TAG {
      assert few[i] == many[i];
    }
  }

  lemma {:induction false} RunClean(m: Mux, evs: seq<Event>, srv: Servers)
    requires ServersOk(srv, Run(m, evs, srv).names) && AllClean(m, srv) && CleanRun(m, evs, srv)
    ensures AllClean(Run(m, evs, srv), srv) && Survives(m, evs, srv)
    decreases |evs|
  {
    if evs != [] {
      WholeSurvives(m, evs[0], srv);
      NamesGrow(m, evs, srv);
      FewerNames(srv, m.names, Run(m, evs, srv).names);
      StepClean(m, evs[0], srv);
      RunClean(Step(m, evs[0], srv), evs[1..], srv);
    }
  }

  lemma StartClean(names: seq<string>, dests: nat, srv: Servers)
    requires 0 < |names| <= MAX_TAG_ID && NamesDistinct(names)
    ensures AllClean(Start(names, dests), srv)
  {
    var m := Start(names, dests);
    forall e ensures Clean(m, e) {
      assert Count([], e) == 0;
      SumZero(DestCounts(m.dests, e));
      assert Total(m, e) == 0;
    }
  }

  /** Where a clean run from the start leads. */
  lemma CleanState(names: seq<string>, dests: nat, evs: seq<Event>, srv: Servers)
    requires 0 < |names| <= MAX_TAG_ID && NamesDistinct(names)
    requires ServersOk(srv, Run(Start(names, dests), evs, srv).names)
    requires CleanRun(Start(names, dests), evs, srv)
    ensures AllClean(Run(Start(names, dests), evs, srv), srv) && Survives(Start(names, dests), evs, srv)
  {
    StartClean(names, dests, srv);
    RunClean(Start(names, dests), evs, srv);
  }

  /** On every clean run no batch ever has an empty slot, and the process lives. */
  lemma CleanRunsSurvive(names: seq<string>, dests: nat, evs: seq<Event>, srv: Servers)
    requires 0 < |names| <= MAX_TAG_ID && NamesDistinct(names)
    requires ServersOk(srv, Run(Start(names, dests), evs, srv).names)
    requires CleanRun(Start(names, dests), evs, srv)
    ensures Survives(Start(names, dests), evs, srv) && HoleFree(Run(Start(names, dests), evs, srv))
  {
    CleanState(names, dests, evs, srv);
  }

  /** The id an indexer uses for the tag an entry was admitted with. */
  function RemoteTag(m: Mux, dest: nat, e: EntryRef, srv: Servers): Tag
    requires e in m.home && KnownTag(m, m.home[e])
  {
    if m.home[e] == GRAVWELL_TAG then GRAVWELL_TAG else srv(dest, m.names[m.home[e]])
  }

  /** On every clean run, every entry an indexer has read or is about to read
      carries that indexer's own id for the name of the tag it was admitted with,
      however often it was ejected and sent again elsewhere. */
  lemma EveryIndexerReadsTheRightTag(names: seq<string>, dests: nat, evs: seq<Event>, srv: Servers)
    requires 0 < |names| <= MAX_TAG_ID && NamesDistinct(names)
    requires ServersOk(srv, Run(Start(names, dests), evs, srv).names)
    requires CleanRun(Start(names, dests), evs, srv)
    ensures var m := Run(Start(names, dests), evs, srv);
            forall c, i :: 0 <= c < |m.conns| && 0 <= i < |Travelled(m.conns[c].link)| ==>
              var r := Travelled(m.conns[c].link)[i];
              r.ent in m.home && KnownTag(m, m.home[r.ent]) && r.tag == RemoteTag(m, m.conns[c].dest, r.ent, srv)
  {
    CleanState(names, dests, evs, srv);
    TripsAreRight(Run(Start(names, dests), evs, srv), srv);
  }

  lemma TripsAreRight(m: Mux, srv: Servers)
    requires AllClean(m, srv)
    ensures forall c, i :: 0 <= c < |m.conns| && 0 <= i < |Travelled(m.conns[c].link)| ==>
              var r := Travelled(m.conns[c].link)[i];
              r.ent in m.home && KnownTag(m, m.home[r.ent]) && r.tag == RemoteTag(m, m.conns[c].dest, r.ent, srv)
  {
    forall c, i | 0 <= c < |m.conns| && 0 <= i < |Travelled(m.conns[c].link)|
      ensures var r := Travelled(m.conns[c].link)[i];
              r.ent in m.home && KnownTag(m, m.home[r.ent]) && r.tag == RemoteTag(m, m.conns[c].dest, r.ent, srv)
    {
      var r := Travelled(m.conns[c].link)[i];
      assert TripsOk(m.home, m.conns[c]) && TripRight(m.home, m.conns[c].tt, r);
      assert Clean(m, r.ent) && TableOk(m.names, m.conns[c], srv);
    }
  }

  /** On every clean run the muxer holds an entry at most once, under its own tag
      wherever it waits, and under the indexer's id for the same name in a ring. */
  lemma TagsFollowPlaces(names: seq<string>, dests: nat, evs: seq<Event>, srv: Servers, e: EntryRef, p: Place)
    requires 0 < |names| <= MAX_TAG_ID && NamesDistinct(names)
    requires ServersOk(srv, Run(Start(names, dests), evs, srv).names)
    requires CleanRun(Start(names, dests), evs, srv)
    requires At(Run(Start(names, dests), evs, srv), p, e) && !p.Taken?
    ensures var m := Run(Start(names, dests), evs, srv);
            && e in m.home && KnownTag(m, m.home[e])
            && (p.Feed? || p.Parked? || p.Reaped? ==> TagOf(m.tags, e) == m.home[e])
            && (p.Ring? ==> TagOf(m.tags, e) == RemoteTag(m, m.conns[p.c].dest, e, srv))
            && (forall q :: At(m, q, e) && !q.Taken? ==> q == p)
  {
    CleanState(names, dests, evs, srv);
    PlaceIsRight(Run(Start(names, dests), evs, srv), srv, e, p);
  }

  lemma PlaceIsRight(m: Mux, srv: Servers, e: EntryRef, p: Place)
    requires AllClean(m, srv) && At(m, p, e) && !p.Taken?
    ensures e in m.home && KnownTag(m, m.home[e])
    ensures p.Feed? || p.Parked? || p.Reaped? ==> TagOf(m.tags, e) == m.home[e]
    ensures p.Ring? ==> TagOf(m.tags, e) == RemoteTag(m, m.conns[p.c].dest, e, srv)
    ensures forall q :: At(m, q, e) && !q.Taken? ==> q == p
  {
    assert Clean(m, e);
    HeldIsHome(m, p, e);
    OnlyAt(m, p, e);
    if p.Ring? {
      assert TableOk(m.names, m.conns[p.c], srv);
    }
  }

  // A flush that breaks off

  /** When emergencyQueue.clear fails after part of a batch is written, a written
      entry still in the ring keeps the right tag there exactly if the indexer
      happens to use the muxer's own id for it. */
  lemma BreakingOffKeepsTag(m: Mux, d: nat, reached: bool, srv: Servers, e: EntryRef)
    requires ServersOk(srv, m.names) && AllClean(m, srv) && BreaksOff(m, WriteOne(d, false, reached))
    requires var p := m.dests[d].relay;
             && p.n < |p.load| && p.load[p.n].Some?
             && At(m, Ring(p.c), e) && InPart(e, p.load, 0, p.n)
    ensures var c := m.dests[d].relay.c;
            var m' := WriteStep(m, d, false, reached);
            e in m.home && At(m', Ring(c), e) && At(m', Parked, e) &&
            (TagRight(m', Ring(c), e) <==> Translate(m.conns[c].tt, m.home[e]) == Some(m.home[e]))
  {
    var p := m.dests[d].relay;
    assert Clean(m, e);
    WriteFailedFrame(m, d, reached);
    HeldIsHome(m, Ring(p.c), e);
    assert TagRight(m, Ring(p.c), e);
    assert Some(e) in p.load;
    CountIn(p.load, e);
    ReversedHome(m, p.c, p.load, srv, e);
    LoadsAppend(e, m.queue, [p.load]);
    assert [p.load][0] == p.load;
    WriteStepTable(m, d, reached);
  }

  lemma WriteStepTable(m: Mux, d: nat, reached: bool)
    requires d < |m.dests| && m.dests[d].relay.Writing? && m.dests[d].relay.c < |m.conns|
    ensures var c := m.dests[d].relay.c;
            var m' := WriteStep(m, d, false, reached);
            |m'.conns| == |m.conns| && m'.conns[c].tt == m.conns[c].tt && m'.conns[c].link.ring == m.conns[c].link.ring
  {
  }
}
