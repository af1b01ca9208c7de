/** The ingest muxer as a step system: feeder channels, the emergency queue, one
    relay and one connection routine per destination, and every connection ever
    made (ingest/muxer.go). Entries are pointers; `tags` is the tag field each
    one has at the moment, which relays overwrite in place. */
module Muxers {
  import opened Wrappers
  import Link
  import opened Tags

  type EntryRef = Link.EntryRef
  type Tag = Link.Tag

  /** The id an indexer uses for a tag name. */
  type Servers = (nat, string) -> Tag

  /** What travels through a channel or waits in the emergency queue: one entry
      or a batch. A slot is emptied when its entry is dropped. */
  type Load = seq<Option<EntryRef>>

  /** Where the load in a relay's hand came from: a feeder channel, or the
      emergency queue while a connection is new or during the periodic clear. */
  datatype Origin = Feeder | Queue(newConn: bool)

  datatype Phase =
    | Waiting                                    // blocked on the channel of new connections
    | Ready(c: nat)                              // in the select loop
    | Translating(c: nat, load: Load, k: nat, neg: Option<nat>, src: Origin)
    | Writing(c: nat, load: Load, n: nat, src: Origin)
    | Failing(c: nat, rest: Load)                // has a load to recycle before closing
    | Closing(c: nat)
    | Returning(rest: Load)                      // has the ejected entries to recycle
    | Clearing(c: nat, newConn: bool)              // in emergencyQueue.clear

  /** A destination: its relay, the connection its connRoutine holds, one being
      set up, whether the connection waits in the channel, and ejected entries. */
  datatype Dest = Dest(relay: Phase, conn: Option<nat>, dialed: Option<nat>, offered: bool, reaped: Load)

  datatype Conn = Conn(dest: nat, link: Link.Link, tt: TagTrans, installed: bool)

  /** names lists the known tags by local id (see Tags.Listing); home is the tag
      each entry was admitted with. */
  datatype Mux = Mux(
    names: seq<string>,
    tags: map<EntryRef, Tag>,
    home: map<EntryRef, Tag>,
    feed: seq<Load>,
    queue: seq<Load>,
    conns: seq<Conn>,
    dests: seq<Dest>)

  datatype Event =
    | Admit(ents: seq<(EntryRef, Tag)>)
    | NewTag(name: string)
    | Receive(d: nat, i: nat)
    | TranslateOne(d: nat)
    | Negotiate(d: nat, ok: bool)
    | WriteOne(d: nat, ok: bool, reached: bool)
    | Recycle(d: nat, toQueue: bool)
    | EjectConn(d: nat)
    | Reap(d: nat)
    | RecycleReaped(d: nat, toQueue: bool)
    | Dial(d: nat)
    | Install(d: nat)
    | HandOver(d: nat)
    | PopQueue(d: nat)
    | ClearDone(d: nat, synced: bool)
    | Tick(d: nat)
    | Fault(d: nat)
    | OnLink(c: nat, ev: Link.Event)

  function TagOf(tags: map<EntryRef, Tag>, e: EntryRef): Tag {
    if e in tags then tags[e] else 0
  }

  /** The loops that reverse the tags of a run of entries. */
  function ReverseLoad(tags: map<EntryRef, Tag>, tt: TagTrans, load: Load): map<EntryRef, Tag>
    decreases |load|
  {
    if load == [] then tags
    else match load[0]
      case None => ReverseLoad(tags, tt, load[1..])
      case Some(e) => ReverseLoad(tags[e := Reverse(tt, TagOf(tags, e))], tt, load[1..])
  }

  function AsLoad(ring: seq<Link.Pending>): (r: Load)
    ensures |r| == |ring| && forall i :: 0 <= i < |ring| ==> r[i] == Some(ring[i].ent)
  {
    seq(|ring|, i requires 0 <= i < |ring| => Some(ring[i].ent))
  }

  function SetRelay(m: Mux, d: nat, p: Phase): Mux
    requires d < |m.dests|
  {
    m.(dests := m.dests[d := m.dests[d].(relay := p)])
  }

  function SetLink(m: Mux, c: nat, l: Link.Link): Mux
    requires c < |m.conns|
  {
    m.(conns := m.conns[c := m.conns[c].(link := l)])
  }

  predicate KnownTag(m: Mux, t: Tag) {
    t == GRAVWELL_TAG || t < |m.names|
  }

  /** recycleEntry and recycleEntryBatch: an empty load goes nowhere, another one
      into a feeder channel or, if none takes it in time, the emergency queue. */
  function Push(m: Mux, load: Load, toQueue: bool): Mux {
    if load == [] then m
    else if toQueue then m.(queue := m.queue + [load])
    else m.(feed := m.feed + [load])
  }

  // The relay's work on one load

  /** A tag could not be translated: put back what has been translated so far.
      The relay drops the entry only if the muxer does not know its tag. */
  function Untranslatable(m: Mux, d: nat, p: Phase): (m': Mux)
    requires d < |m.dests| && p.Translating? && p.k < |p.load| && p.load[p.k].Some? && p.c < |m.conns|
    ensures m'.home == m.home && |m'.dests| == |m.dests|
  {
    var undone := m.(tags := ReverseLoad(m.tags, m.conns[p.c].tt, p.load[..p.k]));
    match p.src
    case Feeder =>
      var e := p.load[p.k].value;
      var rest := if KnownTag(m, TagOf(m.tags, e)) then p.load else p.load[p.k := None];
      SetRelay(undone, d, Failing(p.c, rest))
    case Queue(newConn) =>
      SetRelay(Push(undone, p.load, true), d, if newConn then Waiting else Closing(p.c))
  }

  function TranslateStep(m: Mux, d: nat): (m': Mux)
    requires d < |m.dests|
    ensures m'.home == m.home && |m'.dests| == |m.dests|
  {
    var p := m.dests[d].relay;
    if !p.Translating? || p.c >= |m.conns| then m
    else if p.k >= |p.load| then SetRelay(m, d, Writing(p.c, p.load, 0, p.src))
    else match p.load[p.k]
      case None => SetRelay(m, d, p.(k := p.k + 1, neg := None))
      case Some(e) =>
        var tt := m.conns[p.c].tt;
        match Translate(tt, TagOf(m.tags, e))
        case Some(r) =>
          if p.neg.Some? && p.neg.value > 0 then m
          else SetRelay(m.(tags := m.tags[e := r]), d, p.(k := p.k + 1, neg := None))
        case None =>
          if p.src.Feeder? && p.neg.None? && tt.toNegotiate != [] then
            SetRelay(m, d, p.(neg := Some(|tt.toNegotiate|)))
          else if p.neg.Some? && p.neg.value > 0 then m
          else Untranslatable(m, d, p)
  }

  /** One exchange with the indexer in the loop of connSet.translateTag. */
  function NegotiateStep(m: Mux, d: nat, ok: bool, srv: Servers): (m': Mux)
    requires d < |m.dests|
    ensures m'.home == m.home && |m'.dests| == |m.dests|
  {
    var p := m.dests[d].relay;
    if !p.Translating? || p.c >= |m.conns| || p.k >= |p.load| || p.load[p.k].None? then m
    else if p.neg.None? || p.neg.value == 0 || m.conns[p.c].tt.toNegotiate == [] then m
    else
      var conn := m.conns[p.c];
      var u := conn.tt.toNegotiate[0];
      var remote := srv(conn.dest, u.name);
      match RegisterTag(conn.tt, u.local, remote)
      case Err(_) => Untranslatable(m, d, p)
      case Ok(next) =>
        if !ok then Untranslatable(m, d, p)
        else SetRelay(m.(conns := m.conns[p.c := conn.(tt := ClearToNegotiate(next, 1))]),
                      d, p.(neg := Some(p.neg.value - 1)))
  }

  /** emergencyQueue.clear could not write a batch to its end. */
  function FlushFails(m: Mux, d: nat, p: Phase, ev: Link.Event): (m': Mux)
    requires d < |m.dests| && p.Writing? && p.c < |m.conns| && p.src.Queue?
    ensures m'.home == m.home && |m'.dests| == |m.dests|
  {
    var broken := SetLink(m, p.c, Link.Step(m.conns[p.c].link, ev));
    SetRelay(Push(broken.(tags := ReverseLoad(m.tags, m.conns[p.c].tt, p.load)), p.load, true),
             d, if p.src.newConn then Waiting else Closing(p.c))
  }

  /** One entry of a batch is written, or fails to be. An empty slot is never written:
      the write fails before it comes to that, or the process crashes (see Crashes). */
  function WriteStep(m: Mux, d: nat, ok: bool, reached: bool): (m': Mux)
    requires d < |m.dests|
    ensures m'.home == m.home && |m'.dests| == |m.dests|
  {
    var p := m.dests[d].relay;
    if !p.Writing? || p.c >= |m.conns| then m
    else if p.n >= |p.load| then
      SetRelay(m, d, if p.src.Feeder? then Ready(p.c) else Clearing(p.c, p.src.newConn))
    else if p.load[p.n].None? then (if ok || p.src.Feeder? then m else FlushFails(m, d, p, Link.Break))
    else
      var e := p.load[p.n].value;
      var conn := m.conns[p.c];
      var t := TagOf(m.tags, e);
      if ok then
        if !conn.link.net.intact || conn.link.nextId + 1 >= 0x1_0000_0000_0000_0000 then m
        else SetRelay(SetLink(m, p.c, Link.Step(conn.link, Link.Send(e, t))), d, p.(n := p.n + 1))
      else if p.src.Queue? then FlushFails(m, d, p, Link.SendFailed(e, t, reached))
      else
        var broken := SetLink(m, p.c, Link.Step(conn.link, Link.SendFailed(e, t, reached)));
        var rest := p.load[p.n..];
        SetRelay(broken.(tags := ReverseLoad(m.tags, conn.tt, rest)), d, Failing(p.c, rest))
  }

  // Connections come and go

  function Ejected(m: Mux, c: nat): Mux
    requires c < |m.conns|
  {
    SetLink(m.(tags := ReverseLoad(m.tags, m.conns[c].tt, AsLoad(m.conns[c].link.ring))),
            c, Link.Step(m.conns[c].link, Link.Eject))
  }

  function EjectStep(m: Mux, d: nat): (m': Mux)
    requires d < |m.dests|
    ensures m'.home == m.home && |m'.dests| == |m.dests|
  {
    var p := m.dests[d].relay;
    if !p.Closing? || p.c >= |m.conns| then m
    else SetRelay(Ejected(m, p.c), d, Returning(AsLoad(m.conns[p.c].link.ring)))
  }

  function ReapStep(m: Mux, d: nat): (m': Mux)
    requires d < |m.dests|
    ensures m'.home == m.home && |m'.dests| == |m.dests|
  {
    var w := m.dests[d];
    if !w.relay.Waiting? || w.offered || w.conn.None? || w.conn.value >= |m.conns| || w.reaped != [] then m
    else
      var c := w.conn.value;
      var m' := Ejected(m, c);
      m'.(dests := m.dests[d := w.(conn := None, reaped := AsLoad(m.conns[c].link.ring))],
          conns := m'.conns[c := m'.conns[c].(installed := false)])
  }

  function FreshTable(m: Mux, d: nat, srv: Servers): TagTrans {
    TagTrans(seq(|m.names|, i requires 0 <= i < |m.names| => srv(d, m.names[i])), [])
  }

  function DialStep(m: Mux, d: nat, srv: Servers): (m': Mux)
    requires d < |m.dests|
    ensures m'.home == m.home && |m'.dests| == |m.dests|
  {
    var w := m.dests[d];
    if !w.relay.Waiting? || w.conn.Some? || w.dialed.Some? || w.reaped != [] then m
    else m.(conns := m.conns + [Conn(d, Link.Start(), FreshTable(m, d, srv), false)],
            dests := m.dests[d := w.(dialed := Some(|m.conns|))])
  }

  function InstallStep(m: Mux, d: nat): (m': Mux)
    requires d < |m.dests|
    ensures m'.home == m.home && |m'.dests| == |m.dests|
  {
    var w := m.dests[d];
    if w.dialed.None? || w.dialed.value >= |m.conns| then m
    else
      var c := w.dialed.value;
      m.(conns := m.conns[c := m.conns[c].(installed := true)],
         dests := m.dests[d := w.(conn := Some(c), dialed := None, offered := true)])
  }

  function HandOverStep(m: Mux, d: nat): (m': Mux)
    requires d < |m.dests|
    ensures m'.home == m.home && |m'.dests| == |m.dests|
  {
    var w := m.dests[d];
    if !w.relay.Waiting? || !w.offered || w.conn.None? then m
    else m.(dests := m.dests[d := w.(relay := Clearing(w.conn.value, true), offered := false)])
  }

  function NewTagStep(m: Mux, name: string): Mux {
    if name in m.names || |m.names| >= MAX_TAG_ID then m
    else
      var u := Unnegotiated(|m.names|, name);
      m.(names := m.names + [name],
         conns := seq(|m.conns|, c requires 0 <= c < |m.conns| =>
                    var k := m.conns[c];
                    if k.installed then k.(tt := k.tt.(toNegotiate := k.tt.toNegotiate + [u])) else k))
  }

  /** New entries, each once, under tags the muxer knows. */
  predicate Admissible(m: Mux, ents: seq<(EntryRef, Tag)>) {
    && ents != []
    && (forall i :: 0 <= i < |ents| ==> ents[i].0 !in m.home && KnownTag(m, ents[i].1))
    && (forall i, j :: 0 <= i < j < |ents| ==> ents[i].0 != ents[j].0)
  }

  function LoadOf(ents: seq<(EntryRef, Tag)>): (r: Load)
    ensures |r| == |ents| && forall i :: 0 <= i < |ents| ==> r[i] == Some(ents[i].0)
  {
    seq(|ents|, i requires 0 <= i < |ents| => Some(ents[i].0))
  }

  function TagsOf(ents: seq<(EntryRef, Tag)>): map<EntryRef, Tag> {
    if ents == [] then map[] else TagsOf(ents[..|ents| - 1])[ents[|ents| - 1].0 := ents[|ents| - 1].1]
  }

  function AdmitStep(m: Mux, ents: seq<(EntryRef, Tag)>): Mux {
    if !Admissible(m, ents) then m
    else m.(tags := m.tags + TagsOf(ents), home := m.home + TagsOf(ents), feed := m.feed + [LoadOf(ents)])
  }

  /** Steps a connection takes besides sending, failing to send and ejecting. */
  predicate Spontaneous(ev: Link.Event) {
    !ev.Send? && !ev.SendFailed? && !ev.Eject?
  }

  function Step(m: Mux, ev: Event, srv: Servers): Mux {
    match ev
    case Admit(ents) => AdmitStep(m, ents)
    case NewTag(name) => NewTagStep(m, name)
    case OnLink(c, e) =>
      if c >= |m.conns| || !Spontaneous(e) then m else SetLink(m, c, Link.Step(m.conns[c].link, e))
    case _ =>
      if ev.d >= |m.dests| then m else DestStep(m, ev, srv)
  }

  function DestStep(m: Mux, ev: Event, srv: Servers): (m': Mux)
    requires !ev.Admit? && !ev.NewTag? && !ev.OnLink? && ev.d < |m.dests|
    ensures m'.home == m.home && |m'.dests| == |m.dests|
  {
    var d := ev.d;
    var p := m.dests[d].relay;
    match ev
    case Receive(_, i) =>
      if p.Ready? && i < |m.feed|
      then SetRelay(m.(feed := m.feed[..i] + m.feed[i + 1..]), d, Translating(p.c, m.feed[i], 0, None, Feeder))
      else m
    case PopQueue(_) =>
      if p.Clearing? && m.queue != []
      then SetRelay(m.(queue := m.queue[1..]), d, Translating(p.c, m.queue[0], 0, None, Queue(p.newConn)))
      else m
    case TranslateOne(_) => TranslateStep(m, d)
    case Negotiate(_, ok) => NegotiateStep(m, d, ok, srv)
    case WriteOne(_, ok, reached) => WriteStep(m, d, ok, reached)
    case Recycle(_, toQueue) =>
      if p.Failing? then SetRelay(Push(m, p.rest, toQueue), d, Closing(p.c))
      else if p.Returning? then SetRelay(Push(m, p.rest, toQueue), d, Waiting)
      else m
    case EjectConn(_) => EjectStep(m, d)
    case Reap(_) => ReapStep(m, d)
    case RecycleReaped(_, toQueue) =>
      var w := m.dests[d];
      Push(m, w.reaped, toQueue).(dests := m.dests[d := w.(reaped := [])])
    case Dial(_) => DialStep(m, d, srv)
    case Install(_) => InstallStep(m, d)
    case HandOver(_) => HandOverStep(m, d)
    case ClearDone(_, synced) =>
      if p.Clearing? && m.queue == []
      then SetRelay(m, d, if synced || !p.newConn then Ready(p.c) else Waiting)
      else m
    case Tick(_) => if p.Ready? then SetRelay(m, d, Clearing(p.c, false)) else m
    case Fault(_) => if p.Ready? then SetRelay(m, d, Closing(p.c)) else m
  }

  // Crashes

  /** A slot emptied when its entry was dropped. */
  predicate HasHole(load: Load, from: nat, to: nat) {
    exists i :: from <= i < to && i < |load| && load[i].None?
  }

  /** The relay gives up on a load it cannot translate. */
  predicate GivesUp(m: Mux, ev: Event, srv: Servers)
    requires (ev.TranslateOne? || ev.Negotiate?) && ev.d < |m.dests|
  {
    var p := m.dests[ev.d].relay;
    && p.Translating? && p.c < |m.conns| && p.k < |p.load| && p.load[p.k].Some?
    && (if ev.TranslateOne? then TranslateStep(m, ev.d) else NegotiateStep(m, ev.d, ev.ok, srv))
       == Untranslatable(m, ev.d, p)
  }

  /** The process dies of a nil dereference: neither writing an entry nor, unless
      the emergency queue is being cleared, reversing those that were not written
      expects an empty slot, nor does giving up on a load. */
  predicate Crashes(m: Mux, ev: Event, srv: Servers) {
    && (ev.WriteOne? || ev.TranslateOne? || ev.Negotiate?) && ev.d < |m.dests|
    && var p := m.dests[ev.d].relay;
       if ev.WriteOne? then
         p.Writing? && p.c < |m.conns| && p.n < |p.load|
         && (if ev.ok then p.load[p.n].None? else p.src.Feeder? && HasHole(p.load, p.n, |p.load|))
       else GivesUp(m, ev, srv) && HasHole(p.load, 0, p.k)
  }

  /** A run ends where the process crashes. */
  function Run(m: Mux, evs: seq<Event>, srv: Servers): Mux
    decreases |evs|
  {
    if evs == [] || Crashes(m, evs[0], srv) then m else Run(Step(m, evs[0], srv), evs[1..], srv)
  }

  predicate Survives(m: Mux, evs: seq<Event>, srv: Servers)
    decreases |evs|
  {
    evs == [] || (!Crashes(m, evs[0], srv) && Survives(Step(m, evs[0], srv), evs[1..], srv))
  }

  /** newIngestMuxer and Start, with the names AssignIds has numbered. */
  function Start(names: seq<string>, dests: nat): Mux {
    Mux(names, map[], map[], [], [], [], seq(dests, _ => Dest(Waiting, None, None, false, [])))
  }
}
