/** Tags keep their names: on every run in which no flush of the emergency queue
    breaks off in the middle of a batch, an entry held by the muxer carries its own
    local tag, an entry in the ring of a connection carries that indexer's id for
    the same name, and so does every entry an indexer reads. */
module MuxerTags {
  import opened Wrappers
  import opened ConfBuffer
  import Link
  import opened Tags
  import opened Muxers
  import opened MuxerDelivery
  import opened MuxerCount

  /** Every indexer tells these tags apart and keeps the reserved id free. */
  ghost predicate ServersOk(srv: Servers, names: seq<string>) {
    && (forall d: nat, i, j :: 0 <= i < j < |names| ==> srv(d, names[i]) != srv(d, names[j]))
    && (forall d: nat, i :: 0 <= i < |names| ==> srv(d, names[i]) != GRAVWELL_TAG)
  }

  function PlaceOf(names: seq<string>, name: string): (i: nat)
    ensures i <= |names| && (i < |names| ==> names[i] == name)
    ensures forall j :: 0 <= j < i ==> names[j] != name
  {
    if names == [] || names[0] == name then 0 else 1 + PlaceOf(names[1..], name)
  }

  /** Indexers that number tags as the muxer does, only the other way round. */
  function Reversing(names: seq<string>): Servers {
    (d: nat, name: string) =>
      var i := PlaceOf(names, name);
      if i < |names| <= MAX_TAG_ID then |names| - 1 - i else 0
  }

  /** Whatever tags a muxer has, indexers can keep them apart. */
  lemma ServersExist(names: seq<string>)
    requires NamesDistinct(names) && |names| <= MAX_TAG_ID
    ensures ServersOk(Reversing(names), names)
  {
    var srv := Reversing(names);
    forall d: nat, i | 0 <= i < |names| ensures srv(d, names[i]) == |names| - 1 - i {
      assert PlaceOf(names, names[i]) == i;
    }
  }

  predicate NamesDistinct(names: seq<string>) {
    forall i, j :: 0 <= i < j < |names| ==> names[i] != names[j]
  }

  /** A translator holds the indexer's ids for the first local tags. */
  ghost predicate TableOk(names: seq<string>, k: Conn, srv: Servers) {
    |k.tt.active| <= |names| && forall i :: 0 <= i < |k.tt.active| ==> k.tt.active[i] == srv(k.dest, names[i])
  }

  ghost predicate Tables(m: Mux, srv: Servers) {
    NamesDistinct(m.names) && forall c :: 0 <= c < |m.conns| ==> TableOk(m.names, m.conns[c], srv)
  }

  lemma DistinctTable(m: Mux, c: nat, srv: Servers)
    requires ServersOk(srv, m.names) && Shape(m) && Tables(m, srv) && c < |m.conns|
    ensures Distinct(m.conns[c].tt)
  {
    assert TableOk(m.names, m.conns[c], srv);
  }

  /** The tag e should have in a place: its own, or that of the connection whose
      relay has translated it or whose ring holds it. */
  predicate TagRight(m: Mux, p: Place, e: EntryRef)
    requires e in m.home
  {
    var t, h := TagOf(m.tags, e), m.home[e];
    match p
    case Relay(d) =>
      if d < |m.dests| && InTranslated(e, m.dests[d].relay) then
        m.dests[d].relay.c < |m.conns| && Translate(m.conns[m.dests[d].relay.c].tt, h) == Some(t)
      else t == h
    case Ring(c) => c < |m.conns| && Translate(m.conns[c].tt, h) == Some(t)
    case Taken(_) => true
    case _ => t == h
  }

  ghost predicate Clean(m: Mux, e: EntryRef) {
    && Total(m, e) <= 1
    && (Total(m, e) > 0 ==> e in m.home)
    && (e in m.home ==> KnownTag(m, m.home[e]) && forall p :: At(m, p, e) ==> TagRight(m, p, e))
    && (forall d :: 0 <= d < |m.dests| && m.dests[d].relay.Writing? ==> Count(m.dests[d].relay.load, e) <= 1)
  }

  /** The tag of e is right in the places destination d and connection c touch. */
  predicate RightNear(m: Mux, d: nat, c: nat, e: EntryRef)
    requires e in m.home
  {
    && (At(m, Feed, e) ==> TagRight(m, Feed, e))
    && (At(m, Parked, e) ==> TagRight(m, Parked, e))
    && (At(m, Relay(d), e) ==> TagRight(m, Relay(d), e))
    && (At(m, Reaped(d), e) ==> TagRight(m, Reaped(d), e))
    && (At(m, Ring(c), e) ==> TagRight(m, Ring(c), e))
  }

  lemma HeldIsHome(m: Mux, p: Place, e: EntryRef)
    requires Shape(m) && Clean(m, e) && At(m, p, e) && !p.Taken?
    ensures e in m.home
  {
    WeightAt(m, p, e);
    WeightPart(m, p, e);
  }

  /** Translations stay as they are while tables grow. */
  ghost predicate TablesGrow(m: Mux, m': Mux) {
    && |m.conns| <= |m'.conns|
    && m.names <= m'.names
    && forall c :: 0 <= c < |m.conns| ==> m.conns[c].tt.active <= m'.conns[c].tt.active
  }

  /** A step of destination d that leaves the rings of all connections alone. */
  ghost predicate RelayFrame(m: Mux, m': Mux, d: nat) {
    && d < |m.dests| == |m'.dests|
    && (forall x :: 0 <= x < |m.dests| && x != d ==> m'.dests[x] == m.dests[x])
    && m'.home == m.home && TablesGrow(m, m') && |m'.conns| == |m.conns|
    && (forall x :: 0 <= x < |m.conns| ==> m'.conns[x].link.ring == m.conns[x].link.ring)
  }

  lemma TranslateGrows(a: TagTrans, b: TagTrans, t: Tag)
    requires a.active <= b.active && Translate(a, t).Some?
    ensures Translate(b, t) == Translate(a, t)
  {
  }

  /** What has to be checked when destination d and connection c take a step:
      tags change only for entries they hold, nothing is duplicated, and whatever
      is now in one of the places they touch has the right tag there. */
  lemma StaysClean(m: Mux, m': Mux, d: nat, c: nat, e: EntryRef)
    requires Shape(m) && Clean(m, e) && m'.home == m.home && TablesGrow(m, m') && |m'.dests| == |m.dests|
    requires forall x :: 0 <= x < |m.dests| && x != d ==> m'.dests[x] == m.dests[x]
    requires forall x :: 0 <= x < |m'.conns| && x != c ==>
               m'.conns[x].link.ring == if x < |m.conns| then m.conns[x].link.ring else []
    requires Total(m', e) <= Total(m, e)
    requires TagOf(m'.tags, e) == TagOf(m.tags, e) || At(m, Relay(d), e) || At(m, Ring(c), e)
    requires e in m.home ==> RightNear(m', d, c, e)
    requires d < |m.dests| && m'.dests[d].relay.Writing? ==> Count(m'.dests[d].relay.load, e) <= 1
    ensures Clean(m', e)
  {
    if e in m.home {
      forall p | At(m', p, e) ensures TagRight(m', p, e) {
        if !p.Taken? && p != Feed && p != Parked && p != Relay(d) && p != Reaped(d) && p != Ring(c) {
          StaysRight(m, m', d, c, e, p);
        }
      }
    }
  }

  /** At a place where nothing has changed. */
  lemma StaysRight(m: Mux, m': Mux, d: nat, c: nat, e: EntryRef, p: Place)
    requires Shape(m) && Clean(m, e) && m'.home == m.home && TablesGrow(m, m') && |m'.dests| == |m.dests|
    requires TagOf(m'.tags, e) == TagOf(m.tags, e) || At(m, Relay(d), e) || At(m, Ring(c), e)
    requires e in m.home && At(m, p, e) && !p.Taken? && p != Relay(d) && p != Ring(c)
    requires p.Relay? ==> m'.dests[p.d].relay == m.dests[p.d].relay
    ensures TagRight(m', p, e)
  {
    assert TagRight(m, p, e);
    if TagOf(m'.tags, e) != TagOf(m.tags, e) {
      OnlyAt(m, p, e);
    }
    ElsewhereRight(m, m', p, e);
  }

  lemma ElsewhereRight(m: Mux, m': Mux, p: Place, e: EntryRef)
    requires e in m.home && m'.home == m.home && TablesGrow(m, m') && |m'.dests| == |m.dests|
    requires At(m, p, e) && TagRight(m, p, e) && TagOf(m'.tags, e) == TagOf(m.tags, e)
    requires p.Relay? ==> m'.dests[p.d].relay == m.dests[p.d].relay
    ensures TagRight(m', p, e)
  {
    if p.Ring? {
      TranslateGrows(m.conns[p.c].tt, m'.conns[p.c].tt, m.home[e]);
    }
    if p.Relay? && InTranslated(e, m.dests[p.d].relay) {
      var c := m.dests[p.d].relay.c;
      TranslateGrows(m.conns[c].tt, m'.conns[c].tt, m.home[e]);
    }
  }

  // Reversal

  lemma {:induction false} ReverseLoadAt(tags: map<EntryRef, Tag>, tt: TagTrans, load: Load, e: EntryRef)
    ensures Count(load, e) == 0 ==> TagOf(ReverseLoad(tags, tt, load), e) == TagOf(tags, e)
    ensures Count(load, e) == 1 ==> TagOf(ReverseLoad(tags, tt, load), e) == Reverse(tt, TagOf(tags, e))
    decreases |load|
  {
    if load != [] {
      CountHead(load, e);
      match load[0] {
        case None => ReverseLoadAt(tags, tt, load[1..], e);
        case Some(f) => ReverseLoadAt(tags[f := Reverse(tt, TagOf(tags, f))], tt, load[1..], e);
      }
    }
  }

  /** Reversing a run of entries that carry the connection's tags gives each its
      own tag back and leaves all others alone. */
  lemma ReversedHome(m: Mux, c: nat, load: Load, srv: Servers, e: EntryRef)
    requires ServersOk(srv, m.names) && Shape(m) && Tables(m, srv) && c < |m.conns|
    requires Count(load, e) <= 1
    ensures var t := TagOf(ReverseLoad(m.tags, m.conns[c].tt, load), e);
            && (Count(load, e) == 0 ==> t == TagOf(m.tags, e))
            && (Count(load, e) == 1 && e in m.home && Translate(m.conns[c].tt, m.home[e]) == Some(TagOf(m.tags, e))
                ==> t == m.home[e])
  {
    ReverseLoadAt(m.tags, m.conns[c].tt, load, e);
    DistinctTable(m, c, srv);
    if e in m.home {
      ReverseTranslate(m.conns[c].tt, m.home[e]);
    }
  }

  // The steps of a relay

  function Queued(m: Mux, e: EntryRef): nat {
    CountAll(m.feed, e) + CountAll(m.queue, e)
  }

  /** How the total changes when connections keep their rings. */
  lemma RelayTotal(m: Mux, m': Mux, d: nat, e: EntryRef)
    requires RelayFrame(m, m', d)
    ensures Total(m', e) - Total(m, e) ==
            Queued(m', e) + DestCount(m'.dests[d], e) - Queued(m, e) - DestCount(m.dests[d], e)
  {
    assert m.dests[d := m'.dests[d]] == m'.dests;
    DestTotal(m, d, m'.dests[d], e);
    assert RingCounts(m'.conns, e) == RingCounts(m.conns, e);
  }

  lemma ReceiveClean(m: Mux, d: nat, i: nat, e: EntryRef)
    requires Shape(m) && Clean(m, e) && d < |m.dests| && i < |m.feed| && m.dests[d].relay.Ready?
    ensures Clean(SetRelay(m.(feed := m.feed[..i] + m.feed[i + 1..]), d,
                           Translating(m.dests[d].relay.c, m.feed[i], 0, None, Feeder)), e)
  {
    var p := Translating(m.dests[d].relay.c, m.feed[i], 0, None, Feeder);
    var m' := SetRelay(m.(feed := m.feed[..i] + m.feed[i + 1..]), d, p);
    assert Total(m', e) == Total(m, e) by {
      CountAllWithout(m.feed, i, e);
      RelayTotal(m, m', d, e);
    }
    LoadsWithoutIn(e, m.feed, i);
    PickedUp(m, m', d, e);
  }

  lemma PopQueueClean(m: Mux, d: nat, e: EntryRef)
    requires Shape(m) && Clean(m, e) && d < |m.dests| && m.queue != [] && m.dests[d].relay.Clearing?
    ensures var p := m.dests[d].relay;
            Clean(SetRelay(m.(queue := m.queue[1..]), d, Translating(p.c, m.queue[0], 0, None, Queue(p.newConn))), e)
  {
    var p := Translating(m.dests[d].relay.c, m.queue[0], 0, None, Queue(m.dests[d].relay.newConn));
    var m' := SetRelay(m.(queue := m.queue[1..]), d, p);
    HeadOff(e, m.queue);
    RelayTotal(m, m', d, e);
    PickedUp(m, m', d, e);
  }

  lemma HeadOff(e: EntryRef, ls: seq<Load>)
    requires ls != []
    ensures InLoads(e, ls[1..]) || Some(e) in ls[0] ==> InLoads(e, ls)
    ensures CountAll(ls[1..], e) == CountAll(ls, e) - Count(ls[0], e)
  {
    assert ls[..0] + ls[1..] == ls[1..];
    CountAllWithout(ls, 0, e);
    LoadsWithoutIn(e, ls, 0);
  }

  lemma PickedUp(m: Mux, m': Mux, d: nat, e: EntryRef)
    requires Shape(m) && Clean(m, e) && d < |m.dests| == |m'.dests| && Total(m', e) == Total(m, e)
    requires m'.home == m.home && m'.tags == m.tags && m'.conns == m.conns && m'.names == m.names
    requires forall x :: 0 <= x < |m.dests| && x != d ==> m'.dests[x] == m.dests[x]
    requires m'.dests[d].reaped == m.dests[d].reaped
    requires m'.dests[d].relay.Translating? && m'.dests[d].relay.k == 0
    requires At(m', Feed, e) ==> At(m, Feed, e)
    requires At(m', Parked, e) ==> At(m, Parked, e)
    requires At(m', Relay(d), e) ==> At(m, Feed, e) || At(m, Parked, e)
    ensures Clean(m', e)
  {
    assert e in m.home ==> RightNear(m, d, |m.conns|, e);
    StaysClean(m, m', d, |m.conns|, e);
  }

  lemma LoadsWithoutIn(e: EntryRef, ls: seq<Load>, i: nat)
    requires i < |ls|
    ensures InLoads(e, ls[..i] + ls[i + 1..]) || Some(e) in ls[i] ==> InLoads(e, ls)
  {
    assert ls == ls[..i] + [ls[i]] + ls[i + 1..];
    LoadsAppend(e, ls[..i] + [ls[i]], ls[i + 1..]);
    LoadsAppend(e, ls[..i], [ls[i]]);
    LoadsAppend(e, ls[..i], ls[i + 1..]);
    assert [ls[i]][0] == ls[i];
  }

  /** A destination passes on what it held, under its own tags. */
  lemma PushClean(m: Mux, m': Mux, d: nat, load: Load, toQueue: bool, e: EntryRef)
    requires Shape(m) && Clean(m, e) && RelayFrame(m, m', d)
    requires m'.feed == Push(m, load, toQueue).feed && m'.queue == Push(m, load, toQueue).queue
    requires m'.dests[d].relay == m.dests[d].relay || (!InHand(e, m'.dests[d].relay) && !m'.dests[d].relay.Writing?)
    requires DestCount(m'.dests[d], e) + Count(load, e) <= DestCount(m.dests[d], e)
    requires TagOf(m'.tags, e) == TagOf(m.tags, e) || (At(m, Relay(d), e) && !InHand(e, m'.dests[d].relay))
    requires Some(e) in load && e in m.home ==> TagOf(m'.tags, e) == m.home[e]
    requires Some(e) in m'.dests[d].reaped ==> Some(e) in m.dests[d].reaped
    ensures Clean(m', e)
  {
    assert Total(m', e) <= Total(m, e) by {
      PushTotal(m, load, toQueue, e);
      RelayTotal(m, m', d, e);
    }
    if e in m.home {
      if TagOf(m'.tags, e) != TagOf(m.tags, e) {
        OnlyAt(m, Relay(d), e);
      }
      assert RightNear(m, d, |m.conns|, e);
      PushRight(m, m', d, load, toQueue, e);
    }
    StaysClean(m, m', d, |m.conns|, e);
  }

  lemma PushRight(m: Mux, m': Mux, d: nat, load: Load, toQueue: bool, e: EntryRef)
    requires e in m.home && RightNear(m, d, |m.conns|, e) && d < |m.dests| == |m'.dests| && m'.home == m.home
    requires TablesGrow(m, m') && |m'.conns| == |m.conns|
    requires m'.feed == Push(m, load, toQueue).feed && m'.queue == Push(m, load, toQueue).queue
    requires m'.dests[d].relay == m.dests[d].relay || !InHand(e, m'.dests[d].relay)
    requires TagOf(m'.tags, e) != TagOf(m.tags, e) ==> Alone(m, Relay(d), e) && !InHand(e, m'.dests[d].relay)
    requires Some(e) in load ==> TagOf(m'.tags, e) == m.home[e]
    requires Some(e) in m'.dests[d].reaped ==> Some(e) in m.dests[d].reaped
    ensures RightNear(m', d, |m.conns|, e)
  {
    InPushed(m, load, toQueue, e);
    if TagOf(m'.tags, e) == TagOf(m.tags, e) && At(m', Relay(d), e) {
      ElsewhereRight(m, m', Relay(d), e);
    }
    assert Alone(m, Relay(d), e) ==> !At(m, Feed, e) && !At(m, Parked, e) && !At(m, Reaped(d), e);
  }

  ghost predicate Alone(m: Mux, p: Place, e: EntryRef) {
    forall q :: At(m, q, e) && !q.Taken? ==> q == p
  }

  lemma InPushed(m: Mux, load: Load, toQueue: bool, e: EntryRef)
    ensures var m' := Push(m, load, toQueue);
            && (InLoads(e, m'.feed) ==> InLoads(e, m.feed) || Some(e) in load)
            && (InLoads(e, m'.queue) ==> InLoads(e, m.queue) || Some(e) in load)
  {
    LoadsAppend(e, m.feed, [load]);
    LoadsAppend(e, m.queue, [load]);
  }

  /** A relay keeps what it has in hand, under the same tags. */
  lemma SameHand(m: Mux, m': Mux, d: nat, e: EntryRef)
    requires Shape(m) && Clean(m, e) && RelayFrame(m, m', d) && m'.feed == m.feed && m'.queue == m.queue
    requires m'.dests[d].reaped == m.dests[d].reaped && TagOf(m'.tags, e) == TagOf(m.tags, e)
    requires HandCount(m'.dests[d].relay, e) == HandCount(m.dests[d].relay, e)
    requires SameInHand(m.dests[d].relay, m'.dests[d].relay, e)
    requires m'.dests[d].relay.Writing? ==> Count(m'.dests[d].relay.load, e) <= 1
    ensures Clean(m', e)
  {
    RelayTotal(m, m', d, e);
    if e in m.home {
      assert RightNear(m, d, |m.conns|, e);
      SameHandRight(m, m', d, e);
    }
    StaysClean(m, m', d, |m.conns|, e);
  }

  predicate SameInHand(p: Phase, p': Phase, e: EntryRef) {
    && (InHand(e, p') ==> InHand(e, p))
    && (InTranslated(e, p') <==> InTranslated(e, p))
    && (InTranslated(e, p) ==> p'.c == p.c)
  }

  lemma SameHandRight(m: Mux, m': Mux, d: nat, e: EntryRef)
    requires e in m.home && RightNear(m, d, |m.conns|, e) && d < |m.dests| == |m'.dests| && m'.home == m.home
    requires TablesGrow(m, m') && |m'.conns| == |m.conns| && m'.feed == m.feed && m'.queue == m.queue
    requires m'.dests[d].reaped == m.dests[d].reaped && TagOf(m'.tags, e) == TagOf(m.tags, e)
    requires SameInHand(m.dests[d].relay, m'.dests[d].relay, e)
    ensures RightNear(m', d, |m.conns|, e)
  {
    var p := m.dests[d].relay;
    if InTranslated(e, p) {
      assert At(m, Relay(d), e);
      TranslateGrows(m.conns[p.c].tt, m'.conns[p.c].tt, m.home[e]);
    }
  }

  lemma HandOnce(m: Mux, d: nat, e: EntryRef)
    requires Shape(m) && Clean(m, e) && d < |m.dests|
    ensures HandCount(m.dests[d].relay, e) <= 1
    ensures HandCount(m.dests[d].relay, e) > 0 <==> InHand(e, m.dests[d].relay)
    ensures InHand(e, m.dests[d].relay) ==> e in m.home && Alone(m, Relay(d), e) && TagRight(m, Relay(d), e)
  {
    WeightPart(m, Relay(d), e);
    WeightAt(m, Relay(d), e);
    if InHand(e, m.dests[d].relay) {
      assert At(m, Relay(d), e);
      OnlyAt(m, Relay(d), e);
    }
  }

  lemma PartGrows(e: EntryRef, load: Load, k: nat)
    requires k < |load|
    ensures InPart(e, load, 0, k + 1) <==> InPart(e, load, 0, k) || load[k] == Some(e)
  {
    if InPart(e, load, 0, k) {
      var i :| 0 <= i < k && load[i] == Some(e);
      assert 0 <= i < k + 1 && load[i] == Some(e);
    }
    if load[k] == Some(e) {
      assert 0 <= k < k + 1 && load[k] == Some(e);
    }
  }

  /** The entry a relay is about to translate still has its own tag. */
  lemma NextIsHome(m: Mux, d: nat, f: EntryRef)
    requires Shape(m) && Clean(m, f) && d < |m.dests|
    requires var p := m.dests[d].relay; p.Translating? && p.k < |p.load| && p.load[p.k] == Some(f)
    ensures f in m.home && TagOf(m.tags, f) == m.home[f] && !InTranslated(f, m.dests[d].relay)
  {
    var p := m.dests[d].relay;
    HandOnce(m, d, f);
    if InPart(f, p.load, 0, p.k) {
      var i :| 0 <= i < p.k && p.load[i] == Some(f);
      CountTwice(p.load, i, p.k, f);
    }
  }

  lemma TranslatedClean(m: Mux, d: nat, e: EntryRef)
    requires Shape(m) && Clean(m, e) && d < |m.dests|
    requires var p := m.dests[d].relay;
             p.Translating? && p.k < |p.load| && p.load[p.k].Some? &&
             Translate(m.conns[p.c].tt, TagOf(m.tags, p.load[p.k].value)).Some?
    ensures var p := m.dests[d].relay;
            var f := p.load[p.k].value;
            var r := Translate(m.conns[p.c].tt, TagOf(m.tags, f)).value;
            Clean(SetRelay(m.(tags := m.tags[f := r]), d, p.(k := p.k + 1, neg := None)), e)
  {
    var p := m.dests[d].relay;
    var f := p.load[p.k].value;
    var r := Translate(m.conns[p.c].tt, TagOf(m.tags, f)).value;
    var m' := SetRelay(m.(tags := m.tags[f := r]), d, p.(k := p.k + 1, neg := None));
    PartGrows(e, p.load, p.k);
    if e == f {
      NextIsHome(m, d, f);
      HandOnce(m, d, f);
      RelayTotal(m, m', d, f);
      JustTranslated(m, m', d, f);
      StaysClean(m, m', d, |m.conns|, f);
    } else {
      SameHand(m, m', d, e);
    }
  }

  lemma JustTranslated(m: Mux, m': Mux, d: nat, f: EntryRef)
    requires d < |m.dests| == |m'.dests| && Alone(m, Relay(d), f) && f in m.home && m'.home == m.home
    requires m'.feed == m.feed && m'.queue == m.queue && m'.dests[d].reaped == m.dests[d].reaped
    requires m'.conns == m.conns
    requires var p := m'.dests[d].relay;
             && InTranslated(f, p) && p.c < |m.conns|
             && Translate(m.conns[p.c].tt, m.home[f]) == Some(TagOf(m'.tags, f))
    ensures RightNear(m', d, |m.conns|, f)
  {
    assert !At(m, Feed, f) && !At(m, Parked, f) && !At(m, Reaped(d), f);
  }

  /** The tags of what a relay had translated come back. */
  lemma UndoneHome(m: Mux, d: nat, srv: Servers, e: EntryRef)
    requires ServersOk(srv, m.names) && Shape(m) && Tables(m, srv) && Clean(m, e) && d < |m.dests|
    requires m.dests[d].relay.Translating? && m.dests[d].relay.k <= |m.dests[d].relay.load|
    ensures var p := m.dests[d].relay;
            var t := TagOf(ReverseLoad(m.tags, m.conns[p.c].tt, p.load[..p.k]), e);
            && (Some(e) in p.load ==> e in m.home && t == m.home[e])
            && (t == TagOf(m.tags, e) || At(m, Relay(d), e))
  {
    var p := m.dests[d].relay;
    HandOnce(m, d, e);
    CountSplit(p.load, p.k, e);
    CountIn(p.load[..p.k], e);
    CountIn(p.load, e);
    ReversedHome(m, p.c, p.load[..p.k], srv, e);
    assert InTranslated(e, p) <==> Some(e) in p.load[..p.k] by {
      if Some(e) in p.load[..p.k] {
        var i :| 0 <= i < p.k && p.load[..p.k][i] == Some(e);
        assert p.load[i] == Some(e);
      }
      if InPart(e, p.load, 0, p.k) {
        var i :| 0 <= i < p.k && p.load[i] == Some(e);
        assert p.load[..p.k][i] == Some(e);
      }
    }
  }

  /** No entry is dropped on a clean run: the muxer knows the tag of the one it
      cannot translate. */
  lemma NothingDropped(m: Mux, d: nat)
    requires Shape(m) && d < |m.dests|
    requires var p := m.dests[d].relay;
             p.Translating? && p.k < |p.load| && p.load[p.k].Some? && Clean(m, p.load[p.k].value)
    ensures KnownTag(m, TagOf(m.tags, m.dests[d].relay.load[m.dests[d].relay.k].value))
  {
    NextIsHome(m, d, m.dests[d].relay.load[m.dests[d].relay.k].value);
  }

  lemma UntranslatableClean(m: Mux, d: nat, srv: Servers, e: EntryRef)
    requires ServersOk(srv, m.names) && Shape(m) && Tables(m, srv) && d < |m.dests| && Clean(m, e)
    requires var p := m.dests[d].relay;
             p.Translating? && p.k < |p.load| && p.load[p.k].Some? && Clean(m, p.load[p.k].value)
    ensures Clean(Untranslatable(m, d, m.dests[d].relay), e)
  {
    var p := m.dests[d].relay;
    var m' := Untranslatable(m, d, p);
    UndoneHome(m, d, srv, e);
    HandOnce(m, d, e);
    if p.src.Queue? {
      PushClean(m, m', d, p.load, true, e);
    } else {
      NothingDropped(m, d);
      KeptInHand(m, m', d, e);
    }
  }

  /** A relay keeps what it has in hand, and has given it back its own tags. */
  lemma KeptInHand(m: Mux, m': Mux, d: nat, e: EntryRef)
    requires Shape(m) && Clean(m, e) && RelayFrame(m, m', d) && m'.feed == m.feed && m'.queue == m.queue
    requires m'.dests[d].reaped == m.dests[d].reaped && m'.dests[d].relay.Failing?
    requires HandCount(m'.dests[d].relay, e) == HandCount(m.dests[d].relay, e)
    requires TagOf(m'.tags, e) != TagOf(m.tags, e) ==> At(m, Relay(d), e) && Alone(m, Relay(d), e)
    requires InHand(e, m'.dests[d].relay) && e in m.home ==> TagOf(m'.tags, e) == m.home[e]
    ensures Clean(m', e)
  {
    RelayTotal(m, m', d, e);
    if e in m.home {
      assert RightNear(m, d, |m.conns|, e);
      AllHome(m, m', d, e);
    }
    StaysClean(m, m', d, |m.conns|, e);
  }

  lemma AllHome(m: Mux, m': Mux, d: nat, e: EntryRef)
    requires e in m.home && RightNear(m, d, |m.conns|, e) && d < |m.dests| == |m'.dests| && m'.home == m.home
    requires |m'.conns| == |m.conns| && m'.feed == m.feed && m'.queue == m.queue
    requires m'.dests[d].reaped == m.dests[d].reaped
    requires TagOf(m'.tags, e) != TagOf(m.tags, e) ==> Alone(m, Relay(d), e)
    requires !InTranslated(e, m'.dests[d].relay)
    requires InHand(e, m'.dests[d].relay) ==> TagOf(m'.tags, e) == m.home[e]
    ensures RightNear(m', d, |m.conns|, e)
  {
    assert Alone(m, Relay(d), e) ==> !At(m, Feed, e) && !At(m, Parked, e) && !At(m, Reaped(d), e);
  }

  /** The entry a relay is working on is clean. */
  ghost predicate NextClean(m: Mux, d: nat)
    requires d < |m.dests|
  {
    var p := m.dests[d].relay;
    && (p.Translating? && p.k < |p.load| && p.load[p.k].Some? ==> Clean(m, p.load[p.k].value))
    && (p.Writing? && p.n < |p.load| && p.load[p.n].Some? ==> Clean(m, p.load[p.n].value))
  }

  lemma TranslateOnClean(m: Mux, d: nat, e: EntryRef)
    requires Shape(m) && d < |m.dests| && Clean(m, e)
    requires var p := m.dests[d].relay; p.Translating? && (p.k >= |p.load| || p.load[p.k].None?)
    ensures Clean(TranslateStep(m, d), e)
  {
    var p := m.dests[d].relay;
    var m' := TranslateStep(m, d);
    assert DestOk(m, m.dests[d]);
    if p.k >= |p.load| {
      HandOnce(m, d, e);
      assert p.load[0..] == p.load;
      SameHand(m, m', d, e);
    } else {
      PartGrows(e, p.load, p.k);
      SameHand(m, m', d, e);
    }
  }

  lemma TranslateClean(m: Mux, d: nat, srv: Servers, e: EntryRef)
    requires ServersOk(srv, m.names) && Shape(m) && Tables(m, srv) && d < |m.dests| && Clean(m, e) && NextClean(m, d)
    ensures Clean(TranslateStep(m, d), e)
  {
    var p := m.dests[d].relay;
    if !p.Translating? || p.k >= |p.load| || p.load[p.k].None? {
      if p.Translating? {
        TranslateOnClean(m, d, e);
      }
    } else if TranslateStep(m, d) != m {
      if Translate(m.conns[p.c].tt, TagOf(m.tags, p.load[p.k].value)).Some? {
        TranslatedClean(m, d, e);
      } else if p.src.Feeder? && p.neg.None? && m.conns[p.c].tt.toNegotiate != [] {
        SameHand(m, TranslateStep(m, d), d, e);
      } else {
        UntranslatableClean(m, d, srv, e);
      }
    }
  }

  lemma NegotiateClean(m: Mux, d: nat, ok: bool, srv: Servers, e: EntryRef)
    requires ServersOk(srv, m.names) && Shape(m) && Tables(m, srv) && d < |m.dests| && Clean(m, e) && NextClean(m, d)
    ensures Clean(NegotiateStep(m, d, ok, srv), e)
  {
    var p := m.dests[d].relay;
    var m' := NegotiateStep(m, d, ok, srv);
    if p.Translating? && m' != m {
      if m'.conns == m.conns {
        UntranslatableClean(m, d, srv, e);
      } else {
        NegotiateFrame(m, d, ok, srv);
        SameHand(m, m', d, e);
      }
    }
  }

  lemma NegotiateFrame(m: Mux, d: nat, ok: bool, srv: Servers)
    requires d < |m.dests| && m.dests[d].relay.Translating? && NegotiateStep(m, d, ok, srv).conns != m.conns
    ensures var m' := NegotiateStep(m, d, ok, srv);
            && RelayFrame(m, m', d) && m'.feed == m.feed && m'.queue == m.queue && m'.tags == m.tags
            && m'.dests[d].reaped == m.dests[d].reaped
            && m'.dests[d].relay.Translating? && m.dests[d].relay == m'.dests[d].relay.(neg := m.dests[d].relay.neg)
  {
  }

  // Writing

  lemma SuffixHead(e: EntryRef, load: Load, n: nat)
    requires n < |load|
    ensures InPart(e, load, n, |load|) <==> load[n] == Some(e) || InPart(e, load, n + 1, |load|)
    ensures Count(load[n..], e) == (if load[n] == Some(e) then 1 else 0) + Count(load[n + 1..], e)
  {
    CountHead(load[n..], e);
    assert load[n..][1..] == load[n + 1..];
  }

  lemma WriteOkClean(m: Mux, d: nat, reached: bool, e: EntryRef)
    requires Shape(m) && d < |m.dests| && Clean(m, e)
    requires var p := m.dests[d].relay; p.Writing? && p.n < |p.load| && p.load[p.n].Some?
    ensures Clean(WriteStep(m, d, true, reached), e)
  {
    if WriteStep(m, d, true, reached) != m {
      WriteOkFrame(m, d, reached);
      WrittenClean(m, WriteStep(m, d, true, reached), d, e);
    }
  }

  lemma WrittenClean(m: Mux, m': Mux, d: nat, e: EntryRef)
    requires Shape(m) && d < |m.dests| && Clean(m, e) && m.dests[d].relay.Writing? && Written(m, m', d)
    ensures Clean(m', e)
  {
    var p := m.dests[d].relay;
    WriteTotal(m, m', d, e);
    if e in m.home {
      assert RightNear(m, d, p.c, e);
      WriteRight(m, m', d, e);
    }
    StaysClean(m, m', d, p.c, e);
  }

  lemma WriteTotal(m: Mux, m': Mux, d: nat, e: EntryRef)
    requires d < |m.dests| && m.dests[d].relay.Writing? && Written(m, m', d)
    ensures Total(m', e) == Total(m, e)
  {
    var p := m.dests[d].relay;
    SuffixHead(e, p.load, p.n);
    DestTotal(m, d, m.dests[d].(relay := p.(n := p.n + 1)), e);
    RingTotal(m, p.c, m'.conns[p.c], e);
    RingSnoc(m.conns[p.c].link.ring, Confirmation(m.conns[p.c].link.nextId, p.load[p.n].value), e);
  }

  lemma WriteRight(m: Mux, m': Mux, d: nat, e: EntryRef)
    requires d < |m.dests| && m.dests[d].relay.Writing? && Written(m, m', d)
    requires e in m.home && RightNear(m, d, m.dests[d].relay.c, e)
    ensures RightNear(m', d, m.dests[d].relay.c, e)
  {
    var p := m.dests[d].relay;
    SuffixHead(e, p.load, p.n);
    var ring := m.conns[p.c].link.ring;
    if At(m', Ring(p.c), e) {
      var i :| 0 <= i < |ring| + 1 && m'.conns[p.c].link.ring[i].ent == e;
      if i < |ring| {
        assert ring[i].ent == e;
      } else {
        assert At(m, Relay(d), e);
      }
    }
  }

  lemma SuffixIn(e: EntryRef, load: Load, n: nat)
    requires n <= |load|
    ensures Some(e) in load[n..] <==> InPart(e, load, n, |load|)
  {
    PartInSuffix(e, load, n);
    if Some(e) in load[n..] {
      var i :| 0 <= i < |load| - n && load[n..][i] == Some(e);
      assert load[n + i] == Some(e);
    }
  }

  lemma UnwrittenHome(m: Mux, d: nat, srv: Servers, e: EntryRef)
    requires ServersOk(srv, m.names) && Shape(m) && Tables(m, srv) && Clean(m, e) && d < |m.dests|
    requires m.dests[d].relay.Writing?
    ensures var p := m.dests[d].relay;
            p.n <= |p.load| &&
            var t := TagOf(ReverseLoad(m.tags, m.conns[p.c].tt, p.load[p.n..]), e);
            && (Some(e) in p.load[p.n..] ==> e in m.home && t == m.home[e])
            && (t == TagOf(m.tags, e) || At(m, Relay(d), e))
  {
    var p := m.dests[d].relay;
    assert DestOk(m, m.dests[d]);
    HandOnce(m, d, e);
    SuffixIn(e, p.load, p.n);
    ReversedHome(m, p.c, p.load[p.n..], srv, e);
  }

  lemma WriteFailedFrame(m: Mux, d: nat, reached: bool)
    requires d < |m.dests|
    requires var p := m.dests[d].relay; p.Writing? && p.n < |p.load| && p.c < |m.conns|
    requires var p := m.dests[d].relay; p.src.Feeder? ==> p.load[p.n].Some?
    ensures var p := m.dests[d].relay;
            var m' := WriteStep(m, d, false, reached);
            var undone := if p.src.Feeder? then p.load[p.n..] else p.load;
            && RelayFrame(m, m', d) && m'.tags == ReverseLoad(m.tags, m.conns[p.c].tt, undone)
            && m'.feed == m.feed && m'.queue == (if p.src.Feeder? then m.queue else m.queue + [p.load])
            && m'.dests[d].reaped == m.dests[d].reaped
            && m'.dests[d].relay == (if p.src.Feeder? then Failing(p.c, undone)
                                     else if p.src.newConn then Waiting else Closing(p.c))
  {
  }

  lemma WriteFailedFeederClean(m: Mux, d: nat, reached: bool, srv: Servers, e: EntryRef)
    requires ServersOk(srv, m.names) && Shape(m) && Tables(m, srv) && Clean(m, e) && d < |m.dests|
    requires var p := m.dests[d].relay; p.Writing? && p.n < |p.load| && p.load[p.n].Some? && p.src.Feeder?
    ensures Clean(WriteStep(m, d, false, reached), e)
  {
    UnwrittenHome(m, d, srv, e);
    HandOnce(m, d, e);
    WriteFailedFrame(m, d, reached);
    KeptInHand(m, WriteStep(m, d, false, reached), d, e);
  }

  /** A flush of the emergency queue that fails on the first entry of a batch. */
  lemma WriteFailedQueueClean(m: Mux, d: nat, reached: bool, srv: Servers, e: EntryRef)
    requires ServersOk(srv, m.names) && Shape(m) && Tables(m, srv) && Clean(m, e) && d < |m.dests|
    requires var p := m.dests[d].relay; p.Writing? && p.n == 0 < |p.load| && p.src.Queue?
    ensures Clean(WriteStep(m, d, false, reached), e)
  {
    UnwrittenHome(m, d, srv, e);
    assert m.dests[d].relay.load[0..] == m.dests[d].relay.load;
    WriteFailedFrame(m, d, reached);
    FlushFailed(m, WriteStep(m, d, false, reached), d, e);
  }

  lemma FlushFailed(m: Mux, m': Mux, d: nat, e: EntryRef)
    requires Shape(m) && Clean(m, e) && RelayFrame(m, m', d) && m.dests[d].relay.Writing?
    requires var p := m.dests[d].relay;
             && p.n == 0 < |p.load|
             && m'.feed == m.feed && m'.queue == m.queue + [p.load]
             && (Some(e) in p.load ==> e in m.home && TagOf(m'.tags, e) == m.home[e])
             && (TagOf(m'.tags, e) == TagOf(m.tags, e) || At(m, Relay(d), e))
    requires m'.dests[d].reaped == m.dests[d].reaped && Idle(m'.dests[d].relay)
    ensures Clean(m', e)
  {
    var p := m.dests[d].relay;
    assert p.load[0..] == p.load;
    HandOnce(m, d, e);
    PushClean(m, m', d, p.load, true, e);
  }

  /** emergencyQueue.clear reverses every entry of a batch it could not finish. */
  predicate BreaksOff(m: Mux, ev: Event) {
    ev.WriteOne? && !ev.ok && ev.d < |m.dests| &&
    var p := m.dests[ev.d].relay; p.Writing? && p.src.Queue? && p.n > 0
  }

  lemma WriteClean(m: Mux, d: nat, ok: bool, reached: bool, srv: Servers, e: EntryRef)
    requires ServersOk(srv, m.names) && Shape(m) && Tables(m, srv) && Clean(m, e) && d < |m.dests|
    requires !BreaksOff(m, WriteOne(d, ok, reached))
    ensures Clean(WriteStep(m, d, ok, reached), e)
  {
    var p := m.dests[d].relay;
    if p.Writing? {
      if p.n >= |p.load| {
        assert DestOk(m, m.dests[d]);
        SuffixIn(e, p.load, p.n);
        CountIn(p.load[p.n..], e);
        SameHand(m, WriteStep(m, d, ok, reached), d, e);
      } else if p.src.Queue? && !ok {
        WriteFailedQueueClean(m, d, reached, srv, e);
      } else if p.load[p.n].Some? {
        if ok {
          WriteOkClean(m, d, reached, e);
        } else {
          WriteFailedFeederClean(m, d, reached, srv, e);
        }
      }
    }
  }

  // Recycling and reconnecting

  lemma RecycleClean(m: Mux, d: nat, toQueue: bool, next: Phase, e: EntryRef)
    requires Shape(m) && Clean(m, e) && d < |m.dests|
    requires m.dests[d].relay.Failing? || m.dests[d].relay.Returning?
    requires next.Waiting? || next.Closing?
    ensures Clean(SetRelay(Push(m, m.dests[d].relay.rest, toQueue), d, next), e)
  {
    HandOnce(m, d, e);
    RecycleFrame(m, d, m.dests[d].relay.rest, toQueue, next);
    PushClean(m, SetRelay(Push(m, m.dests[d].relay.rest, toQueue), d, next), d, m.dests[d].relay.rest, toQueue, e);
  }

  lemma RecycleFrame(m: Mux, d: nat, load: Load, toQueue: bool, next: Phase)
    requires d < |m.dests|
    ensures var m' := SetRelay(Push(m, load, toQueue), d, next);
            && RelayFrame(m, m', d) && m'.tags == m.tags
            && m'.feed == Push(m, load, toQueue).feed && m'.queue == Push(m, load, toQueue).queue
            && m'.dests[d] == m.dests[d].(relay := next)
  {
  }

  lemma RecycleReapedClean(m: Mux, d: nat, toQueue: bool, e: EntryRef)
    requires Shape(m) && Clean(m, e) && d < |m.dests|
    ensures var w := m.dests[d];
            Clean(Push(m, w.reaped, toQueue).(dests := m.dests[d := w.(reaped := [])]), e)
  {
    var w := m.dests[d];
    assert e in m.home ==> RightNear(m, d, |m.conns|, e);
    assert Count([], e) == 0;
    PushClean(m, Push(m, w.reaped, toQueue).(dests := m.dests[d := w.(reaped := [])]), d, w.reaped, toQueue, e);
  }

  /** The ring of connection c has been emptied into the hand of destination d. */
  predicate RingEjected(m: Mux, m': Mux, c: nat, d: nat) {
    && c < |m.conns| == |m'.conns| && d < |m.dests| == |m'.dests|
    && m'.home == m.home && m'.feed == m.feed && m'.queue == m.queue && m'.names == m.names
    && m'.tags == ReverseLoad(m.tags, m.conns[c].tt, AsLoad(m.conns[c].link.ring))
    && m'.conns == m.conns[c := m'.conns[c]] && m'.dests == m.dests[d := m'.dests[d]]
    && m'.conns[c].link.ring == [] && m'.conns[c].tt == m.conns[c].tt
  }

  lemma EjectFrame(m: Mux, d: nat)
    requires d < |m.dests| && m.dests[d].relay.Closing? && m.dests[d].relay.c < |m.conns|
    ensures var m' := EjectStep(m, d);
            && RingEjected(m, m', m.dests[d].relay.c, d) && m'.dests[d].reaped == m.dests[d].reaped
            && m'.dests[d].relay == Returning(AsLoad(m.conns[m.dests[d].relay.c].link.ring))
  {
  }

  lemma ReapFrame(m: Mux, d: nat)
    requires d < |m.dests| && ReapStep(m, d) != m
    ensures var m' := ReapStep(m, d);
            && m.dests[d].conn.Some? && m.dests[d].reaped == [] && m.dests[d].relay.Waiting?
            && RingEjected(m, m', m.dests[d].conn.value, d) && m'.dests[d].relay.Waiting?
            && m'.dests[d].reaped == AsLoad(m.conns[m.dests[d].conn.value].link.ring)
  {
  }

  /** A ring's entries, with their own tags again, in the hand of destination d. */
  lemma EjectedClean(m: Mux, m': Mux, c: nat, d: nat, srv: Servers, e: EntryRef)
    requires ServersOk(srv, m.names) && Shape(m) && Tables(m, srv) && Clean(m, e)
    requires RingEjected(m, m', c, d)
    requires DestCount(m'.dests[d], e) == DestCount(m.dests[d], e) + RingCount(m.conns[c].link.ring, e)
    requires !m'.dests[d].relay.Writing? && !m'.dests[d].relay.Translating?
    requires InHand(e, m'.dests[d].relay) ==> At(m, Ring(c), e)
    requires Some(e) in m'.dests[d].reaped ==> Some(e) in m.dests[d].reaped || At(m, Ring(c), e)
    ensures Clean(m', e)
  {
    var ring := m.conns[c].link.ring;
    WeightPart(m, Ring(c), e);
    WeightAt(m, Ring(c), e);
    ReversedHome(m, c, AsLoad(ring), srv, e);
    assert Total(m', e) == Total(m, e) by {
      DestTotal(m, d, m'.dests[d], e);
      RingTotal(m, c, m'.conns[c], e);
      assert Count(AsLoad([]), e) == 0;
    }
    if e in m.home {
      assert RightNear(m, d, c, e);
      if At(m, Ring(c), e) {
        OnlyAt(m, Ring(c), e);
      }
      EjectedRight(m, m', d, c, e);
    }
    StaysClean(m, m', d, c, e);
  }

  lemma EjectedRight(m: Mux, m': Mux, d: nat, c: nat, e: EntryRef)
    requires c < |m.conns| == |m'.conns| && d < |m.dests| == |m'.dests| && e in m.home && RightNear(m, d, c, e)
    requires m'.home == m.home && m'.feed == m.feed && m'.queue == m.queue
    requires m'.conns[c].link.ring == []
    requires InHand(e, m'.dests[d].relay) ==> At(m, Ring(c), e)
    requires !InTranslated(e, m'.dests[d].relay)
    requires Some(e) in m'.dests[d].reaped ==> Some(e) in m.dests[d].reaped || At(m, Ring(c), e)
    requires TagOf(m'.tags, e) == if At(m, Ring(c), e) then m.home[e] else TagOf(m.tags, e)
    ensures RightNear(m', d, c, e)
  {
  }

  lemma EjectClean(m: Mux, d: nat, srv: Servers, e: EntryRef)
    requires ServersOk(srv, m.names) && Shape(m) && Tables(m, srv) && Clean(m, e) && d < |m.dests|
    ensures Clean(EjectStep(m, d), e)
  {
    var p := m.dests[d].relay;
    var m' := EjectStep(m, d);
    if p.Closing? {
      assert DestOk(m, m.dests[d]);
      EjectFrame(m, d);
      CountIn(AsLoad(m.conns[p.c].link.ring), e);
      RingIn(m.conns[p.c].link.ring, e);
      EjectedClean(m, m', p.c, d, srv, e);
    }
  }

  lemma ReapClean(m: Mux, d: nat, srv: Servers, e: EntryRef)
    requires ServersOk(srv, m.names) && Shape(m) && Tables(m, srv) && Clean(m, e) && d < |m.dests|
    ensures Clean(ReapStep(m, d), e)
  {
    var m' := ReapStep(m, d);
    if m' != m {
      ReapFrame(m, d);
      var c := m.dests[d].conn.value;
      assert Count([], e) == 0;
      CountIn(AsLoad(m.conns[c].link.ring), e);
      RingIn(m.conns[c].link.ring, e);
      EjectedClean(m, m', c, d, srv, e);
    }
  }

  /** Nothing moves: destination d goes from one idle phase to another. */
  ghost predicate NothingMoves(m: Mux, m': Mux, d: nat) {
    && RelayFrame(m, m', d) && m'.tags == m.tags && m'.feed == m.feed && m'.queue == m.queue
    && m'.dests[d].reaped == m.dests[d].reaped
    && (m'.dests[d].relay == m.dests[d].relay || (Idle(m.dests[d].relay) && Idle(m'.dests[d].relay)))
  }

  lemma IdleClean(m: Mux, m': Mux, d: nat, e: EntryRef)
    requires Shape(m) && Clean(m, e) && NothingMoves(m, m', d)
    ensures Clean(m', e)
  {
    SameHand(m, m', d, e);
  }

  predicate Idle(p: Phase) {
    p.Waiting? || p.Ready? || p.Closing? || p.Clearing?
  }

  lemma DialClean(m: Mux, d: nat, srv: Servers, e: EntryRef)
    requires Shape(m) && Clean(m, e) && d < |m.dests|
    ensures Clean(DialStep(m, d, srv), e)
  {
    if DialStep(m, d, srv) != m {
      DialTotal(m, d, srv, e);
      assert e in m.home ==> RightNear(m, d, |m.conns|, e);
      StaysClean(m, DialStep(m, d, srv), d, |m.conns|, e);
    }
  }

  lemma DialTotal(m: Mux, d: nat, srv: Servers, e: EntryRef)
    requires d < |m.dests| && DialStep(m, d, srv) != m
    ensures Total(DialStep(m, d, srv), e) == Total(m, e)
  {
    var m' := DialStep(m, d, srv);
    assert RingCounts(m'.conns, e) == RingCounts(m.conns, e) + [0];
    SumAppend(RingCounts(m.conns, e), [0]);
    assert DestCounts(m'.dests, e) == DestCounts(m.dests, e);
  }

  lemma OnLinkClean(m: Mux, c: nat, x: Link.Event, e: EntryRef)
    requires WellFormed(m) && Clean(m, e) && c < |m.conns| && Spontaneous(x)
    ensures Clean(SetLink(m, c, Link.Step(m.conns[c].link, x)), e)
  {
    var l := m.conns[c].link;
    SpontaneousRing(l, x, e);
    RingIn(l.ring, e);
    RingIn(Link.Step(l, x).ring, e);
    RingShrinks(m, c, Link.Step(l, x), e);
  }

  lemma RingShrinks(m: Mux, c: nat, l: Link.Link, e: EntryRef)
    requires Shape(m) && Clean(m, e) && c < |m.conns|
    requires RingCount(l.ring, e) <= RingCount(m.conns[c].link.ring, e)
    requires InRing(e, l.ring) ==> InRing(e, m.conns[c].link.ring)
    ensures Clean(SetLink(m, c, l), e)
  {
    RingTotal(m, c, m.conns[c].(link := l), e);
    assert e in m.home ==> RightNear(m, |m.dests|, c, e);
    StaysClean(m, SetLink(m, c, l), |m.dests|, c, e);
  }

  lemma NewTagClean(m: Mux, name: string, e: EntryRef)
    requires Shape(m) && Clean(m, e)
    ensures Clean(NewTagStep(m, name), e)
  {
    var m' := NewTagStep(m, name);
    assert RingCounts(m'.conns, e) == RingCounts(m.conns, e);
    assert TablesGrow(m, m');
    if e in m.home {
      forall p | At(m', p, e) ensures TagRight(m', p, e) {
        assert At(m, p, e) && TagRight(m, p, e);
        ElsewhereRight(m, m', p, e);
      }
    }
  }

  lemma AdmitClean(m: Mux, ents: seq<(EntryRef, Tag)>, e: EntryRef)
    requires Shape(m) && Clean(m, e)
    ensures Clean(AdmitStep(m, ents), e)
  {
    var m' := AdmitStep(m, ents);
    if m' != m {
      AdmitTotal(m, ents, e);
      if e in m.home {
        AdmittedOther(m, ents, e);
        AdmitBesides(m, m', LoadOf(ents), e);
      } else {
        NowhereElse(m, e);
        AdmittedNew(m, ents, e);
        AdmittedHere(m, m', LoadOf(ents), e);
      }
    }
  }

  /** What admission adds to the total: a load of distinct new entries. */
  lemma AdmitTotal(m: Mux, ents: seq<(EntryRef, Tag)>, e: EntryRef)
    requires AdmitStep(m, ents) != m
    ensures Total(AdmitStep(m, ents), e) == Total(m, e) + Count(LoadOf(ents), e)
    ensures Count(LoadOf(ents), e) <= 1 && (Count(LoadOf(ents), e) > 0 <==> Some(e) in LoadOf(ents))
    ensures e in m.home ==> Some(e) !in LoadOf(ents)
  {
    var load := LoadOf(ents);
    CountDistinct(load, e);
    CountIn(load, e);
    CountAllAppend(m.feed, [load], e);
    CountAllOne(load, e);
  }

  lemma AdmittedNew(m: Mux, ents: seq<(EntryRef, Tag)>, e: EntryRef)
    requires e !in m.home && AdmitStep(m, ents) != m
    ensures var m' := AdmitStep(m, ents);
            && (e in m'.home <==> Some(e) in LoadOf(ents))
            && (e in m'.home ==> m'.home[e] == TagOf(m'.tags, e) && KnownTag(m, m'.home[e]))
  {
    var load := LoadOf(ents);
    TagsOfKeys(ents, e);
    if Some(e) in load {
      var i :| 0 <= i < |load| && load[i] == Some(e);
      assert ents[i].0 == e;
    }
    if e in TagsOf(ents) {
      var i :| 0 <= i < |ents| && ents[i] == (e, TagsOf(ents)[e]);
      assert load[i] == Some(e);
    }
  }

  lemma NowhereElse(m: Mux, e: EntryRef)
    requires Shape(m) && Total(m, e) == 0
    ensures forall p :: At(m, p, e) ==> p.Taken?
  {
    forall p | At(m, p, e) ensures p.Taken? {
      if !p.Taken? {
        WeightAt(m, p, e);
        WeightPart(m, p, e);
      }
    }
  }

  lemma AdmitBesides(m: Mux, m': Mux, load: Load, e: EntryRef)
    requires Shape(m) && Clean(m, e) && e in m.home && e in m'.home && m'.home[e] == m.home[e]
    requires m' == m.(tags := m'.tags, home := m'.home, feed := m.feed + [load])
    requires TagOf(m'.tags, e) == TagOf(m.tags, e) && Some(e) !in load && Total(m', e) == Total(m, e)
    ensures Clean(m', e)
  {
    LoadsAppend(e, m.feed, [load]);
    forall p | At(m', p, e) ensures TagRight(m', p, e) {
      assert At(m, p, e) && TagRight(m, p, e);
    }
  }

  lemma AdmittedHere(m: Mux, m': Mux, load: Load, e: EntryRef)
    requires Shape(m) && Clean(m, e) && forall p :: At(m, p, e) ==> p.Taken?
    requires m' == m.(tags := m'.tags, home := m'.home, feed := m.feed + [load])
    requires e in m'.home <==> Some(e) in load
    requires e in m'.home ==> m'.home[e] == TagOf(m'.tags, e) && KnownTag(m, m'.home[e])
    requires Total(m', e) == Count(load, e) <= 1 && (Count(load, e) > 0 <==> Some(e) in load)
    ensures Clean(m', e)
  {
    if e in m'.home {
      forall p | At(m', p, e) ensures TagRight(m', p, e) {
        if p != Feed {
          assert At(m, p, e);
        }
      }
    }
  }
}
