/** A healthy connection delivers: whatever load its relay takes, it can translate all
    of it, negotiating tags on the way, write it, and have the indexer read it. */
module MuxerDelivers {
  import opened Wrappers
  import Link
  import LinkProgress
  import opened Tags
  import opened Muxers
  import opened MuxerReach
  import opened MuxerDelivery
  import opened MuxerCount
  import opened MuxerTags
  import opened MuxerWhole
  import opened MuxerTagRuns
  import opened MuxerNewTags

  /** What a tag is called by the indexer of destination dest. */
  function IdAt(names: seq<string>, dest: nat, t: Tag, srv: Servers): Tag {
    if t < |names| && t != GRAVWELL_TAG then srv(dest, names[t]) else t
  }

  predicate Within(t: Tag, n: nat) {
    t == GRAVWELL_TAG || t < n
  }

  /** How many tags the connection knows, or will know when all that is pending is
      negotiated, which a relay does only for what it takes from a channel. */
  function Span(tt: TagTrans, src: Origin): nat {
    |tt.active| + if src.Feeder? then |tt.toNegotiate| else 0
  }

  predicate OneByOne(load: Load) {
    Whole(load) && forall i, j :: 0 <= i < j < |load| ==> load[i] != load[j]
  }

  /** The relay of d is translating a load whose tags are all within reach. */
  ghost predicate Busy(m: Mux, d: nat, srv: Servers) {
    d < |m.dests| &&
    var p := m.dests[d].relay;
    && p.Translating? && p.c < |m.conns| && p.k <= |p.load| && OneByOne(p.load)
    && var tt := m.conns[p.c].tt;
       && Covers(m.names, tt) && TableOk(m.names, m.conns[p.c], srv)
       && (forall i :: p.k <= i < |p.load| ==> Within(TagOf(m.tags, p.load[i].value), Span(tt, p.src)))
       && (p.neg.Some? ==>
             && p.src.Feeder? && p.k < |p.load| && p.neg.value <= |tt.toNegotiate|
             && Within(TagOf(m.tags, p.load[p.k].value), |tt.active| + p.neg.value))
  }

  /** A step of the relay of d, on connection c, that is not a write. */
  predicate OwnStep(m: Mux, m': Mux, d: nat, c: nat) {
    && d < |m.dests| == |m'.dests| && c < |m.conns| == |m'.conns|
    && m' == m.(tags := m'.tags, conns := m.conns[c := m.conns[c].(tt := m'.conns[c].tt)],
                dests := m.dests[d := m.dests[d].(relay := m'.dests[d].relay)])
  }

  lemma OwnSteps(m: Mux, m1: Mux, m2: Mux, d: nat, c: nat)
    requires OwnStep(m, m1, d, c) && OwnStep(m1, m2, d, c)
    ensures OwnStep(m, m2, d, c)
  {
  }

  lemma BusySurvives(m: Mux, d: nat, ev: Event, srv: Servers)
    requires Busy(m, d, srv) && (ev == TranslateOne(d) || ev == Negotiate(d, true))
    ensures !Crashes(m, ev, srv)
  {
  }

  // Exchanges

  /** Exchanges have brought what is left to negotiate down to n. */
  ghost predicate Asked(m: Mux, m': Mux, d: nat, n: nat, srv: Servers) {
    && Busy(m, d, srv) && Busy(m', d, srv) && OwnStep(m, m', d, m.dests[d].relay.c)
    && m'.dests[d].relay == m.dests[d].relay.(neg := Some(n)) && m'.tags == m.tags
  }

  lemma AskedOn(m: Mux, m1: Mux, m2: Mux, d: nat, n: nat, srv: Servers)
    requires Asked(m, m1, d, n, srv) && Asked(m1, m2, d, 0, srv)
    ensures Asked(m, m2, d, 0, srv)
  {
    OwnSteps(m, m1, m2, d, m.dests[d].relay.c);
  }

  lemma OneExchange(m: Mux, d: nat, n: nat, srv: Servers) returns (m': Mux)
    requires Busy(m, d, srv) && m.dests[d].relay.neg == Some(n) && n > 0
    ensures Reaches(m, [Negotiate(d, true)], m', srv) && Asked(m, m', d, n - 1, srv)
  {
    m' := Step(m, Negotiate(d, true), srv);
    var p := m.dests[d].relay;
    var k := m.conns[p.c];
    BusySurvives(m, d, Negotiate(d, true), srv);
    ReachesOne(m, Negotiate(d, true), m', srv);
    ExchangeCovers(m.names, k.tt, srv(k.dest, k.tt.toNegotiate[0].name));
    assert k.tt.toNegotiate[0] == Unnegotiated(|k.tt.active|, m.names[|k.tt.active|]);
    assert m'.conns[p.c].tt == TagTrans(k.tt.active + [srv(k.dest, m.names[|k.tt.active|])], k.tt.toNegotiate[1..]);
  }

  lemma {:induction false} AllExchanges(m: Mux, d: nat, n: nat, srv: Servers) returns (evs: seq<Event>, m': Mux)
    requires Busy(m, d, srv) && m.dests[d].relay.neg == Some(n)
    ensures Reaches(m, evs, m', srv) && Asked(m, m', d, 0, srv)
    decreases n
  {
    if n == 0 {
      evs, m' := [], m;
    } else {
      var m1 := OneExchange(m, d, n, srv);
      var rest;
      rest, m' := AllExchanges(m1, d, n - 1, srv);
      evs := [Negotiate(d, true)] + rest;
      ReachesAppend(m, [Negotiate(d, true)], m1, rest, m', srv);
      AskedOn(m, m1, m', d, n - 1, srv);
    }
  }

  // One entry

  /** The entry at hand has just been translated. */
  ghost predicate Translated(m: Mux, m': Mux, d: nat, srv: Servers) {
    && Busy(m, d, srv) && Busy(m', d, srv)
    && var p := m.dests[d].relay;
       && p.k < |p.load| && OwnStep(m, m', d, p.c)
       && m'.dests[d].relay == p.(k := p.k + 1, neg := None)
       && var e := p.load[p.k].value;
          m'.tags == m.tags[e := IdAt(m.names, m.conns[p.c].dest, TagOf(m.tags, e), srv)]
  }

  lemma TranslatesNow(m: Mux, d: nat, srv: Servers) returns (m': Mux)
    requires Busy(m, d, srv)
    requires var p := m.dests[d].relay;
             && p.k < |p.load| && (p.neg.None? || p.neg.value == 0)
             && Within(TagOf(m.tags, p.load[p.k].value), |m.conns[p.c].tt.active|)
    ensures Reaches(m, [TranslateOne(d)], m', srv) && Translated(m, m', d, srv)
  {
    m' := Step(m, TranslateOne(d), srv);
    var p := m.dests[d].relay;
    var e := p.load[p.k].value;
    BusySurvives(m, d, TranslateOne(d), srv);
    ReachesOne(m, TranslateOne(d), m', srv);
    assert forall i :: p.k < i < |p.load| ==> p.load[i] != p.load[p.k];
  }

  /** The tag is one the connection has yet to learn. */
  lemma StartsTalking(m: Mux, d: nat, srv: Servers) returns (m': Mux)
    requires Busy(m, d, srv)
    requires var p := m.dests[d].relay;
             && p.k < |p.load| && p.neg.None?
             && !Within(TagOf(m.tags, p.load[p.k].value), |m.conns[p.c].tt.active|)
    ensures Reaches(m, [TranslateOne(d)], m', srv) && Busy(m', d, srv) && OwnStep(m, m', d, m.dests[d].relay.c)
    ensures var p := m.dests[d].relay;
            m'.dests[d].relay == p.(neg := Some(|m.conns[p.c].tt.toNegotiate|)) && m'.tags == m.tags
  {
    m' := Step(m, TranslateOne(d), srv);
    BusySurvives(m, d, TranslateOne(d), srv);
    ReachesOne(m, TranslateOne(d), m', srv);
  }

  lemma FinishesTalking(m: Mux, d: nat, n: nat, srv: Servers) returns (evs: seq<Event>, m': Mux)
    requires Busy(m, d, srv) && m.dests[d].relay.neg == Some(n)
    ensures Reaches(m, evs, m', srv) && Translated(m, m', d, srv)
  {
    var talk, m1 := AllExchanges(m, d, n, srv);
    m' := TranslatesNow(m1, d, srv);
    evs := talk + [TranslateOne(d)];
    ReachesAppend(m, talk, m1, [TranslateOne(d)], m', srv);
    OwnSteps(m, m1, m', d, m.dests[d].relay.c);
  }

  /** The relay translates the entry at hand by its own moves, each exchange succeeding. */
  lemma FinishesOne(m: Mux, d: nat, srv: Servers) returns (evs: seq<Event>, m': Mux)
    requires Busy(m, d, srv) && m.dests[d].relay.k < |m.dests[d].relay.load|
    ensures Reaches(m, evs, m', srv) && Translated(m, m', d, srv)
  {
    var p := m.dests[d].relay;
    if p.neg.Some? {
      evs, m' := FinishesTalking(m, d, p.neg.value, srv);
    } else if Within(TagOf(m.tags, p.load[p.k].value), |m.conns[p.c].tt.active|) {
      m' := TranslatesNow(m, d, srv);
      evs := [TranslateOne(d)];
    } else {
      var m1 := StartsTalking(m, d, srv);
      var rest;
      rest, m' := FinishesTalking(m1, d, |m.conns[p.c].tt.toNegotiate|, srv);
      evs := [TranslateOne(d)] + rest;
      ReachesAppend(m, [TranslateOne(d)], m1, rest, m', srv);
      OwnSteps(m, m1, m', d, p.c);
    }
  }

  // The load

  /** The tags of a load from place k on, as the indexer has them. */
  predicate TagsThere(m: Mux, m': Mux, load: Load, k: nat, dest: nat, srv: Servers)
    requires Whole(load)
  {
    forall i :: k <= i < |load| ==>
      TagOf(m'.tags, load[i].value) == IdAt(m.names, dest, TagOf(m.tags, load[i].value), srv)
  }

  lemma TagsThereOn(m: Mux, m1: Mux, m2: Mux, d: nat, srv: Servers)
    requires Translated(m, m1, d, srv)
    requires var p := m.dests[d].relay; TagsThere(m1, m2, p.load, p.k + 1, m.conns[p.c].dest, srv)
    requires var p := m.dests[d].relay;
             TagOf(m2.tags, p.load[p.k].value) == TagOf(m1.tags, p.load[p.k].value)
    ensures var p := m.dests[d].relay; TagsThere(m, m2, p.load, p.k, m.conns[p.c].dest, srv)
  {
    var p := m.dests[d].relay;
    forall i | p.k < i < |p.load| ensures TagOf(m1.tags, p.load[i].value) == TagOf(m.tags, p.load[i].value) {
      assert p.load[i] != p.load[p.k];
    }
  }

  /** Only entries of the load from place k on have another tag. */
  ghost predicate OthersKeep(m: Mux, m': Mux, load: Load, k: nat) {
    forall e :: !InPart(e, load, k, |load|) ==> TagOf(m'.tags, e) == TagOf(m.tags, e)
  }

  lemma OthersKeepOn(m: Mux, m1: Mux, m2: Mux, d: nat, srv: Servers)
    requires Translated(m, m1, d, srv)
    requires var p := m.dests[d].relay; OthersKeep(m1, m2, p.load, p.k + 1)
    ensures var p := m.dests[d].relay;
            && OthersKeep(m, m2, p.load, p.k)
            && TagOf(m2.tags, p.load[p.k].value) == TagOf(m1.tags, p.load[p.k].value)
  {
    var p := m.dests[d].relay;
    var f := p.load[p.k].value;
    assert !InPart(f, p.load, p.k + 1, |p.load|);
    forall e | !InPart(e, p.load, p.k, |p.load|) ensures TagOf(m2.tags, e) == TagOf(m.tags, e) {
      assert p.k <= p.k < |p.load| && p.load[p.k] == Some(f);
      assert e != f && !InPart(e, p.load, p.k + 1, |p.load|);
    }
  }

  /** The relay has translated what was left of its load. */
  ghost predicate AllTranslated(m: Mux, m': Mux, d: nat, srv: Servers) {
    && Busy(m, d, srv) && Busy(m', d, srv)
    && var p := m.dests[d].relay;
       && OwnStep(m, m', d, p.c) && m'.dests[d].relay == p.(k := |p.load|, neg := None)
       && TagsThere(m, m', p.load, p.k, m.conns[p.c].dest, srv) && OthersKeep(m, m', p.load, p.k)
  }

  lemma AllTranslatedOn(m: Mux, m1: Mux, m2: Mux, d: nat, srv: Servers)
    requires Translated(m, m1, d, srv) && AllTranslated(m1, m2, d, srv)
    ensures AllTranslated(m, m2, d, srv)
  {
    OthersKeepOn(m, m1, m2, d, srv);
    TagsThereOn(m, m1, m2, d, srv);
    OwnSteps(m, m1, m2, d, m.dests[d].relay.c);
  }

  lemma {:induction false} FinishesAll(m: Mux, d: nat, srv: Servers) returns (evs: seq<Event>, m': Mux)
    requires Busy(m, d, srv)
    ensures Reaches(m, evs, m', srv) && AllTranslated(m, m', d, srv)
    decreases |m.dests[d].relay.load| - m.dests[d].relay.k
  {
    var p := m.dests[d].relay;
    if p.k == |p.load| {
      evs, m' := [], m;
    } else {
      var first, m1 := FinishesOne(m, d, srv);
      var rest;
      rest, m' := FinishesAll(m1, d, srv);
      evs := first + rest;
      ReachesAppend(m, first, m1, rest, m', srv);
      AllTranslatedOn(m, m1, m', d, srv);
    }
  }

  // Writing and reading

  /** The relay of d writes a load from place n on, over a connection that works and
      has ids left for it. */
  predicate Sending(m: Mux, d: nat, n: nat) {
    d < |m.dests| &&
    var p := m.dests[d].relay;
    && p.Writing? && p.n == n <= |p.load| && p.c < |m.conns| && Whole(p.load)
    && m.conns[p.c].link.net.intact
    && m.conns[p.c].link.nextId + |p.load| - n < 0x1_0000_0000_0000_0000
  }

  /** A connection once a load has been sent over it from place n on. */
  function SendAll(l: Link.Link, tags: map<EntryRef, Tag>, load: Load, n: nat): Link.Link
    requires Whole(load) && n <= |load|
    decreases |load| - n
  {
    if n == |load| then l
    else SendAll(Link.Step(l, Link.Send(load[n].value, TagOf(tags, load[n].value))), tags, load, n + 1)
  }

  lemma SendsOne(m: Mux, d: nat, n: nat, srv: Servers) returns (m': Mux)
    requires Sending(m, d, n) && n < |m.dests[d].relay.load|
    ensures Reaches(m, [WriteOne(d, true, false)], m', srv) && Sending(m', d, n + 1) && m'.tags == m.tags
    ensures m'.feed == m.feed && m'.queue == m.queue
    ensures var p := m.dests[d].relay;
            var e, l := p.load[n].value, m.conns[p.c].link;
            && m'.dests[d].relay == p.(n := n + 1)
            && m'.conns[p.c].link == Link.Step(l, Link.Send(e, TagOf(m.tags, e)))
  {
    m' := Step(m, WriteOne(d, true, false), srv);
    ReachesOne(m, WriteOne(d, true, false), m', srv);
  }

  lemma {:induction false} SendsAll(m: Mux, d: nat, n: nat, srv: Servers) returns (evs: seq<Event>, m': Mux)
    requires Sending(m, d, n)
    ensures m'.feed == m.feed && m'.queue == m.queue
    ensures var p := m.dests[d].relay;
            && Reaches(m, evs, m', srv) && Sending(m', d, |p.load|) && m'.dests[d].relay == p.(n := |p.load|)
            && m'.conns[p.c].link == SendAll(m.conns[p.c].link, m.tags, p.load, n)
    decreases |m.dests[d].relay.load| - n
  {
    var p := m.dests[d].relay;
    if n == |p.load| {
      evs, m' := [], m;
    } else {
      var m1 := SendsOne(m, d, n, srv);
      var rest;
      rest, m' := SendsAll(m1, d, n + 1, srv);
      evs := [WriteOne(d, true, false)] + rest;
      ReachesAppend(m, [WriteOne(d, true, false)], m1, rest, m', srv);
    }
  }

  /** The receipts have entry e under tag t. */
  predicate Received(rs: seq<Link.Receipt>, e: EntryRef, t: Tag) {
    exists j :: 0 <= j < |rs| && rs[j].ent == e && rs[j].tag == t
  }

  lemma SentOne(l: Link.Link, e: EntryRef, t: Tag)
    requires Link.Inv(l) && l.net.intact && l.nextId + 1 < 0x1_0000_0000_0000_0000
    ensures var l' := Link.Step(l, Link.Send(e, t));
            && Link.Inv(l') && l'.net.intact && l'.nextId == l.nextId + 1
            && l'.net.written == l.net.written + [Link.Receipt(l.nextId, e, t)]
  {
    Link.SendKeepsInv(l, e, t);
  }

  lemma {:induction false} SentAll(l: Link.Link, tags: map<EntryRef, Tag>, load: Load, n: nat)
    requires Link.Inv(l) && l.net.intact && Whole(load) && n <= |load|
    requires l.nextId + |load| - n < 0x1_0000_0000_0000_0000
    ensures var l' := SendAll(l, tags, load, n);
            && Link.Inv(l') && l'.net.intact && l.net.written <= l'.net.written
            && forall i :: n <= i < |load| ==>
                 Received(l'.net.written, load[i].value, TagOf(tags, load[i].value))
    decreases |load| - n
  {
    if n < |load| {
      var e := load[n].value;
      var l1 := Link.Step(l, Link.Send(e, TagOf(tags, e)));
      SentOne(l, e, TagOf(tags, e));
      SentAll(l1, tags, load, n + 1);
      assert SendAll(l, tags, load, n).net.written[|l.net.written|] == l1.net.written[|l.net.written|];
    }
  }

  lemma {:induction false} ReadsMany(m: Mux, c: nat, n: nat, srv: Servers) returns (evs: seq<Event>)
    requires c < |m.conns|
    ensures Reaches(m, evs, SetLink(m, c, LinkProgress.ReadMany(m.conns[c].link, n)), srv)
    decreases n
  {
    if n == 0 {
      assert m.conns[c := m.conns[c]] == m.conns;
      evs := [];
    } else {
      var m1 := SetLink(m, c, Link.Step(m.conns[c].link, Link.Read));
      ReachesOne(m, OnLink(c, Link.Read), m1, srv);
      var rest := ReadsMany(m1, c, n - 1, srv);
      var m2 := SetLink(m1, c, LinkProgress.ReadMany(m1.conns[c].link, n - 1));
      assert m2 == SetLink(m, c, LinkProgress.ReadMany(m.conns[c].link, n));
      evs := [OnLink(c, Link.Read)] + rest;
      ReachesAppend(m, [OnLink(c, Link.Read)], m1, rest, m2, srv);
    }
  }

  /** What the relay does once it has written its load. */
  function Back(p: Phase): Phase
    requires p.Writing?
  {
    if p.src.Feeder? then Ready(p.c) else Clearing(p.c, p.src.newConn)
  }

  lemma TurnsBack(m: Mux, d: nat, srv: Servers)
    requires d < |m.dests|
    requires var p := m.dests[d].relay; p.Writing? && p.n == |p.load| && p.c < |m.conns|
    ensures Reaches(m, [WriteOne(d, true, false)], SetRelay(m, d, Back(m.dests[d].relay)), srv)
  {
    ReachesOne(m, WriteOne(d, true, false), SetRelay(m, d, Back(m.dests[d].relay)), srv);
  }

  /** The relay of d is about to write a load; it is written and read to its end. */
  lemma SentIsRead(m: Mux, d: nat, srv: Servers) returns (evs: seq<Event>, m': Mux)
    requires Sending(m, d, 0) && Link.Inv(m.conns[m.dests[d].relay.c].link)
    ensures Reaches(m, evs, m', srv) && m'.feed == m.feed && m'.queue == m.queue
    ensures var p := m.dests[d].relay;
            && d < |m'.dests| && p.c < |m'.conns| && m'.dests[d].relay == Back(p)
            && forall i :: 0 <= i < |p.load| ==>
                 Received(m'.conns[p.c].link.net.receipts, p.load[i].value, TagOf(m.tags, p.load[i].value))
  {
    var p := m.dests[d].relay;
    var writes, m1 := SendsAll(m, d, 0, srv);
    SentAll(m.conns[p.c].link, m.tags, p.load, 0);
    var l := m1.conns[p.c].link;
    var m2 := SetLink(m1, p.c, LinkProgress.ReadMany(l, |l.net.wire|));
    var read := ReadsMany(m1, p.c, |l.net.wire|, srv);
    LinkProgress.ReadToTheEnd(l);
    TurnsBack(m2, d, srv);
    m' := SetRelay(m2, d, Back(p));
    ReachesAppend(m, writes, m1, read, m2, srv);
    evs := writes + read + [WriteOne(d, true, false)];
    ReachesAppend(m, writes + read, m2, [WriteOne(d, true, false)], m', srv);
  }

  /** The relay is busy with a load from its first entry on, and its connection works
      and has ids left for it. */
  ghost predicate Healthy(m: Mux, d: nat, srv: Servers) {
    && Busy(m, d, srv)
    && var p := m.dests[d].relay;
       && p.k == 0 && Link.Inv(m.conns[p.c].link) && m.conns[p.c].link.net.intact
       && m.conns[p.c].link.nextId + |p.load| < 0x1_0000_0000_0000_0000
  }

  /** Everything in a load has been read by the indexer of connection c, under its ids. */
  predicate ReadThere(m: Mux, m': Mux, load: Load, c: nat, srv: Servers)
    requires Whole(load) && c < |m.conns|
  {
    c < |m'.conns| &&
    forall i :: 0 <= i < |load| ==>
      var e := load[i].value;
      Received(m'.conns[c].link.net.receipts, e, IdAt(m.names, m.conns[c].dest, TagOf(m.tags, e), srv))
  }

  lemma DeliversLoad(m: Mux, d: nat, srv: Servers) returns (evs: seq<Event>, m': Mux)
    requires Healthy(m, d, srv)
    ensures Reaches(m, evs, m', srv) && m'.feed == m.feed && m'.queue == m.queue
    ensures var p := m.dests[d].relay;
            && d < |m'.dests| && m'.dests[d].relay == Back(Writing(p.c, p.load, 0, p.src))
            && ReadThere(m, m', p.load, p.c, srv)
  {
    var p := m.dests[d].relay;
    var first, m1 := FinishesAll(m, d, srv);
    BusySurvives(m1, d, TranslateOne(d), srv);
    var m2 := Step(m1, TranslateOne(d), srv);
    Then(m, first, m1, TranslateOne(d), m2, srv);
    var rest;
    rest, m' := SentIsRead(m2, d, srv);
    evs := first + [TranslateOne(d)] + rest;
    ReachesAppend(m, first + [TranslateOne(d)], m2, rest, m', srv);
  }

  // On clean runs

  lemma OnceInLoad(m: Mux, srv: Servers, load: Load)
    requires AllClean(m, srv) && Whole(load)
    requires forall e :: Count(load, e) <= Total(m, e)
    ensures OneByOne(load)
  {
    forall i, j | 0 <= i < j < |load| ensures load[i] != load[j] {
      var e := load[i].value;
      assert Clean(m, e);
      if load[j] == load[i] {
        CountTwice(load, i, j, e);
      }
    }
  }

  lemma FeedOnce(m: Mux, i: nat, e: EntryRef)
    requires i < |m.feed|
    ensures Count(m.feed[i], e) <= Total(m, e)
  {
    CountAllWithout(m.feed, i, e);
  }

  lemma QueueOnce(m: Mux, e: EntryRef)
    requires m.queue != []
    ensures Count(m.queue[0], e) <= Total(m, e)
  {
    CountAllWithout(m.queue, 0, e);
  }

  /** The front of the emergency queue: whole, each entry once and under its own tag. */
  ghost predicate QueuedHome(m: Mux) {
    m.queue != [] && OneByOne(m.queue[0]) &&
    forall j :: 0 <= j < |m.queue[0]| ==>
      var e := m.queue[0][j].value;
      e in m.home && TagOf(m.tags, e) == m.home[e] && KnownTag(m, m.home[e])
  }

  lemma QueueHome(m: Mux, srv: Servers)
    requires AllClean(m, srv) && m.queue != []
    ensures QueuedHome(m)
  {
    var load := m.queue[0];
    forall e ensures Count(load, e) <= Total(m, e) {
      QueueOnce(m, e);
    }
    OnceInLoad(m, srv, load);
    forall j | 0 <= j < |load|
      ensures var e := load[j].value; e in m.home && TagOf(m.tags, e) == m.home[e] && KnownTag(m, m.home[e])
    {
      var e := load[j].value;
      assert Some(e) in m.queue[0] && At(m, Parked, e);
      assert Clean(m, e);
      HeldIsHome(m, Parked, e);
    }
  }

  /** A connection that works and has ids left for a load. */
  predicate Fit(k: Link.Link, load: Load) {
    k.net.intact && k.nextId + |load| < 0x1_0000_0000_0000_0000
  }

  lemma FromFeed(m: Mux, d: nat, c: nat, i: nat, srv: Servers)
    requires Quick(m, c, srv) && d < |m.dests| && m.dests[d].relay == Ready(c)
    requires i < |m.feed| && Fit(m.conns[c].link, m.feed[i])
    ensures Whole(m.feed[i]) && forall j :: 0 <= j < |m.feed[i]| ==>
              var e := m.feed[i][j].value;
              e in m.home && TagOf(m.tags, e) == m.home[e] && KnownTag(m, m.home[e])
    ensures Healthy(Step(m, Receive(d, i), srv), d, srv)
  {
    var load := m.feed[i];
    forall e ensures Count(load, e) <= Total(m, e) {
      FeedOnce(m, i, e);
    }
    OnceInLoad(m, srv, load);
    WorksAlone(m, d, d, c);
    forall j | 0 <= j < |load|
      ensures var e := load[j].value; e in m.home && TagOf(m.tags, e) == m.home[e] && KnownTag(m, m.home[e])
    {
      var e := load[j].value;
      assert Some(e) in m.feed[i] && At(m, Feed, e);
      assert Clean(m, e);
      HeldIsHome(m, Feed, e);
    }
    assert TableOk(m.names, m.conns[c], srv);
  }

  /** Entries of a load have been read on connection c of destination d, each under the
      indexer's id for the tag it was admitted with. */
  ghost predicate Delivered(m: Mux, m': Mux, load: Load, d: nat, c: nat, srv: Servers) {
    c < |m'.conns| &&
    forall j :: 0 <= j < |load| ==>
      && load[j].Some?
      && var e := load[j].value;
         && e in m.home && KnownTag(m, m.home[e])
         && Received(m'.conns[c].link.net.receipts, e, RemoteTag(m, d, e, srv))
  }

  /** On every clean run, a relay that is ready on a connection installed with every tag
      known then can deliver any load that waits in a channel, whatever tags have appeared
      since: by moves of its own and of the indexer it gets all of it read, each entry
      under the indexer's id for the tag it was admitted with, and is ready again. */
  lemma HealthyConnectionDelivers(names: seq<string>, dests: nat, before: seq<Event>, d: nat, c: nat,
                                  after: seq<Event>, srv: Servers, m: Mux, i: nat)
      returns (evs: seq<Event>, m': Mux)
    requires InstalledThen(names, dests, before, d, c, after, srv, m)
    requires d < |m.dests| && m.dests[d].relay == Ready(c) && c < |m.conns|
    requires i < |m.feed| && Fit(m.conns[c].link, m.feed[i])
    ensures Reaches(m, evs, m', srv) && d < |m'.dests| && m'.dests[d].relay == Ready(c)
    ensures Delivered(m, m', m.feed[i], m.conns[c].dest, c, srv)
    ensures m'.feed == m.feed[..i] + m.feed[i + 1..] && m'.queue == m.queue
  {
    InstalledQuick(names, dests, before, d, c, after, srv, m);
    FromFeed(m, d, c, i, srv);
    var m1 := Step(m, Receive(d, i), srv);
    ReachesOne(m, Receive(d, i), m1, srv);
    var rest;
    rest, m' := DeliversLoad(m1, d, srv);
    evs := [Receive(d, i)] + rest;
    ReachesAppend(m, [Receive(d, i)], m1, rest, m', srv);
  }

  /** With the emergency queue empty the relay is ready, unless the connection is new and
      does not come to a sync: then it waits for another. */
  predicate FlushOver(m: Mux, d: nat, c: nat, newConn: bool, srv: Servers) {
    && d < |m.dests|
    && Step(m, ClearDone(d, true), srv).dests[d].relay == Ready(c)
    && Step(m, ClearDone(d, false), srv).dests[d].relay == if newConn then Waiting else Ready(c)
  }

  lemma FlushIsOver(m: Mux, d: nat, c: nat, newConn: bool, srv: Servers)
    requires d < |m.dests| && m.dests[d].relay == Clearing(c, newConn) && m.queue == []
    ensures FlushOver(m, d, c, newConn, srv)
  {
  }

  /** The front of the queue is popped and delivered. */
  lemma PopsAndDelivers(m: Mux, d: nat, c: nat, newConn: bool, srv: Servers) returns (evs: seq<Event>, m': Mux)
    requires d < |m.dests| && m.dests[d].relay == Clearing(c, newConn) && c < |m.conns| && QueuedHome(m)
    requires Healthy(Step(m, PopQueue(d), srv), d, srv)
    ensures Reaches(m, evs, m', srv) && d < |m'.dests| && m'.dests[d].relay == Clearing(c, newConn)
    ensures Delivered(m, m', m.queue[0], m.conns[c].dest, c, srv) && m'.queue == m.queue[1..]
  {
    var m1 := Step(m, PopQueue(d), srv);
    ReachesOne(m, PopQueue(d), m1, srv);
    var rest;
    rest, m' := DeliversLoad(m1, d, srv);
    evs := [PopQueue(d)] + rest;
    ReachesAppend(m, [PopQueue(d)], m1, rest, m', srv);
  }

  /** What waits in the emergency queue is flushed on the next tick, if the connection has
      negotiated the tags: emergencyQueue.clear does not. */
  lemma FromQueueOnTick(m: Mux, d: nat, c: nat, srv: Servers)
    requires Quick(m, c, srv) && d < |m.dests| && m.dests[d].relay == Ready(c)
    requires m.queue != [] && Fit(m.conns[c].link, m.queue[0]) && m.conns[c].tt.toNegotiate == []
    ensures QueuedHome(m)
    ensures Healthy(Step(SetRelay(m, d, Clearing(c, false)), PopQueue(d), srv), d, srv)
  {
    QueueHome(m, srv);
    WorksAlone(m, d, d, c);
    assert TableOk(m.names, m.conns[c], srv);
  }

  /** On every clean run, a relay that is ready on a connection with no tag left to
      negotiate can deliver the front of the emergency queue. */
  lemma ReadyRelayFlushes(names: seq<string>, dests: nat, before: seq<Event>, d: nat, c: nat, after: seq<Event>,
                          srv: Servers, m: Mux)
      returns (evs: seq<Event>, m': Mux)
    requires InstalledThen(names, dests, before, d, c, after, srv, m)
    requires d < |m.dests| && m.dests[d].relay == Ready(c) && c < |m.conns| && m.conns[c].tt.toNegotiate == []
    requires m.queue != [] && Fit(m.conns[c].link, m.queue[0])
    ensures Reaches(m, evs, m', srv) && d < |m'.dests| && m'.dests[d].relay == Clearing(c, false)
    ensures Delivered(m, m', m.queue[0], m.conns[c].dest, c, srv) && m'.queue == m.queue[1..]
    ensures |m.queue| == 1 ==> FlushOver(m', d, c, false, srv)
  {
    InstalledQuick(names, dests, before, d, c, after, srv, m);
    FromQueueOnTick(m, d, c, srv);
    evs, m' := TicksAndFlushes(m, d, c, srv);
  }

  lemma TicksAndFlushes(m: Mux, d: nat, c: nat, srv: Servers) returns (evs: seq<Event>, m': Mux)
    requires d < |m.dests| && m.dests[d].relay == Ready(c) && c < |m.conns| && QueuedHome(m)
    requires Healthy(Step(SetRelay(m, d, Clearing(c, false)), PopQueue(d), srv), d, srv)
    ensures Reaches(m, evs, m', srv) && d < |m'.dests| && m'.dests[d].relay == Clearing(c, false)
    ensures Delivered(m, m', m.queue[0], m.conns[c].dest, c, srv) && m'.queue == m.queue[1..]
    ensures |m.queue| == 1 ==> FlushOver(m', d, c, false, srv)
  {
    var m1 := SetRelay(m, d, Clearing(c, false));
    ReachesOne(m, Tick(d), m1, srv);
    var rest;
    rest, m' := PopsAndDelivers(m1, d, c, false, srv);
    evs := [Tick(d)] + rest;
    ReachesAppend(m, [Tick(d)], m1, rest, m', srv);
    if |m.queue| == 1 {
      FlushIsOver(m', d, c, false, srv);
    }
  }

  // A new connection

  /** Destination d has lost its connection and has nothing left of it. */
  predicate Unconnected(m: Mux, d: nat) {
    d < |m.dests| && m.dests[d].relay.Waiting? && m.dests[d].conn.None? && m.dests[d].dialed.None?
    && m.dests[d].reaped == []
  }

  /** Dialling, installing and handing over leaves everything else alone. */
  lemma ConnectsAnew(m: Mux, d: nat, srv: Servers) returns (m': Mux)
    requires Unconnected(m, d)
    ensures var c, w := |m.conns|, m.dests[d];
            && Reaches(m, [Dial(d), Install(d), HandOver(d)], m', srv)
            && m' == m.(conns := m.conns + [Conn(d, Link.Start(), FreshTable(m, d, srv), true)],
                        dests := m.dests[d := w.(relay := Clearing(c, true), conn := Some(c), offered := false)])
  {
    var c, w := |m.conns|, m.dests[d];
    var k := Conn(d, Link.Start(), FreshTable(m, d, srv), false);
    var m1 := m.(conns := m.conns + [k], dests := m.dests[d := w.(dialed := Some(c))]);
    var m2 := m.(conns := m.conns + [k.(installed := true)],
                 dests := m.dests[d := w.(conn := Some(c), dialed := None, offered := true)]);
    m' := m.(conns := m.conns + [k.(installed := true)],
             dests := m.dests[d := w.(relay := Clearing(c, true), conn := Some(c), offered := false)]);
    assert Step(m, Dial(d), srv) == m1;
    assert Step(m1, Install(d), srv) == m2;
    assert Step(m2, HandOver(d), srv) == m';
    Three(m, Dial(d), m1, Install(d), m2, HandOver(d), m', srv);
  }

  lemma FromQueue(m: Mux, m': Mux, d: nat, srv: Servers)
    requires AllClean(m, srv) && Unconnected(m, d) && m.queue != []
    requires |m.queue[0]| + 1 < 0x1_0000_0000_0000_0000
    requires var c, w := |m.conns|, m.dests[d];
             m' == m.(conns := m.conns + [Conn(d, Link.Start(), FreshTable(m, d, srv), true)],
                      dests := m.dests[d := w.(relay := Clearing(c, true), conn := Some(c), offered := false)])
    ensures QueuedHome(m) && Healthy(Step(m', PopQueue(d), srv), d, srv)
  {
    QueueHome(m, srv);
    Link.StartInv();
  }

  lemma Flushes(m: Mux, d: nat, srv: Servers) returns (evs: seq<Event>, m': Mux)
    requires AllClean(m, srv) && Unconnected(m, d)
    requires m.queue != [] && |m.queue[0]| + 1 < 0x1_0000_0000_0000_0000
    ensures Reaches(m, evs, m', srv) && d < |m'.dests| && m'.dests[d].relay == Clearing(|m.conns|, true)
    ensures Delivered(m, m', m.queue[0], d, |m.conns|, srv) && m'.queue == m.queue[1..]
    ensures |m.queue| == 1 ==> FlushOver(m', d, |m.conns|, true, srv)
  {
    var m1 := ConnectsAnew(m, d, srv);
    FromQueue(m, m1, d, srv);
    var connect := [Dial(d), Install(d), HandOver(d)];
    var rest;
    rest, m' := PopsAndDelivers(m1, d, |m.conns|, true, srv);
    evs := connect + rest;
    ReachesAppend(m, connect, m1, rest, m', srv);
    if |m.queue| == 1 {
      FlushIsOver(m', d, |m.conns|, true, srv);
    }
  }

  /** On every clean run, a destination without a connection can make one and deliver what
      has waited longest in the emergency queue. */
  lemma NewConnectionFlushes(names: seq<string>, dests: nat, before: seq<Event>, d: nat, srv: Servers)
      returns (evs: seq<Event>, m': Mux)
    requires 0 < |names| <= MAX_TAG_ID && NamesDistinct(names) && CleanRun(Start(names, dests), before, srv)
    requires var m := Run(Start(names, dests), before, srv);
             && ServersOk(srv, m.names) && Unconnected(m, d)
             && m.queue != [] && |m.queue[0]| + 1 < 0x1_0000_0000_0000_0000
    ensures var m := Run(Start(names, dests), before, srv);
            && Reaches(m, evs, m', srv) && d < |m'.dests| && m'.dests[d].relay == Clearing(|m.conns|, true)
            && Delivered(m, m', m.queue[0], d, |m.conns|, srv) && m'.queue == m.queue[1..]
            && (|m.queue| == 1 ==> FlushOver(m', d, |m.conns|, true, srv))
  {
    StartClean(names, dests, srv);
    RunClean(Start(names, dests), before, srv);
    evs, m' := Flushes(Run(Start(names, dests), before, srv), d, srv);
  }

  // The loss of a connection

  /** The relay of d is idle on the connection its destination holds. */
  predicate Idling(m: Mux, d: nat, c: nat) {
    d < |m.dests| && m.dests[d] == Dest(Ready(c), Some(c), None, false, []) && c < |m.conns|
  }

  /** The connection fails: its ring is ejected, parked and forgotten. */
  lemma LosesConnection(m: Mux, d: nat, c: nat, srv: Servers) returns (m': Mux)
    requires Idling(m, d, c)
    ensures Reaches(m, LOSS(d), m', srv) && Unconnected(m', d) && |m'.conns| == |m.conns|
    ensures m'.home == m.home && m'.names == m.names
    ensures var ring := m.conns[c].link.ring;
            m'.queue == m.queue + if ring == [] then [] else [AsLoad(ring)]
  {
    var ring := AsLoad(m.conns[c].link.ring);
    var w := m.dests[d];
    var m1 := SetRelay(m, d, Closing(c));
    var m2 := SetRelay(Ejected(m1, c), d, Returning(ring));
    var m3 := SetRelay(Push(m2, ring, true), d, Waiting);
    assert Step(m, Fault(d), srv) == m1;
    assert Step(m1, EjectConn(d), srv) == m2;
    assert Step(m2, Recycle(d, true), srv) == m3;
    Three(m, Fault(d), m1, EjectConn(d), m2, Recycle(d, true), m3, srv);
    m' := Forgets(m3, d, c, srv);
    ReachesAppend(m, [Fault(d), EjectConn(d), Recycle(d, true)], m3, [Reap(d), RecycleReaped(d, true)], m', srv);
  }

  /** The connection routine finds nothing left to eject. */
  lemma Forgets(m: Mux, d: nat, c: nat, srv: Servers) returns (m': Mux)
    requires d < |m.dests| && m.dests[d] == Dest(Waiting, Some(c), None, false, []) && c < |m.conns|
    requires m.conns[c].link.ring == []
    ensures Reaches(m, [Reap(d), RecycleReaped(d, true)], m', srv) && Unconnected(m', d)
    ensures |m'.conns| == |m.conns| && m'.home == m.home && m'.names == m.names && m'.queue == m.queue
  {
    var m1 := Step(m, Reap(d), srv);
    m' := Step(m1, RecycleReaped(d, true), srv);
    assert AsLoad(m.conns[c].link.ring) == [];
    Two(m, Reap(d), m1, RecycleReaped(d, true), m', srv);
  }

  function LOSS(d: nat): seq<Event> {
    [Fault(d), EjectConn(d), Recycle(d, true)] + [Reap(d), RecycleReaped(d, true)]
  }

  lemma LossIsClean(m: Mux, d: nat, srv: Servers)
    ensures CleanRun(m, LOSS(d), srv)
  {
    NoFailureClean(m, LOSS(d), srv);
  }

  /** On every clean run, if a connection with entries under way is lost while nothing else
      waits, its destination can connect again and deliver them all, under the new
      indexer's ids, however long ago they were sent. */
  lemma LostEntriesAreResent(names: seq<string>, dests: nat, before: seq<Event>, d: nat, c: nat, srv: Servers)
      returns (evs: seq<Event>, m': Mux)
    requires 0 < |names| <= MAX_TAG_ID && NamesDistinct(names) && CleanRun(Start(names, dests), before, srv)
    requires var m := Run(Start(names, dests), before, srv);
             && ServersOk(srv, m.names) && Idling(m, d, c) && m.queue == []
             && 0 < |m.conns[c].link.ring| && |m.conns[c].link.ring| + 1 < 0x1_0000_0000_0000_0000
    ensures var m := Run(Start(names, dests), before, srv);
            && Reaches(m, LOSS(d) + evs, m', srv)
            && Delivered(m, m', AsLoad(m.conns[c].link.ring), d, |m.conns|, srv)
  {
    var m := Run(Start(names, dests), before, srv);
    StartClean(names, dests, srv);
    RunClean(Start(names, dests), before, srv);
    var m1 := LosesConnection(m, d, c, srv);
    LossIsClean(m, d, srv);
    RunClean(m, LOSS(d), srv);
    evs, m' := Flushes(m1, d, srv);
    ReachesAppend(m, LOSS(d), m1, evs, m', srv);
  }

  // An exchange that fails

  /** If the indexer does not answer, the relay puts the load back as it was and closes. */
  lemma FailedExchangeGivesUp(m: Mux, d: nat, srv: Servers)
    requires Busy(m, d, srv) && m.dests[d].relay.neg.Some? && m.dests[d].relay.neg.value > 0
    ensures var p := m.dests[d].relay;
            var m' := Step(m, Negotiate(d, false), srv);
            && m'.dests[d].relay == Failing(p.c, p.load) && m'.feed == m.feed && m'.queue == m.queue
            && m'.tags == ReverseLoad(m.tags, m.conns[p.c].tt, p.load[..p.k]) && m'.conns == m.conns
  {
    var p := m.dests[d].relay;
    var k := m.conns[p.c];
    ExchangeCovers(m.names, k.tt, srv(k.dest, k.tt.toNegotiate[0].name));
  }
}
