/** What a flush of the emergency queue that breaks off leads to, as runs of a muxer
    with two tags and one destination from its start. */
module MuxerBreakOff {
  import opened Wrappers
  import Link
  import opened Tags
  import opened Muxers
  import opened MuxerReach
  import opened MuxerDelivery
  import opened MuxerTags
  import opened MuxerTagRuns

  // The muxer

  const BATCH: Load := [Some(0), Some(1)]

  /** Indexers that use id a for the first tag and b for the second. */
  function Indexers(a: Tag, b: Tag): Servers {
    (d: nat, name: string) => if name == "first" then a else b
  }

  function Table(a: Tag, b: Tag): TagTrans {
    TagTrans([a, b], [])
  }

  /** The muxer with the two entries admitted under the first tag. */
  function Scene(t: (Tag, Tag), feed: seq<Load>, queue: seq<Load>, conns: seq<Conn>, w: Dest): Mux {
    Mux(["first", "second"], map[0 := t.0, 1 := t.1], map[0 := 0, 1 := 0], feed, queue, conns, [w])
  }

  const IDLE := Dest(Waiting, None, None, false, [])

  /** The destination's relay is at work on connection c. */
  function Working(p: Phase, c: nat): Dest {
    Dest(p, Some(c), None, false, [])
  }

  function Fresh(a: Tag, b: Tag): Conn {
    Conn(0, Link.Start(), Table(a, b), true)
  }

  const CONNECT := [Dial(0), Install(0), HandOver(0)]
  const TRANSLATE := [TranslateOne(0), TranslateOne(0), TranslateOne(0)]

  lemma Dials(t: (Tag, Tag), feed: seq<Load>, queue: seq<Load>, conns: seq<Conn>, a: Tag, b: Tag)
    ensures Step(Scene(t, feed, queue, conns, IDLE), Dial(0), Indexers(a, b)) ==
            Scene(t, feed, queue, conns + [Fresh(a, b).(installed := false)], IDLE.(dialed := Some(|conns|)))
  {
    var m := Scene(t, feed, queue, conns, IDLE);
    assert FreshTable(m, 0, Indexers(a, b)).active == [a, b];
  }

  lemma Connects(t: (Tag, Tag), feed: seq<Load>, queue: seq<Load>, conns: seq<Conn>, a: Tag, b: Tag)
    ensures Reaches(Scene(t, feed, queue, conns, IDLE), CONNECT,
                    Scene(t, feed, queue, conns + [Fresh(a, b)], Working(Clearing(|conns|, true), |conns|)),
                    Indexers(a, b))
  {
    var srv, c := Indexers(a, b), |conns|;
    var m0 := Scene(t, feed, queue, conns, IDLE);
    var m1 := Scene(t, feed, queue, conns + [Fresh(a, b).(installed := false)], IDLE.(dialed := Some(c)));
    var m2 := Scene(t, feed, queue, conns + [Fresh(a, b)], Working(Waiting, c).(offered := true));
    var m3 := Scene(t, feed, queue, conns + [Fresh(a, b)], Working(Clearing(c, true), c));
    Dials(t, feed, queue, conns, a, b);
    assert Step(m1, Install(0), srv) == m2;
    assert Step(m2, HandOver(0), srv) == m3;
    Three(m0, Dial(0), m1, Install(0), m2, HandOver(0), m3, srv);
  }

  lemma Translates(t: (Tag, Tag), r: (Tag, Tag), feed: seq<Load>, queue: seq<Load>, conns: seq<Conn>, c: nat,
                   src: Origin, a: Tag, b: Tag)
    requires c < |conns| && conns[c].tt == Table(a, b)
    requires Translate(Table(a, b), t.0) == Some(r.0) && Translate(Table(a, b), t.1) == Some(r.1)
    ensures Reaches(Scene(t, feed, queue, conns, Working(Translating(c, BATCH, 0, None, src), c)), TRANSLATE,
                    Scene(r, feed, queue, conns, Working(Writing(c, BATCH, 0, src), c)), Indexers(a, b))
  {
    var srv := Indexers(a, b);
    var m0 := Scene(t, feed, queue, conns, Working(Translating(c, BATCH, 0, None, src), c));
    var m1 := Scene((r.0, t.1), feed, queue, conns, Working(Translating(c, BATCH, 1, None, src), c));
    var m2 := Scene(r, feed, queue, conns, Working(Translating(c, BATCH, 2, None, src), c));
    var m3 := Scene(r, feed, queue, conns, Working(Writing(c, BATCH, 0, src), c));
    TranslatesOne(t, r.0, feed, queue, conns, c, src, 0, a, b);
    TranslatesOne((r.0, t.1), r.1, feed, queue, conns, c, src, 1, a, b);
    assert Step(m2, TranslateOne(0), srv) == m3;
    assert !HasHole(BATCH, 0, 2);
    Three(m0, TranslateOne(0), m1, TranslateOne(0), m2, TranslateOne(0), m3, srv);
  }

  lemma TranslatesOne(t: (Tag, Tag), r: Tag, feed: seq<Load>, queue: seq<Load>, conns: seq<Conn>, c: nat, src: Origin,
                      k: nat, a: Tag, b: Tag)
    requires c < |conns| && conns[c].tt == Table(a, b) && k < 2
    requires Translate(Table(a, b), if k == 0 then t.0 else t.1) == Some(r)
    ensures var m := Scene(t, feed, queue, conns, Working(Translating(c, BATCH, k, None, src), c));
            && !Crashes(m, TranslateOne(0), Indexers(a, b))
            && Step(m, TranslateOne(0), Indexers(a, b)) ==
               Scene(if k == 0 then (r, t.1) else (t.0, r), feed, queue, conns,
                     Working(Translating(c, BATCH, k + 1, None, src), c))
  {
    var m := Scene(t, feed, queue, conns, Working(Translating(c, BATCH, k, None, src), c));
    assert !HasHole(BATCH, 0, k);
    assert m.tags[k := r] == if k == 0 then map[0 := r, 1 := t.1] else map[0 := t.0, 1 := r];
  }

  /** Reversing the batch. */
  lemma ReversesBatch(t: (Tag, Tag), tt: TagTrans)
    ensures ReverseLoad(map[0 := t.0, 1 := t.1], tt, BATCH) == map[0 := Reverse(tt, t.0), 1 := Reverse(tt, t.1)]
    ensures ReverseLoad(map[0 := t.0, 1 := t.1], tt, [Some(0)]) == map[0 := Reverse(tt, t.0), 1 := t.1]
    ensures ReverseLoad(map[0 := t.0, 1 := t.1], tt, []) == map[0 := t.0, 1 := t.1]
  {
    var tags: map<EntryRef, Tag> := map[0 := t.0, 1 := t.1];
    var r := Reverse(tt, t.0);
    assert BATCH[1..] == [Some(1)] && BATCH[1..][1..] == [];
    assert tags[0 := r] == map[0 := r, 1 := t.1];
    assert tags[0 := r][1 := Reverse(tt, t.1)] == map[0 := r, 1 := Reverse(tt, t.1)];
    var one: Load := [Some(0)];
    assert one[1..] == [];
  }

  // The first connection fails and the batch ends up in the emergency queue

  const START := Muxers.Start(["first", "second"], 1)

  function Dead(a: Tag): Link.Link {
    Link.Step(Link.Start(), Link.SendFailed(0, a, false))
  }

  lemma AdmitsTwo()
    ensures AdmitStep(START, [(0, 0), (1, 0)]) == Scene((0, 0), [BATCH], [], [], IDLE)
  {
    var ents: seq<(EntryRef, Tag)> := [(0, 0), (1, 0)];
    assert ents[..1] == [(0, 0)] && ents[..1][..0] == [];
    assert TagsOf(ents[..1]) == map[0 := 0];
    assert TagsOf(ents) == map[0 := 0, 1 := 0];
    assert LoadOf(ents) == BATCH && START.dests == [IDLE];
  }

  // Single steps

  function TagIn(t: (Tag, Tag), n: nat): Tag {
    if n == 0 then t.0 else t.1
  }

  lemma Writes(t: (Tag, Tag), feed: seq<Load>, queue: seq<Load>, conns: seq<Conn>, c: nat, n: nat, src: Origin,
               srv: Servers)
    requires c < |conns| && n < 2 && conns[c].link.net.intact && conns[c].link.nextId < 0x1_0000
    ensures var m := Scene(t, feed, queue, conns, Working(Writing(c, BATCH, n, src), c));
            var sent := conns[c].(link := Link.Step(conns[c].link, Link.Send(n, TagIn(t, n))));
            && !Crashes(m, WriteOne(0, true, false), srv)
            && Step(m, WriteOne(0, true, false), srv) ==
               Scene(t, feed, queue, conns[c := sent], Working(Writing(c, BATCH, n + 1, src), c))
  {
  }

  lemma FailsFromFeeder(a: Tag, b: Tag)
    requires a != GRAVWELL_TAG
    ensures var m := Scene((a, a), [], [], [Fresh(a, b)], Working(Writing(0, BATCH, 0, Feeder), 0));
            && !Crashes(m, WriteOne(0, false, false), Indexers(a, b))
            && Step(m, WriteOne(0, false, false), Indexers(a, b)) ==
               Scene((0, 0), [], [], [Failed(a, b)], Working(Failing(0, BATCH), 0))
  {
    assert BATCH[0..] == BATCH && !HasHole(BATCH, 0, 2);
    ReversesBatch((a, a), Table(a, b));
    assert Reverse(Table(a, b), a) == 0;
  }

  /** The first connection fails while its relay writes the batch. */
  function Failed(a: Tag, b: Tag): Conn {
    Fresh(a, b).(link := Dead(a))
  }

  lemma FailsFirst(a: Tag, b: Tag)
    requires a != GRAVWELL_TAG
    ensures Reaches(Scene((a, a), [], [], [Fresh(a, b)], Working(Writing(0, BATCH, 0, Feeder), 0)),
                    [WriteOne(0, false, false), Recycle(0, true), EjectConn(0)],
                    Scene((0, 0), [], [BATCH], [Failed(a, b)], Working(Returning([]), 0)), Indexers(a, b))
  {
    var srv := Indexers(a, b);
    var m1 := Scene((0, 0), [], [], [Failed(a, b)], Working(Failing(0, BATCH), 0));
    var m2 := Scene((0, 0), [], [BATCH], [Failed(a, b)], Working(Closing(0), 0));
    FailsFromFeeder(a, b);
    assert Step(m1, Recycle(0, true), srv) == m2;
    EjectsNothing(a, b);
    Three(Scene((a, a), [], [], [Fresh(a, b)], Working(Writing(0, BATCH, 0, Feeder), 0)), WriteOne(0, false, false),
          m1, Recycle(0, true), m2, EjectConn(0),
          Scene((0, 0), [], [BATCH], [Failed(a, b)], Working(Returning([]), 0)), srv);
  }

  lemma EjectsNothing(a: Tag, b: Tag)
    ensures Step(Scene((0, 0), [], [BATCH], [Failed(a, b)], Working(Closing(0), 0)), EjectConn(0), Indexers(a, b)) ==
            Scene((0, 0), [], [BATCH], [Failed(a, b)], Working(Returning([]), 0))
  {
    ReversesBatch((0, 0), Table(a, b));
    assert AsLoad(Dead(a).ring) == [];
  }

  lemma StartsReceiving(a: Tag, b: Tag)
    ensures Reaches(Scene((0, 0), [BATCH], [], [Fresh(a, b)], Working(Clearing(0, true), 0)),
                    [ClearDone(0, true), Receive(0, 0)],
                    Scene((0, 0), [], [], [Fresh(a, b)], Working(Translating(0, BATCH, 0, None, Feeder), 0)),
                    Indexers(a, b))
  {
    var srv := Indexers(a, b);
    var m0 := Scene((0, 0), [BATCH], [], [Fresh(a, b)], Working(Clearing(0, true), 0));
    var m1 := Scene((0, 0), [BATCH], [], [Fresh(a, b)], Working(Ready(0), 0));
    var m2 := Scene((0, 0), [], [], [Fresh(a, b)], Working(Translating(0, BATCH, 0, None, Feeder), 0));
    assert [BATCH][..0] + [BATCH][1..] == [];
    Two(m0, ClearDone(0, true), m1, Receive(0, 0), m2, srv);
  }

  function Lost(a: Tag, b: Tag): Conn {
    Failed(a, b).(installed := false)
  }

  lemma ReapsEmpty(t: (Tag, Tag), feed: seq<Load>, queue: seq<Load>, conns: seq<Conn>, c: nat, srv: Servers)
    requires c < |conns| && conns[c].link.ring == [] && !conns[c].link.net.intact
    ensures Reaches(Scene(t, feed, queue, conns, Working(Waiting, c)), [Reap(0)],
                    Scene(t, feed, queue, conns[c := conns[c].(installed := false)], IDLE), srv)
  {
    ReversesBatch(t, conns[c].tt);
    assert AsLoad(conns[c].link.ring) == [] && Link.Step(conns[c].link, Link.Eject) == conns[c].link;
    ReachesOne(Scene(t, feed, queue, conns, Working(Waiting, c)), Reap(0),
               Scene(t, feed, queue, conns[c := conns[c].(installed := false)], IDLE), srv);
  }

  lemma LosesFirst(a: Tag, b: Tag)
    ensures Reaches(Scene((0, 0), [], [BATCH], [Failed(a, b)], Working(Returning([]), 0)),
                    [Recycle(0, true)] + [Reap(0)],
                    Scene((0, 0), [], [BATCH], [Lost(a, b)], IDLE), Indexers(a, b))
  {
    var srv := Indexers(a, b);
    var m0 := Scene((0, 0), [], [BATCH], [Failed(a, b)], Working(Returning([]), 0));
    var m1 := Scene((0, 0), [], [BATCH], [Failed(a, b)], Working(Waiting, 0));
    ReachesOne(m0, Recycle(0, true), m1, srv);
    ReapsEmpty((0, 0), [], [BATCH], [Failed(a, b)], 0, srv);
    assert [Failed(a, b)][0 := Lost(a, b)] == [Lost(a, b)];
    ReachesAppend(m0, [Recycle(0, true)], m1, [Reap(0)], Scene((0, 0), [], [BATCH], [Lost(a, b)], IDLE), srv);
  }

  lemma PopsBatch(t: (Tag, Tag), feed: seq<Load>, rest: seq<Load>, conns: seq<Conn>, c: nat, srv: Servers)
    ensures Reaches(Scene(t, feed, [BATCH] + rest, conns, Working(Clearing(c, true), c)), [PopQueue(0)],
                    Scene(t, feed, rest, conns, Working(Translating(c, BATCH, 0, None, Queue(true)), c)), srv)
  {
    var m := Scene(t, feed, [BATCH] + rest, conns, Working(Clearing(c, true), c));
    assert ([BATCH] + rest)[1..] == rest;
    ReachesOne(m, PopQueue(0),
               Scene(t, feed, rest, conns, Working(Translating(c, BATCH, 0, None, Queue(true)), c)), srv);
  }

  // Halfway through the flush

  /** The second connection, once it has carried the first entry. */
  function Sent(a: Tag, b: Tag): Conn {
    Fresh(a, b).(link := Link.Step(Link.Start(), Link.Send(0, a)))
  }

  function HalfWritten(a: Tag, b: Tag): Mux {
    Scene((a, a), [], [], [Lost(a, b), Sent(a, b)], Working(Writing(1, BATCH, 1, Queue(true)), 1))
  }

  const BEFORE := [Admit([(0, 0), (1, 0)])] + CONNECT + [ClearDone(0, true), Receive(0, 0)] + TRANSLATE
  const AGAIN := [Recycle(0, true)] + [Reap(0)] + CONNECT + [PopQueue(0)] + TRANSLATE

  /** Two entries are admitted; writing them fails and they go to the emergency queue;
      after a reconnection they are written from there, the first one successfully. */
  const HALFWAY := BEFORE + [WriteOne(0, false, false), Recycle(0, true), EjectConn(0)] + AGAIN
                   + [WriteOne(0, true, false)]

  lemma GetsReady(a: Tag, b: Tag)
    ensures Reaches(START, BEFORE, Scene((a, a), [], [], [Fresh(a, b)], Working(Writing(0, BATCH, 0, Feeder), 0)),
                    Indexers(a, b))
  {
    var srv := Indexers(a, b);
    AdmitsTwo();
    var m1 := Scene((0, 0), [BATCH], [], [], IDLE);
    ReachesOne(START, Admit([(0, 0), (1, 0)]), m1, srv);
    Connects((0, 0), [BATCH], [], [], a, b);
    var m2 := Scene((0, 0), [BATCH], [], [Fresh(a, b)], Working(Clearing(0, true), 0));
    assert [] + [Fresh(a, b)] == [Fresh(a, b)];
    ReachesAppend(START, [Admit([(0, 0), (1, 0)])], m1, CONNECT, m2, srv);
    StartsReceiving(a, b);
    var m3 := Scene((0, 0), [], [], [Fresh(a, b)], Working(Translating(0, BATCH, 0, None, Feeder), 0));
    ReachesAppend(START, [Admit([(0, 0), (1, 0)])] + CONNECT, m2, [ClearDone(0, true), Receive(0, 0)], m3, srv);
    Translates((0, 0), (a, a), [], [], [Fresh(a, b)], 0, Feeder, a, b);
    ReachesAppend(START, [Admit([(0, 0), (1, 0)])] + CONNECT + [ClearDone(0, true), Receive(0, 0)], m3, TRANSLATE,
                  Scene((a, a), [], [], [Fresh(a, b)], Working(Writing(0, BATCH, 0, Feeder), 0)), srv);
  }

  lemma GetsReadyAgain(a: Tag, b: Tag)
    ensures Reaches(Scene((0, 0), [], [BATCH], [Failed(a, b)], Working(Returning([]), 0)), AGAIN,
                    Scene((a, a), [], [], [Lost(a, b), Fresh(a, b)], Working(Writing(1, BATCH, 0, Queue(true)), 1)),
                    Indexers(a, b))
  {
    var srv, lost, both := Indexers(a, b), [Lost(a, b)], [Lost(a, b), Fresh(a, b)];
    var m0 := Scene((0, 0), [], [BATCH], [Failed(a, b)], Working(Returning([]), 0));
    var m1 := Scene((0, 0), [], [BATCH], lost, IDLE);
    LosesFirst(a, b);
    Connects((0, 0), [], [BATCH], lost, a, b);
    assert lost + [Fresh(a, b)] == both;
    var m2 := Scene((0, 0), [], [BATCH], both, Working(Clearing(1, true), 1));
    ReachesAppend(m0, [Recycle(0, true)] + [Reap(0)], m1, CONNECT, m2, srv);
    PopsBatch((0, 0), [], [], both, 1, srv);
    assert [BATCH] + [] == [BATCH];
    var m3 := Scene((0, 0), [], [], both, Working(Translating(1, BATCH, 0, None, Queue(true)), 1));
    ReachesAppend(m0, [Recycle(0, true)] + [Reap(0)] + CONNECT, m2, [PopQueue(0)], m3, srv);
    Translates((0, 0), (a, a), [], [], both, 1, Queue(true), a, b);
    ReachesAppend(m0, [Recycle(0, true)] + [Reap(0)] + CONNECT + [PopQueue(0)], m3, TRANSLATE,
                  Scene((a, a), [], [], both, Working(Writing(1, BATCH, 0, Queue(true)), 1)), srv);
  }

  lemma WritesFirst(a: Tag, b: Tag)
    ensures Reaches(Scene((a, a), [], [], [Lost(a, b), Fresh(a, b)], Working(Writing(1, BATCH, 0, Queue(true)), 1)),
                    [WriteOne(0, true, false)], HalfWritten(a, b), Indexers(a, b))
  {
    var srv, both := Indexers(a, b), [Lost(a, b), Fresh(a, b)];
    Writes((a, a), [], [], both, 1, 0, Queue(true), srv);
    assert both[1 := Sent(a, b)] == [Lost(a, b), Sent(a, b)];
    ReachesOne(Scene((a, a), [], [], both, Working(Writing(1, BATCH, 0, Queue(true)), 1)), WriteOne(0, true, false),
               HalfWritten(a, b), srv);
  }

  lemma GetsHalfway(a: Tag, b: Tag)
    requires a != GRAVWELL_TAG
    ensures Reaches(START, HALFWAY, HalfWritten(a, b), Indexers(a, b))
  {
    var srv, both := Indexers(a, b), [Lost(a, b), Fresh(a, b)];
    var fail := [WriteOne(0, false, false), Recycle(0, true), EjectConn(0)];
    var m1 := Scene((a, a), [], [], [Fresh(a, b)], Working(Writing(0, BATCH, 0, Feeder), 0));
    var m2 := Scene((0, 0), [], [BATCH], [Failed(a, b)], Working(Returning([]), 0));
    var m3 := Scene((a, a), [], [], both, Working(Writing(1, BATCH, 0, Queue(true)), 1));
    GetsReady(a, b);
    FailsFirst(a, b);
    ReachesAppend(START, BEFORE, m1, fail, m2, srv);
    GetsReadyAgain(a, b);
    ReachesAppend(START, BEFORE + fail, m2, AGAIN, m3, srv);
    WritesFirst(a, b);
    ReachesAppend(START, BEFORE + fail + AGAIN, m3, [WriteOne(0, true, false)], HalfWritten(a, b), srv);
  }

  // The flush breaks off

  /** The next write fails. */
  const BREAK := HALFWAY + [WriteOne(0, false, false)]

  /** The second connection, once it has failed with the first entry under way. */
  function Torn(a: Tag, b: Tag): Conn {
    Fresh(a, b).(link := Link.Step(Sent(a, b).link, Link.SendFailed(1, a, false)))
  }

  function BrokenOff(a: Tag, b: Tag): Mux {
    Scene((0, 0), [], [BATCH], [Lost(a, b), Torn(a, b)], Working(Waiting, 1))
  }

  lemma BreaksOffThere(a: Tag, b: Tag)
    requires a != GRAVWELL_TAG
    ensures BreaksOff(HalfWritten(a, b), WriteOne(0, false, false))
    ensures Reaches(HalfWritten(a, b), [WriteOne(0, false, false)], BrokenOff(a, b), Indexers(a, b))
  {
    ReversesBatch((a, a), Table(a, b));
    assert Reverse(Table(a, b), a) == 0;
    assert Step(HalfWritten(a, b), WriteOne(0, false, false), Indexers(a, b)) == BrokenOff(a, b);
    ReachesOne(HalfWritten(a, b), WriteOne(0, false, false), BrokenOff(a, b), Indexers(a, b));
  }

  lemma GetsBroken(a: Tag, b: Tag)
    requires a != GRAVWELL_TAG
    ensures Reaches(START, BREAK, BrokenOff(a, b), Indexers(a, b))
  {
    GetsHalfway(a, b);
    BreaksOffThere(a, b);
    ReachesAppend(START, HALFWAY, HalfWritten(a, b), [WriteOne(0, false, false)], BrokenOff(a, b), Indexers(a, b));
  }

  /** Halfway the first entry is in the ring under a, the indexer's id for its tag;
      once the flush has broken off it is still there, but under local id 0. */
  lemma BreakingOffSpoilsRing(a: Tag, b: Tag)
    requires a != GRAVWELL_TAG && a != 0
    ensures var m := Run(START, HALFWAY, Indexers(a, b));
            0 in m.home && At(m, Ring(1), 0) && TagRight(m, Ring(1), 0) && TagOf(m.tags, 0) == a
    ensures var m := Run(START, BREAK, Indexers(a, b));
            0 in m.home && At(m, Ring(1), 0) && !TagRight(m, Ring(1), 0) && TagOf(m.tags, 0) == 0
  {
    GetsHalfway(a, b);
    GetsBroken(a, b);
    assert HalfWritten(a, b).conns[1].link.ring[0].ent == 0;
    assert BrokenOff(a, b).conns[1].link.ring[0].ent == 0;
  }

  // Without the break the run is clean

  /** Where events lead, crash or not. */
  function Follow(m: Mux, evs: seq<Event>, srv: Servers): Mux
    decreases |evs|
  {
    if evs == [] then m else Follow(Step(m, evs[0], srv), evs[1..], srv)
  }

  lemma {:induction false} ReachesFollows(m: Mux, evs: seq<Event>, m': Mux, srv: Servers)
    requires Reaches(m, evs, m', srv)
    ensures Follow(m, evs, srv) == m'
    decreases |evs|
  {
    if evs != [] {
      ReachesFollows(Step(m, evs[0], srv), evs[1..], m', srv);
    }
  }

  lemma {:induction false} CleanAppend(m: Mux, a: seq<Event>, b: seq<Event>, srv: Servers)
    requires CleanRun(m, a, srv) && CleanRun(Follow(m, a, srv), b, srv)
    ensures CleanRun(m, a + b, srv)
    decreases |a|
  {
    if a == [] {
      assert a + b == b;
    } else {
      assert (a + b)[0] == a[0] && (a + b)[1..] == a[1..] + b;
      CleanAppend(Step(m, a[0], srv), a[1..], b, srv);
    }
  }

  /** One write may fail, if not in the middle of a flush. */
  lemma OneFailureClean(m: Mux, a: seq<Event>, m1: Mux, ev: Event, b: seq<Event>, srv: Servers)
    requires NoFailedWrite(a) && NoFailedWrite(b) && Reaches(m, a, m1, srv) && !BreaksOff(m1, ev)
    ensures CleanRun(m, a + ([ev] + b), srv)
  {
    NoFailureClean(m, a, srv);
    assert ([ev] + b)[1..] == b;
    NoFailureClean(Step(m1, ev, srv), b, srv);
    ReachesFollows(m, a, m1, srv);
    CleanAppend(m, a, [ev] + b, srv);
  }

  lemma HalfwayParts()
    ensures var rest := [Recycle(0, true), EjectConn(0)] + AGAIN + [WriteOne(0, true, false), OnLink(1, Link.Read)];
            && HALFWAY + [OnLink(1, Link.Read)] == BEFORE + ([WriteOne(0, false, false)] + rest)
            && NoFailedWrite(BEFORE) && NoFailedWrite(rest)
  {
  }

  lemma HalfwayClean(a: Tag, b: Tag)
    ensures CleanRun(START, HALFWAY + [OnLink(1, Link.Read)], Indexers(a, b))
  {
    var m1 := Scene((a, a), [], [], [Fresh(a, b)], Working(Writing(0, BATCH, 0, Feeder), 0));
    var rest := [Recycle(0, true), EjectConn(0)] + AGAIN + [WriteOne(0, true, false), OnLink(1, Link.Read)];
    HalfwayParts();
    GetsReady(a, b);
    OneFailureClean(START, BEFORE, m1, WriteOne(0, false, false), rest, Indexers(a, b));
  }

  lemma ReadsFirst(a: Tag, b: Tag)
    ensures var read := Sent(a, b).(link := Link.Step(Sent(a, b).link, Link.Read));
            && read.link.net.receipts == [Link.Receipt(1, 0, a)]
            && Step(HalfWritten(a, b), OnLink(1, Link.Read), Indexers(a, b)) ==
               HalfWritten(a, b).(conns := [Lost(a, b), read])
  {
    assert Sent(a, b).link.net.wire == [Link.NewEntry(1, 0, a)];
  }

  /** The hypotheses of the theorems about clean runs can be met by a run in which
      a connection fails and an entry is sent again: the indexer reads it under its
      own id for the tag. */
  lemma ResentAndRead(a: Tag, b: Tag)
    requires a != b && a != GRAVWELL_TAG && b != GRAVWELL_TAG
    ensures var evs, srv := HALFWAY + [OnLink(1, Link.Read)], Indexers(a, b);
            var m := Run(START, evs, srv);
            && ServersOk(srv, m.names) && CleanRun(START, evs, srv)
            && |m.conns| == 2 && m.conns[1].link.net.receipts == [Link.Receipt(1, 0, a)]
  {
    var srv, m := Indexers(a, b), HalfWritten(a, b);
    GetsHalfway(a, b);
    HalfwayClean(a, b);
    ReadsFirst(a, b);
    var read := Sent(a, b).(link := Link.Step(Sent(a, b).link, Link.Read));
    Then(START, HALFWAY, m, OnLink(1, Link.Read), m.(conns := [Lost(a, b), read]), srv);
    KeptApart(a, b);
  }

  lemma KeptApart(a: Tag, b: Tag)
    requires a != b && a != GRAVWELL_TAG && b != GRAVWELL_TAG
    ensures ServersOk(Indexers(a, b), ["first", "second"])
  {
    assert "first"[0] != "second"[0];
  }

  // An indexer reads an entry under another name

  /** The second connection, once its ring has been ejected. */
  function Gone(a: Tag, b: Tag): Conn {
    Torn(a, b).(link := Link.Step(Torn(a, b).link, Link.Eject), installed := false)
  }

  /** The connection routine ejects the first entry and reverses the tag it has. */
  lemma Reaps(a: Tag, b: Tag, toQueue: bool)
    ensures Reaches(BrokenOff(a, b), [Reap(0), RecycleReaped(0, toQueue)],
                    Scene((Reverse(Table(a, b), 0), 0), if toQueue then [] else [[Some(0)]],
                          if toQueue then [BATCH, [Some(0)]] else [BATCH], [Lost(a, b), Gone(a, b)], IDLE),
                    Indexers(a, b))
  {
    var srv, t := Indexers(a, b), (Reverse(Table(a, b), 0), 0);
    var m1 := Scene(t, [], [BATCH], [Lost(a, b), Gone(a, b)], IDLE.(reaped := [Some(0)]));
    ReapsFirst(a, b);
    var m2 := Scene(t, if toQueue then [] else [[Some(0)]],
                    if toQueue then [BATCH, [Some(0)]] else [BATCH], [Lost(a, b), Gone(a, b)], IDLE);
    RecyclesFirst(t, [Lost(a, b), Gone(a, b)], toQueue, srv);
    Two(BrokenOff(a, b), Reap(0), m1, RecycleReaped(0, toQueue), m2, srv);
  }

  lemma RecyclesFirst(t: (Tag, Tag), conns: seq<Conn>, toQueue: bool, srv: Servers)
    ensures Step(Scene(t, [], [BATCH], conns, IDLE.(reaped := [Some(0)])), RecycleReaped(0, toQueue), srv) ==
            Scene(t, if toQueue then [] else [[Some(0)]], if toQueue then [BATCH, [Some(0)]] else [BATCH], conns, IDLE)
  {
    assert [BATCH] + [[Some(0)]] == [BATCH, [Some(0)]];
  }

  lemma ReapsFirst(a: Tag, b: Tag)
    ensures Step(BrokenOff(a, b), Reap(0), Indexers(a, b)) ==
            Scene((Reverse(Table(a, b), 0), 0), [], [BATCH], [Lost(a, b), Gone(a, b)], IDLE.(reaped := [Some(0)]))
  {
    ReversesBatch((0, 0), Table(a, b));
    assert AsLoad(Torn(a, b).link.ring) == [Some(0)];
  }

  const RETRY := CONNECT + [PopQueue(0)] + TRANSLATE

  /** On a third connection the batch is taken from the emergency queue again. */
  lemma Retries(t: (Tag, Tag), r: (Tag, Tag), feed: seq<Load>, rest: seq<Load>, a: Tag, b: Tag)
    requires Translate(Table(a, b), t.0) == Some(r.0) && Translate(Table(a, b), t.1) == Some(r.1)
    ensures Reaches(Scene(t, feed, [BATCH] + rest, [Lost(a, b), Gone(a, b)], IDLE), RETRY,
                    Scene(r, feed, rest, [Lost(a, b), Gone(a, b), Fresh(a, b)],
                          Working(Writing(2, BATCH, 0, Queue(true)), 2)),
                    Indexers(a, b))
  {
    var srv, two := Indexers(a, b), [Lost(a, b), Gone(a, b)];
    var three := [Lost(a, b), Gone(a, b), Fresh(a, b)];
    var m0 := Scene(t, feed, [BATCH] + rest, two, IDLE);
    var m1 := Scene(t, feed, [BATCH] + rest, three, Working(Clearing(2, true), 2));
    var m2 := Scene(t, feed, rest, three, Working(Translating(2, BATCH, 0, None, Queue(true)), 2));
    Connects(t, feed, [BATCH] + rest, two, a, b);
    assert two + [Fresh(a, b)] == three;
    PopsBatch(t, feed, rest, three, 2, srv);
    ReachesAppend(m0, CONNECT, m1, [PopQueue(0)], m2, srv);
    Translates(t, r, feed, rest, three, 2, Queue(true), a, b);
    ReachesAppend(m0, CONNECT + [PopQueue(0)], m2, TRANSLATE,
                  Scene(r, feed, rest, three, Working(Writing(2, BATCH, 0, Queue(true)), 2)), srv);
  }

  /** After the break the first entry, ejected, goes to the emergency queue too. A new
      connection is made, the batch is written again and its first entry read. */
  const MISREAD := BREAK + [Reap(0), RecycleReaped(0, true)] + RETRY + [WriteOne(0, true, false), OnLink(2, Link.Read)]

  lemma WritesAndReads(t: (Tag, Tag), rest: seq<Load>, a: Tag, b: Tag)
    ensures var read := Fresh(a, b).(link := Link.Step(Link.Step(Link.Start(), Link.Send(0, t.0)), Link.Read));
            && read.link.net.receipts == [Link.Receipt(1, 0, t.0)]
            && Reaches(Scene(t, [], rest, [Lost(a, b), Gone(a, b), Fresh(a, b)],
                             Working(Writing(2, BATCH, 0, Queue(true)), 2)),
                       [WriteOne(0, true, false), OnLink(2, Link.Read)],
                       Scene(t, [], rest, [Lost(a, b), Gone(a, b), read],
                             Working(Writing(2, BATCH, 1, Queue(true)), 2)),
                       Indexers(a, b))
  {
    var srv, three := Indexers(a, b), [Lost(a, b), Gone(a, b), Fresh(a, b)];
    var sent := Fresh(a, b).(link := Link.Step(Link.Start(), Link.Send(0, t.0)));
    var read := sent.(link := Link.Step(sent.link, Link.Read));
    assert sent.link.net.wire == [Link.NewEntry(1, 0, t.0)];
    var w := Working(Writing(2, BATCH, 1, Queue(true)), 2);
    Writes(t, [], rest, three, 2, 0, Queue(true), srv);
    assert three[2 := sent] == [Lost(a, b), Gone(a, b), sent];
    assert three[2 := sent][2 := read] == [Lost(a, b), Gone(a, b), read];
    Two(Scene(t, [], rest, three, Working(Writing(2, BATCH, 0, Queue(true)), 2)), WriteOne(0, true, false),
        Scene(t, [], rest, [Lost(a, b), Gone(a, b), sent], w), OnLink(2, Link.Read),
        Scene(t, [], rest, [Lost(a, b), Gone(a, b), read], w), srv);
  }

  lemma ReversesSecond(a: Tag, b: Tag)
    requires a != b && b != GRAVWELL_TAG
    ensures Reverse(Table(a, b), b) == 1
  {
    var tt := Table(a, b);
    assert tt.active[0] == a && tt.active[1] == b;
  }

  lemma GetsMisread(a: Tag)
    requires a != 0 && a != GRAVWELL_TAG
    ensures Reaches(START, MISREAD,
                    Scene((0, a), [], [[Some(0)]], [Lost(a, 0), Gone(a, 0), Misread(a)],
                          Working(Writing(2, BATCH, 1, Queue(true)), 2)), Indexers(a, 0))
  {
    var srv, rest: seq<Load> := Indexers(a, 0), [[Some(0)]];
    var m1 := Scene((1, 0), [], [BATCH] + rest, [Lost(a, 0), Gone(a, 0)], IDLE);
    var m2 := Scene((0, a), [], rest, [Lost(a, 0), Gone(a, 0), Fresh(a, 0)],
                    Working(Writing(2, BATCH, 0, Queue(true)), 2));
    GetsBroken(a, 0);
    Reaps(a, 0, true);
    ReversesSecond(a, 0);
    assert [BATCH] + rest == [BATCH, [Some(0)]];
    ReachesAppend(START, BREAK, BrokenOff(a, 0), [Reap(0), RecycleReaped(0, true)], m1, srv);
    Retries((1, 0), (0, a), [], rest, a, 0);
    ReachesAppend(START, BREAK + [Reap(0), RecycleReaped(0, true)], m1, RETRY, m2, srv);
    WritesAndReads((0, a), rest, a, 0);
    ReachesAppend(START, BREAK + [Reap(0), RecycleReaped(0, true)] + RETRY, m2,
                  [WriteOne(0, true, false), OnLink(2, Link.Read)],
                  Scene((0, a), [], rest, [Lost(a, 0), Gone(a, 0), Misread(a)],
                        Working(Writing(2, BATCH, 1, Queue(true)), 2)), srv);
  }

  /** The third connection, once its indexer has read the first entry with tag 0. */
  function Misread(a: Tag): Conn {
    Fresh(a, 0).(link := Link.Step(Link.Step(Link.Start(), Link.Send(0, 0)), Link.Read))
  }

  /** An indexer whose id for the second tag is the muxer's for the first ends up
      reading an entry of the first tag as one of the second. */
  lemma ReadUnderAnotherName(a: Tag)
    requires a != 0 && a != GRAVWELL_TAG
    ensures var srv := Indexers(a, 0);
            var m := Run(START, MISREAD, srv);
            && Survives(START, MISREAD, srv) && ServersOk(srv, m.names)
            && m.home == map[0 := 0, 1 := 0] && |m.names| == 2
            && |m.conns| == 3 && m.conns[2].link.net.receipts == [Link.Receipt(1, 0, srv(0, m.names[1]))]
  {
    GetsMisread(a);
    WritesAndReads((0, a), [[Some(0)]], a, 0);
    KeptApart(a, 0);
  }
}
