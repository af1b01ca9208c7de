/** A flush of the emergency queue that breaks off can end in a crash: the entry it
    leaves in two places is dropped from one of them with an empty slot left behind. */
module MuxerCrash {
  import opened Wrappers
  import Link
  import opened Tags
  import opened Muxers
  import opened MuxerReach
  import opened MuxerBreakOff

  lemma {:induction false} CrashesThen(m: Mux, evs: seq<Event>, m1: Mux, ev: Event, srv: Servers)
    requires Reaches(m, evs, m1, srv) && Crashes(m1, ev, srv)
    ensures !Survives(m, evs + [ev], srv) && Run(m, evs + [ev], srv) == m1
    decreases |evs|
  {
    if evs == [] {
      assert evs + [ev] == [ev];
    } else {
      assert (evs + [ev])[0] == evs[0] && (evs + [ev])[1..] == evs[1..] + [ev];
      CrashesThen(Step(m, evs[0], srv), evs[1..], m1, ev, srv);
    }
  }

  const HOLE: Load := [None]
  const SINGLE: Load := [Some(0)]
  const WRITE_ALL := [WriteOne(0, true, false), WriteOne(0, true, false), WriteOne(0, true, false)]
  const DROP := [ClearDone(0, true), Receive(0, 0)] + [TranslateOne(0)]
  const GIVE_BACK := [Recycle(0, false), EjectConn(0), Recycle(0, false)]
  const PICK_UP := [ClearDone(0, true), Receive(0, 0)] + [TranslateOne(0), TranslateOne(0)]

  /** The first entry, ejected, goes to a feeder channel. The batch is flushed on a
      third connection, so that the entry has a remote tag when it comes from the
      channel: it is dropped, and the relay gives back the batch with the empty slot
      and closes. On a fourth connection that batch is picked up. */
  const TO_CRASH := BREAK + [Reap(0), RecycleReaped(0, false)] + RETRY + WRITE_ALL + DROP + GIVE_BACK
                    + ([Reap(0)] + CONNECT) + PICK_UP

  /** A connection that has carried the batch. */
  function Carried(a: Tag, b: Tag): Conn {
    Fresh(a, b).(link := Link.Step(Link.Step(Link.Start(), Link.Send(0, a)), Link.Send(1, a)))
  }

  function Emptied(a: Tag, b: Tag): Conn {
    Carried(a, b).(link := Link.Step(Carried(a, b).link, Link.Eject))
  }

  function Left(a: Tag, b: Tag): Conn {
    Emptied(a, b).(installed := false)
  }

  lemma WritesBatch(feed: seq<Load>, a: Tag, b: Tag)
    ensures Reaches(Scene((a, a), feed, [], [Lost(a, b), Gone(a, b), Fresh(a, b)],
                          Working(Writing(2, BATCH, 0, Queue(true)), 2)), WRITE_ALL,
                    Scene((a, a), feed, [], [Lost(a, b), Gone(a, b), Carried(a, b)], Working(Clearing(2, true), 2)),
                    Indexers(a, b))
  {
    var srv := Indexers(a, b);
    var sent := Fresh(a, b).(link := Link.Step(Link.Start(), Link.Send(0, a)));
    var none, one := [Lost(a, b), Gone(a, b), Fresh(a, b)], [Lost(a, b), Gone(a, b), sent];
    var both := [Lost(a, b), Gone(a, b), Carried(a, b)];
    Writes((a, a), feed, [], none, 2, 0, Queue(true), srv);
    Writes((a, a), feed, [], one, 2, 1, Queue(true), srv);
    assert none[2 := sent] == one && one[2 := Carried(a, b)] == both;
    Three(Scene((a, a), feed, [], none, Working(Writing(2, BATCH, 0, Queue(true)), 2)), WriteOne(0, true, false),
          Scene((a, a), feed, [], one, Working(Writing(2, BATCH, 1, Queue(true)), 2)), WriteOne(0, true, false),
          Scene((a, a), feed, [], both, Working(Writing(2, BATCH, 2, Queue(true)), 2)), WriteOne(0, true, false),
          Scene((a, a), feed, [], both, Working(Clearing(2, true), 2)), srv);
  }

  lemma DropsSlot(conns: seq<Conn>, c: nat, a: Tag, b: Tag)
    requires 2 <= a && a != GRAVWELL_TAG && c < |conns| && conns[c].tt == Table(a, b)
    ensures Reaches(Scene((a, a), [], [], conns, Working(Translating(c, SINGLE, 0, None, Feeder), c)),
                    [TranslateOne(0)],
                    Scene((a, a), [], [], conns, Working(Failing(c, HOLE), c)), Indexers(a, b))
  {
    var m := Scene((a, a), [], [], conns, Working(Translating(c, SINGLE, 0, None, Feeder), c));
    assert SINGLE[..0] == [] && SINGLE[0 := None] == HOLE;
    ReachesOne(m, TranslateOne(0), Scene((a, a), [], [], conns, Working(Failing(c, HOLE), c)), Indexers(a, b));
  }

  lemma Drops(conns: seq<Conn>, c: nat, a: Tag, b: Tag)
    requires 2 <= a && a != GRAVWELL_TAG && c < |conns| && conns[c].tt == Table(a, b)
    ensures Reaches(Scene((a, a), [SINGLE], [], conns, Working(Clearing(c, true), c)), DROP,
                    Scene((a, a), [], [], conns, Working(Failing(c, HOLE), c)), Indexers(a, b))
  {
    var m0 := Scene((a, a), [SINGLE], [], conns, Working(Clearing(c, true), c));
    var m1 := Scene((a, a), [SINGLE], [], conns, Working(Ready(c), c));
    var m2 := Scene((a, a), [], [], conns, Working(Translating(c, SINGLE, 0, None, Feeder), c));
    assert [SINGLE][..0] + [SINGLE][1..] == [];
    Two(m0, ClearDone(0, true), m1, Receive(0, 0), m2, Indexers(a, b));
    DropsSlot(conns, c, a, b);
    ReachesAppend(m0, [ClearDone(0, true), Receive(0, 0)], m2, [TranslateOne(0)],
                  Scene((a, a), [], [], conns, Working(Failing(c, HOLE), c)), Indexers(a, b));
  }

  lemma GivesBack(a: Tag, b: Tag)
    requires a != GRAVWELL_TAG
    ensures Reaches(Scene((a, a), [], [], [Lost(a, b), Gone(a, b), Carried(a, b)], Working(Failing(2, HOLE), 2)),
                    GIVE_BACK,
                    Scene((0, 0), [HOLE, BATCH], [], [Lost(a, b), Gone(a, b), Emptied(a, b)], Working(Waiting, 2)),
                    Indexers(a, b))
  {
    var srv, before := Indexers(a, b), [Lost(a, b), Gone(a, b), Carried(a, b)];
    var after := [Lost(a, b), Gone(a, b), Emptied(a, b)];
    var m2 := Scene((0, 0), [HOLE], [], after, Working(Returning(BATCH), 2));
    EjectsBatch(a, b);
    assert [HOLE] + [BATCH] == [HOLE, BATCH];
    Three(Scene((a, a), [], [], before, Working(Failing(2, HOLE), 2)), Recycle(0, false),
          Scene((a, a), [HOLE], [], before, Working(Closing(2), 2)), EjectConn(0), m2, Recycle(0, false),
          Scene((0, 0), [HOLE, BATCH], [], after, Working(Waiting, 2)), srv);
  }

  lemma EjectsBatch(a: Tag, b: Tag)
    requires a != GRAVWELL_TAG
    ensures Step(Scene((a, a), [HOLE], [], [Lost(a, b), Gone(a, b), Carried(a, b)], Working(Closing(2), 2)),
                 EjectConn(0), Indexers(a, b)) ==
            Scene((0, 0), [HOLE], [], [Lost(a, b), Gone(a, b), Emptied(a, b)], Working(Returning(BATCH), 2))
  {
    var before := [Lost(a, b), Gone(a, b), Carried(a, b)];
    assert AsLoad(Carried(a, b).link.ring) == BATCH;
    ReversesBatch((a, a), Table(a, b));
    assert Reverse(Table(a, b), a) == 0;
    assert before[2 := Emptied(a, b)] == [Lost(a, b), Gone(a, b), Emptied(a, b)];
  }

  /** The connection routine drops the third connection and makes a fourth. */
  lemma Reconnects(a: Tag, b: Tag)
    ensures Reaches(Scene((0, 0), [HOLE, BATCH], [], [Lost(a, b), Gone(a, b), Emptied(a, b)], Working(Waiting, 2)),
                    [Reap(0)] + CONNECT,
                    Scene((0, 0), [HOLE, BATCH], [], [Lost(a, b), Gone(a, b), Left(a, b), Fresh(a, b)],
                          Working(Clearing(3, true), 3)), Indexers(a, b))
  {
    var srv, three := Indexers(a, b), [Lost(a, b), Gone(a, b), Left(a, b)];
    var m0 := Scene((0, 0), [HOLE, BATCH], [], [Lost(a, b), Gone(a, b), Emptied(a, b)], Working(Waiting, 2));
    var m1 := Scene((0, 0), [HOLE, BATCH], [], three, IDLE);
    var before := [Lost(a, b), Gone(a, b), Emptied(a, b)];
    ReapsEmpty((0, 0), [HOLE, BATCH], [], before, 2, srv);
    assert before[2 := Left(a, b)] == three;
    Connects((0, 0), [HOLE, BATCH], [], three, a, b);
    assert three + [Fresh(a, b)] == [Lost(a, b), Gone(a, b), Left(a, b), Fresh(a, b)];
    ReachesAppend(m0, [Reap(0)], m1, CONNECT,
                  Scene((0, 0), [HOLE, BATCH], [], three + [Fresh(a, b)], Working(Clearing(3, true), 3)), srv);
  }

  lemma PicksUp(conns: seq<Conn>, c: nat, srv: Servers)
    requires c < |conns|
    ensures Reaches(Scene((0, 0), [HOLE, BATCH], [], conns, Working(Clearing(c, true), c)), PICK_UP,
                    Scene((0, 0), [BATCH], [], conns, Working(Writing(c, HOLE, 0, Feeder), c)), srv)
  {
    var m0 := Scene((0, 0), [HOLE, BATCH], [], conns, Working(Clearing(c, true), c));
    var m1 := Scene((0, 0), [HOLE, BATCH], [], conns, Working(Ready(c), c));
    var m2 := Scene((0, 0), [BATCH], [], conns, Working(Translating(c, HOLE, 0, None, Feeder), c));
    assert [HOLE, BATCH][..0] + [HOLE, BATCH][1..] == [BATCH];
    Two(m0, ClearDone(0, true), m1, Receive(0, 0), m2, srv);
    SkipsSlot(conns, c, srv);
    ReachesAppend(m0, [ClearDone(0, true), Receive(0, 0)], m2, [TranslateOne(0), TranslateOne(0)],
                  Scene((0, 0), [BATCH], [], conns, Working(Writing(c, HOLE, 0, Feeder), c)), srv);
  }

  lemma SkipsSlot(conns: seq<Conn>, c: nat, srv: Servers)
    requires c < |conns|
    ensures Reaches(Scene((0, 0), [BATCH], [], conns, Working(Translating(c, HOLE, 0, None, Feeder), c)),
                    [TranslateOne(0), TranslateOne(0)],
                    Scene((0, 0), [BATCH], [], conns, Working(Writing(c, HOLE, 0, Feeder), c)), srv)
  {
    Two(Scene((0, 0), [BATCH], [], conns, Working(Translating(c, HOLE, 0, None, Feeder), c)), TranslateOne(0),
        Scene((0, 0), [BATCH], [], conns, Working(Translating(c, HOLE, 1, None, Feeder), c)), TranslateOne(0),
        Scene((0, 0), [BATCH], [], conns, Working(Writing(c, HOLE, 0, Feeder), c)), srv);
  }

  /** The batch with the empty slot reaches a relay's hand. */
  lemma GetsHole(a: Tag, b: Tag)
    requires 2 <= a && a != GRAVWELL_TAG && b != 0
    ensures Reaches(START, TO_CRASH, Scene((0, 0), [BATCH], [], [Lost(a, b), Gone(a, b), Left(a, b), Fresh(a, b)],
                                           Working(Writing(3, HOLE, 0, Feeder), 3)), Indexers(a, b))
  {
    var srv, evs := Indexers(a, b), BREAK + [Reap(0), RecycleReaped(0, false)] + RETRY + WRITE_ALL + DROP;
    var m1 := Scene((a, a), [], [], [Lost(a, b), Gone(a, b), Carried(a, b)], Working(Failing(2, HOLE), 2));
    var m2 := Scene((0, 0), [HOLE, BATCH], [], [Lost(a, b), Gone(a, b), Emptied(a, b)], Working(Waiting, 2));
    var four := [Lost(a, b), Gone(a, b), Left(a, b), Fresh(a, b)];
    var m3 := Scene((0, 0), [HOLE, BATCH], [], four, Working(Clearing(3, true), 3));
    GetsDropped(a, b);
    GivesBack(a, b);
    ReachesAppend(START, evs, m1, GIVE_BACK, m2, srv);
    Reconnects(a, b);
    ReachesAppend(START, evs + GIVE_BACK, m2, [Reap(0)] + CONNECT, m3, srv);
    PicksUp(four, 3, srv);
    ReachesAppend(START, evs + GIVE_BACK + ([Reap(0)] + CONNECT), m3, PICK_UP,
                  Scene((0, 0), [BATCH], [], four, Working(Writing(3, HOLE, 0, Feeder), 3)), srv);
  }

  lemma GetsDropped(a: Tag, b: Tag)
    requires 2 <= a && a != GRAVWELL_TAG && b != 0
    ensures Reaches(START, BREAK + [Reap(0), RecycleReaped(0, false)] + RETRY + WRITE_ALL + DROP,
                    Scene((a, a), [], [], [Lost(a, b), Gone(a, b), Carried(a, b)], Working(Failing(2, HOLE), 2)),
                    Indexers(a, b))
  {
    var srv, reap := Indexers(a, b), [Reap(0), RecycleReaped(0, false)];
    var three := [Lost(a, b), Gone(a, b), Carried(a, b)];
    var m1 := Scene((0, 0), [SINGLE], [BATCH], [Lost(a, b), Gone(a, b)], IDLE);
    var m2 := Scene((a, a), [SINGLE], [], [Lost(a, b), Gone(a, b), Fresh(a, b)],
                    Working(Writing(2, BATCH, 0, Queue(true)), 2));
    var m3 := Scene((a, a), [SINGLE], [], three, Working(Clearing(2, true), 2));
    GetsBroken(a, b);
    Reaps(a, b, false);
    assert Reverse(Table(a, b), 0) == 0;
    ReachesAppend(START, BREAK, BrokenOff(a, b), reap, m1, srv);
    Retries((0, 0), (a, a), [SINGLE], [], a, b);
    assert [BATCH] + [] == [BATCH];
    ReachesAppend(START, BREAK + reap, m1, RETRY, m2, srv);
    WritesBatch([SINGLE], a, b);
    ReachesAppend(START, BREAK + reap + RETRY, m2, WRITE_ALL, m3, srv);
    Drops(three, 2, a, b);
    ReachesAppend(START, BREAK + reap + RETRY + WRITE_ALL, m3, DROP,
                  Scene((a, a), [], [], three, Working(Failing(2, HOLE), 2)), srv);
  }

  /** The next write is of the empty slot. Neither the entries nor the indexers are
      unusual: any indexer whose ids are not the muxer's own will do. */
  lemma BreakingOffCanCrash(a: Tag, b: Tag)
    requires 2 <= a && a != GRAVWELL_TAG && b != 0
    ensures !Survives(START, TO_CRASH + [WriteOne(0, true, false)], Indexers(a, b))
  {
    GetsHole(a, b);
    CrashesThen(START, TO_CRASH, Scene((0, 0), [BATCH], [], [Lost(a, b), Gone(a, b), Left(a, b), Fresh(a, b)],
                                       Working(Writing(3, HOLE, 0, Feeder), 3)),
                WriteOne(0, true, false), Indexers(a, b));
  }
}
