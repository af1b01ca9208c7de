/** Putting runs of the muxer together. */
module MuxerReach {
  import opened Muxers

  predicate Reaches(m: Mux, evs: seq<Event>, m': Mux, srv: Servers) {
    Survives(m, evs, srv) && Run(m, evs, srv) == m'
  }

  lemma {:induction false} ReachesAppend(m: Mux, a: seq<Event>, m1: Mux, b: seq<Event>, m2: Mux, srv: Servers)
    requires Reaches(m, a, m1, srv) && Reaches(m1, b, m2, srv)
    ensures Reaches(m, a + b, m2, srv)
    decreases |a|
  {
    if a == [] {
      assert a + b == b;
    } else {
      assert (a + b)[0] == a[0] && (a + b)[1..] == a[1..] + b;
      ReachesAppend(Step(m, a[0], srv), a[1..], m1, b, m2, srv);
    }
  }

  lemma ReachesOne(m: Mux, ev: Event, m': Mux, srv: Servers)
    requires !Crashes(m, ev, srv) && Step(m, ev, srv) == m'
    ensures Reaches(m, [ev], m', srv)
  {
    assert [ev][1..] == [];
  }

  lemma Then(m: Mux, evs: seq<Event>, m1: Mux, ev: Event, m2: Mux, srv: Servers)
    requires Reaches(m, evs, m1, srv) && !Crashes(m1, ev, srv) && Step(m1, ev, srv) == m2
    ensures Reaches(m, evs + [ev], m2, srv)
  {
    ReachesOne(m1, ev, m2, srv);
    ReachesAppend(m, evs, m1, [ev], m2, srv);
  }

  lemma Three(m0: Mux, a: Event, m1: Mux, b: Event, m2: Mux, c: Event, m3: Mux, srv: Servers)
    requires !Crashes(m0, a, srv) && Step(m0, a, srv) == m1
    requires !Crashes(m1, b, srv) && Step(m1, b, srv) == m2
    requires !Crashes(m2, c, srv) && Step(m2, c, srv) == m3
    ensures Reaches(m0, [a, b, c], m3, srv)
  {
    ReachesOne(m0, a, m1, srv);
    Then(m0, [a], m1, b, m2, srv);
    Then(m0, [a] + [b], m2, c, m3, srv);
    assert [a] + [b] + [c] == [a, b, c];
  }

  lemma Two(m0: Mux, a: Event, m1: Mux, b: Event, m2: Mux, srv: Servers)
    requires !Crashes(m0, a, srv) && Step(m0, a, srv) == m1
    requires !Crashes(m1, b, srv) && Step(m1, b, srv) == m2
    ensures Reaches(m0, [a, b], m2, srv)
  {
    ReachesOne(m0, a, m1, srv);
    Then(m0, [a], m1, b, m2, srv);
    assert [a] + [b] == [a, b];
  }
}
