/** How often the muxer holds an entry, over all the places it can be. */
module MuxerCount {
  import opened Wrappers
  import Link
  import opened Tags
  import opened Muxers
  import opened MuxerDelivery

  // Counting occurrences

  function Sum(s: seq<nat>): nat {
    if s == [] then 0 else s[0] + Sum(s[1..])
  }

  lemma {:induction false} SumAppend(a: seq<nat>, b: seq<nat>)
    ensures Sum(a + b) == Sum(a) + Sum(b)
  {
    if a == [] {
      assert a + b == b;
    } else {
      assert (a + b)[1..] == a[1..] + b;
      SumAppend(a[1..], b);
    }
  }

  lemma SumSplit(s: seq<nat>, i: nat)
    requires i < |s|
    ensures Sum(s) == Sum(s[..i]) + s[i] + Sum(s[i + 1..])
  {
    assert s == s[..i] + ([s[i]] + s[i + 1..]);
    SumAppend(s[..i], [s[i]] + s[i + 1..]);
  }

  lemma SumUpdate(s: seq<nat>, i: nat, x: nat)
    requires i < |s|
    ensures Sum(s[i := x]) == Sum(s) - s[i] + x
  {
    SumSplit(s, i);
    SumSplit(s[i := x], i);
    assert s[i := x][..i] == s[..i] && s[i := x][i + 1..] == s[i + 1..];
  }

  lemma SumTwo(s: seq<nat>, i: nat, j: nat)
    requires i < j < |s|
    ensures s[i] + s[j] <= Sum(s)
  {
    SumSplit(s, i);
    SumSplit(s[i + 1..], j - i - 1);
  }

  lemma SumOne(s: seq<nat>, i: nat)
    requires i < |s|
    ensures s[i] <= Sum(s)
  {
    SumSplit(s, i);
  }

  function Marks(load: Load, e: EntryRef): (s: seq<nat>)
    ensures |s| == |load| && forall i :: 0 <= i < |load| ==> s[i] == if load[i] == Some(e) then 1 else 0
  {
    seq(|load|, i requires 0 <= i < |load| => if load[i] == Some(e) then 1 else 0)
  }

  /** How often a load holds an entry. */
  function Count(load: Load, e: EntryRef): nat {
    Sum(Marks(load, e))
  }

  lemma CountAppend(a: Load, b: Load, e: EntryRef)
    ensures Count(a + b, e) == Count(a, e) + Count(b, e)
  {
    assert Marks(a + b, e) == Marks(a, e) + Marks(b, e);
    SumAppend(Marks(a, e), Marks(b, e));
  }

  lemma CountIn(load: Load, e: EntryRef)
    ensures Count(load, e) > 0 <==> Some(e) in load
  {
    if Some(e) in load {
      var i :| 0 <= i < |load| && load[i] == Some(e);
      SumOne(Marks(load, e), i);
    } else {
      SumZero(Marks(load, e));
    }
  }

  lemma {:induction false} SumZero(s: seq<nat>)
    requires forall i :: 0 <= i < |s| ==> s[i] == 0
    ensures Sum(s) == 0
  {
    if s != [] {
      SumZero(s[1..]);
    }
  }

  lemma CountTwice(load: Load, i: nat, j: nat, e: EntryRef)
    requires i < |load| && j < |load| && i != j && load[i] == load[j] == Some(e)
    ensures Count(load, e) >= 2
  {
    if i < j {
      SumTwo(Marks(load, e), i, j);
    } else {
      SumTwo(Marks(load, e), j, i);
    }
  }

  function LoadCounts(ls: seq<Load>, e: EntryRef): (s: seq<nat>)
    ensures |s| == |ls| && forall i :: 0 <= i < |ls| ==> s[i] == Count(ls[i], e)
  {
    seq(|ls|, i requires 0 <= i < |ls| => Count(ls[i], e))
  }

  function CountAll(ls: seq<Load>, e: EntryRef): nat {
    Sum(LoadCounts(ls, e))
  }

  lemma CountAllAppend(a: seq<Load>, b: seq<Load>, e: EntryRef)
    ensures CountAll(a + b, e) == CountAll(a, e) + CountAll(b, e)
  {
    assert LoadCounts(a + b, e) == LoadCounts(a, e) + LoadCounts(b, e);
    SumAppend(LoadCounts(a, e), LoadCounts(b, e));
  }

  lemma CountAllOne(load: Load, e: EntryRef)
    ensures CountAll([load], e) == Count(load, e)
  {
    var s := LoadCounts([load], e);
    assert Sum(s) == s[0] + Sum(s[1..]);
  }

  lemma CountAllWithout(ls: seq<Load>, i: nat, e: EntryRef)
    requires i < |ls|
    ensures CountAll(ls[..i] + ls[i + 1..], e) == CountAll(ls, e) - Count(ls[i], e)
  {
    assert ls == ls[..i] + [ls[i]] + ls[i + 1..];
    CountAllAppend(ls[..i] + [ls[i]], ls[i + 1..], e);
    CountAllAppend(ls[..i], [ls[i]], e);
    CountAllAppend(ls[..i], ls[i + 1..], e);
    CountAllOne(ls[i], e);
  }

  lemma CountAllIn(ls: seq<Load>, e: EntryRef)
    ensures CountAll(ls, e) > 0 <==> InLoads(e, ls)
  {
    if InLoads(e, ls) {
      var i :| 0 <= i < |ls| && Some(e) in ls[i];
      CountIn(ls[i], e);
      SumOne(LoadCounts(ls, e), i);
    } else {
      forall i | 0 <= i < |ls| ensures LoadCounts(ls, e)[i] == 0 {
        CountIn(ls[i], e);
      }
      SumZero(LoadCounts(ls, e));
    }
  }

  function HandCount(p: Phase, e: EntryRef): nat {
    match p
    case Translating(_, load, _, _, _) => Count(load, e)
    case Writing(_, load, n, _) => if n <= |load| then Count(load[n..], e) else 0
    case Failing(_, rest) => Count(rest, e)
    case Returning(rest) => Count(rest, e)
    case _ => 0
  }

  function DestCount(w: Dest, e: EntryRef): nat {
    HandCount(w.relay, e) + Count(w.reaped, e)
  }

  function RingCount(ring: seq<Link.Pending>, e: EntryRef): nat {
    Count(AsLoad(ring), e)
  }

  function DestCounts(ds: seq<Dest>, e: EntryRef): (s: seq<nat>)
    ensures |s| == |ds| && forall i :: 0 <= i < |ds| ==> s[i] == DestCount(ds[i], e)
  {
    seq(|ds|, i requires 0 <= i < |ds| => DestCount(ds[i], e))
  }

  function RingCounts(cs: seq<Conn>, e: EntryRef): (s: seq<nat>)
    ensures |s| == |cs| && forall i :: 0 <= i < |cs| ==> s[i] == RingCount(cs[i].link.ring, e)
  {
    seq(|cs|, i requires 0 <= i < |cs| => RingCount(cs[i].link.ring, e))
  }

  /** How often the muxer holds an entry, all places together. */
  function Total(m: Mux, e: EntryRef): nat {
    CountAll(m.feed, e) + CountAll(m.queue, e) + Sum(DestCounts(m.dests, e)) + Sum(RingCounts(m.conns, e))
  }

  /** The share of one place in the total. */
  function Weight(m: Mux, p: Place, e: EntryRef): nat {
    match p
    case Feed => CountAll(m.feed, e)
    case Parked => CountAll(m.queue, e)
    case Relay(d) => if d < |m.dests| then HandCount(m.dests[d].relay, e) else 0
    case Reaped(d) => if d < |m.dests| then Count(m.dests[d].reaped, e) else 0
    case Ring(c) => if c < |m.conns| then RingCount(m.conns[c].link.ring, e) else 0
    case Taken(_) => 0
  }

  lemma HandIn(p: Phase, e: EntryRef)
    requires p.Writing? ==> p.n <= |p.load|
    ensures HandCount(p, e) > 0 <==> InHand(e, p)
  {
    match p {
      case Translating(_, load, _, _, _) => CountIn(load, e);
      case Writing(_, load, n, _) =>
        CountIn(load[n..], e);
        PartInSuffix(e, load, n);
        if Some(e) in load[n..] {
          var i :| 0 <= i < |load[n..]| && load[n..][i] == Some(e);
          assert load[n + i] == Some(e);
        }
      case Failing(_, rest) => CountIn(rest, e);
      case Returning(rest) => CountIn(rest, e);
      case _ =>
    }
  }

  lemma RingIn(ring: seq<Link.Pending>, e: EntryRef)
    ensures RingCount(ring, e) > 0 <==> InRing(e, ring)
  {
    CountIn(AsLoad(ring), e);
    if InRing(e, ring) {
      InAsLoad(ring, e);
    }
    if Some(e) in AsLoad(ring) {
      var i :| 0 <= i < |ring| && AsLoad(ring)[i] == Some(e);
      assert ring[i].ent == e;
    }
  }

  lemma WeightAt(m: Mux, p: Place, e: EntryRef)
    requires Shape(m) && !p.Taken?
    ensures Weight(m, p, e) > 0 <==> At(m, p, e)
  {
    match p {
      case Feed => CountAllIn(m.feed, e);
      case Parked => CountAllIn(m.queue, e);
      case Relay(d) =>
        if d < |m.dests| {
          assert DestOk(m, m.dests[d]);
          HandIn(m.dests[d].relay, e);
        }
      case Reaped(d) => if d < |m.dests| { CountIn(m.dests[d].reaped, e); }
      case Ring(c) => if c < |m.conns| { RingIn(m.conns[c].link.ring, e); }
    }
  }

  lemma TwoWeights(m: Mux, p: Place, q: Place, e: EntryRef)
    requires p != q
    ensures Weight(m, p, e) + Weight(m, q, e) <= Total(m, e)
  {
    WeightPart(m, p, e);
    WeightPart(m, q, e);
    var s, r := DestCounts(m.dests, e), RingCounts(m.conns, e);
    if (p.Relay? || p.Reaped?) && (q.Relay? || q.Reaped?) && p.d < |s| && q.d < |s| && p.d != q.d {
      SumTwo(s, if p.d < q.d then p.d else q.d, if p.d < q.d then q.d else p.d);
    }
    if p.Ring? && q.Ring? && p.c < |r| && q.c < |r| {
      SumTwo(r, if p.c < q.c then p.c else q.c, if p.c < q.c then q.c else p.c);
    }
  }

  lemma WeightPart(m: Mux, p: Place, e: EntryRef)
    ensures (p.Relay? || p.Reaped?) && p.d < |m.dests| ==>
              DestCount(m.dests[p.d], e) <= Sum(DestCounts(m.dests, e))
    ensures p.Ring? && p.c < |m.conns| ==> Weight(m, p, e) <= Sum(RingCounts(m.conns, e))
    ensures Weight(m, p, e) <= Total(m, e)
  {
    if (p.Relay? || p.Reaped?) && p.d < |m.dests| {
      SumOne(DestCounts(m.dests, e), p.d);
    }
    if p.Ring? && p.c < |m.conns| {
      SumOne(RingCounts(m.conns, e), p.c);
    }
  }

  /** An entry held at most once is in one place only. */
  lemma OnePlace(m: Mux, p: Place, q: Place, e: EntryRef)
    requires Shape(m) && Total(m, e) <= 1 && At(m, p, e) && At(m, q, e) && !p.Taken? && !q.Taken?
    ensures p == q
  {
    if p != q {
      WeightAt(m, p, e);
      WeightAt(m, q, e);
      TwoWeights(m, p, q, e);
    }
  }

  /** An entry held at most once is nowhere else than where it is. */
  lemma OnlyAt(m: Mux, p: Place, e: EntryRef)
    requires Shape(m) && Total(m, e) <= 1 && At(m, p, e) && !p.Taken?
    ensures forall q :: At(m, q, e) && !q.Taken? ==> q == p
    ensures Total(m, e) == 1 && Weight(m, p, e) == 1
  {
    forall q | At(m, q, e) && !q.Taken? ensures q == p {
      OnePlace(m, p, q, e);
    }
    WeightAt(m, p, e);
    WeightPart(m, p, e);
  }

  // How a step changes the total

  lemma DestTotal(m: Mux, d: nat, w: Dest, e: EntryRef)
    requires d < |m.dests|
    ensures Sum(DestCounts(m.dests[d := w], e)) ==
            Sum(DestCounts(m.dests, e)) - DestCount(m.dests[d], e) + DestCount(w, e)
  {
    assert DestCounts(m.dests[d := w], e) == DestCounts(m.dests, e)[d := DestCount(w, e)];
    SumUpdate(DestCounts(m.dests, e), d, DestCount(w, e));
  }

  lemma RingTotal(m: Mux, c: nat, k: Conn, e: EntryRef)
    requires c < |m.conns|
    ensures Sum(RingCounts(m.conns[c := k], e)) ==
            Sum(RingCounts(m.conns, e)) - RingCount(m.conns[c].link.ring, e) + RingCount(k.link.ring, e)
  {
    assert RingCounts(m.conns[c := k], e) == RingCounts(m.conns, e)[c := RingCount(k.link.ring, e)];
    SumUpdate(RingCounts(m.conns, e), c, RingCount(k.link.ring, e));
  }

  lemma PushTotal(m: Mux, load: Load, toQueue: bool, e: EntryRef)
    ensures var m' := Push(m, load, toQueue);
            CountAll(m'.feed, e) + CountAll(m'.queue, e) == CountAll(m.feed, e) + CountAll(m.queue, e) + Count(load, e)
  {
    CountAllAppend(m.feed, [load], e);
    CountAllAppend(m.queue, [load], e);
    CountAllOne(load, e);
  }

  lemma CountHead(load: Load, e: EntryRef)
    requires load != []
    ensures Count(load, e) == (if load[0] == Some(e) then 1 else 0) + Count(load[1..], e)
  {
    assert Marks(load, e)[1..] == Marks(load[1..], e);
  }

  lemma CountSplit(load: Load, n: nat, e: EntryRef)
    requires n <= |load|
    ensures Count(load, e) == Count(load[..n], e) + Count(load[n..], e)
  {
    assert load == load[..n] + load[n..];
    CountAppend(load[..n], load[n..], e);
  }

  lemma {:induction false} CountDistinct(load: Load, e: EntryRef)
    requires forall i, j :: 0 <= i < j < |load| ==> load[i] != load[j]
    ensures Count(load, e) <= 1
  {
    if load != [] {
      CountHead(load, e);
      CountDistinct(load[1..], e);
      CountIn(load[1..], e);
    }
  }

  lemma RingSnoc(ring: seq<Link.Pending>, x: Link.Pending, e: EntryRef)
    ensures RingCount(ring + [x], e) == RingCount(ring, e) + if x.ent == e then 1 else 0
  {
    assert AsLoad(ring + [x]) == AsLoad(ring) + [Some(x.ent)];
    CountAppend(AsLoad(ring), [Some(x.ent)], e);
    CountHead([Some(x.ent)], e);
    assert Count([Some(x.ent)][1..], e) == 0;
  }

  lemma RingTail(ring: seq<Link.Pending>, e: EntryRef)
    requires ring != []
    ensures RingCount(ring[1..], e) <= RingCount(ring, e)
  {
    CountHead(AsLoad(ring), e);
    assert AsLoad(ring)[1..] == AsLoad(ring[1..]);
  }

  /** Only sending adds to a ring. */
  lemma SpontaneousRing(l: Link.Link, ev: Link.Event, e: EntryRef)
    requires Link.Inv(l) && Spontaneous(ev)
    ensures RingCount(Link.Step(l, ev).ring, e) <= RingCount(l.ring, e)
  {
    if ev == Link.TakeAck && l.net.ackWire != [] && Link.IsConfirm(l.net.ackWire[0]) {
      Link.ConfirmHitsHead(l);
      Link.HeadRemoved(l.ring, l.net.ackWire[0].val);
      if l.ring != [] {
        RingTail(l.ring, e);
      }
    }
  }
}
