/** The ring that holds the muxer's own log entries while no connection is up. It
    overwrites the oldest entry when full (ingest/entry_buff.go), and WriteLog
    drains it, sends, and puts back what it could not send (ingest/gravwell_log.go). */
module EntryBuffers {
  import opened Wrappers

  /** The last m elements of s, or all of them. */
  function KeepLast<T>(m: nat, s: seq<T>): seq<T> {
    if |s| <= m then s else s[|s| - m..]
  }

  /** Keeping the last m as one goes is keeping the last m at the end. */
  lemma KeepLastAppend<T>(m: nat, a: seq<T>, b: seq<T>)
    ensures KeepLast(m, KeepLast(m, a) + b) == KeepLast(m, a + b)
  {
  }

  lemma KeepLastOneMore<T>(m: nat, a: seq<T>, xs: seq<T>, i: nat)
    requires i < |xs|
    ensures KeepLast(m, KeepLast(m, a + xs[..i]) + [xs[i]]) == KeepLast(m, a + xs[..i + 1])
  {
    KeepLastAppend(m, a + xs[..i], [xs[i]]);
    assert a + xs[..i] + [xs[i]] == a + xs[..i + 1];
  }

  function Inc(curr: nat, max: nat): nat {
    if curr >= max then 0 else if curr + 1 >= max then 0 else curr + 1
  }

  class CircularIndex {
    var max: nat
    var count: nat
    var head: nat
    var tail: nat

    /** tail is the slot after the last occupied one. */
    predicate Valid()
      reads this
    {
      head < max && tail < max && count <= max && tail == Slot(count)
    }

    /** The slot of the i-th occupied place. */
    function Slot(i: nat): nat
      reads this
    {
      if head + i < max then head + i else if head + i - max < max then head + i - max else 0
    }

    constructor (sz: nat)
      requires sz > 0
      ensures Valid() && max == sz && count == 0
    {
      max, count, head, tail := sz, 0, 0, 0;
    }

    method Pop() returns (idx: nat, ok: bool)
      requires Valid()
      modifies this
      ensures Valid() && max == old(max)
      ensures ok == (old(count) > 0) && count == (if ok then old(count) - 1 else 0)
      ensures ok ==> idx == old(head)
      ensures forall i :: 0 <= i < count ==> Slot(i) == old(Slot(i + 1))
    {
      idx, ok := 0, false;
      if count > 0 {
        idx, ok := head, true;
        count := count - 1;
        if count == 0 {
          head, tail := 0, 0;
        } else {
          head := Inc(head, max);
        }
      }
    }

    /** The slot for one more entry; when the ring is full, that of the oldest. */
    method Add() returns (idx: nat)
      requires Valid()
      modifies this
      ensures Valid() && max == old(max)
      ensures count == (if old(count) == max then max else old(count) + 1)
      ensures idx == Slot(count - 1)
      ensures old(count) < max ==> forall i :: 0 <= i < count - 1 ==> Slot(i) == old(Slot(i))
      ensures old(count) == max ==> forall i :: 0 <= i < count - 1 ==> Slot(i) == old(Slot(i + 1))
    {
      if count == 0 {
        count := 1;
        tail := Inc(0, max);
        head := 0;
        idx := 0;
      } else {
        idx := tail;
        tail := Inc(tail, max);
        if count == max {
          head := Inc(head, max);
        } else {
          count := count + 1;
        }
      }
    }
  }

  class EntryBuffer<T> {
    const ci: CircularIndex
    const buff: array<T>
    const blank: T

    ghost predicate Valid()
      reads this, ci, buff
    {
      ci.Valid() && buff.Length == ci.max
    }

    /** Oldest first. */
    ghost function Contents(): (s: seq<T>)
      requires Valid()
      reads this, ci, buff
      ensures |s| == ci.count
    {
      seq(ci.count, i requires 0 <= i < ci.count && Valid() reads this, ci, buff => buff[ci.Slot(i)])
    }

    constructor (sz: nat, blank: T)
      requires sz > 0
      ensures Valid() && fresh(ci) && fresh(buff) && ci.max == sz && Contents() == []
    {
      ci := new CircularIndex(sz);
      buff := new T[sz](_ => blank);
      this.blank := blank;
    }

    method Pop() returns (r: T, ok: bool)
      requires Valid()
      modifies ci, buff
      ensures Valid() && ci.max == old(ci.max)
      ensures ok <==> old(Contents()) != []
      ensures ok ==> [r] + Contents() == old(Contents())
      ensures !ok ==> r == blank && Contents() == []
    {
      r := blank;
      var idx;
      idx, ok := ci.Pop();
      if ok {
        r := buff[idx];
        buff[idx] := blank;
      }
    }

    method Add(x: T)
      requires Valid()
      modifies ci, buff
      ensures Valid() && ci.max == old(ci.max)
      ensures Contents() == KeepLast(ci.max, old(Contents()) + [x])
    {
      var idx := ci.Add();
      buff[idx] := x;
    }

    method AddBlock(xs: seq<T>)
      requires Valid()
      modifies ci, buff
      ensures Valid() && ci.max == old(ci.max)
      ensures Contents() == KeepLast(ci.max, old(Contents()) + xs)
    {
      ghost var was := Contents();
      assert KeepLast(ci.max, was + xs[..0]) == was;
      for i := 0 to |xs|
        invariant Valid() && ci.max == old(ci.max) && Contents() == KeepLast(ci.max, was + xs[..i])
      {
        Add(xs[i]);
        KeepLastOneMore(ci.max, was, xs, i);
      }
      assert xs[..|xs|] == xs;
    }

    method PopBlock(max: nat) returns (r: seq<T>)
      requires Valid()
      modifies ci, buff
      ensures Valid() && ci.max == old(ci.max)
      ensures r + Contents() == old(Contents())
      ensures |r| == if max < old(ci.count) then max else old(ci.count)
    {
      r := [];
      if max > 0 {
        var n := if max > ci.count then ci.count else max;
        for i := 0 to n
          invariant Valid() && ci.max == old(ci.max)
          invariant |r| == i && r + Contents() == old(Contents())
        {
          ghost var was, rest := r, Contents();
          var x, ok := Pop();
          r := r + [x];
          assert was + [x] + Contents() == was + ([x] + Contents());
        }
      }
    }

    method Drain() returns (r: seq<T>)
      requires Valid()
      modifies ci, buff
      ensures Valid() && ci.max == old(ci.max)
      ensures r == old(Contents()) && Contents() == []
    {
      r := [];
      var ok := ci.count > 0;
      while ok
        invariant Valid() && ci.max == old(ci.max)
        invariant r + Contents() == old(Contents()) && (!ok ==> Contents() == [])
        decreases ok, ci.count
      {
        ghost var was := r;
        var x;
        x, ok := Pop();
        if ok {
          r := r + [x];
          assert was + [x] + Contents() == was + ([x] + Contents());
        }
      }
    }

    /** WriteLog: with no connection up the entry waits in the ring; otherwise what
        waits there and the entry are sent until a send fails, after as many as there is
        room for, and the rest goes back. What was sent and what now waits are what there was, in order; one
        entry is dropped, the oldest, exactly if the ring was full and nothing
        could be sent. */
    method WriteLog(x: T, hot: bool, room: nat) returns (sent: seq<T>)
      requires Valid()
      modifies ci, buff
      ensures Valid() && ci.max == old(ci.max)
      ensures |sent| == if !hot then 0 else if room <= old(ci.count) then room else old(ci.count) + 1
      ensures var all := old(Contents()) + [x];
              sent + Contents() == if sent == [] && old(ci.count) == ci.max then all[1..] else all
    {
      if !hot {
        Add(x);
        return [];
      }
      var blk := Drain();
      blk := blk + [x];
      var i := 0;
      while i < |blk|
        invariant 0 <= i <= |blk| && i <= room && Valid() && ci.max == old(ci.max) && Contents() == []
      {
        if i == room {
          AddBlock(blk[i..]);
          break;
        }
        i := i + 1;
      }
      sent := blk[..i];
      assert [] + blk[i..] == blk[i..];
      assert blk[..i] + blk[i..] == blk;
    }
  }

  datatype BufferError = InvalidCount

  /** A ring has at least one slot. */
  method NewEntryBuffer<T>(sz: nat, blank: T) returns (r: Result<EntryBuffer<T>, BufferError>)
    ensures r.Ok? <==> sz > 0
    ensures r.Ok? ==> fresh(r.value) && r.value.Valid() && r.value.ci.max == sz && r.value.Contents() == []
  {
    if sz == 0 {
      return Err(InvalidCount);
    }
    var b := new EntryBuffer<T>(sz, blank);
    return Ok(b);
  }

  // Runs

  datatype Op<T> = Put(xs: seq<T>) | Take(n: nat)

  /** What has been added, what has been taken out, and what the ring holds. */
  datatype Ring<T> = Ring(added: seq<T>, taken: seq<T>, held: seq<T>)

  /** The effect of Add, AddBlock, Pop, PopBlock and Drain on the contents. */
  function Step<T>(max: nat, r: Ring<T>, op: Op<T>): Ring<T> {
    match op
    case Put(xs) => Ring(r.added + xs, r.taken, KeepLast(max, r.held + xs))
    case Take(n) =>
      var k := if n < |r.held| then n else |r.held|;
      Ring(r.added, r.taken + r.held[..k], r.held[k..])
  }

  function Run<T>(max: nat, ops: seq<Op<T>>): Ring<T> {
    if ops == [] then Ring([], [], []) else Step(max, Run(max, ops[..|ops| - 1]), ops[|ops| - 1])
  }

  /** t is s with some elements left out. */
  ghost predicate Within<T(!new)>(t: seq<T>, s: seq<T>) {
    exists f: seq<nat> :: Picks(f, t, s)
  }

  predicate Picks<T(==)>(f: seq<nat>, t: seq<T>, s: seq<T>) {
    && |f| == |t|
    && (forall i :: 0 <= i < |f| ==> f[i] < |s| && t[i] == s[f[i]])
    && (forall i, j :: 0 <= i < j < |f| ==> f[i] < f[j])
  }

  /** What is held is the end of what was added. */
  predicate HoldsEnd<T(==)>(max: nat, r: Ring<T>) {
    |r.held| <= |r.added| && r.held == r.added[|r.added| - |r.held|..] && |r.held| <= max
  }

  lemma PutPicks<T>(max: nat, r: Ring<T>, xs: seq<T>, f: seq<nat>)
    requires HoldsEnd(max, r) && Picks(f, r.taken, r.added[..|r.added| - |r.held|])
    ensures var r' := Step(max, r, Put(xs));
            HoldsEnd(max, r') && Picks(f, r'.taken, r'.added[..|r'.added| - |r'.held|])
  {
    var all := r.added + xs;
    assert r.held + xs == all[|r.added| - |r.held|..];
  }

  lemma TakePicks<T>(max: nat, r: Ring<T>, n: nat, f: seq<nat>) returns (g: seq<nat>)
    requires HoldsEnd(max, r) && Picks(f, r.taken, r.added[..|r.added| - |r.held|])
    ensures var r' := Step(max, r, Take(n));
            HoldsEnd(max, r') && Picks(g, r'.taken, r'.added[..|r'.added| - |r'.held|])
  {
    var gone, k := |r.added| - |r.held|, if n < |r.held| then n else |r.held|;
    g := f + seq(k, i => gone + i);
  }

  /** What is held is the end of what was added, so only the oldest are ever lost;
      what was taken came out in the order it went in, each entry at most once, and
      before anything still held. */
  lemma {:induction false} RingKeepsOrder<T(!new)>(max: nat, ops: seq<Op<T>>)
    ensures var r := Run(max, ops);
            HoldsEnd(max, r) && Within(r.taken, r.added[..|r.added| - |r.held|])
  {
    if ops == [] {
      assert Picks([], Run(max, ops).taken, Run(max, ops).added[..0]);
    } else {
      RingKeepsOrder(max, ops[..|ops| - 1]);
      var r := Run(max, ops[..|ops| - 1]);
      var f :| Picks(f, r.taken, r.added[..|r.added| - |r.held|]);
      match ops[|ops| - 1] {
        case Put(xs) => PutPicks(max, r, xs, f);
        case Take(n) =>
          var g := TakePicks(max, r, n, f);
      }
    }
  }
}
