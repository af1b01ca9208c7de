/** The rotating search for a timestamp format (timegrinder/timeGrinder.go). What a
    processor makes of a piece of data is an arbitrary function. */
module TimeGrinders {
  import opened Wrappers

  /** An extracted time and where in the data it was found. */
  datatype Hit = Hit(time: int, offset: int)

  datatype Processor = Processor(name: string, extract: string -> Option<Hit>)

  predicate Accepts(p: Processor, data: string) {
    p.extract(data).Some?
  }

  predicate SomeAccepts(ps: seq<Processor>, data: string) {
    exists i :: 0 <= i < |ps| && Accepts(ps[i], data)
  }

  predicate NamesDiffer(ps: seq<Processor>) {
    forall i, j :: 0 <= i < j < |ps| ==> ps[i].name != ps[j].name
  }

  /** How many steps a search that starts at `from` takes to reach i. */
  function Steps(n: nat, from: nat, i: nat): nat
    requires from < n && i < n
  {
    if i >= from then i - from else i + n - from
  }

  function Next(i: nat, n: nat): (k: nat)
    requires i < n
    ensures k == if i + 1 == n then 0 else i + 1
  {
    (i + 1) % n
  }

  /** All processors within c steps have been asked in vain. */
  predicate InVain(ps: seq<Processor>, data: string, from: nat, c: nat)
    requires from < |ps|
  {
    forall j :: 0 <= j < |ps| && Steps(|ps|, from, j) < c ==> !Accepts(ps[j], data)
  }

  lemma OneMoreInVain(ps: seq<Processor>, data: string, from: nat, c: nat, i: nat)
    requires from < |ps| && i < |ps| && Steps(|ps|, from, i) == c && InVain(ps, data, from, c)
    ensures Accepts(ps[i], data) ==> FirstFrom(ps, data, from, i)
    ensures !Accepts(ps[i], data) ==> InVain(ps, data, from, c + 1)
  {
  }

  /** i is where a search around the ring that starts at `from` stops. */
  predicate FirstFrom(ps: seq<Processor>, data: string, from: nat, i: nat) {
    && from < |ps| && i < |ps| && Accepts(ps[i], data)
    && forall j :: 0 <= j < |ps| && Steps(|ps|, from, j) < Steps(|ps|, from, i) ==> !Accepts(ps[j], data)
  }

  /** i is the first processor among those that find a time furthest to the left. */
  predicate Leftmost(ps: seq<Processor>, data: string, i: nat) {
    && i < |ps| && Accepts(ps[i], data)
    && (forall j :: 0 <= j < |ps| && Accepts(ps[j], data) ==>
          ps[i].extract(data).value.offset <= ps[j].extract(data).value.offset)
    && (forall j :: 0 <= j < i && Accepts(ps[j], data) ==>
          ps[i].extract(data).value.offset < ps[j].extract(data).value.offset)
  }

  /** k is the only processor that accepts the data. */
  predicate Only(ps: seq<Processor>, data: string, k: nat) {
    k < |ps| && Accepts(ps[k], data) && forall j :: 0 <= j < |ps| && Accepts(ps[j], data) ==> j == k
  }

  /** The search stops at one place only. */
  lemma FirstFromUnique(ps: seq<Processor>, data: string, from: nat, i: nat, j: nat)
    requires FirstFrom(ps, data, from, i) && FirstFrom(ps, data, from, j)
    ensures i == j
  {
  }

  /** A search that starts at an acceptor stops there. */
  lemma StartsAtAcceptor(ps: seq<Processor>, data: string, i: nat)
    requires i < |ps| && Accepts(ps[i], data)
    ensures FirstFrom(ps, data, i, i)
  {
  }

  class TimeGrinder {
    var procs: seq<Processor>
    var count: nat
    var curr: nat
    var seed: bool
    var override: Option<Processor>

    /** The remembered position is always a processor, and the override is one too. */
    ghost predicate Valid()
      reads this
    {
      && count == |procs| && count > 0 && curr < count && NamesDiffer(procs)
      && (override.Some? ==> override.value in procs)
    }

    constructor (procs: seq<Processor>, leftmostSeed: bool)
      requires procs != [] && NamesDiffer(procs)
      ensures Valid() && this.procs == procs && seed == leftmostSeed && override.None?
    {
      this.procs, count, curr, seed, override := procs, |procs|, 0, leftmostSeed, None;
    }

    /** Makes the named processor the first one asked. */
    method SetFormatOverride(v: string) returns (ok: bool)
      requires Valid()
      modifies this`override
      ensures Valid()
      ensures ok <==> v == "" || exists i :: 0 <= i < |procs| && procs[i].name == v
      ensures ok && v != "" ==> override.Some? && override.value.name == v
      ensures !ok || v == "" ==> override == old(override)
    {
      if v == "" {
        return true;
      }
      for i := 0 to |procs|
        invariant override == old(override) && forall j :: 0 <= j < i ==> procs[j].name != v
      {
        if procs[i].name == v {
          override := Some(procs[i]);
          return true;
        }
      }
      return false;
    }

    /** Puts a processor in front of the others unless its name is taken. */
    method AddProcessor(p: Processor) returns (ok: bool)
      requires Valid()
      modifies this
      ensures Valid() && seed == old(seed) && override == old(override)
      ensures ok <==> forall i :: 0 <= i < |old(procs)| ==> old(procs)[i].name != p.name
      ensures procs == if ok then [p] + old(procs) else old(procs)
    {
      for i := 0 to |procs|
        invariant Valid() && procs == old(procs) && seed == old(seed) && override == old(override)
        invariant forall j :: 0 <= j < i ==> procs[j].name != p.name
      {
        if procs[i].name == p.name {
          return false;
        }
      }
      procs := [p] + procs;
      count := count + 1;
      assert forall i :: 0 < i < |procs| ==> procs[i] == old(procs)[i - 1];
      if override.Some? {
        ghost var i :| 0 <= i < |old(procs)| && old(procs)[i] == override.value;
        assert procs[i + 1] == override.value;
      }
      return true;
    }

    method SetSeed(data: string) returns (hit: bool)
      requires Valid()
      modifies this`curr
      ensures Valid() && (hit <==> SomeAccepts(procs, data))
      ensures hit ==> Leftmost(procs, data, curr)
      ensures !hit ==> curr == old(curr)
    {
      hit := false;
      var i, leftmost := 0, 0;
      while i < |procs|
        invariant 0 <= i <= |procs| && Valid() && !hit && curr == old(curr)
        invariant forall j :: 0 <= j < i ==> !Accepts(procs[j], data)
      {
        var r := procs[i].extract(data);
        if r.Some? {
          leftmost, curr, hit := r.value.offset, i, true;
          break;
        }
        i := i + 1;
      }
      assert hit ==> Accepts(procs[curr], data);
      while i < |procs|
        invariant 0 <= i <= |procs| && Valid()
        invariant hit ==> curr <= i && Accepts(procs[curr], data) && leftmost == procs[curr].extract(data).value.offset
        invariant !hit ==> i == |procs| && curr == old(curr) &&
                           forall j :: 0 <= j < |procs| ==> !Accepts(procs[j], data)
        invariant hit ==> forall j :: 0 <= j < i && Accepts(procs[j], data) ==>
                                        leftmost <= procs[j].extract(data).value.offset
        invariant hit ==> forall j :: 0 <= j < curr && Accepts(procs[j], data) ==>
                                        leftmost < procs[j].extract(data).value.offset
      {
        var r := procs[i].extract(data);
        if r.Some? && r.value.offset < leftmost {
          leftmost, curr, hit := r.value.offset, i, true;
        }
        i := i + 1;
      }
    }

    /** The search around the ring, from the remembered position on. */
    method Search(data: string) returns (time: int, ok: bool)
      requires Valid()
      modifies this`curr
      ensures Valid() && (ok <==> SomeAccepts(procs, data))
      ensures ok ==> FirstFrom(procs, data, old(curr), curr) && time == procs[curr].extract(data).value.time
      ensures !ok ==> curr == 0
    {
      time, ok := 0, false;
      ghost var from := curr;
      var i := curr;
      var c := 0;
      while c < count
        invariant 0 <= c <= count && 0 <= i < count && curr == from && Valid() && !ok
        invariant c < count ==> Steps(count, from, i) == c
        invariant InVain(procs, data, from, c)
      {
        OneMoreInVain(procs, data, from, c, i);
        var r := procs[i].extract(data);
        if r.Some? {
          time, ok := r.value.time, true;
          curr := i;
          return;
        }
        i := Next(i, count);
        c := c + 1;
      }
      curr := 0;
    }

    /** Finds a time exactly if some processor does. The answer is the override's if it
        accepts the data; otherwise that of the first acceptor from the remembered
        position on, or, while a seed is still wanted, of the leftmost one. */
    method Extract(data: string) returns (time: int, ok: bool)
      requires Valid()
      modifies this`curr, this`seed
      ensures Valid() && (ok <==> SomeAccepts(procs, data))
      ensures var o := override.Some? && Accepts(override.value, data);
              && (o ==> time == override.value.extract(data).value.time && curr == old(curr) && seed == old(seed))
              && (!o ==> seed == (old(seed) && !ok))
              && (!o && ok ==> Accepts(procs[curr], data) && time == procs[curr].extract(data).value.time)
              && (!o && ok && !old(seed) ==> FirstFrom(procs, data, old(curr), curr))
              && (!o && ok && old(seed) ==> Leftmost(procs, data, curr))
              && (!o && !ok ==> curr == 0)
      ensures ok ==> forall k: nat :: Only(procs, data, k) ==> time == procs[k].extract(data).value.time
    {
      if override.Some? {
        var r := override.value.extract(data);
        if r.Some? {
          return r.value.time, true;
        }
      }
      if seed {
        var hit := SetSeed(data);
        if hit {
          seed := false;
        }
      }
      ghost var from := curr;
      time, ok := Search(data);
      if ok && old(seed) {
        StartsAtAcceptor(procs, data, from);
        FirstFromUnique(procs, data, from, from, curr);
      }
    }
  }
}
