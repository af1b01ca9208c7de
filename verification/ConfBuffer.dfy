/** The ring of entries an ingester has sent and not yet seen confirmed
    (ingest/entryConfBuffer.go). */
module ConfBuffer {
  import opened Wrappers

  const ABSOLUTE_MAX_UNCONFIRMED_WRITES := 0xffff

  datatype Confirmation<+T> = Confirmation(id: nat, ent: T)

  datatype RingError = EmptyConfBuff | CorruptConfBuff | EntryNotFound | FullBuffer

  /** The slot i places after head, going round at the end. */
  function Slot(head: nat, i: nat, capacity: nat): nat {
    if head + i < capacity then head + i else head + i - capacity
  }

  lemma SlotIsModulo(head: nat, i: nat, capacity: nat)
    requires head < capacity && i < capacity
    ensures (head + i) % capacity == Slot(head, i, capacity)
  {
    var q := if head + i < capacity then 0 else 1;
    var r := Slot(head, i, capacity);
    var d := q - (head + i) / capacity;
    assert capacity * d == (head + i) % capacity - r;
    assert d >= 1 ==> capacity * d >= capacity;
    assert d < 0 ==> capacity * d + capacity <= 0;
  }

  /** The windows for which an id that is p places behind the oldest can be
      taken out: those starting at slot zero, and those starting at slot one
      unless the id is the newest. */
  predicate Alignable(head: nat, p: nat, count: nat) {
    head == 0 || (head == 1 && p + 1 < count)
  }

  /** Position of the first confirmation carrying the id, or |s|. */
  function IndexOf<T>(s: seq<Confirmation<T>>, id: nat): (p: nat)
    ensures p <= |s|
    ensures p < |s| ==> s[p].id == id
    ensures forall i :: 0 <= i < p ==> s[i].id != id
  {
    if s == [] then 0 else if s[0].id == id then 0 else 1 + IndexOf(s[1..], id)
  }

  /** s without the first confirmation carrying the id. */
  function Without<T>(s: seq<Confirmation<T>>, id: nat): seq<Confirmation<T>> {
    var p := IndexOf(s, id);
    if p == |s| then s else s[..p] + s[p + 1..]
  }

  function Ents<T>(s: seq<Confirmation<T>>): (r: seq<T>)
    ensures |r| == |s| && forall i :: 0 <= i < |s| ==> r[i] == s[i].ent
  {
    seq(|s|, i requires 0 <= i < |s| => s[i].ent)
  }

  class EntryConfBuffer<T> {
    const buff: array<Option<Confirmation<T>>>
    const capacity: nat
    var head: nat
    var count: nat

    /** Indices in range: all that the operations rely on. */
    ghost predicate Shape()
      reads this
    {
      && buff.Length == capacity
      && if capacity == 0 then head == 0 && count == 0 else head < capacity && count < capacity
    }

    /** No hole in the window of count slots that starts at head. */
    ghost predicate Valid()
      reads this, buff
    {
      Shape() && forall i :: 0 <= i < count ==> buff[Slot(head, i, capacity)].Some?
    }

    /** The unconfirmed entries, oldest first. */
    ghost function Contents(): (s: seq<Confirmation<T>>)
      reads this, buff
      requires Valid()
      ensures |s| == count
    {
      Window(buff[..], head, count)
    }

    static ghost function Window(b: seq<Option<Confirmation<T>>>, h: nat, n: nat): (s: seq<Confirmation<T>>)
      requires n == 0 || (h < |b| && n <= |b|)
      requires forall i :: 0 <= i < n ==> b[Slot(h, i, |b|)].Some?
      ensures |s| == n
      ensures forall i :: 0 <= i < n ==> s[i] == b[Slot(h, i, |b|)].value
    {
      seq(n, i requires 0 <= i < n => b[Slot(h, i, |b|)].value)
    }

    constructor (unconfirmedBufferSize: nat)
      ensures Valid() && Contents() == [] && head == 0 && fresh(buff)
      ensures capacity == if unconfirmedBufferSize > ABSOLUTE_MAX_UNCONFIRMED_WRITES
                          then ABSOLUTE_MAX_UNCONFIRMED_WRITES else unconfirmedBufferSize
    {
      var size := unconfirmedBufferSize;
      if size > ABSOLUTE_MAX_UNCONFIRMED_WRITES {
        size := ABSOLUTE_MAX_UNCONFIRMED_WRITES;
      }
      buff := new Option<Confirmation<T>>[size](_ => None);
      capacity := size;
      head, count := 0, 0;
    }

    predicate Full()
      reads this
    {
      count >= capacity - 1
    }

    /** outstandingEntries: walk the window without changing it. */
    method OutstandingEntries() returns (ents: seq<T>)
      requires Shape()
      ensures Valid() ==> ents == Ents(Contents())
    {
      ents := [];
      if buff.Length == 0 {
        return;
      }
      var idx := head;
      var i := 0;
      while i < count
        invariant 0 <= i <= count && |ents| == i
        invariant idx == if head + i == capacity then capacity else Slot(head, i, capacity)
        invariant forall j :: 0 <= j < i ==>
                    buff[Slot(head, j, capacity)].Some? && ents[j] == buff[Slot(head, j, capacity)].value.ent
      {
        if idx == buff.Length {
          idx := 0;
        }
        if buff[idx].None? {
          break;
        }
        ents := ents + [buff[idx].value.ent];
        idx := idx + 1;
        i := i + 1;
      }
    }

    /** ejectAll: hand back the window and forget it. */
    method EjectAll() returns (ents: seq<T>)
      requires Shape()
      modifies this
      ensures old(Valid()) ==> ents == Ents(old(Contents()))
      ensures capacity > 0 ==> Valid() && Contents() == []
      ensures Shape()
    {
      ents := OutstandingEntries();
      if buff.Length == 0 {
        return;
      }
      head, count := 0, 0;
    }

    method Add(ec: Confirmation<T>) returns (err: Option<RingError>)
      requires Shape()
      modifies this`count, buff
      ensures Shape()
      ensures err == if old(count) + 1 >= capacity then Some(FullBuffer) else None
      ensures err.Some? ==> unchanged(this) && unchanged(buff)
      ensures err.None? && old(Valid()) ==> Valid() && Contents() == old(Contents()) + [ec]
    {
      if count + 1 >= capacity {
        return Some(FullBuffer);
      }
      var tail := (head + count) % capacity;
      SlotIsModulo(head, count, capacity);
      buff[tail] := Some(ec);
      count := count + 1;
      assert forall i :: 0 <= i < count - 1 ==> Slot(head, i, capacity) != tail;
      return None;
    }

    method PopHead() returns (r: Result<T, RingError>)
      requires Shape() && count > 0
      modifies this, buff
      ensures Shape()
      ensures r.Err? ==> unchanged(this) && unchanged(buff)
      ensures old(Valid()) ==> r == Ok(old(Contents())[0].ent) && Valid() && Contents() == old(Contents())[1..]
      ensures old(Valid()) ==> head == Slot(old(head), 1, capacity)
    {
      if buff[head].None? {
        return Err(CorruptConfBuff);
      }
      ghost var was, h := buff[..], head;
      var ent := buff[head].value.ent;
      buff[head] := None;
      head := head + 1;
      count := count - 1;
      if head == capacity {
        head := 0;
      }
      assert forall i :: 0 <= i < count ==> Slot(head, i, capacity) == Slot(h, i + 1, capacity) != h;
      return Ok(ent);
    }

    /** Confirm: the id is normally the oldest one. An id further back is found exactly
        when the scan of popUnalligned covers it, and is removed correctly exactly when
        besides the slot that is cleared lies behind the window. */
    method Confirm(id: nat) returns (err: Option<RingError>)
      requires Shape()
      modifies this, buff
      ensures Shape()
      ensures old(Valid()) && old(count) == 0 ==> err == Some(EmptyConfBuff) && Valid() && Contents() == old(Contents())
      ensures old(Valid()) && old(count) > 0 && old(Contents())[0].id == id
              ==> err == None && Valid() && Contents() == old(Contents())[1..] && head == Slot(old(head), 1, capacity)
      ensures old(Valid()) && old(count) > 0 && IndexOf(old(Contents()), id) == old(count)
              ==> err == Some(EntryNotFound) && Valid() && Contents() == old(Contents())
      ensures old(Valid()) && 0 < IndexOf(old(Contents()), id) < old(count)
              ==> ((err == None && Valid() && Contents() == Without(old(Contents()), id))
                   <==> Alignable(old(head), IndexOf(old(Contents()), id), old(count)))
      ensures old(Valid()) && 0 < IndexOf(old(Contents()), id) < old(count)
              ==> (err == Some(EntryNotFound) <==> old(head) + IndexOf(old(Contents()), id) >= old(count))
      ensures old(Valid()) && err.Some? ==> Valid() && Contents() == old(Contents())
    {
      if count == 0 {
        return Some(EmptyConfBuff);
      }
      if buff[head].None? {
        return Some(CorruptConfBuff);
      }
      if buff[head].value.id != id {
        err := ConfirmBehind(id);
        return;
      }
      var r := PopHead();
      err := if r.Err? then Some(r.error) else None;
    }

    method ConfirmBehind(id: nat) returns (err: Option<RingError>)
      requires Shape() && count > 0 && buff[head].Some? && buff[head].value.id != id
      modifies this`count, buff
      ensures Shape()
      ensures old(Valid()) && IndexOf(old(Contents()), id) == old(count)
              ==> err == Some(EntryNotFound) && Valid() && Contents() == old(Contents())
      ensures old(Valid()) && IndexOf(old(Contents()), id) < old(count)
              ==> ((err == None && Valid() && Contents() == Without(old(Contents()), id))
                   <==> Alignable(old(head), IndexOf(old(Contents()), id), old(count)))
      ensures old(Valid()) ==> (err == Some(EntryNotFound) <==> old(head) + IndexOf(old(Contents()), id) >= old(count))
      ensures old(Valid()) && err.Some? ==> Valid() && Contents() == old(Contents())
    {
      ghost var b, n := buff[..], count;
      err := PopUnaligned(id);
      if old(Valid()) {
        assert NoHole(b, head, n) && b[Slot(head, 0, capacity)] == b[head];
        ConfirmCases(b, head, n, buff[..], err, id);
        if err.None? {
          assert NoHole(buff[..], head, count) <==> Valid();
        }
      }
    }

    /** What popUnalligned does to the slots: it scans the slots from head up to
        the number count, not up to the end of the window. */
    static ghost predicate ScanFound(b: seq<Option<Confirmation<T>>>, from: nat, k: nat, id: nat)
      requires k < |b|
    {
      from <= k && b[k].Some? && b[k].value.id == id &&
      forall j :: from <= j < k ==> b[j].Some? && b[j].value.id != id
    }

    static ghost predicate ScanMissed(b: seq<Option<Confirmation<T>>>, from: nat, to: nat, id: nat)
      requires to <= |b|
    {
      forall j :: from <= j < to ==> b[j].Some? && b[j].value.id != id
    }

    /** The id was found in slot k and the slots after it, up to the number
        count, moved down by one. */
    static ghost predicate Closed(b: seq<Option<Confirmation<T>>>, from: nat, n: nat, k: nat, id: nat,
                                  b': seq<Option<Confirmation<T>>>)
      requires k < n < |b|
    {
      && ScanFound(b, from, k, id)
      && |b'| == |b| && b'[n] == None
      && (forall j :: 0 <= j < k || n < j < |b| ==> b'[j] == b[j])
      && (forall j :: k <= j < n ==> b'[j] == b[j + 1])
    }

    method PopUnaligned(id: nat) returns (err: Option<RingError>)
      requires Shape() && count > 0 && buff[head].Some? && buff[head].value.id != id
      modifies this`count, buff
      ensures Shape()
      ensures err.None? ==> count == old(count) - 1
      ensures err.None? ==> exists k: nat :: k < old(count) && Closed(old(buff[..]), head, old(count), k, id, buff[..])
      ensures err == Some(EntryNotFound) ==> ScanMissed(old(buff[..]), head, old(count), id)
      ensures err.Some? ==> count == old(count) && buff[..] == old(buff[..])
      ensures err == Some(EntryNotFound) || err == Some(CorruptConfBuff) || err == None
      ensures err == Some(CorruptConfBuff) ==> exists k :: head <= k < old(count) && old(buff[..])[k].None?
    {
      ghost var b := buff[..];
      var i := head;
      while i < count
        invariant head <= i && (i <= count || i == head)
        invariant forall j :: head <= j < i ==> buff[j].Some? && buff[j].value.id != id
        invariant buff[..] == b && count == old(count)
      {
        if buff[i].None? {
          assert b[i].None?;
          return Some(CorruptConfBuff);
        }
        if buff[i].value.id == id {
          ghost var k := i;
          assert ScanFound(b, head, k, id);
          var next := 0;
          while i < count
            invariant k <= i <= count == old(count)
            invariant k < i ==> next == i
            invariant forall j :: k <= j < i ==> buff[j] == b[j + 1]
            invariant forall j :: 0 <= j < k || i <= j < capacity ==> buff[j] == b[j]
          {
            next := i + 1;
            if next == capacity {
              next := 0;
            }
            buff[i] := buff[next];
            i := i + 1;
          }
          buff[next] := None;
          count := count - 1;
          assert Closed(b, head, old(count), k, id, buff[..]);
          return None;
        }
        i := i + 1;
      }
      return Some(EntryNotFound);
    }

    static ghost predicate NoHole(b: seq<Option<Confirmation<T>>>, h: nat, n: nat) {
      n <= |b| && h < |b| && forall i :: 0 <= i < n ==> b[Slot(h, i, |b|)].Some?
    }

    /** The outcomes of a scan over a ring without holes. */
    static lemma ConfirmCases(b: seq<Option<Confirmation<T>>>, h: nat, n: nat,
                              b': seq<Option<Confirmation<T>>>, err: Option<RingError>, id: nat)
      requires 0 < n < |b| && NoHole(b, h, n) && |b'| == |b|
      requires Window(b, h, n)[0].id != id
      requires err.None? ==> exists k: nat :: k < n && Closed(b, h, n, k, id, b')
      requires err == Some(EntryNotFound) ==> ScanMissed(b, h, n, id)
      requires err.Some? && err != Some(EntryNotFound) ==> exists k :: h <= k < n && b[k].None?
      ensures err == (if h + IndexOf(Window(b, h, n), id) >= n then Some(EntryNotFound) else None)
      ensures IndexOf(Window(b, h, n), id) < n ==>
                (Alignable(h, IndexOf(Window(b, h, n), id), n) <==>
                 err.None? && NoHole(b', h, n - 1) && Window(b', h, n - 1) == Without(Window(b, h, n), id))
    {
      if err.None? {
        var k: nat :| k < n && Closed(b, h, n, k, id, b');
        FirstMatch(b, h, n, k, id);
        if h <= 1 {
          RemovedInPlace(b, h, n, b', k, id);
        } else {
          assert b'[n].None? && Slot(h, n - h, |b|) == n;
        }
      } else {
        NoMatch(b, h, n, err, id);
      }
    }

    static lemma Aligned(b: seq<Option<Confirmation<T>>>, h: nat, n: nat, k: nat)
      requires n <= |b| && NoHole(b, h, n) && h <= k < n
      ensures b[k].Some? && Window(b, h, n)[k - h] == b[k].value
    {
      assert Slot(h, k - h, |b|) == k;
    }

    static lemma NoMatch(b: seq<Option<Confirmation<T>>>, h: nat, n: nat, err: Option<RingError>, id: nat)
      requires n <= |b| && NoHole(b, h, n)
      requires err == Some(EntryNotFound) ==> ScanMissed(b, h, n, id)
      requires err.Some? && err != Some(EntryNotFound) ==> exists k :: h <= k < n && b[k].None?
      requires err.Some?
      ensures err == Some(EntryNotFound)
      ensures IndexOf(Window(b, h, n), id) + h >= n
    {
      if err != Some(EntryNotFound) {
        var k :| h <= k < n && b[k].None?;
        Aligned(b, h, n, k);
      }
      var p := IndexOf(Window(b, h, n), id);
      if p + h < n {
        Aligned(b, h, n, p + h);
      }
    }

    static lemma FirstMatch(b: seq<Option<Confirmation<T>>>, h: nat, n: nat, k: nat, id: nat)
      requires k < n <= |b| && NoHole(b, h, n) && ScanFound(b, h, k, id)
      ensures IndexOf(Window(b, h, n), id) == k - h
    {
      var w := Window(b, h, n);
      Aligned(b, h, n, k);
      forall i: nat | i < k - h ensures w[i].id != id {
        Aligned(b, h, n, h + i);
      }
    }

    static lemma RemovedInPlace(b: seq<Option<Confirmation<T>>>, h: nat, n: nat,
                                b': seq<Option<Confirmation<T>>>, k: nat, id: nat)
      requires h <= 1 && k < n < |b| && |b'| == |b|
      requires NoHole(b, h, n) && Closed(b, h, n, k, id, b')
      ensures NoHole(b', h, n - 1)
      ensures Window(b', h, n - 1) == Without(Window(b, h, n), id)
    {
      var w := Window(b, h, n);
      var p := k - h;
      FirstMatch(b, h, n, k, id);
      var r := w[..p] + w[p + 1..];
      forall i | 0 <= i < n - 1
        ensures b'[Slot(h, i, |b|)].Some? && b'[Slot(h, i, |b|)].value == r[i]
      {
        var q := if i < p then i else i + 1;
        assert Slot(h, i, |b|) == h + i && Slot(h, q, |b|) == h + q;
        assert b'[h + i] == b[h + q];
        assert r[i] == w[q];
      }
      assert Window(b', h, n - 1) == r;
    }
  }

  method FourOfFive<T>(e: T) returns (ring: EntryConfBuffer<T>)
    ensures fresh(ring) && fresh(ring.buff) && ring.Valid() && ring.head == 0 && ring.capacity == 5
    ensures ring.Contents() == [Confirmation(5, e), Confirmation(6, e), Confirmation(7, e), Confirmation(8, e)]
  {
    ring := new EntryConfBuffer(5);
    var err := ring.Add(Confirmation(5, e));
    err := ring.Add(Confirmation(6, e));
    err := ring.Add(Confirmation(7, e));
    err := ring.Add(Confirmation(8, e));
  }

  method TwoConfirmed<T>(e: T) returns (ring: EntryConfBuffer<T>)
    ensures fresh(ring) && fresh(ring.buff) && ring.Valid() && ring.head == 2 && ring.capacity == 5
    ensures ring.Contents() == [Confirmation(7, e), Confirmation(8, e)]
  {
    ring := FourOfFive(e);
    var err := ring.Confirm(5);
    err := ring.Confirm(6);
  }

  /** Four entries go into a ring of five, two are confirmed and another one is added:
      an id in the ring is then not found. */
  method MissedConfirmation<T>(e: T) returns (ring: EntryConfBuffer<T>, err: Option<RingError>)
    ensures ring.Valid() && ring.Contents() == [Confirmation(7, e), Confirmation(8, e), Confirmation(9, e)]
    ensures err == Some(EntryNotFound)
  {
    ring := TwoConfirmed(e);
    err := ring.Add(Confirmation(9, e));
    ghost var left := ring.Contents();
    assert left == [Confirmation(7, e), Confirmation(8, e), Confirmation(9, e)];
    assert left[1..][0].id == 8 && IndexOf(left, 8) == 1;
    err := ring.Confirm(8);
  }
}
