/** A set of IPv4 addresses as one bitmap per /16 network (ipexist/ipexist.go). The
    memory mapped backing and the compression of the encoded form are left out. */
module IpExist {
  import opened Wrappers
  import opened AckCodec
  import opened IpCodec

  type Half = x: int | 0 <= x < 0x1_0000

  /** An IPv4 address as the code splits it. */
  datatype Addr = Addr(upper: Half, lower: Half)

  // Words: &, | and ^ with the mask of a single bit

  predicate TestBit(w: nat, k: nat) {
    if k == 0 then w % 2 == 1 else TestBit(w / 2, k - 1)
  }

  function SetBit(w: nat, k: nat): nat {
    if k == 0 then (if w % 2 == 1 then w else w + 1) else 2 * SetBit(w / 2, k - 1) + w % 2
  }

  function FlipBit(w: nat, k: nat): nat {
    if k == 0 then (if w % 2 == 1 then w - 1 else w + 1) else 2 * FlipBit(w / 2, k - 1) + w % 2
  }

  function Pow2(n: nat): nat {
    if n == 0 then 1 else 2 * Pow2(n - 1)
  }

  lemma {:induction false} BitsFit(w: nat, k: nat, n: nat)
    requires k < n && w < Pow2(n)
    ensures SetBit(w, k) < Pow2(n) && FlipBit(w, k) < Pow2(n)
    decreases k
  {
    var p := Pow2(n - 1);
    assert Pow2(n) == 2 * p && w / 2 < p;
    if k > 0 {
      BitsFit(w / 2, k - 1, n - 1);
      assert SetBit(w, k) == 2 * SetBit(w / 2, k - 1) + w % 2;
      assert FlipBit(w, k) == 2 * FlipBit(w / 2, k - 1) + w % 2;
    }
  }

  lemma {:induction false} Pow2Twice(n: nat)
    ensures Pow2(n + n) == Pow2(n) * Pow2(n)
  {
    if n > 0 {
      Pow2Twice(n - 1);
      var p := Pow2(n - 1);
      assert Pow2(n + n) == 2 * Pow2(n + n - 1) == 2 * (2 * Pow2(n - 1 + n - 1));
      assert (2 * p) * (2 * p) == 4 * (p * p);
    }
  }

  lemma WordSize()
    ensures Pow2(64) == 0x1_0000_0000_0000_0000
  {
    assert Pow2(4) == 2 * Pow2(3) == 4 * Pow2(2) == 16;
    Pow2Twice(4);
    Pow2Twice(8);
    Pow2Twice(16);
    Pow2Twice(32);
  }

  lemma {:induction false} SetBitIs(w: nat, k: nat, j: nat)
    ensures TestBit(SetBit(w, k), j) <==> j == k || TestBit(w, j)
    decreases k
  {
    if k > 0 && j > 0 {
      SetBitIs(w / 2, k - 1, j - 1);
    }
  }

  lemma {:induction false} FlipBitIs(w: nat, k: nat, j: nat)
    ensures TestBit(FlipBit(w, k), j) <==> ((j == k) != TestBit(w, j))
    decreases k
  {
    if k > 0 && j > 0 {
      FlipBitIs(w / 2, k - 1, j - 1);
    }
  }

  /** Bit k stands for 2 to the k: what setting and toggling do to the number. */
  lemma {:induction false} BitWeight(w: nat, k: nat)
    ensures SetBit(w, k) == if TestBit(w, k) then w else w + Pow2(k)
    ensures FlipBit(w, k) == if TestBit(w, k) then w - Pow2(k) else w + Pow2(k)
    decreases k
  {
    if k > 0 {
      BitWeight(w / 2, k - 1);
    }
  }

  lemma {:induction false} ZeroBits(k: nat)
    ensures !TestBit(0, k)
  {
    if k > 0 {
      ZeroBits(k - 1);
    }
  }

  // One bitmap

  predicate IsSet(b: Bitmap, v: Half) {
    TestBit(b[v / 64], v % 64)
  }

  function Set(b: Bitmap, v: Half): Bitmap {
    WordSize();
    BitsFit(b[v / 64], v % 64, 64);
    b[v / 64 := SetBit(b[v / 64], v % 64)]
  }

  /** clear, which really toggles. */
  function Toggle(b: Bitmap, v: Half): Bitmap {
    WordSize();
    BitsFit(b[v / 64], v % 64, 64);
    b[v / 64 := FlipBit(b[v / 64], v % 64)]
  }

  /** Setting a bit adds that address and no other. */
  lemma SetIs(b: Bitmap, v: Half, u: Half)
    ensures IsSet(Set(b, v), u) <==> u == v || IsSet(b, u)
  {
    SetBitIs(b[v / 64], v % 64, u % 64);
  }

  /** Clearing a bit changes whether that address is there, and no other. */
  lemma ToggleIs(b: Bitmap, v: Half, u: Half)
    ensures IsSet(Toggle(b, v), u) <==> ((u == v) != IsSet(b, u))
  {
    FlipBitIs(b[v / 64], v % 64, u % 64);
  }

  /** Address v is bit v mod 64 of word v div 64. */
  lemma WordIs(b: Bitmap, v: Half)
    ensures forall i :: 0 <= i < WORDS && i != v / 64 ==> Set(b, v)[i] == b[i] == Toggle(b, v)[i]
    ensures Set(b, v)[v / 64] == b[v / 64] + if IsSet(b, v) then 0 else Pow2(v % 64)
    ensures Toggle(b, v)[v / 64] == if IsSet(b, v) then b[v / 64] - Pow2(v % 64) else b[v / 64] + Pow2(v % 64)
  {
    BitWeight(b[v / 64], v % 64);
  }

  // The set

  /** Whether an address is in the set that offsets and bitmaps stand for. */
  predicate InMaps(offs: seq<Offset>, maps: seq<Bitmap>, a: Addr) {
    a.upper < |offs| && 0 < offs[a.upper] <= |maps| && IsSet(maps[offs[a.upper] - 1], a.lower)
  }

  /** Every network with addresses has a bitmap of its own. */
  ghost predicate Proper(offs: seq<Offset>, maps: seq<Bitmap>) {
    && |offs| == NETWORKS && |maps| <= MAX_MAPS
    && (forall u :: 0 <= u < |offs| ==> offs[u] <= |maps|)
    && (forall u, v :: 0 <= u < v < |offs| && offs[u] != 0 ==> offs[u] != offs[v])
  }

  lemma AddedBitmap(offs: seq<Offset>, maps: seq<Bitmap>, u: nat, blank: Bitmap)
    requires Proper(offs, maps) && u < |offs| && offs[u] == 0 && |maps| < MAX_MAPS
    requires forall v: Half :: !IsSet(blank, v)
    ensures Proper(offs[u := |maps| + 1], maps + [blank])
    ensures forall a :: InMaps(offs[u := |maps| + 1], maps + [blank], a) <==> InMaps(offs, maps, a)
  {
    var offs', maps' := offs[u := |maps| + 1], maps + [blank];
    forall a ensures InMaps(offs', maps', a) <==> InMaps(offs, maps, a) {
      if a.upper < |offs| && a.upper != u && 0 < offs[a.upper] <= |maps| {
        assert maps'[offs[a.upper] - 1] == maps[offs[a.upper] - 1];
      }
    }
  }

  lemma BlankIsEmpty(blank: Bitmap)
    requires forall i :: 0 <= i < WORDS ==> blank[i] == 0
    ensures forall v: Half :: !IsSet(blank, v)
  {
    forall v: Half ensures !IsSet(blank, v) {
      ZeroBits(v % 64);
    }
  }

  /** Changing the bitmap of one network changes the set there only. */
  lemma ChangedBitmap(offs: seq<Offset>, maps: seq<Bitmap>, u: nat, b: Bitmap, a: Addr)
    requires Proper(offs, maps) && u < |offs| && offs[u] != 0
    ensures var maps' := maps[offs[u] - 1 := b];
            && Proper(offs, maps')
            && (InMaps(offs, maps', a) <==> if a.upper == u then IsSet(b, a.lower) else InMaps(offs, maps, a))
  {
    if a.upper < |offs| && a.upper < u {
      assert offs[a.upper] != 0 ==> offs[a.upper] != offs[u];
    } else if u < a.upper < |offs| {
      assert offs[u] != offs[a.upper];
    }
  }

  lemma SetMember(offs: seq<Offset>, maps: seq<Bitmap>, x: Addr)
    requires Proper(offs, maps) && x.upper < |offs| && offs[x.upper] != 0
    ensures var maps' := maps[offs[x.upper] - 1 := Set(maps[offs[x.upper] - 1], x.lower)];
            Proper(offs, maps') && forall a :: InMaps(offs, maps', a) <==> a == x || InMaps(offs, maps, a)
  {
    var b := maps[offs[x.upper] - 1];
    var maps' := maps[offs[x.upper] - 1 := Set(b, x.lower)];
    ChangedBitmap(offs, maps, x.upper, Set(b, x.lower), x);
    forall a ensures InMaps(offs, maps', a) <==> a == x || InMaps(offs, maps, a) {
      ChangedBitmap(offs, maps, x.upper, Set(b, x.lower), a);
      SetIs(b, x.lower, a.lower);
    }
  }

  lemma ToggleMember(offs: seq<Offset>, maps: seq<Bitmap>, x: Addr)
    requires Proper(offs, maps) && x.upper < |offs| && offs[x.upper] != 0
    ensures var maps' := maps[offs[x.upper] - 1 := Toggle(maps[offs[x.upper] - 1], x.lower)];
            Proper(offs, maps') && forall a :: InMaps(offs, maps', a) <==> ((a == x) != InMaps(offs, maps, a))
  {
    var b := maps[offs[x.upper] - 1];
    var maps' := maps[offs[x.upper] - 1 := Toggle(b, x.lower)];
    ChangedBitmap(offs, maps, x.upper, Toggle(b, x.lower), x);
    forall a ensures InMaps(offs, maps', a) <==> ((a == x) != InMaps(offs, maps, a)) {
      ChangedBitmap(offs, maps, x.upper, Toggle(b, x.lower), a);
      ToggleIs(b, x.lower, a.lower);
    }
  }

  // Addresses

  /** net.IP.To4: four bytes, or a sixteen byte address that wraps them. */
  function To4(ip: seq<byte>): Option<Addr> {
    if |ip| == 4 then Some(Split(ip))
    else if |ip| == 16 && (forall i :: 0 <= i < 10 ==> ip[i] == 0) && ip[10] == 0xff && ip[11] == 0xff
    then Some(Split(ip[12..]))
    else None
  }

  function Split(ip: seq<byte>): Addr
    requires |ip| == 4
  {
    Addr(BigEndian(ip[0], ip[1]), BigEndian(ip[2], ip[3]))
  }

  function BigEndian(hi: int, lo: int): Half
    requires 0 <= hi < 0x100 && 0 <= lo < 0x100
  {
    hi * 0x100 + lo
  }

  /** The dotted quad a.b.c.d is kept as its two halves, most significant byte first. */
  lemma QuadIs(a: byte, b: byte, c: byte, d: byte)
    ensures var x := To4([a, b, c, d]);
            x.Some? && x.value.upper == a * 0x100 + b && x.value.lower == c * 0x100 + d
    ensures Number(To4([a, b, c, d]).value) == a * 0x100_0000 + b * 0x1_0000 + c * 0x100 + d
  {
  }

  function Number(x: Addr): nat {
    x.upper * 0x1_0000 + x.lower
  }

  /** Different addresses stay different, in whichever form they are written. */
  lemma QuadsDiffer(p: seq<byte>, q: seq<byte>)
    requires |p| == |q| == 4 && To4(p) == To4(q)
    ensures p == q
  {
    QuadIs(p[0], p[1], p[2], p[3]);
    QuadIs(q[0], q[1], q[2], q[3]);
    assert p == [p[0], p[1], p[2], p[3]] && q == [q[0], q[1], q[2], q[3]];
  }

  /** A sixteen byte address counts as the four it wraps, and nothing else counts. */
  lemma WrappedIs(ip: seq<byte>)
    ensures |ip| == 16 && ip[..12] == [0, 0, 0, 0, 0, 0, 0, 0, 0, 0, 0xff, 0xff] ==> To4(ip) == To4(ip[12..])
    ensures To4(ip).Some? <==>
            |ip| == 4 || (|ip| == 16 && ip[..12] == [0, 0, 0, 0, 0, 0, 0, 0, 0, 0, 0xff, 0xff])
  {
    if |ip| == 16 {
      assert forall i :: 0 <= i < 12 ==> ip[i] == ip[..12][i];
    }
  }

  class IpBitMap {
    var maxOffset: Offset
    const bitmapOffsets: array<Offset>
    var bitmaps: seq<Bitmap>
    /** The plain set of addresses this stands for. */
    ghost var members: iset<Addr>

    ghost predicate Shape()
      reads this, bitmapOffsets
    {
      bitmapOffsets.Length == NETWORKS && maxOffset == |bitmaps| <= MAX_MAPS
    }

    ghost predicate Valid()
      reads this, bitmapOffsets
    {
      && Shape() && Proper(bitmapOffsets[..], bitmaps)
      && forall a :: a in members <==> InMaps(bitmapOffsets[..], bitmaps, a)
    }

    constructor ()
      ensures Valid() && fresh(bitmapOffsets) && members == iset{}
    {
      maxOffset, bitmaps, members := 0, [], iset{};
      bitmapOffsets := new Offset[NETWORKS](_ => 0);
    }

    /** Room for one more network, all of its addresses absent. */
    method AddNewBitmap(upper: nat) returns (r: Result<Offset, IpError>)
      requires Valid() && upper < NETWORKS && bitmapOffsets[upper] == 0
      modifies this, bitmapOffsets
      ensures Valid() && members == old(members)
      ensures r.Ok? <==> old(|bitmaps|) < MAX_MAPS
      ensures r.Ok? ==> bitmapOffsets[upper] == r.value != 0
      ensures r.Err? ==> r.error == MapsExhausted
      ensures r.Err? ==> bitmapOffsets[..] == old(bitmapOffsets[..]) && bitmaps == old(bitmaps)
    {
      if |bitmaps| >= MAX_MAPS {
        return Err(MapsExhausted);
      }
      var blank: Bitmap := seq(WORDS, _ => 0);
      BlankIsEmpty(blank);
      AddedBitmap(bitmapOffsets[..], bitmaps, upper, blank);
      ghost var offs := bitmapOffsets[..];
      bitmaps := bitmaps + [blank];
      maxOffset := |bitmaps|;
      bitmapOffsets[upper] := maxOffset;
      assert bitmapOffsets[..] == offs[upper := maxOffset];
      return Ok(maxOffset);
    }

    /** Adds the address to the set. 255.255.0.0/16 is ignored, and a network that
        would need one bitmap too many is refused. */
    method AddIP(ip: Option<seq<byte>>) returns (err: Option<IpError>)
      requires Valid()
      modifies this, bitmapOffsets
      ensures Valid()
      ensures var a := if ip.Some? then To4(ip.value) else None;
              match a
              case None => err == Some(InvalidIPv4) && members == old(members)
              case Some(x) =>
                if x.upper == 0xffff then err.None? && members == old(members)
                else if old(bitmapOffsets[x.upper]) == 0 && old(|bitmaps|) >= MAX_MAPS
                then err == Some(MapsExhausted) && members == old(members)
                else err.None? && members == old(members) + iset{x}
    {
      if ip.None? || To4(ip.value).None? {
        return Some(InvalidIPv4);
      }
      var x := To4(ip.value).value;
      if x.upper == 0xffff {
        return None;
      }
      var off := bitmapOffsets[x.upper];
      if off == 0 {
        var r := AddNewBitmap(x.upper);
        if r.Err? {
          return Some(r.error);
        }
        off := r.value;
      }
      assert off != 0xffff && off <= maxOffset;
      SetMember(bitmapOffsets[..], bitmaps, x);
      bitmaps := bitmaps[off - 1 := Set(bitmaps[off - 1], x.lower)];
      members := members + iset{x};
      return None;
    }

    /** Removes an address that is in the set; one that is not there is added if its
        network has a bitmap. */
    method RemoveIP(ip: Option<seq<byte>>) returns (err: Option<IpError>)
      requires Valid()
      modifies this
      ensures Valid()
      ensures var a := if ip.Some? then To4(ip.value) else None;
              match a
              case None => err == Some(InvalidIPv4) && members == old(members)
              case Some(x) =>
                && err.None?
                && members == (if x in old(members) then old(members) - iset{x}
                               else if x.upper < NETWORKS && bitmapOffsets[x.upper] != 0 then old(members) + iset{x}
                               else old(members))
                && (x !in members <==> x in old(members) || x.upper == 0xffff || bitmapOffsets[x.upper] == 0)
    {
      if ip.None? || To4(ip.value).None? {
        return Some(InvalidIPv4);
      }
      var x := To4(ip.value).value;
      if x.upper == 0xffff {
        return None;
      }
      var off := bitmapOffsets[x.upper];
      if off == 0 || off == 0xffff || off > maxOffset {
        return None;
      }
      ToggleMember(bitmapOffsets[..], bitmaps, x);
      bitmaps := bitmaps[off - 1 := Toggle(bitmaps[off - 1], x.lower)];
      members := if x in members then members - iset{x} else members + iset{x};
      return None;
    }

    /** Membership. On a map read from a file that nothing vouches for, an offset may
        point nowhere. */
    method IPExists(ip: Option<seq<byte>>) returns (ok: bool, err: Option<IpError>)
      requires Shape()
      ensures var a := if ip.Some? then To4(ip.value) else None;
              match a
              case None => !ok && err == Some(InvalidIPv4)
              case Some(x) => Valid() ==> err.None? && (ok <==> x in members)
    {
      if ip.None? || To4(ip.value).None? {
        return false, Some(InvalidIPv4);
      }
      var x := To4(ip.value).value;
      if x.upper == 0xffff {
        return false, None;
      }
      var off := bitmapOffsets[x.upper];
      if off == 0 {
        return false, None;
      } else if off == 0xffff {
        return true, None;
      } else if off > maxOffset {
        return false, Some(InvalidBaseOffset);
      }
      return IsSet(bitmaps[off - 1], x.lower), None;
    }
 
    /** The encoded form of the set. */
    method Encode() returns (s: seq<byte>)
      requires Shape()
      ensures s == Encoded(Tables(bitmapOffsets[..], bitmaps))
      ensures Parse(s) == Ok(Tables(bitmapOffsets[..], bitmaps))
    {
      var t := Tables(bitmapOffsets[..], bitmaps);
      var table := Join(Numbers(2, t.offs));
      var images := PutImages(t.maps);
      s := HEADER + PutUint(8, |t.maps|) + (table + images);
      EncodeThenParse(t);
    }

    /** Replaces the contents by those of an encoded set. When it fails the map is to be
        thrown away. */
    method Decode(s: seq<byte>) returns (err: Option<IpError>)
      requires Shape()
      modifies this, bitmapOffsets
      ensures err == (match Parse(s) case Ok(_) => None case Err(e) => Some(e))
      ensures err.None? ==>
                && Shape() && bitmapOffsets[..] == Parse(s).value.offs && bitmaps == Parse(s).value.maps
                && (Proper(bitmapOffsets[..], bitmaps) ==> Valid())
    {
      match Parse(s)
      case Err(e) => return Some(e);
      case Ok(t) =>
        ParsedSize(s);
        forall i | 0 <= i < NETWORKS {
          bitmapOffsets[i] := t.offs[i];
        }
        assert bitmapOffsets[..] == t.offs;
        bitmaps := t.maps;
        maxOffset := |bitmaps|;
        members := iset a | InMaps(t.offs, t.maps, a);
        return None;
    }
  }

  /** The bitmaps, one after the other. */
  method PutImages(maps: seq<Bitmap>) returns (s: seq<byte>)
    ensures s == Join(Images(maps))
  {
    s := [];
    for i := 0 to |maps|
      invariant s == Join(Images(maps[..i]))
    {
      ImageSnoc(maps, i);
      s := s + PutMap(maps[i]);
    }
    assert maps[..|maps|] == maps;
  }

  lemma {:induction false} JoinSnoc(ps: seq<seq<byte>>, p: seq<byte>)
    ensures Join(ps + [p]) == Join(ps) + p
  {
    if ps == [] {
      assert ps + [p] == [p] && Join([p]) == p + Join([]);
    } else {
      assert (ps + [p])[1..] == ps[1..] + [p];
      JoinSnoc(ps[1..], p);
    }
  }

  lemma ImageSnoc(maps: seq<Bitmap>, i: nat)
    requires i < |maps|
    ensures Join(Images(maps[..i + 1])) == Join(Images(maps[..i])) + PutMap(maps[i])
  {
    assert Images(maps[..i + 1]) == Images(maps[..i]) + [PutMap(maps[i])];
    JoinSnoc(Images(maps[..i]), PutMap(maps[i]));
  }

  lemma ParsedSize(s: seq<byte>)
    requires Parse(s).Ok?
    ensures |Parse(s).value.offs| == NETWORKS && |Parse(s).value.maps| <= MAX_MAPS
  {
  }

  /** A new set from its encoded form, or why there is none. */
  method LoadIPBitMap(s: seq<byte>) returns (r: Result<IpBitMap, IpError>)
    ensures r.Ok? <==> Parse(s).Ok?
    ensures r.Err? ==> r.error == Parse(s).error
    ensures r.Ok? ==> fresh(r.value) && fresh(r.value.bitmapOffsets) && r.value.Shape()
    ensures r.Ok? && Proper(Parse(s).value.offs, Parse(s).value.maps) ==>
              && r.value.Valid()
              && forall a :: a in r.value.members <==> InMaps(Parse(s).value.offs, Parse(s).value.maps, a)
  {
    var m := new IpBitMap();
    var err := m.Decode(s);
    match err
    case Some(e) => return Err(e);
    case None => return Ok(m);
  }
}
