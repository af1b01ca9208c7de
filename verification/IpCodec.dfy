/** The encoded form of an IP bitmap set (ipexist/ipexist.go): a header, the number
    of bitmaps, and, behind the compression that is left out here, the table of
    offsets and the words of every bitmap, little-endian. */
module IpCodec {
  import opened Wrappers
  import opened AckCodec

  const MAX_MAPS := 0xfffe
  const NETWORKS := 0xffff
  const WORDS := 1024
  const HEADER: seq<byte> := [0x49, 0x50, 0x76, 0x34, 0x46, 0x4c, 0x54, 0x31]

  type Offset = x: int | 0 <= x < 0x1_0000

  /** A uint64 as a number, and a bitmap of 1024 of them. */
  type Word = uint64
  type Bitmap = b: seq<Word> | |b| == WORDS witness seq(WORDS, _ => 0)

  datatype IpError = InvalidIPv4 | InvalidBaseOffset | MapsExhausted | BadHeader | Corrupt | ShortRead

  datatype Tables = Tables(offs: seq<Offset>, maps: seq<Bitmap>)

  const MAP_BYTES := 8192
  const TABLE_BYTES := 0x1_fffe

  // Pieces of a fixed size

  function Join(ps: seq<seq<byte>>): seq<byte> {
    if ps == [] then [] else ps[0] + Join(ps[1..])
  }

  /** The first cnt pieces of k bytes, if there are enough bytes. */
  function Cut(k: nat, cnt: nat, s: seq<byte>): (r: Option<seq<seq<byte>>>)
    ensures r.Some? ==> |r.value| == cnt && forall i :: 0 <= i < cnt ==> |r.value[i]| == k
    decreases cnt
  {
    if cnt == 0 then Some([])
    else if |s| < k then None
    else match Cut(k, cnt - 1, s[k..])
      case None => None
      case Some(rest) => Some([s[..k]] + rest)
  }

  lemma {:induction false} CutJoin(k: nat, ps: seq<seq<byte>>, more: seq<byte>)
    requires forall i :: 0 <= i < |ps| ==> |ps[i]| == k
    ensures Cut(k, |ps|, Join(ps) + more) == Some(ps) && |Join(ps)| == |ps| * k
    decreases |ps|
  {
    if ps != [] {
      var rest := Join(ps[1..]) + more;
      CutJoin(k, ps[1..], more);
      assert Join(ps) + more == ps[0] + rest;
      assert (ps[0] + rest)[..k] == ps[0] && (ps[0] + rest)[k..] == rest;
      assert [ps[0]] + ps[1..] == ps;
      OneLess(|ps|, k);
    }
  }

  lemma OneLess(cnt: nat, k: nat)
    requires cnt > 0
    ensures cnt * k == (cnt - 1) * k + k
  {
  }

  lemma {:induction false} CutEnough(k: nat, cnt: nat, s: seq<byte>)
    ensures Cut(k, cnt, s).Some? <==> |s| >= cnt * k
    decreases cnt
  {
    if cnt > 0 {
      OneLess(cnt, k);
      if |s| >= k {
        CutEnough(k, cnt - 1, s[k..]);
      } else {
        assert cnt * k >= k;
      }
    }
  }

  // Numbers of a fixed width

  function Numbers(n: nat, ws: seq<nat>): (ps: seq<seq<byte>>)
    ensures |ps| == |ws| && forall i :: 0 <= i < |ws| ==> ps[i] == PutUint(n, ws[i])
  {
    seq(|ws|, i requires 0 <= i < |ws| => PutUint(n, ws[i]))
  }

  function Values(ps: seq<seq<byte>>): (ws: seq<nat>)
    ensures |ws| == |ps| && forall i :: 0 <= i < |ps| ==> ws[i] == GetUint(ps[i])
  {
    seq(|ps|, i requires 0 <= i < |ps| => GetUint(ps[i]))
  }

  lemma NumbersRoundTrip(n: nat, ws: seq<nat>)
    requires forall i :: 0 <= i < |ws| ==> ws[i] < Pow256(n)
    ensures Values(Numbers(n, ws)) == ws
  {
    forall i | 0 <= i < |ws| ensures GetUint(PutUint(n, ws[i])) == ws[i] {
      UintRoundTrip(n, ws[i]);
    }
  }

  function PutMap(b: Bitmap): seq<byte> {
    Join(Numbers(8, b))
  }

  function GetMap(s: seq<byte>): (r: Option<Bitmap>) {
    match Cut(8, WORDS, s)
    case None => None
    case Some(ps) => Some(WordsOf(ps))
  }

  function WordsOf(ps: seq<seq<byte>>): Bitmap
    requires |ps| == WORDS && forall i :: 0 <= i < |ps| ==> |ps[i]| == 8
  {
    Pow256Values();
    Values(ps)
  }

  lemma MapRoundTrip(b: Bitmap)
    ensures |PutMap(b)| == MAP_BYTES && GetMap(PutMap(b)) == Some(b)
  {
    Pow256Values();
    CutJoin(8, Numbers(8, b), []);
    assert PutMap(b) + [] == PutMap(b);
    NumbersRoundTrip(8, b);
  }

  lemma MapEnough(s: seq<byte>)
    ensures GetMap(s).Some? <==> |s| >= MAP_BYTES
  {
    CutEnough(8, WORDS, s);
  }

  // Bitmaps

  function Images(maps: seq<Bitmap>): (ps: seq<seq<byte>>)
    ensures |ps| == |maps| && forall i :: 0 <= i < |maps| ==> ps[i] == PutMap(maps[i])
  {
    seq(|maps|, i requires 0 <= i < |maps| => PutMap(maps[i]))
  }

  function MapsOf(ps: seq<seq<byte>>): (maps: seq<Bitmap>)
    requires forall i :: 0 <= i < |ps| ==> GetMap(ps[i]).Some?
    ensures |maps| == |ps| && forall i :: 0 <= i < |ps| ==> Some(maps[i]) == GetMap(ps[i])
  {
    seq(|ps|, i requires 0 <= i < |ps| => GetMap(ps[i]).value)
  }

  function GetMaps(cnt: nat, s: seq<byte>): (r: Option<seq<Bitmap>>) {
    match Cut(MAP_BYTES, cnt, s)
    case None => None
    case Some(ps) =>
      PiecesAreMaps(ps);
      Some(MapsOf(ps))
  }

  lemma PiecesAreMaps(ps: seq<seq<byte>>)
    requires forall i :: 0 <= i < |ps| ==> |ps[i]| == MAP_BYTES
    ensures forall i :: 0 <= i < |ps| ==> GetMap(ps[i]).Some?
  {
    forall i | 0 <= i < |ps| ensures GetMap(ps[i]).Some? {
      MapEnough(ps[i]);
    }
  }

  lemma MapsRoundTrip(maps: seq<Bitmap>)
    ensures GetMaps(|maps|, Join(Images(maps))) == Some(maps)
  {
    var ps := Images(maps);
    forall i | 0 <= i < |maps| ensures |ps[i]| == MAP_BYTES && GetMap(ps[i]) == Some(maps[i]) {
      MapRoundTrip(maps[i]);
    }
    CutJoin(MAP_BYTES, ps, []);
    assert Join(ps) + [] == Join(ps);
    assert MapsOf(ps) == maps;
  }

  // The whole file

  function Encoded(t: Tables): seq<byte> {
    HEADER + PutUint(8, |t.maps|) + (Join(Numbers(2, t.offs)) + Join(Images(t.maps)))
  }

  function OffsetsOf(ps: seq<seq<byte>>): (offs: seq<Offset>)
    requires forall i :: 0 <= i < |ps| ==> |ps[i]| == 2
    ensures |offs| == |ps|
  {
    assert Pow256(2) == 0x1_0000;
    Values(ps)
  }

  function Body(cnt: nat, s: seq<byte>): Result<Tables, IpError> {
    match Cut(2, NETWORKS, s)
    case None => Err(ShortRead)
    case Some(ps) =>
      if |s| < TABLE_BYTES then Err(ShortRead)
      else match GetMaps(cnt, s[TABLE_BYTES..])
        case None => Err(ShortRead)
        case Some(maps) => Ok(Tables(OffsetsOf(ps), maps))
  }

  function Parse(s: seq<byte>): Result<Tables, IpError> {
    if |s| < 8 then Err(ShortRead)
    else if s[..8] != HEADER then Err(BadHeader)
    else if |s| < 16 then Err(ShortRead)
    else if GetUint(s[8..16]) > MAX_MAPS then Err(Corrupt)
    else Body(GetUint(s[8..16]), s[16..])
  }

  /** Decoding gives back what was encoded. */
  lemma EncodeThenParse(t: Tables)
    requires |t.offs| == NETWORKS && |t.maps| <= MAX_MAPS
    ensures Parse(Encoded(t)) == Ok(t)
  {
    var s := Encoded(t);
    var rest := Join(Numbers(2, t.offs)) + Join(Images(t.maps));
    Pow256Values();
    UintRoundTrip(8, |t.maps|);
    assert s[..8] == HEADER && s[8..16] == PutUint(8, |t.maps|) && s[16..] == rest;
    BodyRoundTrip(t);
  }

  lemma BodyRoundTrip(t: Tables)
    requires |t.offs| == NETWORKS
    ensures Body(|t.maps|, Join(Numbers(2, t.offs)) + Join(Images(t.maps))) == Ok(t)
  {
    var a, b := Join(Numbers(2, t.offs)), Join(Images(t.maps));
    assert Pow256(2) == 0x1_0000;
    CutJoin(2, Numbers(2, t.offs), b);
    NumbersRoundTrip(2, t.offs);
    assert (a + b)[TABLE_BYTES..] == b;
    MapsRoundTrip(t.maps);
  }

  /** What is refused: another header, too many bitmaps, or a file cut short. */
  lemma ParseAccepts(s: seq<byte>)
    ensures Parse(s).Ok? <==>
              && |s| >= 16 && s[..8] == HEADER && GetUint(s[8..16]) <= MAX_MAPS
              && |s| - 16 >= TABLE_BYTES + GetUint(s[8..16]) * MAP_BYTES
  {
    if |s| >= 16 {
      CutEnough(2, NETWORKS, s[16..]);
      if |s| - 16 >= TABLE_BYTES {
        CutEnough(MAP_BYTES, GetUint(s[8..16]), s[16..][TABLE_BYTES..]);
      }
    }
  }

  // Where things are

  lemma {:induction false} JoinAt(k: nat, ps: seq<seq<byte>>, i: nat)
    requires (forall j :: 0 <= j < |ps| ==> |ps[j]| == k) && i < |ps|
    ensures i * k + k <= |Join(ps)| && Join(ps)[i * k..i * k + k] == ps[i]
    decreases |ps|
  {
    var rest := Join(ps[1..]);
    if i == 0 {
      assert 0 * k == 0;
    } else {
      JoinAt(k, ps[1..], i - 1);
      OneLess(i, k);
      SliceBehind(ps[0], rest, (i - 1) * k, k);
    }
  }

  lemma SliceBehind(a: seq<byte>, b: seq<byte>, from: nat, k: nat)
    requires from + k <= |b|
    ensures (a + b)[|a| + from..|a| + from + k] == b[from..from + k]
  {
  }

  lemma OffsetIsAt(t: Tables, u: nat)
    requires |t.offs| == NETWORKS && u < NETWORKS
    ensures var s := Join(Numbers(2, t.offs));
            |s| == TABLE_BYTES && 2 * u + 2 <= |s| && GetUint(s[2 * u..2 * u + 2]) == t.offs[u]
  {
    assert Pow256(2) == 0x1_0000;
    JoinAt(2, Numbers(2, t.offs), u);
    UintRoundTrip(2, t.offs[u]);
    CutJoin(2, Numbers(2, t.offs), []);
  }

  lemma WordIsAt(b: Bitmap, j: nat)
    requires j < WORDS
    ensures |PutMap(b)| == MAP_BYTES && GetUint(PutMap(b)[8 * j..8 * j + 8]) == b[j]
  {
    Pow256Values();
    MapRoundTrip(b);
    JoinAt(8, Numbers(8, b), j);
    UintRoundTrip(8, b[j]);
  }

  lemma MapIsAt(maps: seq<Bitmap>, i: nat)
    requires i < |maps|
    ensures var s := Join(Images(maps));
            && |s| == |maps| * MAP_BYTES && i * MAP_BYTES + MAP_BYTES <= |s|
            && s[i * MAP_BYTES..i * MAP_BYTES + MAP_BYTES] == PutMap(maps[i])
  {
    forall x | 0 <= x < |maps| ensures |Images(maps)[x]| == MAP_BYTES {
      MapRoundTrip(maps[x]);
    }
    JoinAt(MAP_BYTES, Images(maps), i);
    CutJoin(MAP_BYTES, Images(maps), []);
  }

  lemma InSecond(a: seq<byte>, b: seq<byte>, c: seq<byte>, from: nat, k: nat)
    requires from + k <= |b|
    ensures (a + (b + c))[|a| + from..|a| + from + k] == b[from..from + k]
  {
  }

  lemma InThird(a: seq<byte>, b: seq<byte>, c: seq<byte>, from: nat, k: nat)
    requires from + k <= |c|
    ensures (a + (b + c))[|a| + |b| + from..|a| + |b| + from + k] == c[from..from + k]
  {
  }

  /** The file byte by byte: the header and the number of bitmaps in eight bytes each, two
      bytes for each network's offset, */
  lemma FileLayout(t: Tables, u: nat)
    requires |t.offs| == NETWORKS && u < NETWORKS && |t.maps| <= MAX_MAPS
    ensures var s := Encoded(t);
            && 16 + TABLE_BYTES <= |s| && s[..8] == HEADER && GetUint(s[8..16]) == |t.maps|
            && GetUint(s[16 + 2 * u..16 + 2 * u + 2]) == t.offs[u]
  {
    var head, offs, maps := HEADER + PutUint(8, |t.maps|), Join(Numbers(2, t.offs)), Join(Images(t.maps));
    Pow256Values();
    UintRoundTrip(8, |t.maps|);
    assert (head + (offs + maps))[8..16] == PutUint(8, |t.maps|);
    OffsetIsAt(t, u);
    InSecond(head, offs, maps, 2 * u, 2);
  }

  /** and eight for each word of each bitmap. */
  lemma BitmapLayout(t: Tables, i: nat, j: nat)
    requires |t.offs| == NETWORKS && i < |t.maps| && j < WORDS
    ensures var s := Encoded(t);
            var at := 16 + TABLE_BYTES + (i * MAP_BYTES + 8 * j);
            && |s| == 16 + TABLE_BYTES + |t.maps| * MAP_BYTES && at + 8 <= |s|
            && GetUint(s[at..at + 8]) == t.maps[i][j]
  {
    var head, offs, maps := HEADER + PutUint(8, |t.maps|), Join(Numbers(2, t.offs)), Join(Images(t.maps));
    OffsetIsAt(t, 0);
    MapIsAt(t.maps, i);
    WordBehind(head, offs, maps, i * MAP_BYTES, t.maps[i], j);
  }

  lemma WordBehind(head: seq<byte>, offs: seq<byte>, maps: seq<byte>, k: nat, b: Bitmap, j: nat)
    requires k + MAP_BYTES <= |maps| && maps[k..k + MAP_BYTES] == PutMap(b) && j < WORDS
    ensures var at := |head| + |offs| + (k + 8 * j); GetUint((head + (offs + maps))[at..at + 8]) == b[j]
  {
    WordIsAt(b, j);
    SliceOfSlice(maps, k, MAP_BYTES, 8 * j, 8);
    InThird(head, offs, maps, k + 8 * j, 8);
  }

  lemma SliceOfSlice(s: seq<byte>, k: nat, n: nat, j: nat, l: nat)
    requires k + n <= |s| && j + l <= n
    ensures s[k..k + n][j..j + l] == s[k + j..k + j + l]
  {
    var a, b := s[k..k + n][j..j + l], s[k + j..k + j + l];
    forall i | 0 <= i < l ensures a[i] == b[i] {
      assert a[i] == s[k..k + n][j + i];
    }
  }
}
