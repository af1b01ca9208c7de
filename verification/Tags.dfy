/** Tag names, the muxer's local ids for them and the per-connection translation
    to the ids an indexer uses (ingest/muxer.go, ingest/utils.go). */
module Tags {
  import opened Wrappers
  import opened Link

  const GRAVWELL_TAG: Tag := 0xFFFF
  const MAX_TAG_ID := 0xFFFF

  // The bit mask of known ids

  function Offset(tg: Tag): int {
    tg / 8
  }

  function Mask(tg: Tag): bv8 {
    (1 as bv8) << (tg % 8)
  }

  lemma MaskBits(tg: Tag, other: Tag, w: bv8)
    requires tg / 8 == other / 8
    ensures Mask(tg) & Mask(tg) != 0
    ensures tg != other ==> Mask(tg) & Mask(other) == 0
    ensures (w | Mask(tg)) & Mask(other) != 0 <==> tg == other || w & Mask(other) != 0
  {
    MaskValue(tg);
    MaskValue(other);
  }

  lemma MaskValue(tg: Tag)
    ensures Mask(tg) == [1 as bv8, 2, 4, 8, 16, 32, 64, 128][tg % 8]
  {
    var k := tg % 8;
    if k == 0 { } else if k == 1 { } else if k == 2 { } else if k == 3 { }
    else if k == 4 { } else if k == 5 { } else if k == 6 { } else { }
  }

  /** tagMaskTracker */
  class TagMask {
    const bits: array<bv8>

    constructor ()
      ensures fresh(bits) && Valid() && forall t: Tag :: !Has(t)
    {
      bits := new bv8[0x2000](_ => 0);
    }

    ghost predicate Valid() {
      bits.Length == 0x2000
    }

    predicate Has(tg: Tag)
      reads bits
      requires Valid()
    {
      bits[Offset(tg)] & Mask(tg) != 0
    }

    method Add(tg: Tag)
      requires Valid()
      modifies bits
      ensures forall t: Tag :: Has(t) <==> t == tg || old(Has(t))
    {
      var off := Offset(tg);
      bits[off] := bits[off] | Mask(tg);
      forall t: Tag ensures Has(t) <==> t == tg || old(Has(t)) {
        if Offset(t) == off {
          MaskBits(tg, t, old(bits[off]));
        }
      }
    }

    /** Removes the id whether or not it was there. */
    method Clear(tg: Tag)
      requires Valid()
      modifies bits
      ensures forall t: Tag :: Has(t) <==> t != tg && old(Has(t))
    {
      var off := Offset(tg);
      if bits[off] & Mask(tg) != 0 {
        bits[off] := bits[off] ^ Mask(tg);
      }
      forall t: Tag ensures Has(t) <==> t != tg && old(Has(t)) {
        if Offset(t) == off {
          ToggleBits(tg, t, old(bits[off]));
        }
      }
    }
  }

  lemma ToggleBits(tg: Tag, other: Tag, w: bv8)
    requires tg / 8 == other / 8
    ensures w & Mask(tg) != 0 ==> ((w ^ Mask(tg)) & Mask(other) != 0 <==> tg != other && w & Mask(other) != 0)
  {
    MaskValue(tg);
    MaskValue(other);
  }

  // Local ids

  type TagMap = map<string, Tag>

  ghost predicate HasId(m: TagMap, t: int) {
    exists n :: n in m && m[n] == t
  }

  /** The names in the order of their ids, which are exactly 0 .. |m|-1. */
  ghost predicate Listing(m: TagMap, names: seq<string>) {
    && |names| == |m|
    && (forall i :: 0 <= i < |names| ==> names[i] in m && m[names[i]] == i)
    && (forall n :: n in m ==> m[n] < |names| && names[m[n]] == n)
  }

  ghost predicate Dense(m: TagMap) {
    exists names :: Listing(m, names)
  }

  lemma ListingIds(m: TagMap, names: seq<string>)
    requires Listing(m, names)
    ensures forall t :: HasId(m, t) <==> 0 <= t < |m|
    ensures forall i, j :: 0 <= i < j < |names| ==> names[i] != names[j]
  {
    forall t | 0 <= t < |m| ensures HasId(m, t) {
      assert m[names[t]] == t;
    }
  }

  lemma ListingExtend(m: TagMap, names: seq<string>, name: string)
    requires Listing(m, names) && name !in m && |m| < 0x1_0000
    ensures Listing(m[name := |m|], names + [name]) && |m[name := |m|]| == |m| + 1
  {
    var m' := m[name := |m|];
    assert m'.Keys == m.Keys + {name};
    assert |m'| == |m'.Keys|;
  }

  /** The largest id in the map, zero for the empty map. */
  method LargestId(m: TagMap) returns (t: Tag)
    ensures forall n :: n in m ==> m[n] <= t
    ensures if m == map[] then t == 0 else HasId(m, t)
  {
    t := 0;
    var rest := m.Keys;
    while rest != {}
      invariant rest <= m.Keys
      invariant forall n :: n in m && n !in rest ==> m[n] <= t
      invariant t == 0 || HasId(m, t)
      invariant rest != m.Keys ==> HasId(m, t)
    {
      var n :| n in rest;
      assert HasId(m, m[n]);
      if m[n] > t || (m[n] == t) {
        t := m[n];
      } else {
        assert HasId(m, t);
      }
      rest := rest - {n};
    }
    if m != map[] {
      assert rest != m.Keys;
    }
  }

  lemma LargestOfDense(m: TagMap, t: Tag)
    requires Dense(m) && m != map[] && HasId(m, t) && forall n :: n in m ==> m[n] <= t
    ensures t == |m| - 1
  {
    var names :| Listing(m, names);
    ListingIds(m, names);
    assert |m| > 0 by {
      var n :| n in m;
      assert m[n] < |m|;
    }
    assert m[names[|m| - 1]] == |m| - 1;
  }

  method NextId(m: TagMap) returns (t: Tag)
    requires Dense(m) && 0 < |m| < MAX_TAG_ID
    ensures t == |m|
  {
    t := LargestId(m);
    LargestOfDense(m, t);
    t := t + 1;
  }

  // Translation

  datatype Unnegotiated = Unnegotiated(local: Tag, name: string)

  datatype TagError = TooManyTags | OutOfSync | TagMapInvalid | TagNotFound | IndexOutOfRange | BadName

  /** tagTrans: local id i is the indexer's id active[i]; toNegotiate holds the
      tags created since, oldest first. */
  datatype TagTrans = TagTrans(active: seq<Tag>, toNegotiate: seq<Unnegotiated>)

  function Translate(tt: TagTrans, t: Tag): Option<Tag> {
    if t == GRAVWELL_TAG then Some(t)
    else if t >= |tt.active| then None
    else Some(tt.active[t])
  }

  predicate HasTag(tt: TagTrans, t: Tag) {
    t == GRAVWELL_TAG || t < |tt.active|
  }

  function RegisterTag(tt: TagTrans, local: Tag, remote: Tag): Result<TagTrans, TagError> {
    if local != |tt.active| then Err(OutOfSync)
    else if |tt.active| >= MAX_TAG_ID then Err(TooManyTags)
    else Ok(tt.(active := tt.active + [remote]))
  }

  function ClearToNegotiate(tt: TagTrans, cnt: nat): TagTrans {
    if cnt == 0 then tt
    else if cnt < |tt.toNegotiate| then tt.(toNegotiate := tt.toNegotiate[cnt..])
    else tt.(toNegotiate := [])
  }

  function RegisterForNegotiation(tt: TagTrans, name: string, local: Tag): Result<TagTrans, TagError> {
    if |tt.active| >= MAX_TAG_ID then Err(TooManyTags)
    else Ok(tt.(toNegotiate := tt.toNegotiate + [Unnegotiated(local, name)]))
  }

  /** The oldest pending tag has become the newest active one. */
  function Negotiated(tt: TagTrans, remote: Tag): TagTrans
    requires tt.toNegotiate != []
  {
    TagTrans(tt.active + [remote], tt.toNegotiate[1..])
  }

  /** First position of t, or |s|. */
  function Find(s: seq<Tag>, t: Tag): (i: nat)
    ensures i <= |s| && (i < |s| ==> s[i] == t) && forall j :: 0 <= j < i ==> s[j] != t
  {
    if s == [] then 0 else if s[0] == t then 0 else 1 + Find(s[1..], t)
  }

  function Reverse(tt: TagTrans, t: Tag): Tag {
    if t == GRAVWELL_TAG then t
    else
      var i := Find(tt.active, t);
      if i < |tt.active| && i < 0x1_0000 then i else 0
  }

  /** tagTrans.reverse as the loop the code runs. */
  method ReverseTag(tt: TagTrans, t: Tag) returns (r: Tag)
    requires |tt.active| <= MAX_TAG_ID
    ensures r == Reverse(tt, t)
  {
    if t == GRAVWELL_TAG {
      return t;
    }
    var i := 0;
    while i < |tt.active|
      invariant i <= |tt.active| && forall j :: 0 <= j < i ==> tt.active[j] != t
    {
      if tt.active[i] == t {
        return i;
      }
      i := i + 1;
    }
    return 0;
  }

  /** No two tags share an id at the indexer, and none has the reserved id. */
  ghost predicate Distinct(tt: TagTrans) {
    && |tt.active| <= MAX_TAG_ID
    && (forall i, j :: 0 <= i < j < |tt.active| ==> tt.active[i] != tt.active[j])
    && (forall i :: 0 <= i < |tt.active| ==> tt.active[i] != GRAVWELL_TAG)
  }

  /** Reversing undoes translating, both ways. */
  lemma ReverseTranslate(tt: TagTrans, t: Tag)
    requires Distinct(tt)
    ensures Translate(tt, t).Some? ==> Reverse(tt, Translate(tt, t).value) == t
    ensures Translate(tt, Reverse(tt, t)) == Some(t) <==> t == GRAVWELL_TAG || t in tt.active
  {
    if t != GRAVWELL_TAG && t < |tt.active| {
      var i := Find(tt.active, tt.active[t]);
      assert i == t;
    }
    if t in tt.active {
      var j :| 0 <= j < |tt.active| && tt.active[j] == t;
      assert Find(tt.active, t) <= j;
    }
  }

  // The muxer's registry

  /** Every pending tag is known under the id it was registered with. */
  ghost predicate Follows(tt: TagTrans, m: TagMap) {
    && 0 < |tt.active| <= |m|
    && forall k :: 0 <= k < |tt.toNegotiate| ==>
         var u := tt.toNegotiate[k]; u.name in m && m[u.name] == u.local
  }

  /** The pending tags continue the active ones without a gap. */
  ghost predicate InSync(tt: TagTrans, m: TagMap) {
    && |tt.active| + |tt.toNegotiate| == |m|
    && forall k :: 0 <= k < |tt.toNegotiate| ==> tt.toNegotiate[k].local == |tt.active| + k
  }

  lemma FollowsExtend(tt: TagTrans, m: TagMap, name: string)
    requires Follows(tt, m) && name !in m && |m| < MAX_TAG_ID
    ensures var tt' := tt.(toNegotiate := tt.toNegotiate + [Unnegotiated(|m|, name)]);
            && Follows(tt', m[name := |m|])
            && (InSync(tt, m) ==> InSync(tt', m[name := |m|]))
  {
    assert m[name := |m|].Keys == m.Keys + {name};
    assert |m[name := |m|]| == |m[name := |m|].Keys|;
  }

  /** The ids newIngestMuxer hands out: those of the cached map are kept, names
      that are new continue after the largest one, in 16 bits. */
  method AssignIds(cached: TagMap, localTags: seq<string>) returns (m: TagMap)
    requires Dense(cached) && |cached| <= 0x1_0000
    ensures forall n :: n in m <==> n in cached || n in localTags
    ensures forall n :: n in cached ==> m[n] == cached[n]
    ensures Dense(m) <==> |m| <= 0x1_0000
  {
    m := cached;
    var tagNext := FirstFree(cached);
    ghost var names :| Listing(cached, names);
    for i := 0 to |localTags|
      invariant forall j :: 0 <= j < i ==> localTags[j] in m
      invariant forall n :: n in m ==> n in cached || n in localTags
      invariant forall n :: n in cached ==> n in m && m[n] == cached[n]
      invariant Counted(m, names, tagNext)
    {
      var v := localTags[i];
      if v !in m {
        AddedTag(m, names, v, tagNext);
        names := names + [v];
        m := m[v := tagNext];
        tagNext := Inc16(tagNext);
      }
    }
    TooManyForDense(m);
  }

  method FirstFree(cached: TagMap) returns (next: Tag)
    requires Dense(cached) && |cached| <= 0x1_0000
    ensures next == if |cached| == 0x1_0000 then 0 else |cached|
  {
    if |cached| == 0 {
      return 0;
    }
    next := LargestId(cached);
    LargestOfDense(cached, next);
    next := Inc16(next);
  }

  function Inc16(t: Tag): Tag {
    if t == 0xFFFF then 0 else t + 1
  }

  /** next is the id after those in use, as long as 16 bits suffice. */
  ghost predicate Counted(m: TagMap, names: seq<string>, next: Tag) {
    |m| <= 0x1_0000 ==> Listing(m, names) && next == if |m| == 0x1_0000 then 0 else |m|
  }

  method KeyList(m: TagMap) returns (s: seq<string>)
    ensures forall n :: n in s <==> n in m
  {
    s := [];
    var keys := m.Keys;
    while keys != {}
      invariant keys <= m.Keys
      invariant forall n :: n in s <==> n in m && n !in keys
    {
      var n :| n in keys;
      s := s + [n];
      keys := keys - {n};
    }
  }

  lemma AddedTag(m: TagMap, names: seq<string>, v: string, next: Tag)
    requires v !in m && Counted(m, names, next)
    ensures Counted(m[v := next], names + [v], Inc16(next))
  {
    var m' := m[v := next];
    assert m'.Keys == m.Keys + {v};
    assert |m'| == |m'.Keys| == |m| + 1;
    if |m| < 0x1_0000 {
      ListingExtend(m, names, v);
    }
  }

  lemma TooManyForDense(m: TagMap)
    requires |m| <= 0x1_0000 ==> Dense(m)
    ensures Dense(m) <==> |m| <= 0x1_0000
  {
    if |m| > 0x1_0000 {
      forall names ensures !Listing(m, names) {
        assert |names| > 0x1_0000 && names[0x1_0000] in m ==> m[names[0x1_0000]] != 0x1_0000;
      }
    }
  }

  /** newTagTrans: the translation table for a connection whose indexer answers
      with these ids. A local id equal to the number of tags slips through the
      check and indexes past the end of the table. */
  method NewTagTrans(m: TagMap, server: TagMap) returns (r: Result<TagTrans, TagError>)
    requires |m| <= MAX_TAG_ID
    ensures r.Ok? <==> |m| > 0 && (forall n :: n in m ==> m[n] < |m| && n in server)
    ensures r.Ok? ==> |r.value.active| == |m| && r.value.toNegotiate == []
    ensures r.Ok? && Dense(m) ==> forall n :: n in m ==> r.value.active[m[n]] == server[n]
    ensures r == Err(IndexOutOfRange) ==> HasId(m, |m|)
  {
    var active: seq<Tag> := seq(|m|, _ => 0);
    if |active| == 0 {
      return Err(TagMapInvalid);
    }
    ghost var names := if Dense(m) then (var s :| Listing(m, s); s) else [];
    var rest := m.Keys;
    while rest != {}
      invariant rest <= m.Keys && |active| == |m|
      invariant forall n :: n in m && n !in rest ==> m[n] < |m| && n in server
      invariant Listing(m, names) ==> forall n :: n in m && n !in rest ==> active[m[n]] == server[n]
    {
      var k :| k in rest;
      var v := m[k];
      if v > |active| {
        return Err(TagMapInvalid);
      }
      if k !in server {
        return Err(TagNotFound);
      }
      if v == |active| {
        return Err(IndexOutOfRange);
      }
      active := active[v := server[k]];
      rest := rest - {k};
    }
    assert |m| > 0;
    return Ok(TagTrans(active, []));
  }

  class TagRegistry {
    var tagMap: TagMap
    var tags: seq<string>
    const tc: TagMask
    var translators: seq<Option<TagTrans>>   // one per destination
    ghost var whole: set<nat>                // installed before any tag was missed
    ghost var names: seq<string>             // the names in the order of their ids

    ghost predicate Valid()
      reads this, tc.bits
    {
      && tc.Valid()
      && Listing(tagMap, names) && 0 < |tagMap| <= MAX_TAG_ID
      && (forall t: Tag :: tc.Has(t) <==> t < |tagMap|)
      && (forall n :: n in tags <==> n in tagMap)
      && (forall k :: 0 <= k < |translators| && translators[k].Some? ==> Follows(translators[k].value, tagMap))
      && (forall k :: k in whole ==> k < |translators| && translators[k].Some? && InSync(translators[k].value, tagMap))
    }

    constructor (cached: TagMap, localTags: seq<string>, dests: nat)
      requires Dense(cached)
      requires 0 < |cached.Keys + (set n | n in localTags)| <= MAX_TAG_ID
      ensures Valid() && fresh(tc) && fresh(tc.bits)
      ensures tagMap.Keys == cached.Keys + (set n | n in localTags)
      ensures forall n :: n in cached ==> tagMap[n] == cached[n]
    {
      assert |cached| == |cached.Keys| <= MAX_TAG_ID by {
        SubsetSize(cached.Keys, cached.Keys + (set n | n in localTags));
      }
      var m := AssignIds(cached, localTags);
      var taglist := KeyList(m);
      assert m.Keys == cached.Keys + (set n | n in localTags);
      assert |m| == |m.Keys|;
      var mask := MaskOf(m);
      tagMap, tags, tc := m, taglist, mask;
      translators := seq(dests, _ => None);
      whole := {};
      ghost var listed :| Listing(m, listed);
      names := listed;
      ListingIds(m, listed);
      new;
    }

    static method MaskOf(m: TagMap) returns (mask: TagMask)
      ensures fresh(mask) && fresh(mask.bits) && mask.Valid()
      ensures forall t: Tag :: mask.Has(t) <==> HasId(m, t)
    {
      mask := new TagMask();
      var keys := m.Keys;
      while keys != {}
        invariant keys <= m.Keys && mask.Valid() && fresh(mask.bits)
        invariant forall t: Tag :: mask.Has(t) <==> exists n :: n in m && n !in keys && m[n] == t
      {
        var n :| n in keys;
        mask.Add(m[n]);
        keys := keys - {n};
      }
    }

    /** NegotiateTag */
    method NegotiateTag(name: string, wellFormed: bool) returns (r: Result<Tag, TagError>)
      requires Valid()
      modifies this`tagMap, this`tags, this`translators, this`names, tc.bits
      ensures Valid() && whole == old(whole) && old(names) <= names && |translators| == old(|translators|)
      ensures r == if !wellFormed then Err(BadName)
                   else if old(|tagMap|) >= MAX_TAG_ID then Err(TooManyTags)
                   else if name in old(tagMap) then Ok(old(tagMap)[name])
                   else Ok(old(|tagMap|))
      ensures tagMap == if r.Ok? then old(tagMap)[name := r.value] else old(tagMap)
    {
      if !wellFormed {
        return Err(BadName);
      } else if |tagMap| >= MAX_TAG_ID {
        return Err(TooManyTags);
      } else if name in tagMap {
        assert tagMap == tagMap[name := tagMap[name]];
        return Ok(tagMap[name]);
      }
      var tg := NextId(tagMap);
      AddTag(name, tg);
      return Ok(tg);
    }

    method AddTag(name: string, tg: Tag)
      requires Valid() && name !in tagMap && tg == |tagMap| < MAX_TAG_ID
      modifies this`tagMap, this`tags, this`translators, this`names, tc.bits
      ensures Valid() && |translators| == old(|translators|)
      ensures tagMap == old(tagMap)[name := tg] && names == old(names) + [name]
    {
      tags, names := tags + [name], names + [name];
      ListingExtend(tagMap, names[..|names| - 1], name);
      ghost var m := tagMap;
      tagMap := tagMap[name := tg];
      tc.Add(tg);
      RegisterEverywhere(name, tg, m);
    }

    /** The loop over the installed translators. */
    method RegisterEverywhere(name: string, tg: Tag, ghost m: TagMap)
      requires name !in m && tg == |m| < MAX_TAG_ID && tagMap == m[name := tg]
      requires forall k :: 0 <= k < |translators| && translators[k].Some? ==> Follows(translators[k].value, m)
      requires forall k :: k in whole ==> k < |translators| && translators[k].Some? && InSync(translators[k].value, m)
      modifies this`translators
      ensures |translators| == old(|translators|)
      ensures forall k :: 0 <= k < |translators| && translators[k].Some? ==> Follows(translators[k].value, tagMap)
      ensures forall k :: k in whole ==>
                k < |translators| && translators[k].Some? && InSync(translators[k].value, tagMap)
    {
      for k := 0 to |translators|
        invariant |translators| == old(|translators|)
        invariant forall j :: 0 <= j < k && translators[j].Some? ==> Follows(translators[j].value, tagMap)
        invariant forall j :: k <= j < |translators| ==> translators[j] == old(translators)[j]
        invariant forall j :: 0 <= j < |translators| ==> (translators[j].Some? <==> old(translators)[j].Some?)
        invariant forall j :: j in whole && j < k ==> InSync(translators[j].value, tagMap)
      {
        if translators[k].Some? {
          var tt := translators[k].value;
          FollowsExtend(tt, m, name);
          assert !HasTag(tt, tg);
          var r := RegisterForNegotiation(tt, name, tg);
          translators := translators[k := Some(r.value)];
        }
      }
    }

    /** A connection becomes usable. Its table may be older than the tag map. */
    method Install(k: nat, tt: TagTrans)
      requires Valid() && k < |translators| && Follows(tt, tagMap) && tt.toNegotiate == []
      modifies this`translators, this`whole
      ensures Valid() && translators == old(translators)[k := Some(tt)]
      ensures whole == if |tt.active| == |tagMap| then old(whole) + {k} else old(whole) - {k}
    {
      translators := translators[k := Some(tt)];
      whole := if |tt.active| == |tagMap| then whole + {k} else whole - {k};
    }

    method Uninstall(k: nat)
      requires Valid() && k < |translators|
      modifies this`translators, this`whole
      ensures Valid() && translators == old(translators)[k := None] && whole == old(whole) - {k}
    {
      translators := translators[k := None];
      whole := whole - {k};
    }

    /** One round of the loop in translateTag: the indexer has answered with an
        id for the oldest pending tag. */
    method NegotiatePending(k: nat, remote: Tag) returns (err: Option<TagError>)
      requires Valid() && k < |translators| && translators[k].Some? && translators[k].value.toNegotiate != []
      modifies this`translators
      ensures Valid() && |translators| == old(|translators|)
      ensures k in whole ==> err == None
      ensures var tt := old(translators)[k].value;
              if tt.toNegotiate[0].local == |tt.active|
              then err == None && translators == old(translators)[k := Some(Negotiated(tt, remote))]
              else err == Some(OutOfSync) && translators == old(translators)
    {
      var tt := translators[k].value;
      var u := tt.toNegotiate[0];
      var r := RegisterTag(tt, u.local, remote);
      match r {
        case Err(e) => return Some(e);
        case Ok(next) =>
          var done := ClearToNegotiate(next, 1);
          assert done == Negotiated(tt, remote);
          translators := translators[k := Some(done)];
          return None;
      }
    }
  }

  lemma SubsetSize<T>(a: set<T>, b: set<T>)
    requires a <= b
    ensures |a| <= |b|
  {
    assert b == a + (b - a);
  }

  /** NegotiateTag's choice of id, one more than the largest, keeps the ids dense
      exactly when there is a tag already. */
  lemma NextIdKeepsDense(m: TagMap, name: string, largest: Tag)
    requires Dense(m) && name !in m && |m| < MAX_TAG_ID
    requires forall n :: n in m ==> m[n] <= largest
    requires if m == map[] then largest == 0 else HasId(m, largest)
    ensures largest + 1 < 0x1_0000
    ensures Dense(m[name := largest + 1]) <==> m != map[]
  {
    if m != map[] {
      LargestOfDense(m, largest);
      var names :| Listing(m, names);
      ListingExtend(m, names, name);
    } else {
      var m' := m[name := 1];
      assert m' == map[name := 1];
      assert m'[name] == 1 && |m'| == 1;
    }
  }
}
