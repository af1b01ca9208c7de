/** Reading lines from a file that is still being written (filewatch/liner.go). A
    read returns what is there up to the next newline, so a line, and even a "\r\n",
    may arrive in any number of pieces. */
module LineReaders {
  const CR := '\r'
  const LF := '\n'

  // Lines of a text, one character at a time

  /** bytes.TrimRight(b, "\r\n"). */
  function Trim(b: string): (t: string)
    ensures t <= b && (t != [] ==> t[|t| - 1] != CR && t[|t| - 1] != LF)
  {
    if b != [] && (b[|b| - 1] == CR || b[|b| - 1] == LF) then Trim(b[..|b| - 1]) else b
  }

  function NonEmpty(l: string): seq<string> {
    if l == [] then [] else [l]
  }

  /** The non-empty lines of a text that starts with a line already begun. */
  function LinesFrom(begun: string, c: string): seq<string>
    decreases |c|
  {
    if c == [] then []
    else
      var front, last := c[..|c| - 1], c[|c| - 1];
      if last == LF then LinesFrom(begun, front) + NonEmpty(Trim(TailFrom(begun, front)))
      else LinesFrom(begun, front)
  }

  /** What follows the last newline. */
  function TailFrom(begun: string, c: string): string
    decreases |c|
  {
    if c == [] then begun
    else if c[|c| - 1] == LF then []
    else TailFrom(begun, c[..|c| - 1]) + [c[|c| - 1]]
  }

  function Lines(c: string): seq<string> {
    LinesFrom([], c)
  }

  function Tail(c: string): string {
    TailFrom([], c)
  }

  lemma {:induction false} LinesAppend(begun: string, a: string, b: string)
    ensures LinesFrom(begun, a + b) == LinesFrom(begun, a) + LinesFrom(TailFrom(begun, a), b)
    ensures TailFrom(begun, a + b) == TailFrom(TailFrom(begun, a), b)
    decreases |b|
  {
    if b == [] {
      assert a + b == a;
    } else {
      var front := b[..|b| - 1];
      assert (a + b)[..|a + b| - 1] == a + front;
      LinesAppend(begun, a, front);
    }
  }

  // What the reader makes of its reads

  /** A read of the file, or the demand for what is left of an unfinished line. */
  datatype Read = Chunk(b: string) | Flush

  /** Lines returned so far, and the line being put together. */
  datatype Reading = Reading(lines: seq<string>, cur: string)

  function Finish(r: Reading): Reading {
    if r.cur == [] then r else Reading(r.lines + [r.cur], [])
  }

  /** t is what a chunk leaves after trimming, ended whether it had a newline. */
  function Add(r: Reading, t: string, ended: bool): Reading {
    if t == [] then Finish(r)
    else if !ended then Reading(r.lines, r.cur + t)
    else Reading(r.lines + [r.cur + t], [])
  }

  function Take(r: Reading, x: Read): Reading {
    match x
    case Flush => Finish(r)
    case Chunk(b) => Add(r, Trim(b), b != [] && b[|b| - 1] == LF)
  }

  function Continue(r: Reading, trace: seq<Read>): Reading {
    if trace == [] then r else Take(Continue(r, trace[..|trace| - 1]), trace[|trace| - 1])
  }

  function Process(trace: seq<Read>): Reading {
    Continue(Reading([], []), trace)
  }

  lemma ProcessSnoc(trace: seq<Read>, x: Read)
    ensures Process(trace + [x]) == Take(Process(trace), x)
  {
    assert (trace + [x])[..|trace + [x]| - 1] == trace;
  }

  lemma {:induction false} ContinueAppend(r: Reading, a: seq<Read>, b: seq<Read>)
    ensures Continue(r, a + b) == Continue(Continue(r, a), b)
    decreases |b|
  {
    if b == [] {
      assert a + b == a;
    } else {
      var front := b[..|b| - 1];
      assert (a + b)[..|a + b| - 1] == a + front && (a + b)[|a + b| - 1] == b[|b| - 1];
      ContinueAppend(r, a, front);
    }
  }

  function BytesOf(trace: seq<Read>): string {
    if trace == [] then []
    else
      var x := trace[|trace| - 1];
      BytesOf(trace[..|trace| - 1]) + if x.Chunk? then x.b else []
  }

  lemma BytesSnoc(trace: seq<Read>, x: Read)
    ensures BytesOf(trace + [x]) == BytesOf(trace) + if x.Chunk? then x.b else []
  {
    assert (trace + [x])[..|trace + [x]| - 1] == trace;
  }

  lemma {:induction false} BytesAppend(a: seq<Read>, b: seq<Read>)
    ensures BytesOf(a + b) == BytesOf(a) + BytesOf(b)
    decreases |b|
  {
    if b == [] {
      assert a + b == a;
    } else {
      var front := b[..|b| - 1];
      assert (a + b)[..|a + b| - 1] == a + front && (a + b)[|a + b| - 1] == b[|b| - 1];
      BytesAppend(a, front);
    }
  }

  /** A read ends at the first newline, if it reaches one. */
  predicate IsChunk(x: Read) {
    x.Chunk? ==> x.b != [] && forall i :: 0 <= i < |x.b| - 1 ==> x.b[i] != LF
  }

  predicate Chunks(trace: seq<Read>) {
    forall i :: 0 <= i < |trace| ==> IsChunk(trace[i])
  }

  predicate FlushFree(trace: seq<Read>) {
    forall i :: 0 <= i < |trace| ==> trace[i].Chunk?
  }

  // Texts whose carriage returns all belong to line ends

  /** Every carriage return that something follows is followed by another one or
      by a newline. */
  predicate Settled(c: string) {
    forall i :: 0 <= i < |c| - 1 && c[i] == CR ==> c[i + 1] == CR || c[i + 1] == LF
  }

  /** The same, and none is left at the end. */
  predicate Tame(c: string) {
    Settled(c) && (c != [] ==> c[|c| - 1] != CR)
  }

  predicate AllCR(x: string) {
    forall i :: 0 <= i < |x| ==> x[i] == CR
  }

  predicate NoLF(x: string) {
    forall i :: 0 <= i < |x| ==> x[i] != LF
  }

  lemma {:induction false} TrimEnds(x: string, ends: string)
    requires forall i :: 0 <= i < |ends| ==> ends[i] == CR || ends[i] == LF
    requires x == [] || (x[|x| - 1] != CR && x[|x| - 1] != LF)
    ensures Trim(x + ends) == x
    decreases |ends|
  {
    if ends == [] {
      assert x + ends == x;
    } else {
      var front := ends[..|ends| - 1];
      assert (x + ends)[..|x + ends| - 1] == x + front;
      TrimEnds(x, front);
    }
  }

  lemma {:induction false} TrimRest(b: string, i: nat)
    requires |Trim(b)| <= i < |b|
    ensures b[i] == CR || b[i] == LF
    decreases |b|
  {
    if i < |b| - 1 {
      TrimRest(b[..|b| - 1], i);
    }
  }

  /** Trimming looks no further than the last character of the line. */
  lemma TrimAppend(t: string, x: string)
    ensures Trim(x) != [] ==> Trim(t + x) == t + Trim(x)
    ensures Trim(x) == [] ==> Trim(t + x) == Trim(t)
  {
    var keep := if Trim(x) == [] then Trim(t) else t + Trim(x);
    var ends := (t + x)[|keep|..];
    assert keep + ends == t + x;
    forall i | 0 <= i < |ends| ensures ends[i] == CR || ends[i] == LF {
      if |keep| + i >= |t| {
        TrimRest(x, |keep| + i - |t|);
      } else {
        TrimRest(t, |keep| + i);
      }
    }
    TrimEnds(keep, ends);
  }

  lemma {:induction false} NoLineEnds(begun: string, x: string)
    requires NoLF(x)
    ensures LinesFrom(begun, x) == [] && TailFrom(begun, x) == begun + x
    decreases |x|
  {
    if x == [] {
      assert begun + x == begun;
    } else {
      NoLineEnds(begun, x[..|x| - 1]);
      assert begun + x == begun + x[..|x| - 1] + [x[|x| - 1]];
    }
  }

  lemma {:induction false} TailIsSuffix(c: string)
    ensures |Tail(c)| <= |c| && Tail(c) == c[|c| - |Tail(c)|..] && NoLF(Tail(c))
  {
    if c != [] && c[|c| - 1] != LF {
      TailIsSuffix(c[..|c| - 1]);
    }
  }

  lemma {:induction false} CRsGoOn(c: string, i: nat, j: nat)
    requires Settled(c) && NoLF(c) && i <= j < |c| && c[i] == CR
    ensures c[j] == CR
    decreases j
  {
    if i < j {
      CRsGoOn(c, i, j - 1);
    }
  }

  /** Nothing but carriage returns can follow one within a line. */
  lemma AfterCR(t: string, x: string)
    requires Settled(t + x) && NoLF(t + x) && t != [] && t[|t| - 1] == CR
    ensures Trim(x) == []
  {
    forall i | 0 <= i < |x| ensures x[i] == CR {
      CRsGoOn(t + x, |t| - 1, |t| + i);
    }
    assert [] + x == x;
    TrimEnds([], x);
  }

  // The reader agrees with the text, however it is cut

  /** Normally the reader has returned the lines of p and holds what follows the
      last newline. If p stops within a line end it may have returned that line
      already. */
  predicate Agrees(p: string, r: Reading) {
    || (r.lines == Lines(p) && r.cur == Trim(Tail(p)))
    || Early(p, r)
  }

  predicate Early(p: string, r: Reading) {
    p != [] && p[|p| - 1] == CR && r.cur == [] && Trim(Tail(p)) != [] && r.lines == Lines(p) + [Trim(Tail(p))]
  }

  /** A chunk without its newline. */
  function Body(b: string): string
    requires b != []
  {
    if b[|b| - 1] == LF then b[..|b| - 1] else b
  }

  lemma ChunkLines(p: string, b: string)
    requires IsChunk(Chunk(b)) && b != []
    ensures NoLF(Body(b)) && Trim(b) == Trim(Body(b))
    ensures b[|b| - 1] == LF ==>
              Lines(p + b) == Lines(p) + NonEmpty(Trim(Tail(p) + Body(b))) && Tail(p + b) == []
    ensures b[|b| - 1] != LF ==> Lines(p + b) == Lines(p) && Tail(p + b) == Tail(p) + Body(b)
  {
    LinesAppend([], p, b);
    ChunkFrom(Tail(p), b);
  }

  lemma ChunkFrom(begun: string, b: string)
    requires IsChunk(Chunk(b)) && b != []
    ensures NoLF(Body(b)) && Trim(b) == Trim(Body(b))
    ensures b[|b| - 1] == LF ==> LinesFrom(begun, b) == NonEmpty(Trim(begun + Body(b))) && TailFrom(begun, b) == []
    ensures b[|b| - 1] != LF ==> LinesFrom(begun, b) == [] && TailFrom(begun, b) == begun + Body(b)
  {
    NoLineEnds(begun, Body(b));
    if b[|b| - 1] == LF {
      assert LinesFrom(begun, b) == LinesFrom(begun, Body(b)) + NonEmpty(Trim(TailFrom(begun, Body(b))));
    }
  }

  /** One read, in terms of the unfinished line t, the text x of the chunk and
      their trimmed forms. */
  lemma AddCore(lines: seq<string>, t: string, tt: string, tx: string, ttx: string, cr: bool, ended: bool, r: Reading)
    requires (r.lines == lines && r.cur == tt) || (cr && r.cur == [] && tt != [] && r.lines == lines + [tt])
    requires tx != [] ==> ttx == t + tx && tt == t && !cr
    requires tx == [] ==> ttx == tt
    ensures var r' := Add(r, tx, ended);
            if ended then r'.lines == lines + NonEmpty(ttx) && r'.cur == []
            else || (r'.lines == lines && r'.cur == ttx)
                 || (tx == [] && ttx != [] && r'.lines == lines + [ttx] && r'.cur == [])
  {
    assert lines + [] == lines;
  }

  lemma TakeAgrees(p: string, b: string, r: Reading)
    requires IsChunk(Chunk(b)) && b != [] && Settled(p + b) && Agrees(p, r)
    ensures Agrees(p + b, Take(r, Chunk(b)))
  {
    var t, x := Tail(p), Body(b);
    var cr := p != [] && p[|p| - 1] == CR;
    ChunkLines(p, b);
    TrimAppend(t, x);
    if Trim(x) != [] {
      TrimmedParts(p, b);
    }
    AddCore(Lines(p), t, Trim(t), Trim(x), Trim(t + x), cr, b[|b| - 1] == LF, r);
    if Trim(x) == [] && b[|b| - 1] != LF {
      TrimRest(b, |b| - 1);
    }
  }

  lemma TrimmedParts(p: string, b: string)
    requires IsChunk(Chunk(b)) && b != [] && Settled(p + b) && Trim(Body(b)) != []
    ensures Trim(Tail(p)) == Tail(p) && !(p != [] && p[|p| - 1] == CR)
  {
    var t := Tail(p);
    LineSettled(p, b);
    if t != [] && t[|t| - 1] == CR {
      AfterCR(t, Body(b));
    }
  }

  lemma LineSettled(p: string, b: string)
    requires b != [] && IsChunk(Chunk(b)) && Settled(p + b)
    ensures Settled(Tail(p) + Body(b)) && NoLF(Tail(p) + Body(b))
    ensures p != [] && p[|p| - 1] == CR ==> Tail(p) != [] && Tail(p)[|Tail(p)| - 1] == CR
  {
    TailIsSuffix(p);
    var k := |p| - |Tail(p)|;
    var s := Tail(p) + Body(b);
    forall i | 0 <= i < |s| - 1 && s[i] == CR ensures s[i + 1] == CR || s[i + 1] == LF {
      assert (p + b)[k + i] == s[i] && (p + b)[k + i + 1] == s[i + 1];
    }
  }

  lemma {:induction false} AnySplitAgrees(trace: seq<Read>)
    requires Chunks(trace) && FlushFree(trace) && Settled(BytesOf(trace))
    ensures Agrees(BytesOf(trace), Process(trace))
  {
    if trace != [] {
      var front, x := trace[..|trace| - 1], trace[|trace| - 1];
      assert BytesOf(trace) == BytesOf(front) + x.b;
      assert Settled(BytesOf(front)) by {
        forall i | 0 <= i < |BytesOf(front)| - 1 && BytesOf(front)[i] == CR
          ensures BytesOf(front)[i + 1] == CR || BytesOf(front)[i + 1] == LF
        {
          assert BytesOf(trace)[i] == BytesOf(front)[i] && BytesOf(trace)[i + 1] == BytesOf(front)[i + 1];
        }
      }
      AnySplitAgrees(front);
      TakeAgrees(BytesOf(front), x.b, Process(front));
    }
  }

  /** However the writing and reading of a text interleave, the lines returned are
      its non-empty lines, in order. */
  lemma LinesWhateverTheSplit(trace: seq<Read>)
    requires Chunks(trace) && FlushFree(trace) && Tame(BytesOf(trace))
    ensures Process(trace).lines == Lines(BytesOf(trace))
  {
    AnySplitAgrees(trace);
  }

  // Resuming

  function Strip(c: string): string {
    if c == [] then []
    else
      var x := c[|c| - 1];
      if x == CR || x == LF then Strip(c[..|c| - 1]) else Strip(c[..|c| - 1]) + [x]
  }

  function Joined(ls: seq<string>): string {
    if ls == [] then [] else Joined(ls[..|ls| - 1]) + ls[|ls| - 1]
  }

  lemma JoinedSnoc(ls: seq<string>, l: string)
    ensures Joined(ls + [l]) == Joined(ls) + l
  {
    assert (ls + [l])[..|ls|] == ls;
  }

  lemma {:induction false} StripAppend(a: string, b: string)
    ensures Strip(a + b) == Strip(a) + Strip(b)
    decreases |b|
  {
    if b == [] {
      assert a + b == a;
    } else {
      assert (a + b)[..|a + b| - 1] == a + b[..|b| - 1];
      StripAppend(a, b[..|b| - 1]);
    }
  }

  lemma {:induction false} StripText(x: string)
    requires forall i :: 0 <= i < |x| ==> x[i] != CR && x[i] != LF
    ensures Strip(x) == x
  {
    if x != [] {
      StripText(x[..|x| - 1]);
      assert x == x[..|x| - 1] + [x[|x| - 1]];
    }
  }

  /** In a settled chunk trimming removes every carriage return and newline. */
  lemma {:induction false} TrimIsStrip(b: string)
    requires Settled(b) && forall i :: 0 <= i < |b| - 1 ==> b[i] != LF
    ensures Trim(b) == Strip(b)
  {
    if b != [] && (b[|b| - 1] == CR || b[|b| - 1] == LF) {
      TrimIsStrip(b[..|b| - 1]);
    } else {
      forall i | 0 <= i < |b| ensures b[i] != CR && b[i] != LF {
        if b[i] == CR {
          CRsGoOn(b, i, |b| - 1);
        }
      }
      StripText(b);
    }
  }

  lemma SettledParts(a: string, b: string)
    requires Settled(a + b)
    ensures Settled(a) && Settled(b)
  {
    forall i | 0 <= i < |a| - 1 && a[i] == CR ensures a[i + 1] == CR || a[i + 1] == LF {
      assert (a + b)[i] == CR && (a + b)[i + 1] == a[i + 1];
    }
    forall i | 0 <= i < |b| - 1 && b[i] == CR ensures b[i + 1] == CR || b[i + 1] == LF {
      assert (a + b)[|a| + i] == CR && (a + b)[|a| + i + 1] == b[i + 1];
    }
  }

  /** The lines returned and the one at hand are what was read, without its line
      ends, also when unfinished lines were demanded. */
  lemma {:induction false} NothingSkipped(trace: seq<Read>)
    requires Chunks(trace) && Settled(BytesOf(trace))
    ensures var r := Process(trace); Joined(r.lines) + r.cur == Strip(BytesOf(trace))
  {
    if trace != [] {
      var front, x := trace[..|trace| - 1], trace[|trace| - 1];
      var b := if x.Chunk? then x.b else [];
      SettledParts(BytesOf(front), b);
      NothingSkipped(front);
      TakeJoins(Process(front), x);
      StripAppend(BytesOf(front), b);
    }
  }

  lemma TakeJoins(r: Reading, x: Read)
    requires IsChunk(x) && (x.Chunk? ==> Settled(x.b))
    ensures var r' := Take(r, x);
            Joined(r'.lines) + r'.cur == Joined(r.lines) + r.cur + Strip(if x.Chunk? then x.b else [])
  {
    JoinedSnoc(r.lines, r.cur);
    if x.Chunk? {
      TrimIsStrip(x.b);
      JoinedSnoc(r.lines, r.cur + Trim(x.b));
    }
  }

  /** The newline that ends the line end at the front of q. */
  lemma LineEndOf(t: string, q: string) returns (k: nat)
    requires Tame(t + q) && t != [] && t[|t| - 1] == CR
    ensures k < |q| && q[k] == LF && AllCR(q[..k])
  {
    assert (t + q)[|t| - 1] == CR;
    assert |t + q| > |t| && (t + q)[|t|] == q[0];
    k := 0;
    while q[k] != LF
      invariant k < |q| && AllCR(q[..k]) && (q[k] == CR || q[k] == LF)
      decreases |q| - k
    {
      assert (t + q)[|t| + k] == CR;
      k := k + 1;
      assert (t + q)[|t| + k] == q[k];
    }
  }

  lemma EndOfLine(t: string, crs: string)
    requires AllCR(crs)
    ensures LinesFrom(t, crs + [LF]) == NonEmpty(Trim(t)) && TailFrom(t, crs + [LF]) == []
  {
    var b := crs + [LF];
    ChunkFrom(t, b);
    assert Body(b) == crs && [] + crs == crs;
    TrimEnds([], crs);
    TrimAppend(t, crs);
  }

  lemma AfterLineEnd(t: string, crs: string, rest: string)
    requires AllCR(crs)
    ensures LinesFrom(t, crs + [LF] + rest) == NonEmpty(Trim(t)) + Lines(rest)
  {
    EndOfLine(t, crs);
    LinesAppend(t, crs + [LF], rest);
  }

  /** A new reader that starts within a line end sees the lines after it. */
  lemma ResumeInLineEnd(t: string, q: string)
    requires Tame(t + q) && t != [] && t[|t| - 1] == CR
    ensures LinesFrom(t, q) == NonEmpty(Trim(t)) + Lines(q)
  {
    var k := LineEndOf(t, q);
    var crs, rest := q[..k], q[k + 1..];
    assert q == crs + [LF] + rest;
    AfterLineEnd(t, crs, rest);
    AfterLineEnd([], crs, rest);
    assert NonEmpty(Trim([])) + Lines(rest) == Lines(rest);
  }

  /** Whenever the reader holds no unfinished line, a new reader started there
      returns exactly the lines of the text not returned so far. */
  lemma Resumes(trace: seq<Read>, q: string)
    requires Chunks(trace) && FlushFree(trace) && Tame(BytesOf(trace) + q) && Process(trace).cur == []
    ensures Lines(BytesOf(trace) + q) == Process(trace).lines + Lines(q)
  {
    var p := BytesOf(trace);
    SettledParts(p, q);
    AnySplitAgrees(trace);
    ResumesAt(p, Process(trace), q);
  }

  lemma ResumesAt(p: string, r: Reading, q: string)
    requires Agrees(p, r) && r.cur == [] && Tame(p + q)
    ensures Lines(p + q) == r.lines + Lines(q)
  {
    var t := Tail(p);
    LinesAppend([], p, q);
    TailEnds(p, q);
    LinesSoFar(p, r);
    if t != [] {
      ResumeInLineEnd(t, q);
    }
    Regroup(Lines(p), NonEmpty(Trim(t)), Lines(q));
  }

  lemma LinesSoFar(p: string, r: Reading)
    requires Agrees(p, r) && r.cur == []
    ensures r.lines == Lines(p) + NonEmpty(Trim(Tail(p)))
  {
    assert Lines(p) + [] == Lines(p);
  }

  lemma Regroup(a: seq<string>, b: seq<string>, c: seq<string>)
    ensures (a + b) + c == a + (b + c)
    ensures [] + c == c
  {
  }

  lemma TailEnds(p: string, q: string)
    requires Tame(p + q)
    ensures Tame(Tail(p) + q)
    ensures Tail(p) != [] && Trim(Tail(p)) == [] ==> Tail(p)[|Tail(p)| - 1] == CR
    ensures p != [] && p[|p| - 1] == CR ==> Tail(p) != [] && Tail(p)[|Tail(p)| - 1] == CR
  {
    TailIsSuffix(p);
    var t := Tail(p);
    var a := p[..|p| - |t|];
    assert a + (t + q) == p + q;
    SettledParts(a, t + q);
    if t != [] && Trim(t) == [] {
      TrimRest(t, |t| - 1);
    }
  }

  // The reader

  function Flat(ws: seq<string>): string {
    if ws == [] then [] else ws[0] + Flat(ws[1..])
  }

  lemma OneMore(file: string, start: nat, idx: nat, trace: seq<Read>, b: string)
    requires start <= idx <= idx + |b| <= |file| && b == file[idx..idx + |b|] && IsChunk(Chunk(b))
    requires Chunks(trace) && BytesOf(trace) == file[start..idx]
    ensures var next := trace + [Chunk(b)];
            && Chunks(next) && (FlushFree(trace) ==> FlushFree(next))
            && BytesOf(next) == file[start..idx + |b|]
            && Process(next) == Take(Process(trace), Chunk(b))
  {
    ProcessSnoc(trace, Chunk(b));
    BytesSnoc(trace, Chunk(b));
    assert file[start..idx] + file[idx..idx + |b|] == file[start..idx + |b|];
  }

  /** A LineReader on a file that other processes append to: `file` is what they
      have written so far, `coming` the writes still to come. */
  class LineReader {
    var file: string
    var coming: seq<string>
    var idx: nat
    var currLine: string
    ghost var start: nat
    ghost var trace: seq<Read>

    /** The reader has made of its reads what Process makes of them. */
    ghost predicate Valid()
      reads this
    {
      && start <= idx <= |file|
      && Chunks(trace) && BytesOf(trace) == file[start..idx]
      && currLine == Process(trace).cur
    }

    ghost function Whole(): string
      reads this
    {
      file + Flat(coming)
    }

    ghost function Left(): int
      reads this
    {
      |Whole()| - idx
    }

    constructor (file: string, coming: seq<string>, startIdx: nat)
      requires startIdx <= |file|
      ensures Valid() && this.file == file && this.coming == coming
      ensures idx == startIdx && start == startIdx && trace == []
    {
      this.file, this.coming, this.idx, this.currLine := file, coming, startIdx, [];
      this.start, this.trace := startIdx, [];
    }

    /** Other processes may write at any moment. */
    method Grow()
      requires Valid()
      modifies this`file, this`coming
      ensures Valid() && old(file) <= file && Whole() == old(Whole())
    {
      var more: bool := *;
      while more && coming != []
        invariant Valid() && old(file) <= file && Whole() == old(Whole())
        decreases |coming|
      {
        assert file + Flat(coming) == file + coming[0] + Flat(coming[1..]);
        ghost var before := file;
        file := file + coming[0];
        coming := coming[1..];
        assert file[start..idx] == before[start..idx];
        more := *;
      }
    }

    /** bufio.Reader.ReadBytes: up to and including the next newline, or what there
        is and the end of the file. */
    method ReadBytes() returns (b: string, eof: bool)
      requires Valid()
      modifies this`file, this`coming
      ensures Valid() && old(file) <= file && Whole() == old(Whole())
      ensures idx + |b| <= |file| && b == file[idx..idx + |b|]
      ensures b != [] ==> IsChunk(Chunk(b))
      ensures eof <==> (b == [] || b[|b| - 1] != LF)
      ensures eof ==> idx + |b| == |file|
    {
      Grow();
      var k := idx;
      while k < |file| && file[k] != LF
        invariant idx <= k <= |file| && forall j :: idx <= j < k ==> file[j] != LF
      {
        k := k + 1;
      }
      if k < |file| {
        b, eof := file[idx..k + 1], false;
      } else {
        b, eof := file[idx..k], true;
      }
    }

    /** Valid, but for the line at hand. */
    ghost predicate InStep()
      reads this
    {
      start <= idx <= |file| && Chunks(trace) && BytesOf(trace) == file[start..idx]
    }

    /** Has gone on from an earlier state, reading only. */
    twostate predicate WentOn()
      reads this
    {
      && start == old(start) && old(file) <= file && Whole() == old(Whole())
      && old(trace) <= trace && (FlushFree(old(trace)) ==> FlushFree(trace)) && old(idx) <= idx
    }

    /** One read, with the index moved past it. */
    method ReadChunk() returns (b: string, eof: bool)
      requires Valid()
      modifies this`file, this`coming, this`idx, this`trace
      ensures InStep() && WentOn()
      ensures eof <==> (b == [] || b[|b| - 1] != LF)
      ensures eof ==> idx == |file|
      ensures b == [] ==> trace == old(trace) && idx == old(idx)
      ensures b != [] ==> old(idx) < idx && Process(trace) == Take(Process(old(trace)), Chunk(b))
    {
      b, eof := ReadBytes();
      if b != [] {
        OneMore(file, start, idx, trace, b);
        trace := trace + [Chunk(b)];
        idx := idx + |b|;
      }
    }

    /** Returns the next line if its end is there. Each call returns at most one line,
        the next of those its reads make, and only the end of the file stops it
        from returning one. */
    method ReadEntry() returns (ln: string, ok: bool, wasEOF: bool)
      requires Valid()
      modifies this
      ensures Valid() && WentOn()
      ensures ok ==> ln != [] && Process(trace).lines == Process(old(trace)).lines + [ln]
      ensures ok ==> currLine == [] && old(idx) < idx
      ensures !ok ==> wasEOF && ln == [] && Process(trace).lines == Process(old(trace)).lines && idx == |file|
    {
      ln, ok, wasEOF := [], false, false;
      while true
        invariant Valid() && WentOn()
        invariant Process(trace).lines == Process(old(trace)).lines
        decreases Left()
      {
        var b, eof := ReadChunk();
        wasEOF := wasEOF || eof;
        if b == [] {
          break;
        }
        var t := Trim(b);
        if t == [] {
          if currLine != [] {
            ln, ok := currLine, true;
            currLine := [];
            return;
          }
        } else if eof {
          currLine := currLine + t;
          break;
        } else {
          ln, ok := currLine + t, true;
          currLine := [];
          return;
        }
      }
    }

    /** Like ReadEntry, but at the end of the file returns even an unfinished line. */
    method ReadRemaining() returns (ln: string)
      requires Valid()
      modifies this
      ensures Valid() && start == old(start) && old(file) <= file && Whole() == old(Whole())
      ensures old(trace) <= trace && old(idx) <= idx && currLine == []
      ensures Process(trace).lines == Process(old(trace)).lines + NonEmpty(ln)
      ensures ln == [] && FlushFree(old(trace)) ==> FlushFree(trace)
    {
      var ok, eof;
      ln, ok, eof := ReadEntry();
      if !ok && currLine != [] {
        ProcessSnoc(trace, Flush);
        BytesSnoc(trace, Flush);
        trace := trace + [Flush];
        ln, currLine := currLine, [];
      }
    }
  }
}
