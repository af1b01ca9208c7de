/** On which texts the lines returned do not depend on how reads cut them. */
module LineSplits {
  import opened LineReaders

  function TotalLength(ls: seq<string>): nat {
    if ls == [] then 0 else TotalLength(ls[..|ls| - 1]) + |ls[|ls| - 1]|
  }

  lemma LengthSnoc(ls: seq<string>, l: string)
    ensures TotalLength(ls + [l]) == TotalLength(ls) + |l|
  {
    assert (ls + [l])[..|ls|] == ls;
  }

  /** What a read contributes to the lines. */
  function Gain(x: Read): nat {
    if x.Chunk? then |Trim(x.b)| else 0
  }

  function Gains(trace: seq<Read>): nat {
    if trace == [] then 0 else Gains(trace[..|trace| - 1]) + Gain(trace[|trace| - 1])
  }

  lemma {:induction false} GainsAppend(a: seq<Read>, b: seq<Read>)
    ensures Gains(a + b) == Gains(a) + Gains(b)
    decreases |b|
  {
    if b == [] {
      assert a + b == a;
    } else {
      assert (a + b)[..|a + b| - 1] == a + b[..|b| - 1];
      GainsAppend(a, b[..|b| - 1]);
    }
  }

  lemma TakeGains(r: Reading, x: Read)
    ensures var r' := Take(r, x);
            TotalLength(r'.lines) + |r'.cur| == TotalLength(r.lines) + |r.cur| + Gain(x)
  {
    LengthSnoc(r.lines, r.cur);
    if x.Chunk? {
      LengthSnoc(r.lines, r.cur + Trim(x.b));
    }
  }

  /** Every character that survives trimming ends up in a line. */
  lemma {:induction false} LinesGain(trace: seq<Read>)
    ensures var r := Process(trace); TotalLength(r.lines) + |r.cur| == Gains(trace)
  {
    if trace != [] {
      LinesGain(trace[..|trace| - 1]);
      TakeGains(Process(trace[..|trace| - 1]), trace[|trace| - 1]);
    }
  }

  /** A text read one character at a time. */
  function Singles(c: string): (trace: seq<Read>)
    ensures |trace| == |c| && forall i :: 0 <= i < |c| ==> trace[i] == Chunk([c[i]])
  {
    seq(|c|, i requires 0 <= i < |c| => Chunk([c[i]]))
  }

  lemma {:induction false} SinglesBytes(c: string)
    ensures BytesOf(Singles(c)) == c && Chunks(Singles(c)) && FlushFree(Singles(c))
  {
    if c != [] {
      var front := c[..|c| - 1];
      assert Singles(c)[..|c| - 1] == Singles(front);
      SinglesBytes(front);
    }
  }

  predicate Complete(c: string) {
    c == [] || c[|c| - 1] == LF
  }

  /** A newline finishes the line at hand. */
  lemma EndsWithNewline(trace: seq<Read>)
    requires trace != [] && trace[|trace| - 1] == Chunk([LF])
    ensures Process(trace).cur == []
  {
    assert Trim([LF]) == [];
  }

  lemma SinglesAppend(a: string, b: string)
    ensures Singles(a + b) == Singles(a) + Singles(b)
  {
  }

  /** A text p + u + q read one character at a time, except that u arrives at once. */
  function Together(p: string, u: string, q: string): seq<Read> {
    Singles(p) + [Chunk(u)] + Singles(q)
  }

  lemma TogetherReads(p: string, u: string, q: string)
    requires IsChunk(Chunk(u))
    ensures var trace := Together(p, u, q); BytesOf(trace) == p + u + q && Chunks(trace) && FlushFree(trace)
  {
    SinglesBytes(p);
    SinglesBytes(q);
    BytesSnoc(Singles(p), Chunk(u));
    BytesAppend(Singles(p) + [Chunk(u)], Singles(q));
  }

  lemma TogetherGains(p: string, u: string, q: string)
    ensures Gains(Together(p, u, q)) == Gains(Singles(p)) + |Trim(u)| + Gains(Singles(q))
  {
    GainsAppend(Singles(p) + [Chunk(u)], Singles(q));
    GainsAppend(Singles(p), [Chunk(u)]);
    OneGain(u);
  }

  lemma OneGain(u: string)
    ensures Gains([Chunk(u)]) == |Trim(u)|
  {
    assert [Chunk(u)][..0] == [];
  }

  lemma ApartGains(p: string, u: string, q: string)
    ensures Gains(Singles(p + u + q)) == Gains(Singles(p)) + Gains(Singles(u)) + Gains(Singles(q))
  {
    SinglesAppend(p + u, q);
    SinglesAppend(p, u);
    GainsAppend(Singles(p) + Singles(u), Singles(q));
    GainsAppend(Singles(p), Singles(u));
  }

  /** Read apart, a carriage return with text after it gets lost. */
  lemma PairGain(x: char)
    requires x != CR && x != LF
    ensures |Trim([CR, x])| == 2 && Gains(Singles([CR, x])) == 1
  {
    assert Trim([CR, x]) == [CR, x] && Trim([x]) == [x];
    assert [CR][..0] == [] && Trim([CR]) == [];
    OneGain([CR]);
    OneGain([x]);
    GainsAppend([Chunk([CR])], [Chunk([x])]);
    assert Singles([CR, x]) == [Chunk([CR])] + [Chunk([x])];
  }

  lemma TwoReadings(p: string, x: char, q: string)
    requires x != CR && x != LF && q != [] && q[|q| - 1] == LF
    ensures Process(Together(p, [CR, x], q)).lines != Process(Singles(p + [CR, x] + q)).lines
  {
    var u, c := [CR, x], p + [CR, x] + q;
    LinesGain(Singles(c));
    LinesGain(Together(p, u, q));
    TogetherGains(p, u, q);
    ApartGains(p, u, q);
    PairGain(x);
    EndsWithNewline(Singles(c));
    EndsWithNewline(Together(p, u, q));
  }

  /** For a complete text, every way of cutting it gives its lines exactly if each
      carriage return is followed by another one or by a newline. */
  lemma SplitInvariantIff(c: string)
    requires Complete(c)
    ensures Settled(c) <==>
            forall trace :: Chunks(trace) && FlushFree(trace) && BytesOf(trace) == c ==>
              Process(trace).lines == Lines(c)
  {
    if Settled(c) {
      forall trace | Chunks(trace) && FlushFree(trace) && BytesOf(trace) == c ensures Process(trace).lines == Lines(c) {
        LinesWhateverTheSplit(trace);
      }
    } else {
      var i :| 0 <= i < |c| - 1 && c[i] == CR && !(c[i + 1] == CR || c[i + 1] == LF);
      var p, u, q := c[..i], [CR, c[i + 1]], c[i + 2..];
      assert c == p + u + q;
      TwoReadings(p, c[i + 1], q);
      SinglesBytes(c);
      TogetherReads(p, u, q);
    }
  }

  /** "a\rb\n" can be read in two ways that give different lines. */
  lemma LoneCarriageReturn()
    ensures Process(Together("a", "\rb", "\n")).lines != Process(Singles("a\rb\n")).lines
    ensures BytesOf(Together("a", "\rb", "\n")) == BytesOf(Singles("a\rb\n")) == "a\rb\n"
  {
    assert "a" + "\rb" + "\n" == "a\rb\n";
    TwoReadings("a", 'b', "\n");
    TogetherReads("a", "\rb", "\n");
    SinglesBytes("a\rb\n");
  }
}
