/** The acknowledgement stream an indexer sends back to an ingester: how one
    command is laid out, how the acknowledgement routine packs commands into a
    fixed buffer, and how the ingester reads them back (ingest/entryReader.go). */
module AckCodec {
  import opened Wrappers

  type byte = x: int | 0 <= x < 0x100
  type uint32 = x: int | 0 <= x < 0x1_0000_0000
  type uint64 = x: int | 0 <= x < 0x1_0000_0000_0000_0000

  const FORCE_ACK: uint32 := 0x1ADF7350
  const CONFIRM_ENTRY: uint32 := 0xF6E0307E
  const THROTTLE: uint32 := 0xBDEACC1E
  const PONG: uint32 := 0x88770008
  const CONFIRM_TAG: uint32 := 0x18675301
  const ERROR_TAG: uint32 := 0x18675302
  const CONFIRM_ID: uint32 := 0x22793401
  const CONFIRM_API_VER: uint32 := 0x22334401
  const CONFIRM_INGEST_OK: uint32 := 0x33445501
  const CONFIRM_INGESTER_STATE: uint32 := 0x44556601
  const CONFIRM_DITTO_BLOCK: uint32 := 0x55667788

  datatype AckCommand = AckCommand(cmd: uint32, val: uint64)

  datatype AckError = UnknownCommand | WriteFailed

  // Little-endian integers

  /** The n low bytes of v, least significant first (binary.LittleEndian). */
  function PutUint(n: nat, v: nat): (s: seq<byte>)
    ensures |s| == n
  {
    if n == 0 then [] else [v % 0x100] + PutUint(n - 1, v / 0x100)
  }

  function GetUint(s: seq<byte>): (v: nat)
    ensures v < Pow256(|s|)
  {
    if s == [] then 0 else s[0] + 0x100 * GetUint(s[1..])
  }

  function Pow256(n: nat): nat {
    if n == 0 then 1 else 0x100 * Pow256(n - 1)
  }

  lemma {:induction false} UintRoundTrip(n: nat, v: nat)
    requires v < Pow256(n)
    ensures GetUint(PutUint(n, v)) == v
  {
    if n > 0 {
      UintRoundTrip(n - 1, v / 0x100);
      assert PutUint(n, v)[1..] == PutUint(n - 1, v / 0x100);
    }
  }

  lemma Pow256Values()
    ensures Pow256(4) == 0x1_0000_0000 && Pow256(8) == 0x1_0000_0000_0000_0000
  {
    assert Pow256(2) == 0x1_0000;
    assert Pow256(4) == 0x1_0000_0000;
    assert Pow256(6) == 0x1_0000_0000_0000;
  }

  function GetUint32(s: seq<byte>): uint32
    requires |s| == 4
  {
    Pow256Values();
    GetUint(s)
  }

  function GetUint64(s: seq<byte>): uint64
    requires |s| == 8
  {
    Pow256Values();
    GetUint(s)
  }

  lemma Uint32RoundTrip(v: uint32)
    ensures GetUint32(PutUint(4, v)) == v
  {
    Pow256Values();
    UintRoundTrip(4, v);
  }

  lemma Uint64RoundTrip(v: uint64)
    ensures GetUint64(PutUint(8, v)) == v
  {
    Pow256Values();
    UintRoundTrip(8, v);
  }

  // One command

  predicate Known(c: uint32) {
    c == FORCE_ACK || c == CONFIRM_ENTRY || Short(c) || Long(c)
  }

  /** Commands that travel as the bare four byte identifier. */
  predicate Short(c: uint32) {
    c == PONG || c == ERROR_TAG || c == CONFIRM_ID || c == CONFIRM_API_VER || c == CONFIRM_INGESTER_STATE
  }

  /** Commands other than a confirmation that carry an eight byte value. */
  predicate Long(c: uint32) {
    c == THROTTLE || c == CONFIRM_TAG || c == CONFIRM_INGEST_OK || c == CONFIRM_DITTO_BLOCK
  }

  /** ackCommand.size: the room a command needs in the buffer. */
  function Size(ac: AckCommand): (n: nat)
    ensures n <= 12
  {
    if ac.cmd == CONFIRM_ENTRY then (if ac.val == 0 then 0 else 12)
    else if Short(ac.cmd) then 4
    else if Long(ac.cmd) then 12
    else 0
  }

  /** The bytes a command contributes to the stream. */
  function Bytes(ac: AckCommand): (s: seq<byte>)
    ensures |s| == Size(ac)
  {
    if Size(ac) == 0 then []
    else if Size(ac) == 4 then PutUint(4, ac.cmd)
    else PutUint(4, ac.cmd) + PutUint(8, ac.val)
  }

  function Stream(acs: seq<AckCommand>): seq<byte> {
    if acs == [] then [] else Bytes(acs[0]) + Stream(acs[1..])
  }

  lemma {:induction false} StreamAppend(a: seq<AckCommand>, b: seq<AckCommand>)
    ensures Stream(a + b) == Stream(a) + Stream(b)
  {
    if a == [] {
      assert a + b == b;
    } else {
      assert (a + b)[1..] == a[1..] + b;
      StreamAppend(a[1..], b);
    }
  }

  lemma StreamSnoc(a: seq<AckCommand>, ac: AckCommand)
    ensures Stream(a + [ac]) == Stream(a) + Bytes(ac)
  {
    StreamAppend(a, [ac]);
    assert Stream([ac]) == Bytes(ac) + Stream([]);
  }

  /** ackCommand.encode into b[off..]. */
  method Encode(ac: AckCommand, b: array<byte>, off: nat) returns (n: nat, flush: bool, err: Option<AckError>)
    requires off + Size(ac) <= b.Length
    modifies b
    ensures err == if Known(ac.cmd) then None else Some(UnknownCommand)
    ensures n == Size(ac)
    ensures b[..off] == old(b[..off]) && b[off..off + n] == Bytes(ac)
    ensures err.None? ==> (flush <==> ac.cmd != CONFIRM_ENTRY || ac.val == 0)
  {
    n, flush, err := 0, false, None;
    if ac.cmd == FORCE_ACK {
      flush := true;
    } else if ac.cmd == CONFIRM_ENTRY {
      if ac.val == 0 {
        flush := true;
        return;
      }
      PutAt(b, off, PutUint(4, ac.cmd) + PutUint(8, ac.val));
      n := 12;
    } else if Short(ac.cmd) {
      PutAt(b, off, PutUint(4, ac.cmd));
      n, flush := 4, true;
    } else if Long(ac.cmd) {
      PutAt(b, off, PutUint(4, ac.cmd) + PutUint(8, ac.val));
      n, flush := 12, true;
    } else {
      err := Some(UnknownCommand);
    }
  }

  method PutAt(b: array<byte>, off: nat, s: seq<byte>)
    requires off + |s| <= b.Length
    modifies b
    ensures b[off..off + |s|] == s && b[..off] == old(b[..off])
  {
    for i := 0 to |s|
      invariant b[off..off + i] == s[..i] && b[..off] == old(b[..off])
    {
      b[off + i] := s[i];
      assert b[off..off + i + 1] == b[off..off + i] + [s[i]];
    }
    assert s[..|s|] == s;
  }

  // Reading commands back

  /** Outcome of ackCommand.decode over the bytes still to be read: the stream
      ended inside a command, the identifier is not one the ingester knows, or a
      command with the value it carried (if its layout carries one). */
  datatype Decoded = NeedMore | Unrecognised | Got(cmd: uint32, val: Option<uint64>, rest: seq<byte>)

  function DecodeOne(s: seq<byte>): (d: Decoded)
    ensures d.Got? ==> |d.rest| < |s|
  {
    if |s| < 4 then NeedMore
    else
      var c := GetUint32(s[..4]);
      if c == CONFIRM_ENTRY || Long(c) then
        if |s| < 12 then NeedMore else Got(c, Some(GetUint64(s[4..12])), s[12..])
      else if c == FORCE_ACK || Short(c) then Got(c, None, s[4..])
      else Unrecognised
  }

  /** Every command the ingester obtains from a stream of bytes, in order. */
  function DecodeAll(s: seq<byte>): seq<(uint32, Option<uint64>)>
    decreases |s|
  {
    match DecodeOne(s)
    case Got(c, v, rest) => [(c, v)] + DecodeAll(rest)
    case _ => []
  }

  /** What the other end is meant to see of a command list: nothing of the
      commands without a layout, and the value only where one is carried. */
  function Seen(acs: seq<AckCommand>): seq<(uint32, Option<uint64>)> {
    if acs == [] then []
    else if Size(acs[0]) == 0 then Seen(acs[1..])
    else [(acs[0].cmd, Carried(acs[0]))] + Seen(acs[1..])
  }

  function Carried(ac: AckCommand): Option<uint64> {
    if Size(ac) == 12 then Some(ac.val) else None
  }

  lemma DecodeBytes(ac: AckCommand, rest: seq<byte>)
    requires Size(ac) > 0
    ensures DecodeOne(Bytes(ac) + rest)
         == Got(ac.cmd, Carried(ac), rest)
  {
    var s := Bytes(ac) + rest;
    assert s[..4] == PutUint(4, ac.cmd);
    Uint32RoundTrip(ac.cmd);
    if Size(ac) == 12 {
      assert s[4..12] == PutUint(8, ac.val);
      Uint64RoundTrip(ac.val);
      assert s[12..] == rest;
    } else {
      assert s[4..] == rest;
    }
  }

  /** A command with a value goes over the wire as identifier and value, twelve bytes
      least significant first, and comes back with both. */
  lemma ValueArrives(c: uint32, v: uint64, rest: seq<byte>)
    requires c == THROTTLE || c == CONFIRM_TAG || c == CONFIRM_INGEST_OK || c == CONFIRM_DITTO_BLOCK
             || (c == CONFIRM_ENTRY && v != 0)
    ensures |Bytes(AckCommand(c, v))| == 12
    ensures DecodeOne(Bytes(AckCommand(c, v)) + rest) == Got(c, Some(v), rest)
  {
    DecodeBytes(AckCommand(c, v), rest);
  }

  /** One without a value goes as its identifier alone. */
  lemma BareArrives(c: uint32, v: uint64, rest: seq<byte>)
    requires c == PONG || c == ERROR_TAG || c == CONFIRM_ID || c == CONFIRM_API_VER || c == CONFIRM_INGESTER_STATE
    ensures |Bytes(AckCommand(c, v))| == 4
    ensures DecodeOne(Bytes(AckCommand(c, v)) + rest) == Got(c, None, rest)
  {
    DecodeBytes(AckCommand(c, v), rest);
  }

  /** What the ingester makes of bytes that are not such a command: it asks for more, takes
      a forced ack for one without a value, and gives up on anything else. */
  lemma OtherBytes(c: uint32, rest: seq<byte>)
    ensures DecodeOne(PutUint(4, FORCE_ACK) + rest) == Got(FORCE_ACK, None, rest)
    ensures |rest| < 4 ==> DecodeOne(rest) == NeedMore
    ensures c !in {FORCE_ACK, CONFIRM_ENTRY, THROTTLE, CONFIRM_TAG, CONFIRM_INGEST_OK, CONFIRM_DITTO_BLOCK, PONG,
                   ERROR_TAG, CONFIRM_ID, CONFIRM_API_VER, CONFIRM_INGESTER_STATE}
            ==> DecodeOne(PutUint(4, c) + rest) == Unrecognised
  {
    Uint32RoundTrip(FORCE_ACK);
    Uint32RoundTrip(c);
    assert (PutUint(4, FORCE_ACK) + rest)[..4] == PutUint(4, FORCE_ACK);
    assert (PutUint(4, FORCE_ACK) + rest)[4..] == rest;
    assert (PutUint(4, c) + rest)[..4] == PutUint(4, c);
  }

  /** And the rest leave nothing on the wire: a forced ack, a confirmation of id zero,
      and whatever is not a command. */
  lemma NothingElseArrives(ac: AckCommand)
    ensures Bytes(ac) == [] <==>
            || (ac.cmd == CONFIRM_ENTRY && ac.val == 0)
            || ac.cmd !in {CONFIRM_ENTRY, THROTTLE, CONFIRM_TAG, CONFIRM_INGEST_OK, CONFIRM_DITTO_BLOCK, PONG,
                           ERROR_TAG, CONFIRM_ID, CONFIRM_API_VER, CONFIRM_INGESTER_STATE}
  {
  }

  /** The bytes themselves: least significant first. */
  lemma LittleEndian(a: byte, b: byte, c: byte, d: byte, hi: seq<byte>)
    requires |hi| == 4
    ensures GetUint([a, b, c, d]) == a + 0x100 * b + 0x1_0000 * c + 0x100_0000 * d
    ensures GetUint([a, b, c, d] + hi) == GetUint([a, b, c, d]) + 0x1_0000_0000 * GetUint(hi)
  {
    assert [a, b, c, d][1..] == [b, c, d] && [b, c, d][1..] == [c, d] && [c, d][1..] == [d] && [d][1..] == [];
    assert ([a, b, c, d] + hi)[1..] == [b, c, d] + hi && ([b, c, d] + hi)[1..] == [c, d] + hi;
    assert ([c, d] + hi)[1..] == [d] + hi && ([d] + hi)[1..] == hi;
  }

  lemma DecodeHead(ac: AckCommand, rest: seq<byte>)
    requires Size(ac) > 0
    ensures DecodeAll(Bytes(ac) + rest) == [(ac.cmd, Carried(ac))] + DecodeAll(rest)
  {
    DecodeBytes(ac, rest);
  }

  lemma {:induction false} StreamRoundTrip(acs: seq<AckCommand>)
    ensures DecodeAll(Stream(acs)) == Seen(acs)
  {
    if acs != [] {
      var rest := Stream(acs[1..]);
      StreamRoundTrip(acs[1..]);
      if Size(acs[0]) == 0 {
        assert Stream(acs) == rest;
      } else {
        DecodeHead(acs[0], rest);
      }
    }
  }

  /** A connection cut anywhere inside the stream shows the ingester only whole
      commands, and those are a prefix of what was sent. */
  lemma {:induction false} CutStream(acs: seq<AckCommand>, k: nat)
    requires k <= |Stream(acs)|
    ensures DecodeAll(Stream(acs)[..k]) <= Seen(acs)
  {
    if acs == [] {
      assert Stream(acs)[..k] == [];
    } else if k < Size(acs[0]) {
      assert Stream(acs)[..k] == Bytes(acs[0])[..k];
      ShortCommand(acs[0], k);
    } else {
      var t := Stream(acs[1..])[..k - Size(acs[0])];
      CutStream(acs[1..], k - Size(acs[0]));
      CutBehind(acs[0], t, acs[1..]);
      assert [acs[0]] + acs[1..] == acs && Stream(acs)[..k] == Bytes(acs[0]) + t;
    }
  }

  lemma CutBehind(ac: AckCommand, t: seq<byte>, acs: seq<AckCommand>)
    requires DecodeAll(t) <= Seen(acs)
    ensures DecodeAll(Bytes(ac) + t) <= Seen([ac] + acs)
  {
    assert ([ac] + acs)[1..] == acs;
    if Size(ac) == 0 {
      assert Bytes(ac) + t == t;
    } else {
      DecodeHead(ac, t);
    }
  }

  lemma ShortCommand(ac: AckCommand, k: nat)
    requires k < Size(ac)
    ensures DecodeOne(Bytes(ac)[..k]).NeedMore? && DecodeAll(Bytes(ac)[..k]) == []
  {
    if k >= 4 {
      assert Bytes(ac)[..k][..4] == PutUint(4, ac.cmd);
      Uint32RoundTrip(ac.cmd);
    }
  }

  // The acknowledgement routine

  const ACK_WRITER_BUFFER_SIZE := 12 * 4096

  /** State of EntryReader that the acknowledgement routine touches. `taken`
      records every command it has taken off ackChan or made up itself, `wire`
      every byte it has handed to the connection. */
  class AckRoutine {
    var ackChan: seq<AckCommand>
    var arrivals: seq<AckCommand>   // what read() and SendThrottle will still queue
    var closed: bool                // ackChan will be closed once arrivals is used up
    var faults: nat                 // how often the connection will still fail
    ghost var taken: seq<AckCommand>
    var wire: seq<byte>

    constructor (arrivals: seq<AckCommand>, closed: bool, faults: nat)
      ensures wire == [] && taken == [] && ackChan == []
      ensures this.arrivals == arrivals && this.closed == closed && this.faults == faults
    {
      this.arrivals, this.closed, this.faults := arrivals, closed, faults;
      ackChan, taken, wire := [], [], [];
    }

    /** Every command in the order in which it entered ackChan. */
    ghost function History(): seq<AckCommand>
      reads this
    {
      taken + ackChan + arrivals
    }

    /** Other goroutines queue any number of the commands still to come. */
    method Producers()
      modifies this`ackChan, this`arrivals
      ensures History() == old(History())
      ensures old(ackChan) <= ackChan
    {
      var k: nat :| k <= |arrivals|;
      ghost var was := ackChan + arrivals;
      ackChan, arrivals := ackChan + arrivals[..k], arrivals[k..];
      assert ackChan + arrivals == was;
    }

    /** Receive one command from ackChan. */
    method Take() returns (v: AckCommand)
      requires ackChan != []
      modifies this`ackChan, this`taken
      ensures History() == old(History())
      ensures v == old(ackChan[0]) && taken == old(taken) + [v] && ackChan == old(ackChan[1..])
    {
      v := ackChan[0];
      ghost var was := taken + ackChan;
      ackChan := ackChan[1..];
      taken := taken + [v];
      assert taken + ackChan == was;
    }

    /** writeAll followed by a flush; a failing connection may have accepted any
        part of the bytes. */
    method WriteAll(b: array<byte>, off: nat) returns (err: Option<AckError>)
      requires off <= b.Length
      modifies this`wire, this`faults
      ensures err.None? ==> wire == old(wire) + b[..off] && faults == old(faults)
      ensures err.Some? ==> err == Some(WriteFailed) && faults < old(faults)
      ensures old(wire) <= wire <= old(wire) + b[..off]
    {
      var fails: bool := *;
      if !fails || faults == 0 {
        wire := wire + b[..off];
        err := None;
      } else {
        var k: nat :| k <= off;
        assert b[..k] == b[..off][..k];
        wire := wire + b[..k];
        faults := faults - 1;
        err := Some(WriteFailed);
      }
    }

    /** Every byte of the commands taken so far has been written. */
    ghost predicate Flushed()
      reads this
    {
      wire == Stream(taken)
    }

    /** An error has a cause: the connection has failed, or the command taken last is not
        one that can be encoded. */
    ghost predicate Caused(err: Option<AckError>, failed: bool)
      reads this
    {
      match err
      case None => true
      case Some(WriteFailed) => failed
      case Some(UnknownCommand) => taken != [] && !Known(taken[|taken| - 1].cmd)
    }

    /** All but the bytes packed in b[..off] have been written. */
    ghost predicate Packed(b: array<byte>, off: nat)
      reads this, b
    {
      off <= b.Length && wire + b[..off] == Stream(taken)
    }

    /** One round of the select loop: take a command, make room, pack it. */
    method PackNext(b: array<byte>, off: nat) returns (off': nat, flush: bool, err: Option<AckError>)
      requires b.Length == ACK_WRITER_BUFFER_SIZE
      requires Packed(b, off) && ackChan != []
      modifies this`ackChan, this`taken, this`wire, this`faults, b
      ensures History() == old(History()) && taken == old(taken) + [old(ackChan[0])]
      ensures err.None? ==> Packed(b, off')
      ensures wire <= Stream(taken) && faults <= old(faults) && Caused(err, faults < old(faults))
    {
      flush := false;
      ghost var before := taken;
      var next := Take();
      StreamSnoc(before, next);
      off', err := MakeRoom(b, off, Size(next), Stream(before));
      if err.Some? {
        return;
      }
      ghost var packed := b[..off'];
      var n;
      n, flush, err := Encode(next, b, off');
      PackedMore(wire, packed, Bytes(next), b[..off' + n], Stream(taken), off', n);
      off' := off' + n;
    }

    /** Write the buffer out first if a command of this size might not fit. */
    method MakeRoom(b: array<byte>, off: nat, size: nat, ghost s: seq<byte>) returns (off': nat, err: Option<AckError>)
      requires b.Length == ACK_WRITER_BUFFER_SIZE && size <= 12 && off <= b.Length && wire + b[..off] == s
      modifies this`wire, this`faults
      ensures wire <= s && faults <= old(faults)
      ensures err.Some? ==> err == Some(WriteFailed) && faults < old(faults)
      ensures err.None? ==> off' + size <= b.Length && wire + b[..off'] == s
    {
      off', err := off, None;
      if size + off >= b.Length {
        err := WriteAll(b, off);
        off' := 0;
      }
    }

    /** fillAndSendAckBuffer: pack v, just received, and whatever else is queued
        into b. The timer fires after some number of rounds of the select. */
    method FillAndSend(b: array<byte>, v: AckCommand, rounds: nat) returns (to: bool, err: Option<AckError>)
      requires b.Length == ACK_WRITER_BUFFER_SIZE
      requires taken != [] && taken[|taken| - 1] == v && wire == Stream(taken[..|taken| - 1])
      modifies this`ackChan, this`arrivals, this`taken, this`wire, this`faults, b
      ensures History() == old(History()) && old(taken) <= taken
      ensures err.None? ==> Flushed()
      ensures wire <= Stream(taken) && faults <= old(faults) && Caused(err, faults < old(faults))
    {
      to := false;
      StreamSnoc(taken[..|taken| - 1], v);
      assert taken == taken[..|taken| - 1] + [v];
      var off, flush;
      off, flush, err := Encode(v, b, 0);
      assert b[..off] == Bytes(v);
      if err.Some? {
        return;
      }
      if flush {
        err := WriteAll(b, off);
        return;
      }
      var left, feeding := rounds, true;
      while feeding
        invariant Packed(b, off) && err.None? && faults <= old(faults)
        invariant History() == old(History()) && old(taken) <= taken
        decreases feeding, left
      {
        Producers();
        var fired: bool := *;
        if left == 0 || fired {
          to, feeding := true, false;         // case <-toch
        } else if ackChan == [] {
          left := left - 1;                    // a closed channel only breaks out of the select
        } else {
          left := left - 1;
          off, flush, err := PackNext(b, off);
          if err.Some? {
            return;
          }
          if off == b.Length {
            feeding := false;
          } else if flush {
            to, feeding := true, false;
          } else if ackChan == [] {
            feeding := false;
          }
        }
      }
      if off > 0 {
        err := WriteAll(b, off);
        if err.None? {
          to := false;
        }
      }
    }

    /** The keepalive a quiet routine writes. */
    method KeepAlive(b: array<byte>) returns (err: Option<AckError>)
      requires b.Length == 32 && Flushed()
      modifies this`taken, this`wire, this`faults, b
      ensures NonPongs(History()) == old(NonPongs(History())) && taken == old(taken) + [AckCommand(PONG, 0)]
      ensures err.None? ==> Flushed()
      ensures wire <= Stream(taken) && faults <= old(faults) && Caused(err, faults < old(faults))
    {
      var pong := AckCommand(PONG, 0);
      var off, flush;
      off, flush, err := Encode(pong, b, 0);
      assert b[..off] == Bytes(pong);
      Invent(pong);
      err := WriteAll(b, off);
    }

    /** The routine adds a keepalive of its own to what it has taken. */
    ghost method Invent(pong: AckCommand)
      requires pong.cmd == PONG
      modifies this`taken
      ensures taken == old(taken) + [pong] && Stream(taken) == Stream(old(taken)) + Bytes(pong)
      ensures NonPongs(History()) == old(NonPongs(History()))
    {
      PongInsert(taken, pong, ackChan + arrivals);
      StreamSnoc(taken, pong);
      assert taken + (ackChan + arrivals) == History();
      taken := taken + [pong];
      assert taken + (ackChan + arrivals) == History();
    }

    /** One round of ackRoutine: a command and what is queued behind it, or a keepalive. */
    method Round(buff: array<byte>, keepalive: array<byte>) returns (ended: bool, err: Option<AckError>)
      requires Flushed() && buff.Length == ACK_WRITER_BUFFER_SIZE && keepalive.Length == 32
      modifies this`ackChan, this`arrivals, this`taken, this`wire, this`faults, buff, keepalive
      ensures err.None? ==> Flushed()
      ensures wire <= Stream(taken) && faults <= old(faults) && Caused(err, faults < old(faults))
      ensures NonPongs(History()) == old(NonPongs(History())) && old(taken) <= taken
      ensures ended ==> err.None? && closed && ackChan == [] && arrivals == []
      ensures !ended ==> |taken| > |old(taken)|
    {
      ended, err := false, None;
      var to := true;
      Producers();
      var receive: bool := *;
      if ackChan != [] && receive {
        var v := Take();
        assert taken[..|taken| - 1] + [v] == taken;
        var k: nat := *;
        to, err := FillAndSend(buff, v, k);
        if err.Some? {
          return;
        }
      } else if closed && ackChan == [] && arrivals == [] && receive {
        ended := true;
        return;
      }
      if to {
        err := KeepAlive(keepalive);
      }
    }

    /** ackRoutine: serve the channel until it closes, inserting keepalives, for at most
        so many rounds. It ends by itself only when everything has been taken and written,
        and every round before that takes a command or makes a keepalive up. */
    method Run(rounds: nat) returns (ended: bool, err: Option<AckError>)
      requires Flushed()
      modifies this
      ensures err.None? ==> Flushed()
      ensures wire <= Stream(taken) && faults <= old(faults) && Caused(err, faults < old(faults))
      ensures NonPongs(History()) == old(NonPongs(History())) && old(taken) <= taken
      ensures ended ==> err.None? && closed && ackChan == [] && arrivals == []
      ensures !ended && err.None? ==> |taken| >= |old(taken)| + rounds
    {
      var buff := new byte[ACK_WRITER_BUFFER_SIZE];
      var keepalive := new byte[32];
      var left := rounds;
      ended, err := false, None;
      while left > 0
        invariant err.None? && Flushed() && !ended && faults <= old(faults)
        invariant NonPongs(History()) == old(NonPongs(History())) && old(taken) <= taken
        invariant |taken| >= |old(taken)| + rounds - left
      {
        left := left - 1;
        ended, err := Round(buff, keepalive);
        if ended || err.Some? {
          return;
        }
      }
    }
  }

  lemma PackedMore(w: seq<byte>, p: seq<byte>, x: seq<byte>, b: seq<byte>, s: seq<byte>, off: nat, n: nat)
    requires |b| == off + n && b[..off] == p && b[off..] == x
    requires s == w + p + x
    ensures w + b == s && w <= s
  {
    assert b == p + x;
  }

  /** A command list without the keepalives the routine makes up itself. */
  function NonPongs(acs: seq<AckCommand>): seq<AckCommand> {
    if acs == [] then []
    else if acs[0].cmd == PONG then NonPongs(acs[1..])
    else [acs[0]] + NonPongs(acs[1..])
  }

  lemma {:induction false} NonPongsAppend(a: seq<AckCommand>, b: seq<AckCommand>)
    ensures NonPongs(a + b) == NonPongs(a) + NonPongs(b)
  {
    if a == [] {
      assert a + b == b;
    } else {
      assert (a + b)[1..] == a[1..] + b;
      NonPongsAppend(a[1..], b);
    }
  }

  lemma PongInsert(a: seq<AckCommand>, ac: AckCommand, b: seq<AckCommand>)
    requires ac.cmd == PONG
    ensures NonPongs(a + [ac] + b) == NonPongs(a + b)
  {
    NonPongsAppend(a + [ac], b);
    NonPongsAppend(a, [ac]);
    NonPongsAppend(a, b);
  }
}
