/**
 The padding layer of the naive inbound (core/inbound/protocol/naive_conn.go).

 The first eight frames of a direction carry a three-byte header (big-endian
 length, padding size), the data and zero padding; everything after them is raw.
 `Payload` is the reference meaning of a wire; it is written without looking at
 how the reader is scheduled.  The writer, the reader and whole runs of both are
 proved against it.
 */
module NaivePadding {
  import opened Commons

  newtype Byte = x: int | 0 <= x < 256

  const PADDING_COUNT: nat := 8   // naivePaddingCount
  const MAX_CHUNK: nat := 65535

  /** The three reader-side counters of paddingConn. */
  datatype Reader = Reader(readPadding: nat, readRemaining: nat, paddingRemaining: nat)

  /** The padding size drawn for frame number k; every function is a possible draw. */
  type Draws = nat -> Byte

  function Min(a: nat, b: nat): nat { if a < b then a else b }

  /** binary.BigEndian.Uint16 on the first two header bytes. */
  function Size(hi: Byte, lo: Byte): nat { hi as nat * 256 + lo as nat }

  function Zeros(n: nat): seq<Byte> { seq(n, _ => 0) }

  // ---------------------------------------------------------------- wire format

  /** One frame; the length field is a uint16, so it wraps. */
  function Frame(data: seq<Byte>, pad: Byte): seq<Byte> {
    var size := |data| % 0x1_0000;
    [(size / 256) as Byte, (size % 256) as Byte, pad] + data + Zeros(pad as nat)
  }

  /** What the bytes `wire` still mean to a reader whose counters are `r`. */
  function Payload(r: Reader, wire: seq<Byte>): seq<Byte>
    decreases |wire|
  {
    if r.readRemaining > 0 then
      if |wire| < r.readRemaining then wire
      else wire[..r.readRemaining] + Payload(r.(readRemaining := 0), wire[r.readRemaining..])
    else if r.paddingRemaining > 0 then
      if |wire| < r.paddingRemaining then []
      else Payload(r.(paddingRemaining := 0), wire[r.paddingRemaining..])
    else if r.readPadding < PADDING_COUNT then
      if |wire| < 3 then []
      else Payload(Reader(r.readPadding + 1, Size(wire[0], wire[1]), wire[2] as nat), wire[3..])
    else wire
  }

  /** The length of the item (data, padding or header) at the head of the wire; 0 in raw mode. */
  function HeadLen(r: Reader): nat {
    if r.readRemaining > 0 then r.readRemaining
    else if r.paddingRemaining > 0 then r.paddingRemaining
    else if r.readPadding < PADDING_COUNT then 3 else 0
  }

  /** The reader once that item is consumed. */
  function AfterHead(r: Reader, wire: seq<Byte>): Reader
    requires 0 < HeadLen(r) <= |wire|
  {
    if r.readRemaining > 0 then r.(readRemaining := 0)
    else if r.paddingRemaining > 0 then r.(paddingRemaining := 0)
    else Reader(r.readPadding + 1, Size(wire[0], wire[1]), wire[2] as nat)
  }

  lemma PayloadHead(r: Reader, wire: seq<Byte>)
    requires 0 < HeadLen(r) <= |wire|
    ensures var k := HeadLen(r);
            Payload(r, wire) == (if r.readRemaining > 0 then wire[..k] else []) + Payload(AfterHead(r, wire), wire[k..])
  {
  }

  /** More bytes on the wire never change what was already meant. */
  lemma {:induction false} PayloadMonotone(r: Reader, wire: seq<Byte>, more: seq<Byte>)
    ensures Payload(r, wire) <= Payload(r, wire + more)
    decreases |wire|
  {
    var whole, k := wire + more, HeadLen(r);
    if 0 < k <= |wire| {
      assert whole[..k] == wire[..k] && whole[k..] == wire[k..] + more;
      PayloadMonotone(AfterHead(r, wire), wire[k..], more);
      assert AfterHead(r, whole) == AfterHead(r, wire);
      PayloadHead(r, wire);
      PayloadHead(r, whole);
    } else if r.readRemaining > 0 && k <= |whole| {
      PayloadHead(r, whole);
      assert whole[..k][..|wire|] == wire;
    }
  }

  /** A frame followed by anything means its data followed by what the rest means one frame later. */
  lemma FrameMeansData(k: nat, data: seq<Byte>, pad: Byte, rest: seq<Byte>)
    requires k < PADDING_COUNT && |data| <= MAX_CHUNK
    ensures Payload(Reader(k, 0, 0), Frame(data, pad) + rest) == data + Payload(Reader(k + 1, 0, 0), rest)
  {
    var wire := Frame(data, pad) + rest;
    var body := data + Zeros(pad as nat) + rest;
    assert wire[3..] == body;
    assert Size(wire[0], wire[1]) == |data|;
    var r := Reader(k + 1, |data|, pad as nat);
    assert Payload(Reader(k, 0, 0), wire) == Payload(r, body);
    assert body[..|data|] == data && body[|data|..] == Zeros(pad as nat) + rest;
    var skipped := Zeros(pad as nat) + rest;
    assert Payload(r, body) == data + Payload(Reader(k + 1, 0, pad as nat), skipped);
    assert skipped[pad as nat..] == rest;
  }

  // ---------------------------------------------------------------- writing

  /** The bytes writeWithPadding emits for one chunk when `count` frames are already out. */
  function ChunkWire(count: nat, data: seq<Byte>, draws: Draws): seq<Byte> {
    if count < PADDING_COUNT then Frame(data, draws(count)) else data
  }

  function NextCount(count: nat): nat { if count < PADDING_COUNT then count + 1 else count }

  function FirstChunk(data: seq<Byte>): nat { Min(|data|, MAX_CHUNK) }

  /** The bytes writeChunked emits for `data`. */
  function ChunkedWire(count: nat, data: seq<Byte>, draws: Draws): seq<Byte>
    decreases |data|
  {
    if data == [] then [] else
    var k := FirstChunk(data);
    ChunkWire(count, data[..k], draws) + ChunkedWire(NextCount(count), data[k..], draws)
  }

  /** The value of writePadding once all of `data` has been written. */
  function ChunkedCount(count: nat, data: seq<Byte>): nat
    decreases |data|
  {
    if data == [] then count else ChunkedCount(NextCount(count), data[FirstChunk(data)..])
  }

  /** A frame on the wire: the length in two bytes, the high one first, the padding size, the data and the zeros. */
  lemma FrameLayout(data: seq<Byte>, pad: Byte)
    requires |data| <= 65535
    ensures var f := Frame(data, pad);
            && |f| == 3 + |data| + pad as nat
            && f[0] as nat * 256 + f[1] as nat == |data| && f[2] == pad
            && f[3..3 + |data|] == data && forall i :: 3 + |data| <= i < |f| ==> f[i] == 0
  {
    var f := Frame(data, pad);
    assert f == f[..3] + data + Zeros(pad as nat);
  }

  /** The first eight frames carry padding and no later one does; a write of up to 65535 bytes is one of them. */
  lemma WritesOnTheWire(count: nat, data: seq<Byte>, draws: Draws)
    requires data != []
    ensures |data| <= 65535 ==> ChunkedWire(count, data, draws) == if count < 8 then Frame(data, draws(count)) else data
    ensures |data| <= 65535 ==> ChunkedCount(count, data) == if count < 8 then count + 1 else count
    ensures |data| > 65535 && count < 8 ==>
              ChunkedWire(count, data, draws) ==
              Frame(data[..65535], draws(count)) + ChunkedWire(count + 1, data[65535..], draws)
  {
    if |data| <= 65535 {
      assert data[..|data|] == data && data[|data|..] == [];
    }
  }

  lemma ChunkedUnfold(count: nat, rest: seq<Byte>, draws: Draws, out: seq<Byte>, whole: seq<Byte>)
    requires rest != [] && whole == out + ChunkedWire(count, rest, draws)
    ensures var k := FirstChunk(rest);
            && 0 < k <= |rest|
            && whole == out + ChunkWire(count, rest[..k], draws) + ChunkedWire(NextCount(count), rest[k..], draws)
            && ChunkedCount(count, rest) == ChunkedCount(NextCount(count), rest[k..])
  {
  }

  /** The bytes writeBufferWithPadding emits, and writePadding afterwards. */
  function BufferWire(count: nat, data: seq<Byte>, draws: Draws): seq<Byte> {
    if count < PADDING_COUNT && |data| > MAX_CHUNK then ChunkedWire(count, data, draws)
    else ChunkWire(count, data, draws)
  }

  function BufferCount(count: nat, data: seq<Byte>): nat {
    if count < PADDING_COUNT && |data| > MAX_CHUNK then ChunkedCount(count, data) else NextCount(count)
  }

  /**
   A buffer of up to 65535 bytes, an empty one included, is one frame among the
   first eight; a longer one is split.
   */
  lemma BuffersOnTheWire(count: nat, data: seq<Byte>, draws: Draws)
    ensures |data| <= 65535 ==> BufferWire(count, data, draws) == if count < 8 then Frame(data, draws(count)) else data
    ensures |data| <= 65535 ==> BufferCount(count, data) == if count < 8 then count + 1 else count
    ensures |data| > 65535 ==> BufferWire(count, data, draws) == ChunkedWire(count, data, draws)
    ensures |data| > 65535 ==> BufferCount(count, data) == ChunkedCount(count, data)
  {
    if count >= 8 { RawFromEight(count, data, draws); }
  }

  lemma {:induction false} RawFromEight(count: nat, data: seq<Byte>, draws: Draws)
    requires count >= PADDING_COUNT
    ensures ChunkedWire(count, data, draws) == data && ChunkedCount(count, data) == count
    decreases |data|
  {
    if data != [] {
      RawFromEight(count, data[FirstChunk(data)..], draws);
    }
  }

  /** `wire`, written when `count` frames are out, means `data` and leaves `after` frames out. */
  ghost predicate Means(count: nat, wire: seq<Byte>, data: seq<Byte>, after: nat) {
    forall rest :: MeansBefore(count, wire, data, after, rest)
  }

  ghost predicate MeansBefore(count: nat, wire: seq<Byte>, data: seq<Byte>, after: nat, rest: seq<Byte>) {
    Payload(Reader(count, 0, 0), wire + rest) == data + Payload(Reader(after, 0, 0), rest)
  }

  lemma ChunkMeansData(count: nat, data: seq<Byte>, draws: Draws)
    requires count < PADDING_COUNT ==> |data| <= MAX_CHUNK
    ensures Means(count, ChunkWire(count, data, draws), data, NextCount(count))
  {
    forall rest: seq<Byte>
      ensures MeansBefore(count, ChunkWire(count, data, draws), data, NextCount(count), rest)
    {
      if count < PADDING_COUNT { FrameMeansData(count, data, draws(count), rest); }
    }
  }

  lemma MeansBeforeThen(count: nat, a: seq<Byte>, x: seq<Byte>, mid: nat, b: seq<Byte>, y: seq<Byte>, after: nat,
                        rest: seq<Byte>)
    requires MeansBefore(count, a, x, mid, b + rest) && MeansBefore(mid, b, y, after, rest)
    ensures MeansBefore(count, a + b, x + y, after, rest)
  {
    Regroup(a, b, rest);
    Regroup(x, y, Payload(Reader(after, 0, 0), rest));
  }

  lemma MeansThen(count: nat, a: seq<Byte>, x: seq<Byte>, mid: nat, b: seq<Byte>, y: seq<Byte>, after: nat)
    requires Means(count, a, x, mid) && Means(mid, b, y, after)
    ensures Means(count, a + b, x + y, after)
  {
    forall rest: seq<Byte> ensures MeansBefore(count, a + b, x + y, after, rest) {
      MeansBeforeThen(count, a, x, mid, b, y, after, rest);
    }
  }

  /** Splitting a write into frames loses nothing, for every length, frame count and draw. */
  lemma {:induction false} ChunkedMeansData(count: nat, data: seq<Byte>, draws: Draws)
    ensures Means(count, ChunkedWire(count, data, draws), data, ChunkedCount(count, data))
    decreases |data|
  {
    if data == [] {
      forall rest: seq<Byte> ensures MeansBefore(count, [], [], count, rest) {
        assert [] + rest == rest;
      }
    } else {
      var k := FirstChunk(data);
      ChunkMeansData(count, data[..k], draws);
      ChunkedMeansData(NextCount(count), data[k..], draws);
      MeansThen(count, ChunkWire(count, data[..k], draws), data[..k], NextCount(count),
                ChunkedWire(NextCount(count), data[k..], draws), data[k..], ChunkedCount(count, data));
      assert data == data[..k] + data[k..];
    }
  }

  lemma BufferMeansData(count: nat, data: seq<Byte>, draws: Draws)
    ensures Means(count, BufferWire(count, data, draws), data, BufferCount(count, data))
  {
    if count < PADDING_COUNT && |data| > MAX_CHUNK {
      ChunkedMeansData(count, data, draws);
    } else {
      ChunkMeansData(count, data, draws);
    }
  }

  /** From the eighth frame on both write paths are the identity on the wire. */
  lemma WriterRawAfterEight(count: nat, data: seq<Byte>, draws: Draws)
    requires count >= PADDING_COUNT
    ensures ChunkedWire(count, data, draws) == data && ChunkedCount(count, data) == count
    ensures BufferWire(count, data, draws) == data && BufferCount(count, data) == count
  {
    RawFromEight(count, data, draws);
  }

  // ---------------------------------------------------------------- reading

  /**
   A call with a buffer of `cap` bytes succeeds with `got` bytes: the padding and
   header it needs are there, and the transport returned `got` of the bytes it
   may return (any short read is allowed).
   */
  predicate CanRead(r: Reader, wire: seq<Byte>, cap: nat, got: nat)
    decreases r.paddingRemaining
  {
    if r.readRemaining > 0 then
      got <= Min(cap, r.readRemaining) && got <= |wire|
    else if r.paddingRemaining > 0 then
      |wire| >= r.paddingRemaining && CanRead(r.(paddingRemaining := 0), wire[r.paddingRemaining..], cap, got)
    else if r.readPadding < PADDING_COUNT then
      |wire| >= 3 && got <= Min(cap, Size(wire[0], wire[1])) && got <= |wire| - 3
    else got <= cap && got <= |wire|
  }

  /** Counters, remaining wire and returned bytes after a successful call. */
  function AfterRead(r: Reader, wire: seq<Byte>, cap: nat, got: nat): (Reader, seq<Byte>, seq<Byte>)
    requires CanRead(r, wire, cap, got)
    decreases r.paddingRemaining
  {
    if r.readRemaining > 0 then
      (r.(readRemaining := r.readRemaining - got), wire[got..], wire[..got])
    else if r.paddingRemaining > 0 then
      AfterRead(r.(paddingRemaining := 0), wire[r.paddingRemaining..], cap, got)
    else if r.readPadding < PADDING_COUNT then
      (Reader(r.readPadding + 1, Size(wire[0], wire[1]) - got, wire[2] as nat), wire[3..][got..], wire[3..][..got])
    else (r, wire[got..], wire[..got])
  }

  /** `out` is exactly the next part of what the wire means, whatever is written later. */
  ghost predicate Delivers(r: Reader, wire: seq<Byte>, out: seq<Byte>, r': Reader, wire': seq<Byte>) {
    forall more :: DeliversBefore(r, wire, out, r', wire', more)
  }

  ghost predicate DeliversBefore(r: Reader, wire: seq<Byte>, out: seq<Byte>,
                                 r': Reader, wire': seq<Byte>, more: seq<Byte>) {
    Payload(r, wire + more) == out + Payload(r', wire' + more)
  }

  lemma DataReadDelivers(r: Reader, wire: seq<Byte>, got: nat, more: seq<Byte>)
    requires got <= r.readRemaining && got <= |wire|
    ensures Payload(r, wire + more)
         == wire[..got] + Payload(r.(readRemaining := r.readRemaining - got), wire[got..] + more)
  {
    var k := r.readRemaining;
    var whole, tail := wire + more, wire[got..] + more;
    assert whole == wire[..got] + tail;
    if got < k <= |whole| {
      assert whole[..k] == wire[..got] + tail[..k - got];
      assert whole[k..] == tail[k - got..];
    } else if 0 < got == k {
      assert whole[..k] == wire[..got] && whole[k..] == tail;
    }
  }

  lemma HeaderReadDelivers(k: nat, w: seq<Byte>, got: nat, more: seq<Byte>)
    requires k < PADDING_COUNT && |w| >= 3 && got <= Size(w[0], w[1]) && got <= |w| - 3
    ensures Payload(Reader(k, 0, 0), w + more)
         == w[3..][..got] + Payload(Reader(k + 1, Size(w[0], w[1]) - got, w[2] as nat), w[3..][got..] + more)
  {
    assert (w + more)[3..] == w[3..] + more;
    DataReadDelivers(Reader(k + 1, Size(w[0], w[1]), w[2] as nat), w[3..], got, more);
  }

  lemma RawReadDelivers(r: Reader, w: seq<Byte>, got: nat, more: seq<Byte>)
    requires r.readRemaining == r.paddingRemaining == 0 && r.readPadding >= PADDING_COUNT && got <= |w|
    ensures Payload(r, w + more) == w[..got] + Payload(r, w[got..] + more)
  {
    assert w + more == w[..got] + (w[got..] + more);
  }

  lemma {:induction false} ReadDeliversBefore(r: Reader, wire: seq<Byte>, cap: nat, got: nat, more: seq<Byte>)
    requires CanRead(r, wire, cap, got)
    ensures var (r', wire', out) := AfterRead(r, wire, cap, got); DeliversBefore(r, wire, out, r', wire', more)
    decreases r.paddingRemaining
  {
    if r.readRemaining > 0 {
      DataReadDelivers(r, wire, got, more);
    } else if r.paddingRemaining > 0 {
      var k := r.paddingRemaining;
      ReadDeliversBefore(r.(paddingRemaining := 0), wire[k..], cap, got, more);
      assert (wire + more)[k..] == wire[k..] + more;
    } else if r.readPadding < PADDING_COUNT {
      HeaderReadDelivers(r.readPadding, wire, got, more);
    } else {
      RawReadDelivers(r, wire, got, more);
    }
  }

  /** Every successful read, of any size into any buffer, returns the next bytes of the payload. */
  lemma ReadDelivers(r: Reader, wire: seq<Byte>, cap: nat, got: nat)
    requires CanRead(r, wire, cap, got)
    ensures var (r', wire', out) := AfterRead(r, wire, cap, got); Delivers(r, wire, out, r', wire')
  {
    var (r', wire', out) := AfterRead(r, wire, cap, got);
    forall more: seq<Byte> ensures DeliversBefore(r, wire, out, r', wire', more) {
      ReadDeliversBefore(r, wire, cap, got, more);
    }
  }

  predicate ReaderReplaceable(r: Reader) { r.readPadding == PADDING_COUNT }

  /**
   Handing the raw connection to the caller is right exactly when the frame count
   is used up and no padding is still owed; readRemaining does not matter.
   */
  lemma ReaderRawIff(r: Reader)
    ensures (forall wire :: Payload(r, wire) == wire)
       <==> r.readPadding >= PADDING_COUNT && r.paddingRemaining == 0
  {
    if r.readPadding >= PADDING_COUNT && r.paddingRemaining == 0 {
      forall wire: seq<Byte> ensures Payload(r, wire) == wire {
        if 0 < r.readRemaining <= |wire| {
          PayloadHead(r, wire);
          assert wire == wire[..r.readRemaining] + wire[r.readRemaining..];
        }
      }
    } else {
      var wire := Zeros(r.readRemaining) + [0];
      assert wire[r.readRemaining..] == [0];
      var s := r.(readRemaining := 0);
      assert Payload(s, [0]) == [] by { if HeadLen(s) == 1 { PayloadHead(s, [0]); } }
      assert Payload(r, wire) == wire[..r.readRemaining] + Payload(s, [0]) by {
        if r.readRemaining > 0 { PayloadHead(r, wire); }
      }
      assert |Payload(r, wire)| < |wire|;
      assert Payload(r, wire) != wire;
    }
  }

  // ---------------------------------------------------------------- whole runs

  /**
   One direction of a connection.  `flight` is what the transport holds, `sent`
   everything handed to Write or WriteBuffer, `delivered` everything returned by
   Read; `broken` is set by the first failing transport write.
   */
  datatype Link = Link(writePadding: nat, flight: seq<Byte>, reader: Reader,
                       sent: seq<Byte>, delivered: seq<Byte>, broken: bool)

  /** `room` is how many bytes the transport takes before it breaks. */
  datatype Event =
    | Write(data: seq<Byte>, room: nat)
    | WriteBuffer(data: seq<Byte>, room: nat)
    | Read(cap: nat, got: nat)

  const FRESH := Link(0, [], Reader(0, 0, 0), [], [], false)

  function Put(l: Link, wire: seq<Byte>, data: seq<Byte>, after: nat, room: nat): Link {
    if l.broken then l.(sent := l.sent + data)
    else if |wire| <= room then
      l.(writePadding := after, flight := l.flight + wire, sent := l.sent + data)
    else l.(flight := l.flight + wire[..room], sent := l.sent + data, broken := true)
  }

  function Step(l: Link, draws: Draws, e: Event): Link {
    match e
    case Write(data, room) =>
      Put(l, ChunkedWire(l.writePadding, data, draws), data, ChunkedCount(l.writePadding, data), room)
    case WriteBuffer(data, room) =>
      Put(l, BufferWire(l.writePadding, data, draws), data, BufferCount(l.writePadding, data), room)
    case Read(cap, got) =>
      if CanRead(l.reader, l.flight, cap, got) then
        var (r, w, out) := AfterRead(l.reader, l.flight, cap, got);
        l.(reader := r, flight := w, delivered := l.delivered + out)
      else l
  }

  function Run(l: Link, draws: Draws, events: seq<Event>): Link
    decreases |events|
  {
    if events == [] then l
    else Step(Run(l, draws, events[..|events| - 1]), draws, events[|events| - 1])
  }

  ghost predicate InStep(l: Link) {
    forall more :: InStepBefore(l, more)
  }

  ghost predicate InStepBefore(l: Link, more: seq<Byte>) {
    l.delivered + Payload(l.reader, l.flight + more) == l.sent + Payload(Reader(l.writePadding, 0, 0), more)
  }

  ghost predicate LinkInv(l: Link) {
    if l.broken then l.delivered + Payload(l.reader, l.flight) <= l.sent else InStep(l)
  }

  lemma PutWholeKeepsStep(l: Link, wire: seq<Byte>, data: seq<Byte>, after: nat, more: seq<Byte>)
    requires InStep(l) && Means(l.writePadding, wire, data, after)
    ensures l.delivered + Payload(l.reader, l.flight + wire + more)
         == l.sent + data + Payload(Reader(after, 0, 0), more)
  {
    assert InStepBefore(l, wire + more);
    assert MeansBefore(l.writePadding, wire, data, after, more);
    assert l.flight + wire + more == l.flight + (wire + more);
  }

  lemma PrefixAfter(a: seq<Byte>, b: seq<Byte>, c: seq<Byte>)
    requires b <= c
    ensures a + b <= a + c
  {
    assert a + c == a + b + c[|b|..];
  }

  lemma PutKeepsInv(l: Link, wire: seq<Byte>, data: seq<Byte>, after: nat, room: nat)
    requires LinkInv(l) && Means(l.writePadding, wire, data, after)
    ensures LinkInv(Put(l, wire, data, after, room))
  {
    var l' := Put(l, wire, data, after, room);
    if l.broken {
    } else if |wire| <= room {
      forall more: seq<Byte> ensures InStepBefore(l', more) {
        PutWholeKeepsStep(l, wire, data, after, more);
      }
    } else {
      PutWholeKeepsStep(l, wire, data, after, []);
      PayloadMonotone(l.reader, l'.flight, wire[room..]);
      assert l'.flight + wire[room..] == l.flight + wire + [];
      PrefixAfter(l.delivered, Payload(l.reader, l'.flight), Payload(l.reader, l.flight + wire + []));
    }
  }

  lemma DeliveryKeepsStep(l: Link, r: Reader, w: seq<Byte>, out: seq<Byte>, more: seq<Byte>)
    requires InStepBefore(l, more) && DeliversBefore(l.reader, l.flight, out, r, w, more)
    ensures InStepBefore(l.(reader := r, flight := w, delivered := l.delivered + out), more)
  {
    Regroup(l.delivered, out, Payload(r, w + more));
  }

  /** The meaning of a wire, split into what a read returned and the rest. */
  lemma DeliveredSplits(r0: Reader, flight: seq<Byte>, out: seq<Byte>, r: Reader, w: seq<Byte>)
    requires DeliversBefore(r0, flight, out, r, w, [])
    ensures Payload(r0, flight) == out + Payload(r, w)
  {
    var f, v := flight + [], w + [];
    assert f == flight && v == w;
  }

  lemma DeliveryKeepsPrefix(l: Link, r: Reader, w: seq<Byte>, out: seq<Byte>)
    requires l.delivered + Payload(l.reader, l.flight) <= l.sent
    requires DeliversBefore(l.reader, l.flight, out, r, w, [])
    ensures l.delivered + out + Payload(r, w) <= l.sent
  {
    DeliveredSplits(l.reader, l.flight, out, r, w);
    Regroup(l.delivered, out, Payload(r, w));
  }

  lemma DeliveryKeepsInv(l: Link, r: Reader, w: seq<Byte>, out: seq<Byte>)
    requires LinkInv(l) && Delivers(l.reader, l.flight, out, r, w)
    ensures LinkInv(l.(reader := r, flight := w, delivered := l.delivered + out))
  {
    if l.broken {
      assert DeliversBefore(l.reader, l.flight, out, r, w, []);
      DeliveryKeepsPrefix(l, r, w, out);
    } else {
      var l' := l.(reader := r, flight := w, delivered := l.delivered + out);
      forall more: seq<Byte> ensures InStepBefore(l', more) {
        assert InStepBefore(l, more) && DeliversBefore(l.reader, l.flight, out, r, w, more);
        DeliveryKeepsStep(l, r, w, out, more);
      }
    }
  }

  lemma StepKeepsInv(l: Link, draws: Draws, e: Event)
    requires LinkInv(l)
    ensures LinkInv(Step(l, draws, e))
  {
    match e
    case Write(data, room) =>
      ChunkedMeansData(l.writePadding, data, draws);
      PutKeepsInv(l, ChunkedWire(l.writePadding, data, draws), data, ChunkedCount(l.writePadding, data), room);
    case WriteBuffer(data, room) =>
      BufferMeansData(l.writePadding, data, draws);
      PutKeepsInv(l, BufferWire(l.writePadding, data, draws), data, BufferCount(l.writePadding, data), room);
    case Read(cap, got) =>
      if CanRead(l.reader, l.flight, cap, got) {
        ReadDelivers(l.reader, l.flight, cap, got);
        var (r, w, out) := AfterRead(l.reader, l.flight, cap, got);
        DeliveryKeepsInv(l, r, w, out);
      }
  }

  lemma {:induction false} RunKeepsInv(draws: Draws, events: seq<Event>)
    ensures LinkInv(Run(FRESH, draws, events))
    decreases |events|
  {
    if events == [] {
      forall more: seq<Byte> ensures InStepBefore(FRESH, more) { assert [] + more == more; }
    } else {
      RunKeepsInv(draws, events[..|events| - 1]);
      StepKeepsInv(Run(FRESH, draws, events[..|events| - 1]), draws, events[|events| - 1]);
    }
  }

  /** Nothing is owed but padding: the reader holds no data back and at most its padding is in flight. */
  predicate Settled(l: Link) {
    l.flight == [] || (l.reader.readRemaining == 0 && |l.flight| <= l.reader.paddingRemaining)
  }

  /**
   The codec round trip: for every interleaving of writes of any length, reads of
   any size with any short reads, and every draw of padding sizes, the bytes
   returned are a prefix of the bytes written, and all of them once an unbroken
   wire is settled.
   */
  lemma RoundTrip(draws: Draws, events: seq<Event>)
    ensures var l := Run(FRESH, draws, events);
            && l.delivered <= l.sent
            && (!l.broken && Settled(l) ==> l.delivered == l.sent)
  {
    RunKeepsInv(draws, events);
    var l := Run(FRESH, draws, events);
    if !l.broken {
      assert InStepBefore(l, []) && l.flight + [] == l.flight;
      assert l.delivered + Payload(l.reader, l.flight) == l.sent + [] == l.sent;
      if Settled(l) { assert Payload(l.reader, l.flight) == []; }
    }
    PrefixAfter(l.delivered, [], Payload(l.reader, l.flight));
  }

  lemma {:induction false} RunConcat(l: Link, draws: Draws, a: seq<Event>, b: seq<Event>)
    ensures Run(l, draws, a + b) == Run(Run(l, draws, a), draws, b)
    decreases |b|
  {
    if b == [] {
      assert a + b == a;
    } else {
      assert (a + b)[..|a + b| - 1] == a + b[..|b| - 1];
      RunConcat(l, draws, a, b[..|b| - 1]);
    }
  }

  lemma RunOne(l: Link, draws: Draws, e: Event)
    ensures Run(l, draws, [e]) == Step(l, draws, e)
  {
    assert [e][..0] == [];
  }

  lemma RunTwo(l: Link, draws: Draws, x: Event, y: Event)
    ensures Run(l, draws, [x, y]) == Step(Step(l, draws, x), draws, y)
  {
    assert [x, y][..1] == [x];
    RunOne(l, draws, x);
  }

  lemma FrameWritten(l: Link, draws: Draws, data: seq<Byte>, room: nat)
    requires l.writePadding < PADDING_COUNT && |data| <= MAX_CHUNK && l.flight == [] && !l.broken
    requires room == 3 + |data| + draws(l.writePadding) as nat
    ensures Step(l, draws, WriteBuffer(data, room))
         == l.(writePadding := l.writePadding + 1, flight := Frame(data, draws(l.writePadding)), sent := l.sent + data)
  {
    var wire := Frame(data, draws(l.writePadding));
    assert [] + wire == wire && |wire| == room;
  }

  lemma FrameRead(l: Link, draws: Draws, data: seq<Byte>, pad: Byte)
    requires l.reader.readPadding < PADDING_COUNT && |data| <= MAX_CHUNK
    requires l.flight == Frame(data, pad) && l.reader == Reader(l.reader.readPadding, 0, 0)
    ensures Step(l, draws, Read(|data|, |data|))
         == l.(flight := Zeros(pad as nat), reader := Reader(l.reader.readPadding + 1, 0, pad as nat),
           delivered := l.delivered + data)
  {
    var wire := l.flight;
    assert wire[3..][..|data|] == data && wire[3..][|data|..] == Zeros(pad as nat);
    assert Size(wire[0], wire[1]) == |data|;
  }

  lemma FrameExchange(l: Link, draws: Draws, data: seq<Byte>, room: nat)
    requires l.writePadding < PADDING_COUNT && |data| <= MAX_CHUNK && l.flight == [] && !l.broken
    requires l.reader == Reader(l.writePadding, 0, 0) && room == 3 + |data| + draws(l.writePadding) as nat
    ensures Run(l, draws, [WriteBuffer(data, room), Read(|data|, |data|)])
         == Link(l.writePadding + 1, Zeros(draws(l.writePadding) as nat),
           Reader(l.writePadding + 1, 0, draws(l.writePadding) as nat),
                 l.sent + data, l.delivered + data, false)
  {
    RunTwo(l, draws, WriteBuffer(data, room), Read(|data|, |data|));
    FrameWritten(l, draws, data, room);
    FrameRead(Step(l, draws, WriteBuffer(data, room)), draws, data, draws(l.writePadding));
  }

  // ---------------------------------------------------------------- nothing gets stuck

  /** The wire holds whole items only and ends after `count` frames, so no header or padding is cut off. */
  ghost predicate Whole(r: Reader, wire: seq<Byte>, count: nat)
    decreases |wire|
  {
    var k := HeadLen(r);
    if k == 0 || (wire == [] && k == 3 && r.readRemaining == r.paddingRemaining == 0) then count == r.readPadding
    else |wire| >= k && Whole(AfterHead(r, wire), wire[k..], count)
  }

  lemma {:induction false} WholeThen(r: Reader, a: seq<Byte>, mid: nat, b: seq<Byte>, after: nat)
    requires Whole(r, a, mid) && Whole(Reader(mid, 0, 0), b, after)
    ensures Whole(r, a + b, after)
    decreases |a|
  {
    var k := HeadLen(r);
    if 0 < k <= |a| {
      var ab := a + b;
      assert ab[k..] == a[k..] + b;
      WholeThen(AfterHead(r, a), a[k..], mid, b, after);
      assert AfterHead(r, ab) == AfterHead(r, a);
    } else {
      assert a == [] ==> a + b == b;
    }
  }

  lemma FrameWhole(k: nat, data: seq<Byte>, pad: Byte)
    requires k < PADDING_COUNT && |data| <= MAX_CHUNK
    ensures Whole(Reader(k, 0, 0), Frame(data, pad), k + 1)
  {
    var wire, r := Frame(data, pad), Reader(k + 1, |data|, pad as nat);
    var body := data + Zeros(pad as nat);
    assert wire[3..] == body && AfterHead(Reader(k, 0, 0), wire) == r;
    assert body[|data|..] == Zeros(pad as nat);
    var padded := r.(readRemaining := 0);
    assert Zeros(pad as nat)[pad as nat..] == [];
    assert Whole(Reader(k + 1, 0, 0), [], k + 1);
    assert Whole(padded, Zeros(pad as nat), k + 1);
    assert Whole(r, body, k + 1);
  }

  lemma {:induction false} ChunkedWhole(count: nat, data: seq<Byte>, draws: Draws)
    ensures Whole(Reader(count, 0, 0), ChunkedWire(count, data, draws), ChunkedCount(count, data))
    decreases |data|
  {
    if data != [] {
      var k := FirstChunk(data);
      if count < PADDING_COUNT { FrameWhole(count, data[..k], draws(count)); }
      ChunkedWhole(NextCount(count), data[k..], draws);
      WholeThen(Reader(count, 0, 0), ChunkWire(count, data[..k], draws), NextCount(count),
                ChunkedWire(NextCount(count), data[k..], draws), ChunkedCount(count, data));
    }
  }

  lemma BufferWhole(count: nat, data: seq<Byte>, draws: Draws)
    ensures Whole(Reader(count, 0, 0), BufferWire(count, data, draws), BufferCount(count, data))
  {
    if count < PADDING_COUNT && |data| <= MAX_CHUNK {
      FrameWhole(count, data, draws(count));
    } else if count < PADDING_COUNT {
      ChunkedWhole(count, data, draws);
    }
  }

  lemma DataReadWhole(r: Reader, wire: seq<Byte>, got: nat, count: nat)
    requires Whole(r, wire, count) && got <= r.readRemaining && got <= |wire|
    ensures Whole(r.(readRemaining := r.readRemaining - got), wire[got..], count)
  {
    if got < r.readRemaining { assert wire[r.readRemaining..] == wire[got..][r.readRemaining - got..]; }
  }

  /** With nothing owed, a wire of whole items starts with a header and all the data it announces. */
  lemma HeaderWhole(k: nat, w: seq<Byte>, count: nat)
    requires Whole(Reader(k, 0, 0), w, count) && k < PADDING_COUNT && w != []
    ensures |w| >= 3 && Whole(Reader(k + 1, Size(w[0], w[1]), w[2] as nat), w[3..], count)
    ensures |w| - 3 >= Size(w[0], w[1])
  {
    var r := AfterHead(Reader(k, 0, 0), w);
    assert Whole(r, w[3..], count);
    assert r.readRemaining > 0 ==> HeadLen(r) == r.readRemaining <= |w[3..]|;
  }

  lemma HeaderReadWhole(k: nat, w: seq<Byte>, got: nat, count: nat)
    requires Whole(Reader(k, 0, 0), w, count) && k < PADDING_COUNT
    requires |w| >= 3 && got <= Size(w[0], w[1]) && got <= |w| - 3
    ensures Whole(Reader(k + 1, Size(w[0], w[1]) - got, w[2] as nat), w[3..][got..], count)
  {
    HeaderWhole(k, w, count);
    DataReadWhole(Reader(k + 1, Size(w[0], w[1]), w[2] as nat), w[3..], got, count);
  }

  lemma FrameReadWhole(k: nat, w: seq<Byte>, cap: nat, got: nat, count: nat)
    requires Whole(Reader(k, 0, 0), w, count) && k < PADDING_COUNT && CanRead(Reader(k, 0, 0), w, cap, got)
    ensures Whole(AfterRead(Reader(k, 0, 0), w, cap, got).0, AfterRead(Reader(k, 0, 0), w, cap, got).1, count)
  {
    HeaderReadWhole(k, w, got, count);
  }

  lemma RawReadWhole(r: Reader, w: seq<Byte>, got: nat, count: nat)
    requires Whole(r, w, count) && HeadLen(r) == 0 && got <= |w|
    ensures Whole(r, w[got..], count)
  {
  }

  lemma {:induction false} ReadWhole(r: Reader, wire: seq<Byte>, cap: nat, got: nat, count: nat)
    requires Whole(r, wire, count) && CanRead(r, wire, cap, got)
    ensures Whole(AfterRead(r, wire, cap, got).0, AfterRead(r, wire, cap, got).1, count)
    decreases r.paddingRemaining
  {
    if r.readRemaining > 0 {
      DataReadWhole(r, wire, got, count);
    } else if r.paddingRemaining > 0 {
      ReadWhole(r.(paddingRemaining := 0), wire[r.paddingRemaining..], cap, got, count);
    } else if r.readPadding < PADDING_COUNT {
      assert r == Reader(r.readPadding, 0, 0);
      FrameReadWhole(r.readPadding, wire, cap, got, count);
    } else {
      RawReadWhole(r, wire, got, count);
    }
  }

  lemma {:induction false} RunKeepsWhole(draws: Draws, events: seq<Event>)
    ensures var l := Run(FRESH, draws, events); !l.broken ==> Whole(l.reader, l.flight, l.writePadding)
    decreases |events|
  {
    if events != [] {
      RunKeepsWhole(draws, events[..|events| - 1]);
      var l := Run(FRESH, draws, events[..|events| - 1]);
      match events[|events| - 1]
      case Write(data, room) =>
        if !l.broken {
          ChunkedWhole(l.writePadding, data, draws);
          WholeThen(l.reader, l.flight, l.writePadding, ChunkedWire(l.writePadding, data, draws),
                    ChunkedCount(l.writePadding, data));
        }
      case WriteBuffer(data, room) =>
        if !l.broken {
          BufferWhole(l.writePadding, data, draws);
          WholeThen(l.reader, l.flight, l.writePadding, BufferWire(l.writePadding, data, draws),
                    BufferCount(l.writePadding, data));
        }
      case Read(cap, got) =>
        if !l.broken && CanRead(l.reader, l.flight, cap, got) {
          ReadWhole(l.reader, l.flight, cap, got, l.writePadding);
        }
    }
  }

  /** An unsettled wire of whole items always admits a read that takes something off it. */
  lemma {:induction false} ReadPossible(r: Reader, wire: seq<Byte>, count: nat) returns (n: nat)
    requires Whole(r, wire, count)
    requires r.readRemaining > 0 || |wire| > r.paddingRemaining
    ensures CanRead(r, wire, n, n) && |AfterRead(r, wire, n, n).1| < |wire|
    decreases r.paddingRemaining
  {
    if r.readRemaining > 0 {
      n := r.readRemaining;
    } else if r.paddingRemaining > 0 {
      n := ReadPossible(r.(paddingRemaining := 0), wire[r.paddingRemaining..], count);
    } else if r.readPadding < PADDING_COUNT {
      HeaderWhole(r.readPadding, wire, count);
      n := Size(wire[0], wire[1]);
    } else {
      n := |wire|;
    }
  }

  lemma {:induction false} Drain(l: Link, draws: Draws) returns (calls: seq<Event>)
    requires !l.broken && Whole(l.reader, l.flight, l.writePadding)
    ensures var l' := Run(l, draws, calls); Settled(l') && !l'.broken && l'.sent == l.sent
    decreases |l.flight|
  {
    if Settled(l) {
      calls := [];
    } else {
      var n := ReadPossible(l.reader, l.flight, l.writePadding);
      var mid := Step(l, draws, Read(n, n));
      ReadWhole(l.reader, l.flight, n, n, l.writePadding);
      var more := Drain(mid, draws);
      calls := [Read(n, n)] + more;
      RunConcat(l, draws, [Read(n, n)], more);
      RunOne(l, draws, Read(n, n));
    }
  }

  /** Whatever was written on an unbroken wire can be read to the last byte. */
  lemma EverythingCanBeRead(draws: Draws, events: seq<Event>) returns (calls: seq<Event>)
    requires !Run(FRESH, draws, events).broken
    ensures Run(FRESH, draws, events + calls).delivered == Run(FRESH, draws, events).sent
  {
    RunKeepsWhole(draws, events);
    calls := Drain(Run(FRESH, draws, events), draws);
    RunConcat(FRESH, draws, events, calls);
    RoundTrip(draws, events + calls);
  }

  // ---------------------------------------------------------------- handover

  /** The link after k empty frames without padding, each read at once. */
  function Quiet(k: nat): Link { Link(k, [], Reader(k, 0, 0), [], [], false) }

  lemma {:induction false} QuietReachable(k: nat, draws: Draws) returns (events: seq<Event>)
    requires k < PADDING_COUNT && forall i: nat :: i < k ==> draws(i) == 0
    ensures Run(FRESH, draws, events) == Quiet(k)
  {
    if k == 0 {
      events := [];
    } else {
      var before := QuietReachable(k - 1, draws);
      var exchange := [WriteBuffer([], 3), Read(0, 0)];
      FrameExchange(Quiet(k - 1), draws, [], 3);
      RunConcat(FRESH, draws, before, exchange);
      events := before + exchange;
    }
  }

  /**
   readerReplaceable is not enough: there is a run after which it holds while the
   padding of the eighth frame is still on the wire, so the raw connection would
   hand out a byte that was never sent.
   */
  lemma ReplaceableTooEarly(draws: Draws) returns (events: seq<Event>)
    requires forall i: nat :: draws(i) == (if i < 7 then 0 else 1)
    ensures var l := Run(FRESH, draws, events);
            && ReaderReplaceable(l.reader)
            && l.delivered == l.sent == [42]
            && l.flight == [0]
            && Payload(l.reader, l.flight) == []
  {
    var before := QuietReachable(7, draws);
    var exchange := [WriteBuffer([42], 5), Read(1, 1)];
    FrameExchange(Quiet(7), draws, [42], 5);
    RunConcat(FRESH, draws, before, exchange);
    events := before + exchange;
    assert Zeros(1) == [0];
  }
}
