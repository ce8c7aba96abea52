/**
 paddingConn itself: counters updated in place, a transport that returns what it
 likes, and a loop that splits large writes.  Every method is proved against the
 functions of NaivePadding, about which the round trip is proved.
 */
module NaiveConn {
  import opened NaivePadding

  /** Only the front of `whole` has been consumed. */
  ghost predicate Suffix(rest: seq<Byte>, whole: seq<Byte>) {
    exists i: nat :: i <= |whole| && rest == whole[i..]
  }

  lemma SuffixOf(rest: seq<Byte>, whole: seq<Byte>, k: nat)
    requires k <= |whole| && Suffix(rest, whole[k..])
    ensures Suffix(rest, whole)
  {
    var i: nat :| i <= |whole[k..]| && rest == whole[k..][i..];
    assert rest == whole[k + i..];
  }

  /** The transport's write side: it takes `room` more bytes and then breaks for good. */
  class Sink {
    var wire: seq<Byte>
    var room: nat

    method Write(data: seq<Byte>) returns (n: nat, ok: bool)
      modifies this
      ensures n == Min(|data|, old(room)) && ok == (|data| <= old(room))
      ensures wire == old(wire) + data[..n] && room == old(room) - n
    {
      n, ok := Min(|data|, room), |data| <= room;
      wire, room := wire + data[..n], room - n;
    }
  }

  /**
   The transport's read side.  Which part of the buffer it fills, and whether a
   call fails, is arbitrary; a healthy transport only fails for want of bytes.
   */
  class Source {
    var wire: seq<Byte>
    const healthy: bool
    /** Every read returns as much as it was asked for and there is. */
    const eager: bool

    /** reader.Read(buffer[:limit]) */
    method Read(buffer: array<Byte>, limit: nat) returns (n: nat, ok: bool)
      requires limit <= buffer.Length
      modifies this, buffer
      ensures n <= limit && n <= |old(wire)| && wire == old(wire)[n..]
      ensures buffer[..n] == old(wire)[..n]
      ensures !ok ==> n == 0
      ensures healthy ==> ok
      ensures ok && eager ==> n == Min(limit, |old(wire)|)
    {
      n, ok := 0, healthy;
      if !eager { n :| n <= limit && n <= |wire|; } else { n := Min(limit, |wire|); }
      var answers: bool := *;
      ok := healthy || answers;
      if !ok { return 0, false; }
      Deliver(buffer, n);
    }

    /** io.ReadFull into the first k bytes of the buffer. */
    method ReadFull(buffer: array<Byte>, k: nat) returns (ok: bool)
      requires k <= buffer.Length
      modifies this, buffer
      ensures ok ==> k <= |old(wire)| && buffer[..k] == old(wire)[..k] && wire == old(wire)[k..]
      ensures !ok ==> Suffix(wire, old(wire))
      ensures healthy && k <= |old(wire)| ==> ok
    {
      var i := Min(k, |wire|);
      if !healthy { i :| 0 <= i <= Min(k, |wire|); }
      ok := i == k;
      Deliver(buffer, i);
    }

    /** rw.SkipN */
    method SkipN(k: nat) returns (ok: bool)
      modifies this
      ensures ok ==> k <= |old(wire)| && wire == old(wire)[k..]
      ensures !ok ==> Suffix(wire, old(wire))
      ensures healthy && k <= |old(wire)| ==> ok
    {
      var i := Min(k, |wire|);
      if !healthy { i :| 0 <= i <= Min(k, |wire|); }
      ok := i == k;
      wire := wire[i..];
    }

    method Deliver(buffer: array<Byte>, n: nat)
      requires n <= buffer.Length && n <= |wire|
      modifies this, buffer
      ensures buffer[..n] == old(wire)[..n] && wire == old(wire)[n..]
    {
      for i := 0 to n
        invariant wire == old(wire) && buffer[..i] == wire[..i]
      {
        buffer[i] := wire[i];
      }
      wire := wire[n..];
    }
  }

  /** The transport took `wire`, or a prefix of it up to where its room ended. */
  ghost predicate Emitted(before: seq<Byte>, room: nat, wire: seq<Byte>, after: seq<Byte>, left: nat, ok: bool) {
    && ok == (|wire| <= room)
    && after == before + wire[..Min(|wire|, room)]
    && left == room - Min(|wire|, room)
  }

  lemma EmittedThen(w0: seq<Byte>, r0: nat, a: seq<Byte>, w1: seq<Byte>, r1: nat,
                    b: seq<Byte>, w2: seq<Byte>, r2: nat, ok: bool)
    requires Emitted(w0, r0, a, w1, r1, true) && Emitted(w1, r1, b, w2, r2, ok)
    ensures Emitted(w0, r0, a + b, w2, r2, ok)
  {
    var k := Min(|b|, r1);
    assert (a + b)[..|a| + k] == a + b[..k];
    assert w0 + a + b[..k] == w0 + (a + b[..k]);
    assert a[..|a|] == a;
  }

  lemma EmittedBroken(w0: seq<Byte>, r0: nat, a: seq<Byte>, w1: seq<Byte>, r1: nat, b: seq<Byte>)
    requires Emitted(w0, r0, a, w1, r1, false)
    ensures Emitted(w0, r0, a + b, w1, r1, false)
  {
    assert (a + b)[..r0] == a[..r0];
  }

  lemma {:induction false} CountGrows(count: nat, data: seq<Byte>)
    ensures count <= ChunkedCount(count, data)
    decreases |data|
  {
    if data != [] {
      CountGrows(NextCount(count), data[FirstChunk(data)..]);
    }
  }

  /**
   All that one read can return, once the padding owed is skipped: what is left of the
   current frame, or what the next one holds, or after eight frames anything.
   */
  function Most(r: Reader, wire: seq<Byte>, cap: nat): nat {
    if r.readRemaining > 0 then Min(cap, Min(r.readRemaining, |wire|))
    else if r.readPadding >= 8 then Min(cap, |wire|)
    else if |wire| < 3 then 0
    else Min(cap, Min(wire[0] as nat * 256 + wire[1] as nat, |wire| - 3))
  }

  /** The wire after the padding owed. */
  function Ahead(r: Reader, wire: seq<Byte>): seq<Byte> {
    if r.readRemaining > 0 || |wire| < r.paddingRemaining then wire else wire[r.paddingRemaining..]
  }

  class PaddingConn {
    var readPadding: nat
    var writePadding: nat
    var readRemaining: nat
    var paddingRemaining: nat
    const draws: Draws   // rand.Intn(256), one draw per frame

    ghost function ReaderState(): Reader
      reads this
    {
      Reader(readPadding, readRemaining, paddingRemaining)
    }

    /** The three header bytes, read into the caller's buffer when it is large enough. */
    method ReadHeader(reader: Source, buffer: array<Byte>) returns (size: nat, pad: nat, ok: bool)
      modifies reader, buffer
      ensures ok ==> var w := old(reader.wire);
                     |w| >= 3 && size == Size(w[0], w[1]) && pad == w[2] as nat && reader.wire == w[3..]
      ensures !ok ==> Suffix(reader.wire, old(reader.wire))
      ensures reader.healthy && |old(reader.wire)| >= 3 ==> ok
    {
      var header := buffer;
      if buffer.Length < 3 { header := new Byte[3](_ => 0); }
      ok := reader.ReadFull(header, 3);
      if !ok { return 0, 0, false; }
      assert header[..3] == [header[0], header[1], header[2]];
      size, pad := Size(header[0], header[1]), header[2] as nat;
    }

    /** The read once nothing is owed any more: the next frame, or raw bytes after the eighth. */
    method ReadFrame(reader: Source, buffer: array<Byte>) returns (n: nat, ok: bool)
      requires readRemaining == paddingRemaining == 0
      modifies this`readPadding, this`readRemaining, this`paddingRemaining, reader, buffer
      ensures ok ==> n <= buffer.Length && CanRead(old(ReaderState()), old(reader.wire), buffer.Length, n)
      ensures ok ==>
        AfterRead(old(ReaderState()), old(reader.wire), buffer.Length, n) == (ReaderState(), reader.wire, buffer[..n])
      ensures !ok ==> n == 0 && ReaderState() == old(ReaderState()) && Suffix(reader.wire, old(reader.wire))
      ensures reader.healthy && CanRead(old(ReaderState()), old(reader.wire), buffer.Length, 0) ==> ok
      ensures ok && reader.eager ==> n == Most(old(ReaderState()), old(reader.wire), buffer.Length)
    {
      if readPadding < PADDING_COUNT {
        var originalDataSize, paddingSize;
        originalDataSize, paddingSize, ok := ReadHeader(reader, buffer);
        if !ok { return 0, false; }
        n, ok := reader.Read(buffer, Min(buffer.Length, originalDataSize));
        if !ok {
          assert reader.wire == old(reader.wire)[3..];
          return;
        }
        readPadding := readPadding + 1;
        readRemaining := originalDataSize - n;
        paddingRemaining := paddingSize;
        return;
      }
      n, ok := reader.Read(buffer, buffer.Length);
      assert !ok ==> reader.wire == old(reader.wire)[0..];
    }

    /** A successful call is one AfterRead step; a failing one returns no bytes and may have consumed some. */
    method ReadWithPadding(reader: Source, buffer: array<Byte>) returns (n: nat, ok: bool)
      modifies this`readPadding, this`readRemaining, this`paddingRemaining, reader, buffer
      ensures ok ==> n <= buffer.Length && CanRead(old(ReaderState()), old(reader.wire), buffer.Length, n)
      ensures ok ==>
        AfterRead(old(ReaderState()), old(reader.wire), buffer.Length, n) == (ReaderState(), reader.wire, buffer[..n])
      ensures !ok ==> n == 0 && ReaderState() in {old(ReaderState()), old(ReaderState()).(paddingRemaining := 0)}
      ensures !ok ==> Suffix(reader.wire, old(reader.wire))
      ensures reader.healthy && CanRead(old(ReaderState()), old(reader.wire), buffer.Length, 0) ==> ok
      ensures ok && reader.eager ==>
                n == Most(old(ReaderState()), Ahead(old(ReaderState()), old(reader.wire)), buffer.Length)
    {
      if readRemaining > 0 {
        n, ok := reader.Read(buffer, Min(buffer.Length, readRemaining));
        if !ok {
          assert reader.wire == old(reader.wire)[0..];
          return;
        }
        readRemaining := readRemaining - n;
        return;
      }
      if paddingRemaining > 0 {
        ok := reader.SkipN(paddingRemaining);
        if !ok { return 0, false; }
        paddingRemaining := 0;
      }
      ghost var skipped: nat := old(paddingRemaining);
      assert reader.wire == old(reader.wire)[skipped..];
      assert CanRead(old(ReaderState()), old(reader.wire), buffer.Length, 0)
          == CanRead(ReaderState(), reader.wire, buffer.Length, 0);
      n, ok := ReadFrame(reader, buffer);
      if !ok { SuffixOf(reader.wire, old(reader.wire), skipped); }
    }

    /** One frame, or the bytes themselves once eight frames are out; the frame counts even if it fails. */
    method WriteWithPadding(writer: Sink, data: seq<Byte>) returns (n: nat, ok: bool)
      modifies this`writePadding, writer
      ensures Emitted(old(writer.wire), old(writer.room), ChunkWire(old(writePadding), data, draws),
                      writer.wire, writer.room, ok)
      ensures writePadding == NextCount(old(writePadding))
      ensures if ok then n == |data| else n < |data| || n == 0
    {
      if writePadding < PADDING_COUNT {
        var _, sent := writer.Write(Frame(data, draws(writePadding)));
        n, ok := if sent then |data| else 0, sent;
        writePadding := writePadding + 1;
        return;
      }
      n, ok := writer.Write(data);
    }

    /** The whole of `data` goes out as ChunkedWire, or a prefix of it up to where the transport broke. */
    method WriteChunked(writer: Sink, data: seq<Byte>) returns (n: nat, ok: bool)
      modifies this`writePadding, writer
      ensures Emitted(old(writer.wire), old(writer.room), ChunkedWire(old(writePadding), data, draws),
                      writer.wire, writer.room, ok)
      ensures ok ==> n == |data| && writePadding == ChunkedCount(old(writePadding), data)
      ensures !ok ==> n < |data| && old(writePadding) <= writePadding <= ChunkedCount(old(writePadding), data)
    {
      n, ok := 0, true;
      var rest := data;
      ghost var whole, out: seq<Byte> := ChunkedWire(writePadding, data, draws), [];
      ghost var w0, r0 := writer.wire, writer.room;
      while |rest| > 0
        invariant ok && n + |rest| == |data| && writePadding >= old(writePadding)
        invariant whole == out + ChunkedWire(writePadding, rest, draws)
        invariant ChunkedCount(old(writePadding), data) == ChunkedCount(writePadding, rest)
        invariant Emitted(w0, r0, out, writer.wire, writer.room, true)
        decreases |rest|
      {
        var k := FirstChunk(rest);
        var chunk := rest[..k];
        ghost var wire, w1, r1 := ChunkWire(writePadding, chunk, draws), writer.wire, writer.room;
        ChunkedUnfold(writePadding, rest, draws, out, whole);
        rest := rest[k..];
        var written;
        written, ok := WriteWithPadding(writer, chunk);
        n := n + written;
        EmittedThen(w0, r0, out, w1, r1, wire, writer.wire, writer.room, ok);
        out := out + wire;
        if !ok {
          EmittedBroken(w0, r0, out, writer.wire, writer.room, ChunkedWire(writePadding, rest, draws));
          CountGrows(writePadding, rest);
          return;
        }
      }
      assert whole == out;
    }

    /** A buffer becomes one frame, falls back to chunks when it is too long for one, or goes out raw. */
    method WriteBufferWithPadding(writer: Sink, buffer: seq<Byte>) returns (ok: bool)
      modifies this`writePadding, writer
      ensures Emitted(old(writer.wire), old(writer.room), BufferWire(old(writePadding), buffer, draws),
                      writer.wire, writer.room, ok)
      ensures ok || |buffer| <= MAX_CHUNK ==> writePadding == BufferCount(old(writePadding), buffer)
      ensures !ok ==> old(writePadding) <= writePadding <= BufferCount(old(writePadding), buffer)
    {
      var bytes := buffer;
      if writePadding < PADDING_COUNT {
        if |buffer| > MAX_CHUNK {
          var _, sent := WriteChunked(writer, buffer);
          return sent;
        }
        bytes := Frame(buffer, draws(writePadding));
        writePadding := writePadding + 1;
      }
      var _, sent := writer.Write(bytes);
      return sent;
    }
  }

  // ---------------------------------------------------------------- a conversation

  /** What the two ends are asked to do, one call at a time. */
  datatype Call = CallWrite(data: seq<Byte>) | CallWriteBuffer(data: seq<Byte>) | CallRead(cap: nat)

  /**
   The two ends and the transport between them, as the link they are; once a read
   has failed, the writing half only.
   */
  ghost predicate Tracks(l: Link, sender: PaddingConn, receiver: PaddingConn, sink: Sink, source: Source, reading: bool)
    reads sender, receiver, sink, source
  {
    && sink.wire == []
    && (if l.broken then sink.room == 0 else sender.writePadding == l.writePadding)
    && (reading ==> source.wire == l.flight && receiver.ReaderState() == l.reader)
  }

  /** Whatever the sink took arrives at the source. */
  method Carry(sink: Sink, source: Source)
    modifies sink`wire, source`wire
    ensures sink.wire == [] && source.wire == old(source.wire) + old(sink.wire)
  {
    source.wire, sink.wire := source.wire + sink.wire, [];
  }

  /** The event is this call, on the link. */
  predicate Does(call: Call, e: Event) {
    match call
    case CallWrite(data) => e.Write? && e.data == data
    case CallWriteBuffer(data) => e.WriteBuffer? && e.data == data
    case CallRead(cap) => e.Read? && e.cap == cap
  }

  /** The events are the calls, one for one and in order, but for the reads from the first that failed on. */
  ghost predicate Performed(calls: seq<Call>, events: seq<Event>, reading: bool)
    decreases |calls|
  {
    if calls == [] then events == [] && reading
    else
      var before, call := calls[..|calls| - 1], calls[|calls| - 1];
      if call.CallRead? && !reading then Performed(before, events, true) || Performed(before, events, false)
      else
        events != [] && Does(call, events[|events| - 1]) && Performed(before, events[..|events| - 1], reading)
  }

  lemma PerformedMore(calls: seq<Call>, events: seq<Event>, reading: bool, call: Call, e: Event)
    requires Performed(calls, events, reading) && Does(call, e) && (call.CallRead? ==> reading)
    ensures Performed(calls + [call], events + [e], reading)
  {
    assert (calls + [call])[..|calls|] == calls && (events + [e])[..|events|] == events;
  }

  lemma ReadMissed(calls: seq<Call>, events: seq<Event>, reading: bool, call: Call)
    requires Performed(calls, events, reading) && call.CallRead?
    ensures Performed(calls + [call], events, false)
  {
    assert (calls + [call])[..|calls|] == calls;
  }

  /** What the transport took of a write is what Put adds to the flight. */
  lemma EmittedIsPut(l: Link, wire: seq<Byte>, data: seq<Byte>, after: nat, room: nat, taken: seq<Byte>, left: nat,
                     ok: bool)
    requires if l.broken then taken == [] && left == 0 else Emitted([], room, wire, taken, left, ok)
    ensures var l' := Put(l, wire, data, after, room);
            && l'.flight == l.flight + taken && l'.reader == l.reader
            && (if l'.broken then left == 0 else !l.broken && ok && l'.writePadding == after)
  {
  }

  /** One write: its event, and what it does to the counter, the sink and the link. */
  method PerformOne(sender: PaddingConn, sink: Sink, call: Call, ghost l: Link) returns (ghost e: Event)
    requires !call.CallRead? && sink.wire == []
    requires if l.broken then sink.room == 0 else sender.writePadding == l.writePadding
    modifies sender`writePadding, sink
    ensures Does(call, e)
    ensures var l' := Step(l, sender.draws, e);
            && l'.flight == l.flight + sink.wire && l'.reader == l.reader
            && (if l'.broken then sink.room == 0 else sender.writePadding == l'.writePadding)
  {
    ghost var room, count, data := sink.room, l.writePadding, call.data;
    if call.CallWrite? {
      e := Write(data, room);
      var _, ok := sender.WriteChunked(sink, call.data);
      EmittedIsPut(l, ChunkedWire(count, data, sender.draws), data, ChunkedCount(count, data), room, sink.wire,
        sink.room, ok);
    } else {
      e := WriteBuffer(data, room);
      var ok := sender.WriteBufferWithPadding(sink, call.data);
      EmittedIsPut(l, BufferWire(count, data, sender.draws), data, BufferCount(count, data), room, sink.wire,
        sink.room, ok);
    }
  }

  /** One write and its way over the transport are one step of the link. */
  method PerformWrite(sender: PaddingConn, receiver: PaddingConn, sink: Sink, source: Source, call: Call,
                      ghost l: Link, reading: bool) returns (ghost e: Event)
    requires sender != receiver && !call.CallRead? && Tracks(l, sender, receiver, sink, source, reading)
    modifies sender`writePadding, sink, source`wire
    ensures Does(call, e)
    ensures Tracks(Step(l, sender.draws, e), sender, receiver, sink, source, reading)
  {
    e := PerformOne(sender, sink, call, l);
    Carry(sink, source);
  }

  /** One read, if it succeeds, is one step of the link. */
  method PerformRead(sender: PaddingConn, receiver: PaddingConn, sink: Sink, source: Source, cap: nat, ghost l: Link)
    returns (out: seq<Byte>, ok: bool)
    requires sender != receiver && Tracks(l, sender, receiver, sink, source, true)
    modifies receiver, source
    ensures Tracks(if ok then Step(l, sender.draws, Read(cap, |out|)) else l, sender, receiver, sink, source, ok)
    ensures ok ==> Step(l, sender.draws, Read(cap, |out|)).delivered == l.delivered + out
  {
    var buffer := new Byte[cap](_ => 0);
    var n;
    n, ok := receiver.ReadWithPadding(source, buffer);
    out := buffer[..n];
  }

  /** The run so far: what was handed in and what came out, and which calls it performed. */
  ghost predicate Spoken(draws: Draws, calls: seq<Call>, events: seq<Event>, sent: seq<Byte>, delivered: seq<Byte>,
                         reading: bool)
  {
    Run(FRESH, draws, events).sent == sent && Run(FRESH, draws, events).delivered == delivered
    && Performed(calls, events, reading)
  }

  lemma SpokenMore(draws: Draws, calls: seq<Call>, events: seq<Event>, sent: seq<Byte>, delivered: seq<Byte>,
                   reading: bool, call: Call, e: Event)
    requires Spoken(draws, calls, events, sent, delivered, reading) && Does(call, e) && (call.CallRead? ==> reading)
    ensures var l' := Step(Run(FRESH, draws, events), draws, e);
            Run(FRESH, draws, events + [e]) == l' &&
              Spoken(draws, calls + [call], events + [e], l'.sent, l'.delivered, reading)
  {
    RunMore(draws, events, e);
    PerformedMore(calls, events, reading, call, e);
  }

  /** One more call. */
  method ConverseOn(sender: PaddingConn, receiver: PaddingConn, sink: Sink, source: Source, call: Call, reading: bool,
                    ghost calls: seq<Call>, ghost events: seq<Event>, sent: seq<Byte>, delivered: seq<Byte>)
    returns (sent': seq<Byte>, delivered': seq<Byte>, reading': bool, ghost events': seq<Event>)
    requires sender != receiver && Spoken(sender.draws, calls, events, sent, delivered, reading)
    requires Tracks(Run(FRESH, sender.draws, events), sender, receiver, sink, source, reading)
    modifies sender, receiver, sink, source
    ensures Spoken(sender.draws, calls + [call], events', sent', delivered', reading')
    ensures Tracks(Run(FRESH, sender.draws, events'), sender, receiver, sink, source, reading')
  {
    ghost var l := Run(FRESH, sender.draws, events);
    sent', delivered', reading', events' := sent, delivered, reading, events;
    if !call.CallRead? {
      ghost var e := PerformWrite(sender, receiver, sink, source, call, l, reading);
      SpokenMore(sender.draws, calls, events, sent, delivered, reading, call, e);
      sent', events' := sent + call.data, events + [e];
    } else if !reading {
      ReadMissed(calls, events, false, call);
    } else {
      var out;
      out, reading' := PerformRead(sender, receiver, sink, source, call.cap, l);
      if reading' {
        SpokenMore(sender.draws, calls, events, sent, delivered, true, call, Read(call.cap, |out|));
        delivered', events' := delivered + out, events + [Read(call.cap, |out|)];
      } else {
        ReadMissed(calls, events, true, call);
      }
    }
  }

  /**
   Any sequence of calls over one wire is a run of the link, up to the first read
   that fails: the bytes returned are a prefix of the bytes written.
   */
  method Converse(sender: PaddingConn, receiver: PaddingConn, sink: Sink, source: Source, calls: seq<Call>)
    returns (sent: seq<Byte>, delivered: seq<Byte>, reading: bool, ghost events: seq<Event>)
    requires sender != receiver && Tracks(FRESH, sender, receiver, sink, source, true)
    modifies sender, receiver, sink, source
    ensures delivered <= sent && Spoken(sender.draws, calls, events, sent, delivered, reading)
  {
    sent, delivered, reading, events := [], [], true, [];
    for i := 0 to |calls|
      invariant Spoken(sender.draws, calls[..i], events, sent, delivered, reading)
      invariant Tracks(Run(FRESH, sender.draws, events), sender, receiver, sink, source, reading)
    {
      assert calls[..i + 1] == calls[..i] + [calls[i]];
      sent, delivered, reading, events :=
        ConverseOn(sender, receiver, sink, source, calls[i], reading, calls[..i], events, sent, delivered);
    }
    assert calls[..|calls|] == calls;
    RoundTrip(sender.draws, events);
  }

  lemma RunMore(draws: Draws, events: seq<Event>, e: Event)
    ensures Run(FRESH, draws, events + [e]) == Step(Run(FRESH, draws, events), draws, e)
  {
    assert (events + [e])[..|events|] == events;
  }
}
