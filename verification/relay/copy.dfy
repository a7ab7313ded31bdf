/**
 The copy loops copyBuffer and copyBufferWithTimestamp of pkg/server/server.go and copyBufferRW of pkg/client/client.go:
 read into a buffer that is used again and again, write what was read, stop at the first error of either side.
 */
module Copy {
  import opened Options
  import opened Pumps

  function Join(chunks: seq<seq<Byte>>): seq<Byte> {
    if |chunks| == 0 then [] else chunks[0] + Join(chunks[1..])
  }

  /**
   A reader: the data comes in these chunks, of which a read takes as much as fits its buffer; then every read fails,
   and the first that does brings the bytes of `last` with its error. `served` counts the reads that did not fail.
   */
  class Source {
    var chunks: seq<seq<Byte>>
    var served: nat
    const last: seq<Byte>

    constructor (chunks: seq<seq<Byte>>, last: seq<Byte>)
      ensures this.chunks == chunks && this.last == last && served == 0
    {
      this.chunks, this.last, this.served := chunks, last, 0;
    }

    method Read(buf: array<Byte>) returns (n: nat, err: bool)
      requires buf.Length > 0
      modifies this, buf
      ensures n <= buf.Length && err == (|old(chunks)| == 0)
      ensures err ==> chunks == old(chunks) && served == old(served)
      ensures !err ==> buf[..n] + Join(chunks) == Join(old(chunks)) && Size(chunks) < Size(old(chunks))
      ensures !err ==> served == old(served) + 1
    {
      if |chunks| == 0 {
        n := Fill(buf, last);
        return n, true;
      }
      var data := chunks[0];
      n := Fill(buf, data);
      assert data == data[..n] + data[n..];
      ghost var rest := chunks[1..];
      served := served + 1;
      if n == |data| {
        chunks := chunks[1..];
      } else {
        chunks := [data[n..]] + chunks[1..];
        assert chunks[1..] == rest && chunks[0] == data[n..];
        SplitJoin(data, n, Join(rest));
      }
      return n, false;
    }
  }

  /** As much of the data as fits, at the front of the buffer. */
  method Fill(buf: array<Byte>, data: seq<Byte>) returns (n: nat)
    modifies buf
    ensures n == (if |data| <= buf.Length then |data| else buf.Length) && buf[..n] == data[..n]
  {
    n := if |data| <= buf.Length then |data| else buf.Length;
    for i := 0 to n
      invariant forall k :: 0 <= k < i ==> buf[k] == data[k]
    {
      buf[i] := data[i];
    }
  }

  lemma SplitJoin(data: seq<Byte>, n: nat, rest: seq<Byte>)
    requires n <= |data|
    ensures data[..n] + (data[n..] + rest) == data + rest
  {
  }

  function Size(chunks: seq<seq<Byte>>): nat {
    if |chunks| == 0 then 0 else 1 + |chunks[0]| + Size(chunks[1..])
  }

  /** A writer that takes `room` bytes, or all there are; a write that does not fit stores what fits and fails. */
  class Sink {
    var got: seq<Byte>
    var room: Option<nat>

    constructor (room: Option<nat>)
      ensures got == [] && this.room == room
    {
      this.got, this.room := [], room;
    }

    method Write(data: seq<Byte>) returns (err: bool)
      modifies this
      ensures got == old(got) + Fitting(old(room), data)
      ensures err == (old(room).Some? && old(room).value < |data|)
      ensures !err ==> room == if old(room).None? then None else Some(old(room).value - |data|)
    {
      match room
      case None => got, err := got + data, false;
      case Some(k) =>
        if k < |data| {
          got, room, err := got + data[..k], Some(0), true;
        } else {
          got, room, err := got + data, Some(k - |data|), false;
        }
    }
  }

  function Fitting(room: Option<nat>, data: seq<Byte>): seq<Byte> {
    if room.Some? && room.value < |data| then data[..room.value] else data
  }

  /** The loop as a pump at its start: the whole stream is its input, what comes with the error included. */
  function Primed(all: seq<Byte>, last: seq<Byte>, got: seq<Byte>): Pump {
    Pump(all + last, true, Reading, got)
  }

  /** All of the stream fits, and none of it comes with the error. */
  predicate Unharmed(room: Option<nat>, all: seq<Byte>, last: seq<Byte>) {
    last == [] && (room.Some? ==> |all| <= room.value)
  }

  /**
   The loop. Whatever the chunks, and whatever the size of the buffer, the sink receives the data that came before the
   reader's error, as far as it has room; bytes that come with the error are dropped. The timestamp is clock(i) for the
   last successful read, i being how many there were before it. The rounds of the loop are steps of the pump: a read and
   a write each, or nothing for an empty chunk, and in the end the end of the input or a fault.
   */
  method CopyBuffer(dst: Sink, src: Source, buf: array<Byte>, clock: nat -> int, started: int)
    returns (lastActivityTime: int, ghost steps: seq<Step>)
    requires buf.Length > 0
    modifies dst, src, buf
    ensures dst.got == old(dst.got) + Fitting(old(dst.room), Join(old(src.chunks)))
    ensures src.served >= old(src.served)
    ensures lastActivityTime
         == if src.served == old(src.served) then started else clock(src.served - old(src.served) - 1)
    ensures var end := PumpRun(Primed(Join(old(src.chunks)), src.last, old(dst.got)), steps);
      end.loop.Ended? && end.output == dst.got
    ensures Faultless(steps) <==> Unharmed(old(dst.room), Join(old(src.chunks)), src.last)
  {
    lastActivityTime, steps := started, [];
    var count := 0;
    ghost var all, room, got, moved := Join(src.chunks), dst.room, dst.got, [];
    while true
      invariant Midway(got, room, all, src.last, moved, dst.got, dst.room, Join(src.chunks), steps)
      invariant src.served == old(src.served) + count
      invariant lastActivityTime == if count == 0 then started else clock(count - 1)
      decreases Size(src.chunks)
    {
      var n, err := src.Read(buf);
      if err {
        steps := LastRound(got, room, all, src.last, moved, dst.got, dst.room, steps);
        return;
      }
      lastActivityTime := clock(count);
      count := count + 1;
      ghost var data, rest := buf[..n], Join(src.chunks);
      steps := OneRound(got, room, all, src.last, moved, dst.got, dst.room, data, rest, steps);
      err := dst.Write(buf[..n]);
      if err {
        return;
      }
      moved := moved + data;
    }
  }

  /** In mid-loop: `moved` has gone from the reader to the writer, and `rest` is still to come. */
  ghost predicate Moved(got0: seq<Byte>, room0: Option<nat>, all: seq<Byte>, moved: seq<Byte>,
                        got: seq<Byte>, room: Option<nat>, rest: seq<Byte>)
  {
    && all == moved + rest && got == got0 + moved
    && (room0.None? <==> room.None?) && (room0.Some? ==> room0.value == |moved| + room.value)
  }

  /** The next write either makes the whole of `data` move, or fills the writer with what fits of all. */
  lemma MoveOn(got0: seq<Byte>, room0: Option<nat>, all: seq<Byte>, moved: seq<Byte>,
               got: seq<Byte>, room: Option<nat>, data: seq<Byte>, rest: seq<Byte>)
    requires Moved(got0, room0, all, moved, got, room, data + rest)
    ensures if room.Some? && room.value < |data| then
              got + Fitting(room, data) == got0 + Fitting(room0, all) && |all| > room0.value
            else
              var room' := if room.None? then None else Some(room.value - |data|);
              Moved(got0, room0, all, moved + data, got + data, room', rest)
  {
    assert all == (moved + data) + rest;
    if room.Some? && room.value < |data| {
      assert moved + data[..room.value] == all[..room0.value];
    }
  }

  /** In mid-loop, moreover, the pump has run without fault and is about to read what is still to come. */
  ghost predicate Midway(got0: seq<Byte>, room0: Option<nat>, all: seq<Byte>, last: seq<Byte>, moved: seq<Byte>,
                         got: seq<Byte>, room: Option<nat>, rest: seq<Byte>, steps: seq<Step>)
  {
    && Moved(got0, room0, all, moved, got, room, rest)
    && PumpRun(Primed(all, last, got0), steps) == Pump(rest + last, true, Reading, got) && Faultless(steps)
  }

  /** The loop has ended with these bytes written, without fault exactly if the stream is unharmed. */
  ghost predicate Through(got0: seq<Byte>, room0: Option<nat>, all: seq<Byte>, last: seq<Byte>,
                          got: seq<Byte>, steps: seq<Step>)
  {
    var end := PumpRun(Primed(all, last, got0), steps);
    && end.loop.Ended? && end.output == got && got == got0 + Fitting(room0, all)
    && (Faultless(steps) <==> Unharmed(room0, all, last))
  }

  /** A round of the loop: what was read is written, or as much of it as the writer takes. */
  lemma OneRound(got0: seq<Byte>, room0: Option<nat>, all: seq<Byte>, last: seq<Byte>, moved: seq<Byte>,
                 got: seq<Byte>, room: Option<nat>, data: seq<Byte>, rest: seq<Byte>, steps: seq<Step>)
    returns (steps': seq<Step>)
    requires Midway(got0, room0, all, last, moved, got, room, data + rest, steps)
    ensures if room.Some? && room.value < |data| then
              Through(got0, room0, all, last, got + Fitting(room, data), steps')
            else
              var room' := if room.None? then None else Some(room.value - |data|);
              Midway(got0, room0, all, last, moved + data, got + data, room', rest, steps')
  {
    MoveOn(got0, room0, all, moved, got, room, data, rest);
    if data == [] {
      assert data + rest == rest && got + data == got;
      return steps;
    }
    var write := if room.Some? && room.value < |data| then Cut(room.value) else Write;
    var start, input := Primed(all, last, got0), data + rest + last;
    assert input[..|data|] == data && input[|data|..] == rest + last;
    OneMoreStep(start, steps, Read(|data|));
    OneMoreStep(start, steps + [Read(|data|)], write);
    steps' := steps + [Read(|data|)] + [write];
  }

  /** The round in which the read fails: at the end of the stream, or with bytes that are lost. */
  lemma LastRound(got0: seq<Byte>, room0: Option<nat>, all: seq<Byte>, last: seq<Byte>, moved: seq<Byte>,
                  got: seq<Byte>, room: Option<nat>, steps: seq<Step>)
    returns (steps': seq<Step>)
    requires Midway(got0, room0, all, last, moved, got, room, [], steps)
    ensures Through(got0, room0, all, last, got, steps')
  {
    assert [] + last == last && moved == all;
    var step := if last == [] then Read(0) else Break;
    OneMoreStep(Primed(all, last, got0), steps, step);
    steps' := steps + [step];
  }

  /**
   The receiver gets the whole stream exactly when no write fails for want of room and no data comes with the error.
   */
  lemma CompleteIff(room: Option<nat>, chunks: seq<seq<Byte>>, last: seq<Byte>)
    ensures Fitting(room, Join(chunks)) == Join(chunks) + last <==> Unharmed(room, Join(chunks), last)
  {
    if last != [] {
      assert |Fitting(room, Join(chunks))| < |Join(chunks) + last|;
    }
  }

  /** Two loops over one stream, cut into chunks in two ways and read with two buffers, deliver the same. */
  method CopyTwice(dst: Sink, src: Source, buf: array<Byte>, dst': Sink, src': Source, buf': array<Byte>)
    requires dst != dst' && src != src' && buf.Length > 0 && buf'.Length > 0
    requires Join(src.chunks) == Join(src'.chunks) && dst.got == dst'.got && dst.room == dst'.room
    modifies dst, src, buf, dst', src', buf'
    ensures dst.got == dst'.got
  {
    var at, steps := CopyBuffer(dst, src, buf, i => i, 0);
    var at', steps' := CopyBuffer(dst', src', buf', i => i, 0);
  }
}
