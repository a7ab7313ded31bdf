/**
 One relayed connection: in each direction the copy loop of one end, the SSH channel, and the copy loop of the other end
 (handleClientConnection in pkg/server/server.go, handleServerChannels in pkg/client/client.go). Each loop reads and
 writes in steps of its own, whatever the chunks; a loop that ends closes its own direction and no other (half-close,
 section 5.3 of RFC 4254); a handler ends when both its loops have, and closes both its connections.
 */
module Relay {
  import opened Options
  import opened Pumps

  /**
   One direction. `rest` is what the sender will still send before its end of stream; `wire` is what the first loop has
   put on the channel and the second has not yet read; `closed` says that no more will be put there.
   */
  datatype Flow = Flow(rest: seq<Byte>, first: Loop, wire: seq<Byte>, closed: bool, second: Loop, got: seq<Byte>)

  /** A step of the first loop or of the second. */
  datatype Move = First(step: Step) | Second(step: Step)

  /** The first loop pumps from the sender to the channel, the second from the channel to the receiver. */
  function Flowed(f: Flow, m: Move): Flow {
    match m
    case First(s) =>
      var p := Pumped(Pump(f.rest, true, f.first, f.wire), s);
      f.(rest := p.input, first := p.loop, wire := p.output, closed := f.closed || p.loop.Ended?)
    case Second(s) =>
      var p := Pumped(Pump(f.wire, f.closed, f.second, f.got), s);
      f.(wire := p.input, second := p.loop, got := p.output)
  }

  // ---------- both directions ----------

  /** `up` carries what the user sends, `down` what the local service answers. */
  datatype Relay = Relay(up: Flow, down: Flow)

  datatype Event = Up(move: Move) | Down(move: Move) | ServerDone | ClientDone | IdleCut

  /**
   The server's handler runs the first loop of `up` and the second of `down`, the client's the other two. Once both its
   loops have ended a handler closes its end of the channel, so that a loop still writing to it breaks. The idle cut
   breaks both loops of the server.
   */
  function Relayed(r: Relay, e: Event): Relay {
    match e
    case Up(m) => r.(up := Flowed(r.up, m))
    case Down(m) => r.(down := Flowed(r.down, m))
    case ServerDone => if r.up.first.Ended? && r.down.second.Ended? then r.(down := Flowed(r.down, First(Break))) else r
    case ClientDone => if r.down.first.Ended? && r.up.second.Ended? then r.(up := Flowed(r.up, First(Break))) else r
    case IdleCut => Relay(Flowed(r.up, First(Break)), Flowed(r.down, Second(Break)))
  }

  function Run(r: Relay, evs: seq<Event>): Relay {
    if |evs| == 0 then r else Relayed(Run(r, evs[..|evs| - 1]), evs[|evs| - 1])
  }

  function Start(sent: seq<Byte>): Flow {
    Flow(sent, Reading, [], false, Reading, [])
  }

  // ---------- what one direction keeps ----------

  function Held(l: Loop): seq<Byte> {
    if l.Writing? then l.buf else []
  }

  /** p lies in the stream at position i. */
  ghost predicate Piece(p: seq<Byte>, sent: seq<Byte>, i: nat) {
    i + |p| <= |sent| && forall k :: 0 <= k < |p| ==> p[k] == sent[i + k]
  }

  lemma SplitPiece(p: seq<Byte>, sent: seq<Byte>, i: nat, k: nat)
    requires Piece(p, sent, i) && k <= |p|
    ensures Piece(p[..k], sent, i) && Piece(p[k..], sent, i + k)
  {
    forall j | 0 <= j < |p| - k ensures p[k..][j] == sent[i + k + j] {
      assert p[k..][j] == p[k + j];
    }
  }

  lemma JoinPieces(p: seq<Byte>, q: seq<Byte>, sent: seq<Byte>, i: nat)
    requires Piece(p, sent, i) && Piece(q, sent, i + |p|)
    ensures Piece(p + q, sent, i)
  {
    forall j | 0 <= j < |p + q| ensures (p + q)[j] == sent[i + j] {
      if j >= |p| {
        assert (p + q)[j] == q[j - |p|];
      }
    }
  }

  /**
   What has been delivered, is held by the second loop, lies on the channel, is held by the first loop and is still to
   be sent are consecutive pieces of what is sent. Unless something broke (`clean`), a loop that has ended has done so
   at the end of the stream.
   */
  ghost predicate Orderly(f: Flow, sent: seq<Byte>, clean: bool) {
    && Piece(f.got, sent, 0) && (f.first.Ended? ==> f.closed)
    && if f.second.Ended? then
         clean ==> |f.got| == |sent| && f.first.Ended?
       else
         var a := |f.got|;
         var b := a + |Held(f.second)|;
         var c := b + |f.wire|;
         var d := c + |Held(f.first)|;
         && Piece(Held(f.second), sent, a) && Piece(f.wire, sent, b)
         && if f.first.Ended? then clean ==> c == |sent|
            else !f.closed && Piece(Held(f.first), sent, c) && Piece(f.rest, sent, d) && d + |f.rest| == |sent|
  }

  lemma ReadFirstKeepsOrder(f: Flow, sent: seq<Byte>, clean: bool, n: nat)
    requires Orderly(f, sent, clean) && !f.second.Ended?
    ensures Orderly(Flowed(f, First(Read(n))), sent, clean)
  {
    if f.first.Reading? {
      SplitPiece(f.rest, sent, |f.got| + |Held(f.second)| + |f.wire|, Least(n, |f.rest|));
    }
  }

  lemma ReadSecondKeepsOrder(f: Flow, sent: seq<Byte>, clean: bool, n: nat)
    requires Orderly(f, sent, clean) && !f.second.Ended?
    ensures Orderly(Flowed(f, Second(Read(n))), sent, clean)
  {
    if f.second.Reading? {
      SplitPiece(f.wire, sent, |f.got|, Least(n, |f.wire|));
    }
  }

  lemma WriteFirstKeepsOrder(f: Flow, sent: seq<Byte>, clean: bool)
    requires Orderly(f, sent, clean) && !f.second.Ended?
    ensures Orderly(Flowed(f, First(Write)), sent, clean)
  {
    if f.first.Writing? {
      JoinPieces(f.wire, f.first.buf, sent, |f.got| + |Held(f.second)|);
    }
  }

  lemma WriteSecondKeepsOrder(f: Flow, sent: seq<Byte>, clean: bool)
    requires Orderly(f, sent, clean) && !f.second.Ended?
    ensures Orderly(Flowed(f, Second(Write)), sent, clean)
  {
    if f.second.Writing? {
      JoinPieces(f.got, f.second.buf, sent, 0);
    }
  }

  lemma FaultsKeepOrder(f: Flow, sent: seq<Byte>, clean: bool, m: Move)
    requires Orderly(f, sent, clean) && !f.second.Ended? && Faulty(m.step)
    ensures Orderly(Flowed(f, m), sent, false)
  {
    var b := |f.got| + |Held(f.second)|;
    if m.First? && m.step.Cut? && f.first.Writing? {
      var k := Least(m.step.n, |f.first.buf|);
      SplitPiece(f.first.buf, sent, b + |f.wire|, k);
      JoinPieces(f.wire, f.first.buf[..k], sent, b);
    } else if m.Second? && m.step.Cut? && f.second.Writing? {
      var k := Least(m.step.n, |f.second.buf|);
      SplitPiece(f.second.buf, sent, |f.got|, k);
      JoinPieces(f.got, f.second.buf[..k], sent, 0);
    }
  }

  lemma OrderKept(f: Flow, sent: seq<Byte>, clean: bool, m: Move)
    requires Orderly(f, sent, clean)
    ensures Orderly(Flowed(f, m), sent, clean && !Faulty(m.step))
  {
    if !f.second.Ended? {
      if Faulty(m.step) {
        FaultsKeepOrder(f, sent, clean, m);
      } else {
        match m
        case First(Read(n)) => ReadFirstKeepsOrder(f, sent, clean, n);
        case Second(Read(n)) => ReadSecondKeepsOrder(f, sent, clean, n);
        case First(Write) => WriteFirstKeepsOrder(f, sent, clean);
        case Second(Write) => WriteSecondKeepsOrder(f, sent, clean);
      }
    }
  }

  // ---------- whole runs, one direction at a time ----------

  function FlowOf(r: Relay, upward: bool): Flow {
    if upward then r.up else r.down
  }

  /** The event of a handler that closes its end of the channel while this direction may still be written there. */
  function Closing(upward: bool): Event {
    if upward then ClientDone else ServerDone
  }

  /** A fault of this direction: one of its own reads or writes fails, or the idle cut comes. */
  predicate Breaks(e: Event, upward: bool) {
    match e
    case Up(m) => upward && Faulty(m.step)
    case Down(m) => !upward && Faulty(m.step)
    case IdleCut => true
    case _ => false
  }

  /** Nothing breaks in this direction; the other one may break at any time, in any way. */
  predicate Unbroken(evs: seq<Event>, upward: bool) {
    |evs| == 0 || (Unbroken(evs[..|evs| - 1], upward) && !Breaks(evs[|evs| - 1], upward))
  }

  lemma EventKeepsOrder(r: Relay, sent: seq<Byte>, clean: bool, e: Event, upward: bool)
    requires Orderly(FlowOf(r, upward), sent, clean)
    ensures Orderly(FlowOf(Relayed(r, e), upward), sent, clean && !Breaks(e, upward))
  {
    var f := FlowOf(r, upward);
    match e
    case Up(m) => if upward { OrderKept(f, sent, clean, m); }
    case Down(m) => if !upward { OrderKept(f, sent, clean, m); }
    case IdleCut => OrderKept(f, sent, clean, if upward then First(Break) else Second(Break));
    case _ => if !clean { OrderKept(f, sent, clean, First(Break)); }
  }

  lemma {:induction false} RunKeepsOrder(up: seq<Byte>, down: seq<Byte>, evs: seq<Event>, upward: bool)
    ensures var r := Run(Relay(Start(up), Start(down)), evs);
      Orderly(FlowOf(r, upward), if upward then up else down, Unbroken(evs, upward))
  {
    if |evs| > 0 {
      var before, last := evs[..|evs| - 1], evs[|evs| - 1];
      RunKeepsOrder(up, down, before, upward);
      EventKeepsOrder(Run(Relay(Start(up), Start(down)), before), if upward then up else down,
                      Unbroken(before, upward), last, upward);
    }
  }

  /** At every step of every run, broken or not, each side has received a beginning of what the other one sends. */
  lemma AlwaysAPrefix(up: seq<Byte>, down: seq<Byte>, evs: seq<Event>)
    ensures var r := Run(Relay(Start(up), Start(down)), evs); r.up.got <= up && r.down.got <= down
  {
    RunKeepsOrder(up, down, evs, true);
    RunKeepsOrder(up, down, evs, false);
  }

  /**
   A direction in which nothing broke, whatever broke in the other, has delivered everything once its last loop has
   ended; and a handler that ends and closes its connections cuts off nothing of it.
   */
  lemma AllOfItAtTheEnd(up: seq<Byte>, down: seq<Byte>, evs: seq<Event>, upward: bool)
    requires Unbroken(evs, upward)
    ensures var r := Run(Relay(Start(up), Start(down)), evs);
      && (FlowOf(r, upward).second.Ended? ==> FlowOf(r, upward).got == if upward then up else down)
      && Relayed(r, Closing(upward)) == r
  {
    RunKeepsOrder(up, down, evs, upward);
  }

  function MovesOf(evs: seq<Event>, upward: bool): seq<Move> {
    if |evs| == 0 then []
    else
      var last := evs[|evs| - 1];
      MovesOf(evs[..|evs| - 1], upward)
      + if upward && last.Up? then [last.move] else if !upward && last.Down? then [last.move] else []
  }

  function FlowRun(f: Flow, moves: seq<Move>): Flow {
    if |moves| == 0 then f else Flowed(FlowRun(f, moves[..|moves| - 1]), moves[|moves| - 1])
  }

  /**
   Directions are independent: one in which nothing broke is where its own moves alone would have brought it, whatever
   the other one did, its end included, and whether that end was the end of its stream or a fault.
   */
  lemma {:induction false} DirectionsAreIndependent(up: seq<Byte>, down: seq<Byte>, evs: seq<Event>, upward: bool)
    requires Unbroken(evs, upward)
    ensures FlowOf(Run(Relay(Start(up), Start(down)), evs), upward)
         == FlowRun(Start(if upward then up else down), MovesOf(evs, upward))
  {
    if |evs| > 0 {
      var before, last := evs[..|evs| - 1], evs[|evs| - 1];
      DirectionsAreIndependent(up, down, before, upward);
      AllOfItAtTheEnd(up, down, before, upward);
      OneMoreMove(Start(if upward then up else down), MovesOf(before, upward), last);
    }
  }

  lemma OneMoreMove(f: Flow, moves: seq<Move>, e: Event)
    ensures e.Up? || e.Down? ==> FlowRun(f, moves + [e.move]) == Flowed(FlowRun(f, moves), e.move)
    ensures FlowRun(f, moves + []) == FlowRun(f, moves)
  {
    assert moves + [] == moves;
    if e.Up? || e.Down? {
      assert (moves + [e.move])[..|moves|] == moves;
    }
  }

  // ---------- the ends of handlers ----------

  /** An idle cut ends both loops of the server, and they stay at their end. */
  lemma {:induction false} IdleCutEnds(up: seq<Byte>, down: seq<Byte>, evs: seq<Event>, i: nat)
    requires i < |evs| && evs[i].IdleCut?
    ensures var r := Run(Relay(Start(up), Start(down)), evs); r.up.first.Ended? && r.down.second.Ended?
  {
    if i < |evs| - 1 {
      IdleCutEnds(up, down, evs[..|evs| - 1], i);
    }
  }

  /** A handler closes its connections once both its loops have ended and no sooner, and that ends the loop behind. */
  lemma ClosingIsExact(r: Relay)
    ensures var r' := Relayed(r, ServerDone);
      && r'.up == r.up
      && if r.up.first.Ended? && r.down.second.Ended? then r'.down.first.Ended? && r'.down.closed else r'.down == r.down
    ensures var r' := Relayed(r, ClientDone);
      && r'.down == r.down
      && if r.down.first.Ended? && r.up.second.Ended? then r'.up.first.Ended? && r'.up.closed else r'.up == r.up
  {
  }

  // ---------- the loops of a direction are two pumps behind each other ----------

  /** Every read of these steps finds what it takes: it never waits, and it never meets the end of the input. */
  predicate Fed(p: Pump, steps: seq<Step>) {
    |steps| == 0
    || (var before, last := steps[..|steps| - 1], steps[|steps| - 1];
        var q := PumpRun(p, before);
        Fed(p, before) && (last.Read? && q.loop.Reading? ==> q.input != [] && last.n <= |q.input|))
  }

  /** To such steps it makes no difference that more comes later, and whether that is all. */
  lemma {:induction false} MoreComes(input: seq<Byte>, more: seq<Byte>, over: bool, steps: seq<Step>)
    requires Fed(Pump(input, false, Reading, []), steps)
    ensures var p, q := PumpRun(Pump(input, false, Reading, []), steps), Pump(input + more, over, Reading, []);
      Fed(q, steps) && PumpRun(q, steps) == Pump(p.input + more, over, p.loop, p.output)
  {
    if |steps| > 0 {
      var before, last := steps[..|steps| - 1], steps[|steps| - 1];
      MoreComes(input, more, over, before);
      MoreAtOnce(PumpRun(Pump(input, false, Reading, []), before), more, over, last);
    }
  }

  lemma MoreAtOnce(p: Pump, more: seq<Byte>, over: bool, s: Step)
    requires s.Read? && p.loop.Reading? ==> p.input != [] && s.n <= |p.input|
    ensures var p' := Pumped(p, s);
      Pumped(Pump(p.input + more, over, p.loop, p.output), s) == Pump(p'.input + more, over, p'.loop, p'.output)
  {
    if s.Read? && p.loop.Reading? {
      assert (p.input + more)[..s.n] == p.input[..s.n] && (p.input + more)[s.n..] == p.input[s.n..] + more;
    }
  }

  /**
   The first loop has pumped from what is sent to `put`, all that was ever put on the channel, and the second from `put`
   to the receiver, as if it had been there from the start.
   */
  ghost predicate Piped(sent: seq<Byte>, f: Flow, put: seq<Byte>, first: seq<Step>, second: seq<Step>) {
    && PumpRun(Pump(sent, true, Reading, []), first) == Pump(f.rest, true, f.first, put)
    && PumpRun(Pump(put, f.closed, Reading, []), second) == Pump(f.wire, f.closed, f.second, f.got)
    && (f.closed <==> f.first.Ended?)
    && (!f.closed ==> Fed(Pump(put, false, Reading, []), second))
  }

  /** What a step of a pump writes. */
  function Written(l: Loop, s: Step): seq<Byte> {
    if !l.Writing? then []
    else match s
      case Write => l.buf
      case Cut(n) => l.buf[..Least(n, |l.buf|)]
      case _ => []
  }

  lemma FirstStays(sent: seq<Byte>, f: Flow, put: seq<Byte>, first: seq<Step>, second: seq<Step>, s: Step)
    requires Piped(sent, f, put, first, second) && !f.first.Ended?
    ensures Piped(sent, Flowed(f, First(s)), put + Written(f.first, s), first + [s], second)
  {
    var f', more := Flowed(f, First(s)), Written(f.first, s);
    OneMoreStep(Pump(sent, true, Reading, []), first, s);
    assert f'.wire == f.wire + more;
    MoreComes(put, more, f'.closed, second);
  }

  /** The step that the second pump makes: a read takes what is on the wire, and there is none while it waits. */
  function Taken(f: Flow, s: Step): seq<Step> {
    if f.second.Ended? || (s.Read? && f.second.Reading? && f.wire == [] && !f.closed) then []
    else if s.Read? && f.second.Reading? && f.wire != [] then [Read(Least(s.n, |f.wire|))]
    else [s]
  }

  lemma SecondStays(sent: seq<Byte>, f: Flow, put: seq<Byte>, first: seq<Step>, second: seq<Step>, s: Step)
    requires Piped(sent, f, put, first, second)
    ensures Piped(sent, Flowed(f, Second(s)), put, first, second + Taken(f, s))
  {
    if Taken(f, s) == [] {
      assert second + [] == second;
    } else {
      var t := Taken(f, s)[0];
      OneMoreStep(Pump(put, f.closed, Reading, []), second, t);
      assert (second + [t])[..|second|] == second;
    }
  }

  /** The move that an event makes in this direction, if any. */
  function MoveOf(r: Relay, e: Event, upward: bool): (m: Option<Move>)
    ensures FlowOf(Relayed(r, e), upward)
         == if m.Some? then Flowed(FlowOf(r, upward), m.value) else FlowOf(r, upward)
  {
    match e
    case Up(m) => if upward then Some(m) else None
    case Down(m) => if upward then None else Some(m)
    case IdleCut => Some(if upward then First(Break) else Second(Break))
    case _ => if Relayed(r, e) == r || e != Closing(upward) then None else Some(First(Break))
  }

  /** The steps that the two loops of a direction make in a run, those of the second as the pump makes them. */
  function Made(r: Relay, evs: seq<Event>, upward: bool): (seq<Step>, seq<Step>) {
    if |evs| == 0 then ([], [])
    else
      var before, last := evs[..|evs| - 1], evs[|evs| - 1];
      var (first, second) := Made(r, before, upward);
      var f := FlowOf(Run(r, before), upward);
      match MoveOf(Run(r, before), last, upward)
      case Some(First(s)) => (if f.first.Ended? then first else first + [s], second)
      case Some(Second(s)) => (first, second + Taken(f, s))
      case None => (first, second)
  }

  /** Piped, with all that the first loop has written on the channel. */
  ghost predicate Pumping(sent: seq<Byte>, f: Flow, first: seq<Step>, second: seq<Step>, clean: bool) {
    && Piped(sent, f, PumpRun(Pump(sent, true, Reading, []), first).output, first, second)
    && (clean ==> Faultless(first) && Faultless(second))
  }

  lemma FirstKeepsPumping(sent: seq<Byte>, f: Flow, first: seq<Step>, second: seq<Step>, clean: bool, s: Step)
    requires Pumping(sent, f, first, second, clean) && !f.first.Ended?
    ensures Pumping(sent, Flowed(f, First(s)), first + [s], second, clean && !Faulty(s))
  {
    FirstStays(sent, f, PumpRun(Pump(sent, true, Reading, []), first).output, first, second, s);
    OneMoreStep(Pump(sent, true, Reading, []), first, s);
  }

  lemma SecondKeepsPumping(sent: seq<Byte>, f: Flow, first: seq<Step>, second: seq<Step>, clean: bool, s: Step)
    requires Pumping(sent, f, first, second, clean)
    ensures Pumping(sent, Flowed(f, Second(s)), first, second + Taken(f, s), clean && !Faulty(s))
  {
    var put := PumpRun(Pump(sent, true, Reading, []), first).output;
    SecondStays(sent, f, put, first, second, s);
    if Taken(f, s) == [] {
      assert second + [] == second;
    } else {
      OneMoreStep(Pump(put, f.closed, Reading, []), second, Taken(f, s)[0]);
    }
  }

  /** The steps made so far, and those that this event adds. */
  lemma EventKeepsPumping(r: Relay, sent: seq<Byte>, first: seq<Step>, second: seq<Step>, clean: bool, e: Event,
                          upward: bool)
    requires Pumping(sent, FlowOf(r, upward), first, second, clean) && Orderly(FlowOf(r, upward), sent, clean)
    ensures var f, f' := FlowOf(r, upward), FlowOf(Relayed(r, e), upward);
      match MoveOf(r, e, upward)
      case Some(First(s)) =>
        Pumping(sent, f', if f.first.Ended? then first else first + [s], second, clean && !Breaks(e, upward))
      case Some(Second(s)) => Pumping(sent, f', first, second + Taken(f, s), clean && !Breaks(e, upward))
      case None => Pumping(sent, f', first, second, clean && !Breaks(e, upward))
  {
    var f := FlowOf(r, upward);
    match MoveOf(r, e, upward)
    case Some(First(s)) =>
      if !f.first.Ended? {
        FirstKeepsPumping(sent, f, first, second, clean, s);
      }
    case Some(Second(s)) => SecondKeepsPumping(sent, f, first, second, clean, s);
    case None =>
  }

  /**
   After every run, however the two loops of a direction took turns and whatever broke, that direction is two pumps
   behind each other: the first over what is sent, the second over what the first has written. Each is the pump that
   the copy loop is proved to run, and in a direction in which nothing broke neither has made a faulty step.
   */
  lemma {:induction false} LoopsArePumps(up: seq<Byte>, down: seq<Byte>, evs: seq<Event>, upward: bool)
    ensures var r := Relay(Start(up), Start(down));
      var (first, second) := Made(r, evs, upward);
      Pumping(if upward then up else down, FlowOf(Run(r, evs), upward), first, second, Unbroken(evs, upward))
  {
    var sent := if upward then up else down;
    if |evs| > 0 {
      var before, last, start := evs[..|evs| - 1], evs[|evs| - 1], Relay(Start(up), Start(down));
      LoopsArePumps(up, down, before, upward);
      RunKeepsOrder(up, down, before, upward);
      var r := Run(start, before);
      var (first, second) := Made(start, before, upward);
      EventKeepsPumping(r, sent, first, second, Unbroken(before, upward), last, upward);
    }
  }

  /** How far a direction is from its end. */
  function Distance(f: Flow): nat {
    5 * |f.rest| + (match f.first case Reading => 2 case Writing(b) => 3 + 3 * |b| case Ended => 0)
    + 3 * |f.wire| + (match f.second case Reading => 1 case Writing(b) => 2 + |b| case Ended => 0)
  }

  /**
   A direction that has not ended can always go on, broken or not: one of its loops has a step without a fault that
   brings it nearer to its end.
   */
  lemma NeverStuck(f: Flow, sent: seq<Byte>, clean: bool)
    requires Orderly(f, sent, clean) && !f.second.Ended?
    ensures exists m: Move :: !Faulty(m.step) && Distance(Flowed(f, m)) < Distance(f)
  {
    var m := if f.second.Writing? then Second(Write)
      else if f.wire != [] then Second(Read(|f.wire|))
      else if f.first.Writing? then First(Write)
      else if f.first.Reading? then First(Read(|f.rest|))
      else Second(Read(0));
    assert !Faulty(m.step) && Distance(Flowed(f, m)) < Distance(f);
  }
}
