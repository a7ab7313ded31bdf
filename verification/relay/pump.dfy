/**
 One copy loop of the relay as a machine on values: it reads what its input holds, in portions of any size, and writes
 what its buffer holds, until its input ends or a read or a write fails. The loop of copy.dfy is proved to run it, and
 relay.dfy puts two of them behind each other in each direction.
 */
module Pumps {
  type Byte = bv8

  /** Where the loop stands: about to read, about to write what its buffer holds, or at its end. */
  datatype Loop = Reading | Writing(buf: seq<Byte>) | Ended

  /** `input` is there to be read, `over` says that nothing will be added to it, `output` is what has been written. */
  datatype Pump = Pump(input: seq<Byte>, over: bool, loop: Loop, output: seq<Byte>)

  /**
   Read: up to n bytes, or the end of the input if there is none. Break: a read fails before the end, with data or
   without. Cut: a write fails after n bytes.
   */
  datatype Step = Read(n: nat) | Write | Break | Cut(n: nat)

  predicate Faulty(s: Step) {
    s.Break? || s.Cut?
  }

  function Least(a: nat, b: nat): nat {
    if a <= b then a else b
  }

  function Pumped(p: Pump, s: Step): Pump {
    match s
    case Read(n) =>
      if !p.loop.Reading? then p
      else if p.input != [] then
        var k := Least(n, |p.input|);
        p.(input := p.input[k..], loop := Writing(p.input[..k]))
      else if p.over then p.(loop := Ended)
      else p
    case Write => if p.loop.Writing? then p.(loop := Reading, output := p.output + p.loop.buf) else p
    case Break => p.(loop := Ended)
    case Cut(n) =>
      if p.loop.Writing? then p.(loop := Ended, output := p.output + p.loop.buf[..Least(n, |p.loop.buf|)]) else p
  }

  function PumpRun(p: Pump, steps: seq<Step>): Pump {
    if |steps| == 0 then p else Pumped(PumpRun(p, steps[..|steps| - 1]), steps[|steps| - 1])
  }

  predicate Faultless(steps: seq<Step>) {
    |steps| == 0 || (Faultless(steps[..|steps| - 1]) && !Faulty(steps[|steps| - 1]))
  }

  lemma OneMoreStep(p: Pump, steps: seq<Step>, s: Step)
    ensures PumpRun(p, steps + [s]) == Pumped(PumpRun(p, steps), s)
    ensures Faultless(steps + [s]) <==> Faultless(steps) && !Faulty(s)
  {
    assert (steps + [s])[..|steps|] == steps;
  }
}
