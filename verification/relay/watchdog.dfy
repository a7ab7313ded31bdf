/**
 The idle watchdog of handleClientConnection in pkg/server/server.go: every successful read stores the whole second it
 happened in, and a goroutine compares that with its own whole second at each tick. Instants are real numbers of
 seconds.
 */
module Watchdog {
  import opened Options

  datatype Event = Activity(at: real) | Check(at: real)

  const DEFAULT_TIMEOUT := 300

  /** The limit in force, in seconds: a negative one stands for the default. */
  function Limit(timeout: int): nat {
    if timeout < 0 then DEFAULT_TIMEOUT else timeout
  }

  /** The last activity before the i-th event; the connection itself starts as active. */
  function LastActivity(start: real, evs: seq<Event>, i: nat): real
    requires i <= |evs|
  {
    if i == 0 then start
    else if evs[i - 1].Activity? then evs[i - 1].at
    else LastActivity(start, evs, i - 1)
  }

  /** The test made at a tick. */
  predicate Due(timeout: int, start: real, evs: seq<Event>, i: nat)
    requires i < |evs|
  {
    evs[i].Check? && evs[i].at.Floor - LastActivity(start, evs, i).Floor >= Limit(timeout)
  }

  /** Events come in the order of their instants, none before the start. */
  predicate Ordered(start: real, evs: seq<Event>) {
    && (forall i :: 0 <= i < |evs| ==> start <= evs[i].at)
    && (forall i, j :: 0 <= i < j < |evs| ==> evs[i].at <= evs[j].at)
  }

  lemma FloorGap(a: real, b: real, n: int)
    ensures b.Floor - a.Floor >= n ==> b - a > n as real - 1.0
    ensures b - a >= n as real ==> b.Floor - a.Floor >= n
  {
  }

  /** A cut comes only more than the limit less one second after the last activity. */
  lemma NotTooEarly(timeout: int, start: real, evs: seq<Event>, i: nat)
    requires i < |evs| && Due(timeout, start, evs, i)
    ensures evs[i].at - LastActivity(start, evs, i) > Limit(timeout) as real - 1.0
  {
    FloorGap(LastActivity(start, evs, i), evs[i].at, Limit(timeout));
  }

  /** No activity before the i-th event is later than the last one. */
  lemma {:induction false} LastIsLatest(start: real, evs: seq<Event>, i: nat)
    requires i <= |evs| && Ordered(start, evs)
    ensures start <= LastActivity(start, evs, i)
    ensures forall j :: 0 <= j < i && evs[j].Activity? ==> evs[j].at <= LastActivity(start, evs, i)
  {
    if i > 0 {
      LastIsLatest(start, evs, i - 1);
    }
  }

  /** A cut comes more than the limit less one second after the start and after every activity before it. */
  lemma EarlierStill(timeout: int, start: real, evs: seq<Event>, i: nat)
    requires i < |evs| && Due(timeout, start, evs, i)
    ensures Ordered(start, evs) ==>
      && evs[i].at - start > Limit(timeout) as real - 1.0
      && forall j :: 0 <= j < i && evs[j].Activity? ==> evs[i].at - evs[j].at > Limit(timeout) as real - 1.0
  {
    NotTooEarly(timeout, start, evs, i);
    if Ordered(start, evs) {
      LastIsLatest(start, evs, i);
    }
  }

  /** The two goroutines, event by event; returns the event at which the watchdog cuts the connection. */
  method Watch(timeout: int, start: real, evs: seq<Event>) returns (cut: Option<nat>)
    ensures timeout == 0 ==> cut == None
    ensures timeout != 0 && cut.None? ==> forall i :: 0 <= i < |evs| ==> !Due(timeout, start, evs, i)
    ensures cut.Some? ==> cut.value < |evs| && Due(timeout, start, evs, cut.value)
    ensures cut.Some? ==> forall i :: 0 <= i < cut.value ==> !Due(timeout, start, evs, i)
    ensures cut.Some? && Ordered(start, evs) ==>
      var limit := if timeout < 0 then 300 else timeout;
      && evs[cut.value].Check? && evs[cut.value].at - start > limit as real - 1.0
      && forall j :: 0 <= j < cut.value && evs[j].Activity? ==> evs[cut.value].at - evs[j].at > limit as real - 1.0
  {
    var limit := timeout;
    if limit < 0 {
      limit := DEFAULT_TIMEOUT;
    }
    var lastActivityTime := start.Floor;
    if limit == 0 {
      return None;
    }
    for i := 0 to |evs|
      invariant lastActivityTime == LastActivity(start, evs, i).Floor
      invariant forall j :: 0 <= j < i ==> !Due(timeout, start, evs, j)
    {
      match evs[i]
      case Activity(at) => lastActivityTime := at.Floor;
      case Check(at) =>
        if at.Floor - lastActivityTime >= limit {
          EarlierStill(timeout, start, evs, i);
          return Some(i);
        }
    }
    return None;
  }

  /** The instant of the k-th tick. */
  function Tick(start: real, k: nat): real {
    start + k as real
  }

  /** Up to the horizon there is a check each second after the start. */
  ghost predicate Ticking(start: real, evs: seq<Event>, horizon: real) {
    forall k: nat :: k >= 1 && Tick(start, k) <= horizon ==> Check(Tick(start, k)) in evs
  }

  /** The first tick that is not before an instant. */
  lemma TickAfter(start: real, x: real) returns (k: nat)
    requires start < x
    ensures k >= 1 && x <= Tick(start, k) < x + 1.0
  {
    var d := x - start;
    k := if d.Floor as real == d then d.Floor else d.Floor + 1;
  }

  lemma {:induction false} QuietSince(start: real, evs: seq<Event>, i: nat, last: real, until: real)
    requires i <= |evs| && Ordered(start, evs) && start <= last
    requires forall j :: 0 <= j < |evs| && evs[j].Activity? ==> evs[j].at <= last || evs[j].at > until
    requires forall j :: 0 <= j < i ==> evs[j].at <= until
    ensures LastActivity(start, evs, i) <= last
  {
    if i > 0 && !evs[i - 1].Activity? {
      QuietSince(start, evs, i - 1, last, until);
    }
  }

  /** Without activity for the limit and one second more, a check within that time finds the connection due. */
  lemma NotTooLate(timeout: int, start: real, evs: seq<Event>, last: real)
    requires timeout != 0 && Ordered(start, evs) && start <= last
    requires Ticking(start, evs, last + Limit(timeout) as real + 1.0)
    requires forall j :: 0 <= j < |evs| && evs[j].Activity? ==>
               evs[j].at <= last || evs[j].at > last + Limit(timeout) as real + 1.0
    ensures exists i ::
              0 <= i < |evs| && evs[i].at <= last + Limit(timeout) as real + 1.0 && Due(timeout, start, evs, i)
  {
    var limit := Limit(timeout) as real;
    var k := TickAfter(start, last + limit);
    var i :| 0 <= i < |evs| && evs[i] == Check(Tick(start, k));
    QuietSince(start, evs, i, last, last + limit + 1.0);
    FloorGap(LastActivity(start, evs, i), evs[i].at, Limit(timeout));
    assert Due(timeout, start, evs, i);
  }

  /** The bound is tight: every gap above the limit less one second, however little above, is enough for some cut. */
  lemma MayBeEarly(timeout: int, eps: real)
    requires timeout > 0 && 0.0 < eps <= 1.0
    ensures var evs := [Activity(1.0 - eps), Check(timeout as real)];
      && Ordered(0.0, evs) && Due(timeout, 0.0, evs, 1)
      && evs[1].at - LastActivity(0.0, evs, 1) == timeout as real - 1.0 + eps
  {
    var evs := [Activity(1.0 - eps), Check(timeout as real)];
    assert LastActivity(0.0, evs, 1) == 1.0 - eps;
  }

  /**
   The watchdog's bound, with a check each second: it cuts only more than the limit less one second after the last
   activity, and where `last` is followed by no activity for the limit and one second more, it has cut by then. A zero
   timeout never cuts.
   */
  method IdleCut(timeout: int, start: real, evs: seq<Event>, ghost last: real) returns (cut: Option<nat>)
    requires Ordered(start, evs) && start <= last
    requires Ticking(start, evs, last + (if timeout < 0 then 300 else timeout) as real + 1.0)
    requires forall j :: 0 <= j < |evs| && evs[j].Activity? ==>
               evs[j].at <= last || evs[j].at > last + (if timeout < 0 then 300 else timeout) as real + 1.0
    ensures timeout == 0 ==> cut == None
    ensures cut.Some? ==>
      var limit := if timeout < 0 then 300 else timeout;
      && cut.value < |evs| && evs[cut.value].at - LastActivity(start, evs, cut.value) > limit as real - 1.0
      && evs[cut.value].at - start > limit as real - 1.0
      && forall j :: 0 <= j < cut.value && evs[j].Activity? ==> evs[cut.value].at - evs[j].at > limit as real - 1.0
    ensures timeout != 0 ==>
      cut.Some? && evs[cut.value].at <= last + (if timeout < 0 then 300 else timeout) as real + 1.0
  {
    cut := Watch(timeout, start, evs);
    if timeout != 0 {
      NotTooLate(timeout, start, evs, last);
    }
    if cut.Some? {
      NotTooEarly(timeout, start, evs, cut.value);
    }
  }
}
