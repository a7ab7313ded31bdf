/**
 The calls of pkg/auth/blocker.go taken apart into the steps between which other goroutines may run. RecordFailure:
 cache lookup, disk read, backfill, mutation of the record object, disk write, cache put. IsBlocked: cache lookup, disk
 read, backfill, judgement of the record. ResetFailure: disk delete, cache remove. Any number of threads run at once,
 each making calls for its own address, as in the brute-force test of blocker_test.go.

 Record objects live in a heap and the cache holds references to it, so a record a thread still holds may be evicted by
 others. Addresses are pairwise different because a thread is named by its address.
 */
module Interleaving {
  import opened Options
  import opened Records
  import opened Lru
  import opened BlockerSpec

  /** A call that a thread makes for its address. */
  datatype Job = Fail(now: int) | Check(now: int) | Reset

  /** Where a thread stands inside its call; `rec` is the record object it holds. */
  datatype Pc =
    | Idle
    | Reading
    | Filling(rec: nat)
    | Judging(rec: nat)
    | Mutating(rec: nat)
    | Writing(rec: nat)
    | Caching(rec: nat)
    | Removing

  /** A record object, and the address it was made for. */
  datatype Cell = Cell(owner: string, rec: Rec)

  /** A thread: its place, the calls it has still to finish, and the answers its checks have had. */
  datatype Thread = Thread(pc: Pc, todo: seq<Job>, said: seq<bool>)

  datatype State = State(view: seq<Entry<nat>>, heap: seq<Cell>, disk: Table, threads: map<string, Thread>)

  predicate HasRecord(pc: Pc) {
    !pc.Idle? && !pc.Reading? && !pc.Removing?
  }

  /** The places that belong to a call. */
  predicate Fits(pc: Pc, job: Job) {
    match pc
    case Idle => true
    case Reading => !job.Reset?
    case Filling(_) => !job.Reset?
    case Judging(_) => job.Check?
    case Removing => job.Reset?
    case _ => job.Fail?
  }

  /** A thread inside a call has that call to finish, and a record it holds is among the first n. */
  predicate InShape(t: Thread, n: nat) {
    && (t.pc != Idle ==> |t.todo| > 0 && Fits(t.pc, t.todo[0]))
    && (HasRecord(t.pc) ==> t.pc.rec < n)
  }

  ghost predicate Shaped(s: State) {
    forall ip :: ip in s.threads ==> InShape(s.threads[ip], |s.heap|)
  }

  /** Where getRecord leaves its caller once it has found or made the record. */
  function With(job: Job, id: nat): Pc {
    if job.Check? then Judging(id) else Mutating(id)
  }

  /** The thread with its call finished, and this to say. */
  function Finished(t: Thread, answer: seq<bool>): Thread
    requires |t.todo| > 0
  {
    Thread(Idle, t.todo[1..], t.said + answer)
  }

  ghost function StepIdle(s: State, ip: string, t: Thread): State {
    if |t.todo| == 0 then s
    else if t.todo[0].Reset? then s.(disk := s.disk - {ip}, threads := s.threads[ip := t.(pc := Removing)])
    else if Find(s.view, ip).Some?
    then
      s.(view := Touch(s.view, ip), threads := s.threads[ip := t.(pc := With(t.todo[0], Find(s.view, ip).value))])
    else s.(threads := s.threads[ip := t.(pc := Reading)])
  }

  /** The disk read of getRecord; RecordFailure makes do with a new record, IsBlocked says no without one. */
  ghost function StepReading(s: State, ip: string, t: Thread): State
    requires |t.todo| > 0
  {
    var id := |s.heap|;
    if ip in s.disk then
      s.(heap := s.heap + [Cell(ip, s.disk[ip])], threads := s.threads[ip := t.(pc := Filling(id))])
    else if t.todo[0].Check? then s.(threads := s.threads[ip := Finished(t, [false])])
    else s.(heap := s.heap + [Cell(ip, ZERO_REC)], threads := s.threads[ip := t.(pc := Mutating(id))])
  }

  /** The next step of the thread of `ip`; a thread with nothing to do stays where it is. */
  ghost function Step(cfg: Config, s: State, ip: string): State
    requires Shaped(s)
  {
    if ip !in s.threads then s
    else
      var t := s.threads[ip];
      match t.pc
      case Idle => StepIdle(s, ip, t)
      case Reading => StepReading(s, ip, t)
      case Filling(id) =>
        s.(view := Insert(cfg.lruSize, s.view, ip, id), threads := s.threads[ip := t.(pc := With(t.todo[0], id))])
      case Judging(id) =>
        s.(threads := s.threads[ip := Finished(t, [s.heap[id].rec.IsBlocked(t.todo[0].now)])])
      case Mutating(id) =>
        s.(heap := s.heap[id := s.heap[id].(rec := Failed(cfg, s.heap[id].rec, t.todo[0].now))],
           threads := s.threads[ip := t.(pc := Writing(id))])
      case Writing(id) =>
        s.(disk := s.disk[ip := s.heap[id].rec], threads := s.threads[ip := t.(pc := Caching(id))])
      case Caching(id) =>
        s.(view := Insert(cfg.lruSize, s.view, ip, id), threads := s.threads[ip := Finished(t, [])])
      case Removing =>
        s.(view := Without(s.view, ip), threads := s.threads[ip := Finished(t, [])])
  }

  /** A schedule names, step by step, the thread that runs next. */
  ghost function Run(cfg: Config, s: State, schedule: seq<string>): State
    requires cfg.Valid() && Inv(cfg, s)
    ensures Inv(cfg, Run(cfg, s, schedule))
    decreases |schedule|
  {
    if |schedule| == 0 then s
    else
      StepKeepsInv(cfg, s, schedule[0]);
      Run(cfg, Step(cfg, s, schedule[0]), schedule[1..])
  }

  // ---------- the invariant ----------

  ghost function PcOf(s: State, ip: string): Pc {
    if ip in s.threads then s.threads[ip].pc else Idle
  }

  /** Between mutation and disk write the record is one failure ahead of the disk; otherwise it equals the disk. */
  ghost predicate Ahead(cfg: Config, s: State, ip: string)
    requires Shaped(s)
  {
    var cached := Find(s.view, ip);
    match PcOf(s, ip)
    case Idle => cached.Some? ==> cached.value < |s.heap| && Lookup(s.disk, ip) == Some(s.heap[cached.value].rec)
    case Reading => cached == None
    case Filling(id) => cached == None && s.heap[id].owner == ip && Lookup(s.disk, ip) == Some(s.heap[id].rec)
    case Judging(id) =>
      s.heap[id].owner == ip && Lookup(s.disk, ip) == Some(s.heap[id].rec)
      && (cached.Some? ==> cached.value == id)
    case Mutating(id) =>
      s.heap[id].owner == ip && s.heap[id].rec == OrZero(Lookup(s.disk, ip))
      && (cached.Some? ==> cached.value == id && ip in s.disk)
    case Writing(id) =>
      s.heap[id].owner == ip && s.heap[id].rec == Failed(cfg, OrZero(Lookup(s.disk, ip)), s.threads[ip].todo[0].now)
      && (cached.Some? ==> cached.value == id && ip in s.disk)
    case Caching(id) =>
      s.heap[id].owner == ip && Lookup(s.disk, ip) == Some(s.heap[id].rec)
      && (cached.Some? ==> cached.value == id)
    case Removing => ip !in s.disk
  }

  ghost predicate Inv(cfg: Config, s: State) {
    && Shaped(s)
    && Wellformed(cfg.lruSize, s.view)
    && (forall q :: Find(s.view, q).Some? ==>
          Find(s.view, q).value < |s.heap| && s.heap[Find(s.view, q).value].owner == q)
    && (forall q :: Ahead(cfg, s, q))
  }

  /** What a step of `ip` may change for others: nothing but to evict their cached records. */
  ghost predicate Spares(s: State, s': State, ip: string) {
    && |s.heap| <= |s'.heap|
    && (forall i :: 0 <= i < |s.heap| ==>
          s'.heap[i].owner == s.heap[i].owner && (s.heap[i].owner != ip ==> s'.heap[i] == s.heap[i]))
    && (forall q :: q != ip ==>
          && Lookup(s'.disk, q) == Lookup(s.disk, q)
          && (q in s'.threads <==> q in s.threads) && (q in s.threads ==> s'.threads[q] == s.threads[q])
          && (Find(s'.view, q) == None || Find(s'.view, q) == Find(s.view, q)))
  }

  /** What one step does to the cached reference of q. */
  lemma StepView(cfg: Config, s: State, ip: string, q: string)
    requires cfg.Valid() && Inv(cfg, s)
    ensures var v := Step(cfg, s, ip).view;
      && Wellformed(cfg.lruSize, v)
      && (q != ip ==> Find(v, q) == None || Find(v, q) == Find(s.view, q))
      && (q == ip ==>
            var pc := PcOf(s, ip);
            Find(v, q) == if pc.Filling? || pc.Caching? then Some(pc.rec)
                          else if pc.Removing? then None else Find(s.view, q))
  {
    match PcOf(s, ip)
    case Idle => TouchFind(cfg.lruSize, s.view, ip, q);
    case Filling(id) => InsertFind(cfg.lruSize, s.view, ip, id, q);
    case Caching(id) => InsertFind(cfg.lruSize, s.view, ip, id, q);
    case Removing =>
      WithoutKeys(s.view, ip);
      WithoutFind(s.view, ip, q);
    case _ =>
  }

  lemma StepShaped(cfg: Config, s: State, ip: string)
    requires Shaped(s) && Ahead(cfg, s, ip)
    ensures Shaped(Step(cfg, s, ip))
  {
    var s' := Step(cfg, s, ip);
    forall q | q in s'.threads ensures InShape(s'.threads[q], |s'.heap|) {
      if q != ip {
        assert InShape(s.threads[q], |s.heap|);
      } else {
        OwnStepShaped(cfg, s, ip);
      }
    }
  }

  lemma OwnStepShaped(cfg: Config, s: State, ip: string)
    requires Shaped(s) && Ahead(cfg, s, ip) && ip in s.threads
    ensures var s' := Step(cfg, s, ip); ip in s'.threads && InShape(s'.threads[ip], |s'.heap|)
  {
    assert InShape(s.threads[ip], |s.heap|);
  }

  lemma StepLocal(cfg: Config, s: State, ip: string)
    requires Shaped(s) && Ahead(cfg, s, ip)
    ensures var s' := Step(cfg, s, ip);
      && |s.heap| <= |s'.heap|
      && (forall i :: 0 <= i < |s.heap| ==>
            s'.heap[i].owner == s.heap[i].owner && (s.heap[i].owner != ip ==> s'.heap[i] == s.heap[i]))
      && (forall q :: q != ip ==>
            && Lookup(s'.disk, q) == Lookup(s.disk, q)
            && (q in s'.threads <==> q in s.threads) && (q in s.threads ==> s'.threads[q] == s.threads[q]))
  {
  }

  lemma StepSpares(cfg: Config, s: State, ip: string)
    requires cfg.Valid() && Inv(cfg, s)
    ensures var s' := Step(cfg, s, ip);
      Spares(s, s', ip) && Shaped(s') && Wellformed(cfg.lruSize, s'.view)
  {
    assert Ahead(cfg, s, ip);
    StepShaped(cfg, s, ip);
    StepLocal(cfg, s, ip);
    StepView(cfg, s, ip, ip);
    forall q | q != ip
      ensures Find(Step(cfg, s, ip).view, q) == None || Find(Step(cfg, s, ip).view, q) == Find(s.view, q)
    {
      StepView(cfg, s, ip, q);
    }
  }

  lemma StepOwn(cfg: Config, s: State, ip: string)
    requires cfg.Valid() && Inv(cfg, s) && Shaped(Step(cfg, s, ip))
    ensures var s' := Step(cfg, s, ip);
      && Ahead(cfg, s', ip)
      && (Find(s'.view, ip).Some? ==>
            Find(s'.view, ip).value < |s'.heap| && s'.heap[Find(s'.view, ip).value].owner == ip)
  {
    assert Ahead(cfg, s, ip);
    StepView(cfg, s, ip, ip);
  }

  lemma StepKeepsInv(cfg: Config, s: State, ip: string)
    requires cfg.Valid() && Inv(cfg, s)
    ensures Inv(cfg, Step(cfg, s, ip))
  {
    var s' := Step(cfg, s, ip);
    StepSpares(cfg, s, ip);
    StepOwn(cfg, s, ip);
    forall q | q != ip
      ensures Ahead(cfg, s', q)
      ensures Find(s'.view, q).Some? ==>
        Find(s'.view, q).value < |s'.heap| && s'.heap[Find(s'.view, q).value].owner == q
    {
      assert Ahead(cfg, s, q);
    }
  }

  // ---------- what a run adds up to ----------

  /** A call as it means to be: what it makes of the record of its address, and what it answers. */
  ghost function Outcome(cfg: Config, r: Option<Rec>, job: Job): Option<Rec> {
    match job
    case Fail(now) => Some(Failed(cfg, OrZero(r), now))
    case Check(_) => r
    case Reset => None
  }

  ghost function Reply(r: Option<Rec>, job: Job): seq<bool> {
    match job
    case Check(now) => [r.Some? && r.value.IsBlocked(now)]
    case _ => []
  }

  /** The record after these calls, one after the other, and their answers. */
  ghost function Fold(cfg: Config, r: Option<Rec>, jobs: seq<Job>): Option<Rec>
    decreases |jobs|
  {
    if |jobs| == 0 then r else Fold(cfg, Outcome(cfg, r, jobs[0]), jobs[1..])
  }

  ghost function Replies(cfg: Config, r: Option<Rec>, jobs: seq<Job>): seq<bool>
    decreases |jobs|
  {
    if |jobs| == 0 then [] else Reply(r, jobs[0]) + Replies(cfg, Outcome(cfg, r, jobs[0]), jobs[1..])
  }

  /** The calls of a thread that the disk does not show yet. */
  ghost function Remaining(s: State, ip: string): seq<Job>
    requires Shaped(s)
  {
    if ip !in s.threads then []
    else if s.threads[ip].pc.Caching? || s.threads[ip].pc.Removing? then s.threads[ip].todo[1..]
    else s.threads[ip].todo
  }

  ghost function Said(s: State, ip: string): seq<bool> {
    if ip in s.threads then s.threads[ip].said else []
  }

  /** The record on disk and the answers of the thread, once it has made its remaining calls. */
  ghost predicate Heading(cfg: Config, s: State, ip: string, r: Option<Rec>, said: seq<bool>)
    requires Shaped(s)
  {
    && Fold(cfg, Lookup(s.disk, ip), Remaining(s, ip)) == r
    && Said(s, ip) + Replies(cfg, Lookup(s.disk, ip), Remaining(s, ip)) == said
  }

  /** The step that takes effect: the disk write or delete, or the answer. */
  ghost predicate TakesEffect(s: State, ip: string)
    requires Shaped(s) && ip in s.threads
  {
    var t := s.threads[ip];
    || t.pc.Writing? || t.pc.Judging?
    || (t.pc.Idle? && |t.todo| > 0 && t.todo[0].Reset?)
    || (t.pc.Reading? && t.todo[0].Check? && ip !in s.disk)
  }

  lemma EffectOfStep(cfg: Config, s: State, ip: string)
    requires cfg.Valid() && Shaped(s) && Ahead(cfg, s, ip) && Shaped(Step(cfg, s, ip))
    requires ip in s.threads && TakesEffect(s, ip)
    ensures var s', r, todo := Step(cfg, s, ip), Lookup(s.disk, ip), s.threads[ip].todo;
      && Remaining(s, ip) == todo && Remaining(s', ip) == todo[1..]
      && Lookup(s'.disk, ip) == Outcome(cfg, r, todo[0]) && Said(s', ip) == Said(s, ip) + Reply(r, todo[0])
  {
  }

  lemma NoEffectOfStep(cfg: Config, s: State, ip: string)
    requires cfg.Valid() && Shaped(s) && Ahead(cfg, s, ip) && Shaped(Step(cfg, s, ip))
    requires ip in s.threads && !TakesEffect(s, ip)
    ensures var s' := Step(cfg, s, ip);
      Remaining(s', ip) == Remaining(s, ip) && Lookup(s'.disk, ip) == Lookup(s.disk, ip) && Said(s', ip) == Said(s, ip)
  {
    assert s.threads[ip].said + [] == s.threads[ip].said;
  }

  /** A call that has taken effect has moved from what remains into the record and the answers. */
  lemma OneCallDone(cfg: Config, r: Option<Rec>, r': Option<Rec>, said: seq<bool>, said': seq<bool>, todo: seq<Job>)
    requires |todo| > 0 && r' == Outcome(cfg, r, todo[0]) && said' == said + Reply(r, todo[0])
    ensures Fold(cfg, r', todo[1..]) == Fold(cfg, r, todo)
    ensures said' + Replies(cfg, r', todo[1..]) == said + Replies(cfg, r, todo)
  {
    var rest := Replies(cfg, r', todo[1..]);
    assert said + (Reply(r, todo[0]) + rest) == said + Reply(r, todo[0]) + rest;
  }

  lemma OwnStepKeepsHeading(cfg: Config, s: State, ip: string, r: Option<Rec>, said: seq<bool>)
    requires cfg.Valid() && Shaped(s) && Ahead(cfg, s, ip) && Shaped(Step(cfg, s, ip))
    requires Heading(cfg, s, ip, r, said)
    ensures Heading(cfg, Step(cfg, s, ip), ip, r, said)
  {
    if ip in s.threads {
      var s' := Step(cfg, s, ip);
      if TakesEffect(s, ip) {
        EffectOfStep(cfg, s, ip);
        OneCallDone(cfg, Lookup(s.disk, ip), Lookup(s'.disk, ip), Said(s, ip), Said(s', ip), s.threads[ip].todo);
      } else {
        NoEffectOfStep(cfg, s, ip);
      }
    }
  }

  /** In this state the thread of q, if it is there, is heading for this record and these answers. */
  ghost predicate OnTheWay(cfg: Config, s: State, q: string, there: bool, r: Option<Rec>, said: seq<bool>) {
    Inv(cfg, s) && (q in s.threads <==> there) && Heading(cfg, s, q, r, said)
  }

  lemma StepKeepsHeading(cfg: Config, s: State, ip: string, q: string, there: bool, r: Option<Rec>, said: seq<bool>)
    requires cfg.Valid() && OnTheWay(cfg, s, q, there, r, said)
    ensures OnTheWay(cfg, Step(cfg, s, ip), q, there, r, said)
  {
    StepKeepsInv(cfg, s, ip);
    StepSpares(cfg, s, ip);
    if q == ip {
      assert Ahead(cfg, s, ip);
      OwnStepKeepsHeading(cfg, s, ip, r, said);
    }
  }

  lemma {:induction false} RunKeepsHeading(cfg: Config, s: State, schedule: seq<string>, q: string, there: bool,
                                           r: Option<Rec>, said: seq<bool>)
    requires cfg.Valid() && OnTheWay(cfg, s, q, there, r, said)
    ensures OnTheWay(cfg, Run(cfg, s, schedule), q, there, r, said)
    decreases |schedule|
  {
    if |schedule| > 0 {
      StepKeepsHeading(cfg, s, schedule[0], q, there, r, said);
      RunKeepsHeading(cfg, Step(cfg, s, schedule[0]), schedule[1..], q, there, r, said);
    }
  }

  /** With nothing remaining it is there. */
  lemma Arrived(cfg: Config, s: State, ip: string, r: Option<Rec>, said: seq<bool>)
    requires Shaped(s) && Heading(cfg, s, ip, r, said) && Remaining(s, ip) == []
    ensures Lookup(s.disk, ip) == r && Said(s, ip) == said
  {
    assert Said(s, ip) + [] == Said(s, ip);
  }

  lemma {:induction false} FoldOneMore(cfg: Config, r: Option<Rec>, jobs: seq<Job>, job: Job)
    ensures Fold(cfg, r, jobs + [job]) == Outcome(cfg, Fold(cfg, r, jobs), job)
    ensures Replies(cfg, r, jobs + [job]) == Replies(cfg, r, jobs) + Reply(Fold(cfg, r, jobs), job)
    decreases |jobs|
  {
    if |jobs| == 0 {
      assert jobs + [job] == [job] && [job][1..] == [];
    } else {
      assert (jobs + [job])[1..] == jobs[1..] + [job];
      FoldOneMore(cfg, Outcome(cfg, r, jobs[0]), jobs[1..], job);
    }
  }

  // ---------- the same calls in sequence ----------

  /** The calls that threads make. */
  predicate Threaded(call: Call) {
    call.RecordFailure? || call.IsBlocked? || call.ResetFailure?
  }

  function JobOf(call: Call): Job
    requires Threaded(call)
  {
    match call
    case RecordFailure(_, now) => Fail(now)
    case IsBlocked(_, now) => Check(now)
    case ResetFailure(_) => Reset
  }

  /** The calls of a sequence that are made for ip. */
  ghost function JobsOf(calls: seq<Call>, ip: string): seq<Job>
    requires forall i :: 0 <= i < |calls| ==> Threaded(calls[i])
  {
    if |calls| == 0 then []
    else
      var last := calls[|calls| - 1];
      assert Threaded(last);
      JobsOf(calls[..|calls| - 1], ip) + if last.ip == ip then [JobOf(last)] else []
  }

  /** The answers to the checks of ip. */
  ghost function AnswersTo(calls: seq<Call>, answers: seq<Answer>, ip: string): seq<bool>
    requires |answers| == |calls|
  {
    if |calls| == 0 then []
    else
      var n := |calls| - 1;
      AnswersTo(calls[..n], answers[..n], ip)
      + if calls[n].IsBlocked? && calls[n].ip == ip then [answers[n] == Blocked(true)] else []
  }

  /** A sequential run leaves, for each address, what its own calls add up to, and gives them their answers. */
  lemma {:induction false} SequentialFold(cfg: Config, t: Table, calls: seq<Call>, ip: string)
    requires forall i :: 0 <= i < |calls| ==> Threaded(calls[i])
    ensures var (t', answers) := SimpleRun(cfg, true, t, calls);
      && |answers| == |calls|
      && Lookup(t', ip) == Fold(cfg, Lookup(t, ip), JobsOf(calls, ip))
      && AnswersTo(calls, answers, ip) == Replies(cfg, Lookup(t, ip), JobsOf(calls, ip))
  {
    if |calls| > 0 {
      var before, last := calls[..|calls| - 1], calls[|calls| - 1];
      SequentialFold(cfg, t, before, ip);
      var answers := SimpleRun(cfg, true, t, before).1;
      var answer := SimpleStep(cfg, true, SimpleRun(cfg, true, t, before).0, last).1;
      assert (answers + [answer])[..|before|] == answers;
      if last.ip == ip {
        FoldOneMore(cfg, Lookup(t, ip), JobsOf(before, ip), JobOf(last));
      } else {
        assert JobsOf(before, ip) + [] == JobsOf(before, ip);
      }
    }
  }

  // ---------- the theorems ----------

  /** At every step of every interleaving, the cached record of an address not in flight equals its disk record. */
  lemma CacheAgreesOutsideFlight(cfg: Config, s: State, schedule: seq<string>, ip: string)
    requires cfg.Valid() && Inv(cfg, s)
    ensures var e := Run(cfg, s, schedule);
      PcOf(e, ip) == Idle && Find(e.view, ip).Some? ==>
        Find(e.view, ip).value < |e.heap| && Lookup(e.disk, ip) == Some(e.heap[Find(e.view, ip).value].rec)
  {
    assert Ahead(cfg, Run(cfg, s, schedule), ip);
  }

  ghost predicate AllIdle(s: State) {
    forall ip :: ip in s.threads ==> s.threads[ip].pc == Idle
  }

  /** Any disk, an empty cache and idle threads are a state to start from. */
  lemma StartIsSafe(cfg: Config, disk: Table, threads: map<string, Thread>)
    requires cfg.Valid() && AllIdle(State([], [], disk, threads))
    ensures Inv(cfg, State([], [], disk, threads))
  {
    var s := State([], [], disk, threads);
    forall q ensures Find(s.view, q) == None { FindKeys(s.view, q); }
  }

  /** How many steps a thread has still to take, at most. */
  function Work(t: Thread): nat {
    if |t.todo| == 0 then 0
    else 6 * (|t.todo| - 1) + match t.pc
      case Idle => 6
      case Reading => 5
      case Filling(_) => 4
      case Judging(_) => 3
      case Mutating(_) => 3
      case Writing(_) => 2
      case Caching(_) => 1
      case Removing => 1
  }

  function Turns(schedule: seq<string>, ip: string): nat {
    if |schedule| == 0 then 0 else (if schedule[0] == ip then 1 else 0) + Turns(schedule[1..], ip)
  }

  /** A turn of the thread itself takes one step off its work, a turn of another leaves it alone. */
  lemma TurnIsProgress(cfg: Config, s: State, turn: string, ip: string)
    requires cfg.Valid() && Inv(cfg, s) && ip in s.threads
    ensures var s' := Step(cfg, s, turn);
      && ip in s'.threads
      && Work(s'.threads[ip]) <= Work(s.threads[ip])
      && (turn == ip && Work(s.threads[ip]) > 0 ==> Work(s'.threads[ip]) < Work(s.threads[ip]))
  {
    if turn == ip {
      OwnTurn(cfg, s, ip);
    } else {
      StepSpares(cfg, s, turn);
    }
  }

  lemma OwnTurn(cfg: Config, s: State, ip: string)
    requires Shaped(s) && ip in s.threads
    ensures var s' := Step(cfg, s, ip);
      && ip in s'.threads
      && (if Work(s.threads[ip]) == 0 then s' == s else Work(s'.threads[ip]) < Work(s.threads[ip]))
  {
  }

  lemma {:induction false} TurnsAreProgress(cfg: Config, s: State, schedule: seq<string>, ip: string)
    requires cfg.Valid() && Inv(cfg, s) && ip in s.threads
    ensures var e := Run(cfg, s, schedule);
      ip in e.threads && (Work(e.threads[ip]) == 0 || Work(e.threads[ip]) + Turns(schedule, ip) <= Work(s.threads[ip]))
    decreases |schedule|
  {
    if |schedule| > 0 {
      var s' := Step(cfg, s, schedule[0]);
      StepKeepsInv(cfg, s, schedule[0]);
      TurnIsProgress(cfg, s, schedule[0], ip);
      TurnsAreProgress(cfg, s', schedule[1..], ip);
    }
  }

  /**
   Interleaving of distinct addresses: under every schedule that gives each thread six turns for each of its calls,
   however the steps interleave and whatever they evict, every thread finishes, the disk is the one that any sequential
   order of the same calls leaves, and every check has had the answer that it has in that order.
   */
  lemma InterleavingIsSequential(cfg: Config, s: State, schedule: seq<string>, calls: seq<Call>)
    requires cfg.Valid() && Inv(cfg, s) && AllIdle(s)
    requires forall ip :: ip in s.threads ==> Turns(schedule, ip) >= 6 * |s.threads[ip].todo|
    requires forall i :: 0 <= i < |calls| ==> Threaded(calls[i]) && calls[i].ip in s.threads
    requires forall ip :: ip in s.threads ==> JobsOf(calls, ip) == s.threads[ip].todo && s.threads[ip].said == []
    ensures var e := Run(cfg, s, schedule);
      var (disk, answers) := SimpleRun(cfg, true, s.disk, calls);
      && e.disk == disk && e.threads.Keys == s.threads.Keys && |answers| == |calls|
      && forall ip :: ip in e.threads ==> e.threads[ip] == Thread(Idle, [], AnswersTo(calls, answers, ip))
  {
    var e, t := Run(cfg, s, schedule), SimpleRun(cfg, true, s.disk, calls).0;
    SequentialFold(cfg, s.disk, calls, "");
    forall ip
      ensures Lookup(e.disk, ip) == Lookup(t, ip) && (ip in e.threads <==> ip in s.threads)
      ensures ip in e.threads ==>
        e.threads[ip] == Thread(Idle, [], AnswersTo(calls, SimpleRun(cfg, true, s.disk, calls).1, ip))
    {
      OneThread(cfg, s, schedule, calls, ip);
    }
    assert e.disk == t by {
      forall ip ensures ip in e.disk <==> ip in t
        ensures ip in e.disk ==> e.disk[ip] == t[ip]
      {
        assert Lookup(e.disk, ip) == Lookup(t, ip);
      }
    }
  }

  /** The theorem for one address. */
  lemma OneThread(cfg: Config, s: State, schedule: seq<string>, calls: seq<Call>, ip: string)
    requires cfg.Valid() && Inv(cfg, s) && AllIdle(s)
    requires ip in s.threads ==> Turns(schedule, ip) >= 6 * |s.threads[ip].todo|
    requires forall i :: 0 <= i < |calls| ==> Threaded(calls[i]) && calls[i].ip in s.threads
    requires ip in s.threads ==> JobsOf(calls, ip) == s.threads[ip].todo && s.threads[ip].said == []
    ensures var e := Run(cfg, s, schedule);
      var (disk, answers) := SimpleRun(cfg, true, s.disk, calls);
      && Lookup(e.disk, ip) == Lookup(disk, ip) && (ip in e.threads <==> ip in s.threads) && |answers| == |calls|
      && (ip in e.threads ==> e.threads[ip] == Thread(Idle, [], AnswersTo(calls, answers, ip)))
  {
    var before, jobs, e := Lookup(s.disk, ip), JobsOf(calls, ip), Run(cfg, s, schedule);
    if ip !in s.threads {
      NoJobs(calls, ip);
    }
    StartsOnTheWay(cfg, s, ip, jobs);
    RunKeepsHeading(cfg, s, schedule, ip, ip in s.threads, Fold(cfg, before, jobs), Replies(cfg, before, jobs));
    NothingRemains(cfg, s, schedule, ip);
    Arrived(cfg, e, ip, Fold(cfg, before, jobs), Replies(cfg, before, jobs));
    SequentialFold(cfg, s.disk, calls, ip);
  }

  lemma StartsOnTheWay(cfg: Config, s: State, ip: string, jobs: seq<Job>)
    requires Inv(cfg, s) && AllIdle(s)
    requires if ip in s.threads then s.threads[ip].todo == jobs && s.threads[ip].said == [] else jobs == []
    ensures var before := Lookup(s.disk, ip);
      OnTheWay(cfg, s, ip, ip in s.threads, Fold(cfg, before, jobs), Replies(cfg, before, jobs))
  {
    var said := Replies(cfg, Lookup(s.disk, ip), jobs);
    assert [] + said == said;
  }

  lemma NothingRemains(cfg: Config, s: State, schedule: seq<string>, ip: string)
    requires cfg.Valid() && Inv(cfg, s)
    requires ip in s.threads ==> AllIdle(s) && Turns(schedule, ip) >= 6 * |s.threads[ip].todo|
    requires ip in Run(cfg, s, schedule).threads ==> ip in s.threads
    ensures var e := Run(cfg, s, schedule);
      Remaining(e, ip) == [] && (ip in e.threads ==> e.threads[ip].pc == Idle && e.threads[ip].todo == [])
  {
    if ip in s.threads {
      TurnsAreProgress(cfg, s, schedule, ip);
    }
  }

  lemma {:induction false} NoJobs(calls: seq<Call>, ip: string)
    requires forall i :: 0 <= i < |calls| ==> Threaded(calls[i]) && calls[i].ip != ip
    ensures JobsOf(calls, ip) == []
  {
    if |calls| > 0 {
      NoJobs(calls[..|calls| - 1], ip);
    }
  }
}
