/** The dead letter queue under concurrency: any number of adding and flushing goroutines and of
    closers, interleaved at every lock, wait group and map operation. */
module DeadLetterLocks {
  import opened Builds
  import opened Text
  import opened Framing
  import opened DeadLetter
  import opened DeadLetterFlush

  type Tid = nat

  /** What a goroutine is there to do. */
  datatype Job = Adding(key: Key, data: Data) | Flushing | Closing

  /** Where it stands. `Waited` is a closer past the wait group; `Added` has appended;
      `Settled` has also dealt with the size trigger; `Ranging` is in Flush's loop. */
  datatype Pc =
    | Begin
    | Waited
    | Locked
    | Counted
    | Added
    | Settled(outcome: Outcome)
    | Ranging(done: seq<Visit>)
    | Unlocked
    | Finished

  datatype Holder = Free | HeldBy(t: Tid)

  /** `store` is the shared state. The last two fields only observe: `log` is the list of
      operations in the order their locks were released, with the goroutine that performed each;
      `base` is what `store` was when the lock was last free. */
  datatype Machine = Machine(pc: map<Tid, Pc>, holder: Holder, waitGroup: nat, store: Store,
                             log: seq<(Tid, Event)>, base: Store)

  datatype Config = Config(build: Build, size: int64, jobs: map<Tid, Job>)

  datatype Action =
    | Refuse(t: Tid)                  // an add whose item is not to be queued returns
    | Wait(t: Tid)                    // a closer's addingWaitGroup.Wait()
    | Lock(t: Tid)
    | Count(t: Tid)                   // addingWaitGroup.Add(1)
    | Push(t: Tid)                    // append to the key's batch
    | Settle(t: Tid, outcome: Outcome) // the size trigger, which may flush
    | VisitKey(t: Tid, visit: Visit)  // one step of Flush's loop
    | Unlock(t: Tid)
    | Done(t: Tid)                    // addingWaitGroup.Done()

  ghost function Init(c: Config): Machine {
    Machine(map t | t in c.jobs :: Begin, Free, 0, EMPTY, [], EMPTY)
  }

  ghost predicate At(m: Machine, t: Tid, p: Pc) {
    t in m.pc && m.pc[t] == p
  }

  ghost predicate Enabled(c: Config, m: Machine, a: Action) {
    a.t in c.jobs && a.t in m.pc &&
    var job, p := c.jobs[a.t], m.pc[a.t];
    match a
    case Refuse(_) => p == Begin && job.Adding? && Validate(job.key, job.data) != Accept
    case Wait(_) => p == Begin && job.Closing? && m.waitGroup == 0
    case Lock(_) =>
      m.holder == Free &&
      (match job
       case Adding(k, d) => p == Begin && Validate(k, d) == Accept
       case Flushing => p == Begin
       case Closing => p == Waited)
    case Count(_) => p == Locked
    case Push(_) => p == Counted && job.Adding?
    case Settle(_, _) => p == Added && job.Adding?
    case VisitKey(_, v) => p.Ranging? && v.key in m.store.queue && !Visits(p.done, v.key)
    case Unlock(_) => p.Settled? || (p.Ranging? && forall k | k in m.base.queue :: Visits(p.done, k))
    case Done(_) => p == Unlocked && m.waitGroup > 0
  }

  /** The atomic operation a goroutine has performed when it releases the lock. */
  ghost function Operation(job: Job, p: Pc): Event {
    if p.Settled? && job.Adding? then AddEvent(job.key, job.data, p.outcome)
    else FlushEvent(if p.Ranging? then p.done else [])
  }

  ghost function Move(m: Machine, t: Tid, p: Pc): Machine {
    m.(pc := m.pc[t := p])
  }

  ghost function Apply(c: Config, m: Machine, a: Action): Machine
    requires Enabled(c, m, a)
  {
    var job, p := c.jobs[a.t], m.pc[a.t];
    match a
    case Refuse(t) => Move(m, t, Finished)
    case Wait(t) => Move(m, t, Waited)
    case Lock(t) => Move(m, t, if job.Adding? then Locked else Ranging([])).(holder := HeldBy(t))
    case Count(t) => Move(m, t, Counted).(waitGroup := m.waitGroup + 1)
    case Push(t) => Move(m, t, Added).(store := Append(m.store, job.key, job.data))
    case Settle(t, o) => Move(m, t, Settled(o)).(store := Trigger(c.build, c.size, m.store, job.key, o))
    case VisitKey(t, v) =>
      Move(m, t, Ranging(p.done + [v])).(store := FlushKey(c.build, m.store, v.key, v.outcome))
    case Unlock(t) =>
      Move(m, t, if job.Adding? then Unlocked else Finished)
      .(holder := Free, log := m.log + [(t, Operation(job, p))], base := m.store)
    case Done(t) => Move(m, t, Finished).(waitGroup := m.waitGroup - 1)
  }

  /** A schedule is any list of actions; one that is not enabled does not happen. */
  ghost function Execute(c: Config, schedule: seq<Action>): Machine {
    if schedule == [] then Init(c)
    else
      var m, a := Execute(c, schedule[..|schedule| - 1]), schedule[|schedule| - 1];
      if Enabled(c, m, a) then Apply(c, m, a) else m
  }

  ghost function Events(log: seq<(Tid, Event)>): seq<Event> {
    if log == [] then [] else Events(log[..|log| - 1]) + [log[|log| - 1].1]
  }

  ghost predicate Counts(p: Pc) {
    p.Counted? || p.Added? || p.Settled? || p.Unlocked?
  }

  /** The goroutines the wait group counts. */
  ghost function Counting(pc: map<Tid, Pc>): set<Tid> {
    set t | t in pc && Counts(pc[t])
  }

  ghost predicate InLock(p: Pc) {
    p.Locked? || p.Counted? || p.Added? || p.Settled? || p.Ranging?
  }

  /** How far the goroutine that holds the lock has got since `base`. */
  ghost predicate Progress(c: Config, m: Machine, job: Job, p: Pc) {
    match p
    case Locked => m.store == m.base
    case Counted => m.store == m.base
    case Added => job.Adding? && m.store == Append(m.base, job.key, job.data)
    case Settled(o) => job.Adding? && m.store == Add(c.build, c.size, m.base, job.key, job.data, o)
    case Ranging(done) => RangePrefix(c.build, m.base, done) && m.store == FlushAll(c.build, m.base, done)
    case _ => true
  }

  ghost predicate PcFits(job: Job, p: Pc) {
    match job
    case Adding(k, d) =>
      !p.Waited? && !p.Ranging? && (p.Begin? || p.Finished? || Validate(k, d) == Accept)
    case Flushing => p.Begin? || p.Ranging? || p.Finished?
    case Closing => p.Begin? || p.Waited? || p.Ranging? || p.Finished?
  }

  /** The operations a goroutine has in the log. */
  ghost function Logged(log: seq<(Tid, Event)>, t: Tid): nat {
    if log == [] then 0
    else Logged(log[..|log| - 1], t) + if log[|log| - 1].0 == t then 1 else 0
  }

  /** Adds whose item is not to be queued return without an operation; every other goroutine has
      performed its own once it is past the unlock. */
  ghost predicate Performed(job: Job, p: Pc) {
    p == Unlocked || (p == Finished && !(job.Adding? && Validate(job.key, job.data) != Accept))
  }

  ghost predicate ShapeInv(c: Config, m: Machine) {
    && m.pc.Keys == c.jobs.Keys
    && (forall t | t in m.pc :: PcFits(c.jobs[t], m.pc[t]))
    && (forall t | t in m.pc :: InLock(m.pc[t]) <==> m.holder == HeldBy(t))
    && (m.holder.HeldBy? ==> m.holder.t in m.pc)
  }

  ghost predicate StoreInv(c: Config, m: Machine)
    requires ShapeInv(c, m)
  {
    match m.holder
    case Free => m.store == m.base
    case HeldBy(t) => Progress(c, m, c.jobs[t], m.pc[t])
  }

  ghost predicate CountInv(m: Machine) {
    m.waitGroup == |Counting(m.pc)|
  }

  ghost predicate LogInv(c: Config, m: Machine)
    requires m.pc.Keys == c.jobs.Keys
  {
    && m.base == Run(c.build, c.size, Events(m.log))
    && (forall t | t in m.pc :: Logged(m.log, t) == if Performed(c.jobs[t], m.pc[t]) then 1 else 0)
  }

  ghost predicate Inv(c: Config, m: Machine) {
    ShapeInv(c, m) && StoreInv(c, m) && CountInv(m) && LogInv(c, m)
  }

  // ---- every step keeps the invariant ----

  lemma ShapeStep(c: Config, m: Machine, a: Action)
    requires ShapeInv(c, m) && Enabled(c, m, a)
    ensures ShapeInv(c, Apply(c, m, a))
  {
  }

  lemma CountingUpdate(pc: map<Tid, Pc>, t: Tid, p: Pc)
    requires t in pc
    ensures |Counting(pc[t := p])|
            == |Counting(pc)| + (if Counts(p) then 1 else 0) - (if Counts(pc[t]) then 1 else 0)
  {
    assert Counting(pc[t := p]) == if Counts(p) then Counting(pc) + {t} else Counting(pc) - {t};
  }

  lemma CountStep(c: Config, m: Machine, a: Action)
    requires ShapeInv(c, m) && CountInv(m) && Enabled(c, m, a)
    ensures CountInv(Apply(c, m, a))
  {
    var m' := Apply(c, m, a);
    CountingUpdate(m.pc, a.t, m'.pc[a.t]);
    assert m'.pc == m.pc[a.t := m'.pc[a.t]];
  }

  lemma StoreStep(c: Config, m: Machine, a: Action)
    requires ShapeInv(c, m) && StoreInv(c, m) && Enabled(c, m, a)
    ensures ShapeInv(c, Apply(c, m, a)) && StoreInv(c, Apply(c, m, a))
  {
    ShapeStep(c, m, a);
    if a.VisitKey? {
      assert m.holder == HeldBy(a.t);
      VisitSnoc(c.build, m.base, m.pc[a.t].done, a.visit);
    }
  }

  lemma LogSnoc(log: seq<(Tid, Event)>, x: (Tid, Event), t: Tid)
    ensures Events(log + [x]) == Events(log) + [x.1]
    ensures Logged(log + [x], t) == Logged(log, t) + if x.0 == t then 1 else 0
  {
    assert (log + [x])[..|log|] == log;
  }

  /** At the release of the lock, the state is what the atomic operation makes of `base`. */
  lemma ReleaseIsOperation(c: Config, m: Machine, t: Tid)
    requires ShapeInv(c, m) && StoreInv(c, m) && Enabled(c, m, Unlock(t))
    ensures m.store == Next(c.build, c.size, m.base, Operation(c.jobs[t], m.pc[t]))
  {
    assert m.holder == HeldBy(t);
  }

  lemma QuietLogStep(c: Config, m: Machine, a: Action)
    requires ShapeInv(c, m) && LogInv(c, m) && Enabled(c, m, a) && !a.Unlock?
    ensures ShapeInv(c, Apply(c, m, a)) && LogInv(c, Apply(c, m, a))
  {
    ShapeStep(c, m, a);
    var m' := Apply(c, m, a);
    assert m'.log == m.log && m'.base == m.base;
    var t, p, p' := a.t, m.pc[a.t], m'.pc[a.t];
    assert PcFits(c.jobs[t], p);
    assert Performed(c.jobs[t], p) <==> Performed(c.jobs[t], p');
    assert m'.pc == m.pc[t := p'];
    hide Apply, Run, Enabled;
  }

  lemma ReleaseShape(c: Config, m: Machine, t: Tid)
    requires ShapeInv(c, m) && Enabled(c, m, Unlock(t))
    ensures var m', p := Apply(c, m, Unlock(t)), m.pc[t];
            && t in m.pc && !Performed(c.jobs[t], p) && Performed(c.jobs[t], m'.pc[t])
            && m'.pc == m.pc[t := m'.pc[t]]
            && m'.log == m.log + [(t, Operation(c.jobs[t], p))] && m'.base == m.store
  {
    assert PcFits(c.jobs[t], m.pc[t]);
    hide Operation;
  }

  lemma ReleaseLogStep(c: Config, m: Machine, t: Tid)
    requires ShapeInv(c, m) && StoreInv(c, m) && LogInv(c, m) && Enabled(c, m, Unlock(t))
    ensures ShapeInv(c, Apply(c, m, Unlock(t))) && LogInv(c, Apply(c, m, Unlock(t)))
  {
    ShapeStep(c, m, Unlock(t));
    ReleaseShape(c, m, t);
    ReleaseIsOperation(c, m, t);
    var x := (t, Operation(c.jobs[t], m.pc[t]));
    RunSnoc(c.build, c.size, Events(m.log), x.1);
    forall u ensures Logged(m.log + [x], u) == Logged(m.log, u) + if t == u then 1 else 0 {
      LogSnoc(m.log, x, u);
    }
    LogSnoc(m.log, x, t);
    hide Apply, Enabled, Performed, Operation, Run, Next, Logged, Events, StoreInv, PcFits;
  }

  lemma InitInv(c: Config)
    ensures Inv(c, Init(c))
  {
    assert Counting(Init(c).pc) == {};
  }

  lemma {:induction false} ExecuteInv(c: Config, schedule: seq<Action>)
    ensures Inv(c, Execute(c, schedule))
  {
    if schedule == [] {
      InitInv(c);
    } else {
      var m, a := Execute(c, schedule[..|schedule| - 1]), schedule[|schedule| - 1];
      ExecuteInv(c, schedule[..|schedule| - 1]);
      if Enabled(c, m, a) {
        StoreStep(c, m, a);
        CountStep(c, m, a);
        if a.Unlock? { ReleaseLogStep(c, m, a.t); } else { QuietLogStep(c, m, a); }
      }
    }
  }

  // ---- the wait group ----

  /** Under every schedule, a closer passes the wait group exactly when no add stands between its count
      and its Done. */
  lemma WaitSeesNoAdd(c: Config, schedule: seq<Action>, t: Tid)
    requires t in c.jobs && c.jobs[t].Closing? && At(Execute(c, schedule), t, Begin)
    ensures Enabled(c, Execute(c, schedule), Wait(t)) <==>
            forall u | u in Execute(c, schedule).pc ::
              var p := Execute(c, schedule).pc[u]; !p.Counted? && !p.Added? && !p.Settled? && !p.Unlocked?
  {
    ExecuteInv(c, schedule);
    var m := Execute(c, schedule);
    if m.waitGroup == 0 {
      assert Counting(m.pc) == {};
      forall u | u in m.pc ensures !Counts(m.pc[u]) {
        assert u !in Counting(m.pc);
      }
    } else {
      var u :| u in Counting(m.pc);
    }
    hide Execute;
  }

  /** A closer leaves its beginning only by its wait. */
  lemma BeginLeftByWait(c: Config, m: Machine, a: Action, t: Tid)
    requires Enabled(c, m, a) && t in c.jobs && c.jobs[t].Closing? && t in m.pc && m.pc[t].Begin?
    requires t in Apply(c, m, a).pc && !Apply(c, m, a).pc[t].Begin?
    ensures a == Wait(t)
  {
  }

  /** Past its beginning, a closer has waited: at some step of the schedule the wait group let it by. */
  lemma {:induction false} CloserWaited(c: Config, schedule: seq<Action>, t: Tid) returns (n: nat)
    requires t in c.jobs && c.jobs[t].Closing?
    requires t in Execute(c, schedule).pc && !Execute(c, schedule).pc[t].Begin?
    ensures n < |schedule| && schedule[n] == Wait(t) && Enabled(c, Execute(c, schedule[..n]), Wait(t))
  {
    var init, a := schedule[..|schedule| - 1], schedule[|schedule| - 1];
    var m := Execute(c, init);
    ExecuteInv(c, init);
    assert m.pc.Keys == c.jobs.Keys;
    hide Inv, Enabled, Apply;
    if m.pc[t].Begin? {
      BeginLeftByWait(c, m, a, t);
      n := |init|;
    } else {
      n := CloserWaited(c, init, t);
      assert init[..n] == schedule[..n] && init[n] == schedule[n];
    }
  }

  // ---- the log is a history of atomic operations ----

  /** The operation at a place in the log is the one its goroutine is there for, and a flush
      ranged over the map as it stood after the operations before it. */
  ghost predicate Genuine(c: Config, log: seq<(Tid, Event)>, i: nat)
    requires i < |log|
  {
    log[i].0 in c.jobs &&
    match c.jobs[log[i].0]
    case Adding(k, d) =>
      Validate(k, d) == Accept && log[i].1.AddEvent? && log[i].1.key == k && log[i].1.data == d
    case _ =>
      log[i].1.FlushEvent? && Ranges(c.build, Run(c.build, c.size, Events(log[..i])), log[i].1.visits)
  }

  ghost predicate AllGenuine(c: Config, log: seq<(Tid, Event)>) {
    forall i | 0 <= i < |log| :: Genuine(c, log, i)
  }

  lemma {:induction false} LogGenuine(c: Config, schedule: seq<Action>)
    ensures AllGenuine(c, Execute(c, schedule).log)
  {
    if schedule == [] {
    } else {
      var m, a := Execute(c, schedule[..|schedule| - 1]), schedule[|schedule| - 1];
      LogGenuine(c, schedule[..|schedule| - 1]);
      ExecuteInv(c, schedule[..|schedule| - 1]);
      if Enabled(c, m, a) && a.Unlock? {
        ReleaseGenuine(c, m, a.t);
      }
    }
  }

  lemma ReleaseGenuine(c: Config, m: Machine, t: Tid)
    requires Inv(c, m) && Enabled(c, m, Unlock(t))
    requires AllGenuine(c, m.log)
    ensures AllGenuine(c, Apply(c, m, Unlock(t)).log)
  {
    var log := m.log + [(t, Operation(c.jobs[t], m.pc[t]))];
    assert m.holder == HeldBy(t) && PcFits(c.jobs[t], m.pc[t]);
    assert log[..|m.log|] == m.log;
    forall i | 0 <= i < |log| ensures Genuine(c, log, i) {
      if i < |m.log| {
        assert Genuine(c, m.log, i);
        assert log[..i] == m.log[..i];
      }
    }
  }

  /** Refinement: under every schedule the locked code behaves like its operations performed one
      at a time, in the order of the log. Each is genuine, each goroutine's is there exactly once
      when it is past its unlock and not before, and whenever the lock is free the shared state is
      the state after the log. */
  lemma Refinement(c: Config, schedule: seq<Action>)
    ensures var m := Execute(c, schedule);
            && (m.holder == Free ==> m.store == Run(c.build, c.size, Events(m.log)))
            && AllGenuine(c, m.log)
            && m.pc.Keys == c.jobs.Keys
            && (forall t | t in m.pc ::
                  Logged(m.log, t) == if Performed(c.jobs[t], m.pc[t]) then 1 else 0)
  {
    ExecuteInv(c, schedule);
    LogGenuine(c, schedule);
  }

  // ---- no schedule runs into a deadlock ----

  ghost predicate CanStep(c: Config, m: Machine) {
    exists a :: Enabled(c, m, a)
  }

  lemma RangingCanStep(c: Config, m: Machine, t: Tid)
    requires Inv(c, m) && m.holder == HeldBy(t) && m.pc[t].Ranging?
    ensures CanStep(c, m)
  {
    var done := m.pc[t].done;
    if forall k | k in m.base.queue :: Visits(done, k) {
      assert Enabled(c, m, Unlock(t));
    } else {
      var k :| k in m.base.queue && !Visits(done, k);
      FlushAllMeaning(c.build, m.base, done, k);
      assert Enabled(c, m, VisitKey(t, Visit(k, FAILED)));
    }
  }

  lemma HolderCanStep(c: Config, m: Machine, t: Tid)
    requires Inv(c, m) && m.holder == HeldBy(t)
    ensures CanStep(c, m)
  {
    assert PcFits(c.jobs[t], m.pc[t]);
    match m.pc[t]
    case Locked => assert Enabled(c, m, Count(t));
    case Counted => assert Enabled(c, m, Push(t));
    case Added => assert Enabled(c, m, Settle(t, FAILED));
    case Settled(_) => assert Enabled(c, m, Unlock(t));
    case Ranging(_) => RangingCanStep(c, m, t);
  }

  lemma CountedCanFinish(c: Config, m: Machine)
    requires Inv(c, m) && m.holder == Free && m.waitGroup > 0
    ensures CanStep(c, m)
  {
    var t :| t in Counting(m.pc);
    assert !InLock(m.pc[t]);
    assert Enabled(c, m, Done(t));
  }

  lemma FreeCanStep(c: Config, m: Machine, t: Tid)
    requires Inv(c, m) && m.holder == Free && t in m.pc && m.pc[t] != Finished
    ensures CanStep(c, m)
  {
    assert !InLock(m.pc[t]) && PcFits(c.jobs[t], m.pc[t]);
    assert m.pc[t] == Unlocked ==> t in Counting(m.pc);
    if m.waitGroup > 0 {
      CountedCanFinish(c, m);
    } else {
      assert Enabled(c, m, Refuse(t)) || Enabled(c, m, Wait(t)) || Enabled(c, m, Lock(t));
    }
  }

  /** Under every schedule, while some goroutine has not returned, some goroutine can step. */
  lemma NoDeadlock(c: Config, schedule: seq<Action>, t: Tid)
    requires t in c.jobs && !At(Execute(c, schedule), t, Finished)
    ensures CanStep(c, Execute(c, schedule))
  {
    ExecuteInv(c, schedule);
    var m := Execute(c, schedule);
    match m.holder
    case Free => FreeCanStep(c, m, t);
    case HeldBy(u) => HolderCanStep(c, m, u);
  }
}
