/** The cache of integrations under concurrency: any number of readers, updaters and resets,
    interleaved at every lock and map operation, while Houston's configuration changes. */
module CacheLocks {
  import opened Builds
  import opened Wrappers
  import opened Houston

  type Tid = nat

  /** Houston's answer for an application: what its configuration said at that version. */
  datatype Answer = Answer(app: string, version: nat)

  /** A cache entry, the version Houston was at when the update that wrote it began, and whose it was. */
  datatype Entry = Entry(answer: Answer, since: nat, writer: Tid)

  /** One table of the cache. `latest` only observes: per application, the newest start of an update
      completed while this table was in use. */
  datatype Table = Table(entries: map<string, Entry>, latest: map<string, nat>)

  const NEW_TABLE := Table(map[], map[])

  datatype Job = Reading(app: string) | Updating(app: string) | Resetting

  /** Where a goroutine stands. */
  datatype Pc =
    | Begin
    | Lookup(table: nat)     // Map.Get on a table it has fetched the address of, before the global lock
    | LookupIn(table: nat)   // with the global lock and a lock for its application in syncMap
    | Ask(since: nat)        // about to ask Houston
    | Ensure(since: nat, answer: Answer)    // the Get of an update, before the global lock
    | EnsureIn(since: nat, answer: Answer)  // with the global lock
    | Take(since: nat, answer: Answer)      // about to fetch the application's lock from syncMap
    | Taking(since: nat, answer: Answer, lock: nat)  // about to lock it
    | Write(since: nat, answer: Answer, lock: nat)   // holds it, about to put
    | Release(since: nat, answer: Answer, lock: nat) // about to fetch it again and unlock it
    | Reset
    | ResetIn
    | Done(served: Option<Entry>)

  datatype Holder = Free | HeldBy(t: Tid)

  /** `tables` are all tables ever made and `current` the one in use; `locks` is syncMap, from
      applications to lock objects; `held` says which goroutine holds which lock object for
      writing. `crashed` is a nil lock or the unlocking of an unlocked one. `truths` is Houston's
      configuration at every version. */
  datatype World = World(
    pc: map<Tid, Pc>, global: Holder, tables: seq<Table>, current: nat,
    locks: map<string, nat>, held: map<nat, Tid>, nextLock: nat, crashed: bool,
    truths: seq<map<string, Routes>>)

  datatype Config = Config(build: Build, jobs: map<Tid, Job>)

  datatype Action =
    | Start(t: Tid)
    | Grab(t: Tid)                 // take the global lock
    | Inside(t: Tid)               // what is done under it, and its release
    | AskHouston(t: Tid, ok: bool)
    | Fetch(t: Tid)                // syncMap[appId]
    | Acquire(t: Tid)              // Lock()
    | Put(t: Tid)
    | Unlock(t: Tid)               // syncMap[appId].Unlock()
    | Change(app: string, routes: Routes)  // Houston's configuration changes

  ghost function Init(c: Config): World {
    World(map t | t in c.jobs :: Begin, Free, [NEW_TABLE], 0, map[], map[], 0, false, [map[]])
  }

  function App(job: Job): string {
    if job.Resetting? then "" else job.app
  }

  function Truth(w: World): map<string, Routes> {
    if |w.truths| == 0 then map[] else w.truths[|w.truths| - 1]
  }

  function Version(w: World): nat {
    if |w.truths| == 0 then 0 else |w.truths| - 1
  }

  ghost predicate Enabled(c: Config, w: World, a: Action) {
    !w.crashed && (a.Change? || (a.t in c.jobs && a.t in w.pc && w.current < |w.tables|)) &&
    match a
    case Start(t) => w.pc[t].Begin?
    case Grab(t) => w.global == Free && (w.pc[t].Lookup? || w.pc[t].Ensure? || w.pc[t].Reset?)
    case Inside(t) =>
      w.global == HeldBy(t) &&
      (w.pc[t].ResetIn? ||
       ((w.pc[t].LookupIn? || w.pc[t].EnsureIn?) && App(c.jobs[t]) in w.locks
        && w.locks[App(c.jobs[t])] !in w.held && (w.pc[t].LookupIn? ==> w.pc[t].table < |w.tables|)))
    case AskHouston(t, _) => w.pc[t].Ask?
    case Fetch(t) => w.pc[t].Take?
    case Acquire(t) => w.pc[t].Taking? && w.pc[t].lock !in w.held
    case Put(t) => w.pc[t].Write?
    case Unlock(t) => w.pc[t].Release?
    case Change(_, _) => true
  }

  ghost function Move(w: World, t: Tid, p: Pc): World {
    w.(pc := w.pc[t := p])
  }

  /** Map.Get's first half: an application without a lock gets a new one. */
  ghost function WithLock(w: World, app: string): World {
    if app in w.locks then w else w.(locks := w.locks[app := w.nextLock], nextLock := w.nextLock + 1)
  }

  /** A new table and a new syncMap. */
  ghost function Emptied(w: World): World {
    w.(tables := w.tables + [NEW_TABLE], current := |w.tables|, locks := map[])
  }

  function Newest(m: map<string, nat>, app: string, since: nat): map<string, nat> {
    if app in m && m[app] > since then m else m[app := since]
  }

  /** What a goroutine that has filled the cache returns: as typed a reader still returns the nil that
      missed. */
  function Served(c: Config, t: Tid, p: Pc): Option<Entry>
    requires t in c.jobs && p.Release?
  {
    if c.jobs[t].Reading? && c.build.Repaired? then Some(Entry(p.answer, p.since, t)) else None
  }

  ghost function Apply(c: Config, w: World, a: Action): World
    requires Enabled(c, w, a)
  {
    match a
    case Start(t) =>
      Move(w, t, match c.jobs[t]
                 case Reading(_) => Lookup(w.current)
                 case Updating(_) => Ask(Version(w))
                 case Resetting => Reset)
    case Grab(t) =>
      (match w.pc[t]
       case Lookup(table) => Move(WithLock(w, App(c.jobs[t])), t, LookupIn(table))
       case Ensure(since, answer) => Move(WithLock(w, App(c.jobs[t])), t, EnsureIn(since, answer))
       case _ => Move(w, t, ResetIn)).(global := HeldBy(t))
    case Inside(t) =>
      (match w.pc[t]
       case LookupIn(table) =>
         var app := App(c.jobs[t]);
         var entries := w.tables[table].entries;
        Move(w, t, if app in entries then Done(Some(entries[app])) else Ask(Version(w)))
       case EnsureIn(since, answer) => Move(w, t, Take(since, answer))
       case _ => Move(Emptied(w), t, Done(None))).(global := Free)
    case AskHouston(t, ok) =>
      Move(w, t, if ok then Ensure(w.pc[t].since, Answer(App(c.jobs[t]), Version(w))) else Done(None))
    case Fetch(t) =>
      var app := App(c.jobs[t]);
      if app in w.locks then Move(w, t, Taking(w.pc[t].since, w.pc[t].answer, w.locks[app]))
      else w.(crashed := true)
    case Acquire(t) =>
      var p := w.pc[t];
      Move(w, t, Write(p.since, p.answer, p.lock)).(held := w.held[p.lock := t])
    case Put(t) =>
      var p := w.pc[t];
      var table := w.tables[w.current];
      var entries := table.entries[App(c.jobs[t]) := Entry(p.answer, p.since, t)];
      Move(w, t, Release(p.since, p.answer, p.lock)).(tables := w.tables[w.current := table.(entries := entries)])
    case Unlock(t) =>
      var app, p := App(c.jobs[t]), w.pc[t];
      if app !in w.locks || w.locks[app] !in w.held then w.(crashed := true)
      else
        var table := w.tables[w.current];
        var latest := Newest(table.latest, app, p.since);
        Move(w, t, Done(Served(c, t, p))).(held := w.held - {w.locks[app]},
                                  tables := w.tables[w.current := table.(latest := latest)])
    case Change(app, routes) => w.(truths := w.truths + [Truth(w)[app := routes]])
  }

  /** A schedule is any list of actions; one that is not enabled does not happen. */
  ghost function Continue(c: Config, w: World, schedule: seq<Action>): World {
    if schedule == [] then w
    else
      var v, a := Continue(c, w, schedule[..|schedule| - 1]), schedule[|schedule| - 1];
      if Enabled(c, v, a) then Apply(c, v, a) else v
  }

  ghost function Execute(c: Config, schedule: seq<Action>): World {
    Continue(c, Init(c), schedule)
  }

  /** Between an update's Get and its Unlock. */
  predicate Window(p: Pc) {
    p.Take? || p.Taking? || p.Write? || p.Release?
  }

  /** No reset falls into an update's window. */
  ghost predicate Clean(c: Config, w: World, a: Action) {
    a.Inside? && a.t in w.pc && w.pc[a.t].ResetIn? ==> forall t | t in w.pc :: !Window(w.pc[t])
  }

  ghost predicate CleanFrom(c: Config, w: World, schedule: seq<Action>) {
    schedule == [] ||
    (CleanFrom(c, w, schedule[..|schedule| - 1])
     && Clean(c, Continue(c, w, schedule[..|schedule| - 1]), schedule[|schedule| - 1]))
  }

  // ---- lock safety ----

  predicate Fits(job: Job, p: Pc) {
    match job
    case Reading(_) => !p.Reset? && !p.ResetIn?
    case Updating(_) => !p.Reset? && !p.ResetIn? && !p.Lookup? && !p.LookupIn?
    case Resetting => p.Begin? || p.Reset? || p.ResetIn? || p.Done?
  }

  ghost predicate Shape(c: Config, w: World) {
    && w.pc.Keys == c.jobs.Keys && w.current < |w.tables|
    && (forall t | t in w.pc :: Fits(c.jobs[t], w.pc[t]))
    && (forall t | t in w.pc && w.pc[t].Lookup? :: w.pc[t].table < |w.tables|)
    && (forall t | t in w.pc && w.pc[t].LookupIn? :: w.pc[t].table < |w.tables|)
  }

  ghost predicate GlobalRight(w: World) {
    && (forall t | t in w.pc ::
          (w.pc[t].LookupIn? || w.pc[t].EnsureIn? || w.pc[t].ResetIn?) <==> w.global == HeldBy(t))
    && (w.global.HeldBy? ==> w.global.t in w.pc)
  }

  /** What a goroutine has found in syncMap is still there. */
  ghost predicate LocksRight(c: Config, w: World)
    requires w.pc.Keys == c.jobs.Keys
  {
    forall t | t in w.pc ::
      && (w.pc[t].LookupIn? || w.pc[t].EnsureIn? || Window(w.pc[t]) ==> App(c.jobs[t]) in w.locks)
      && (w.pc[t].Taking? || w.pc[t].Write? || w.pc[t].Release? ==> w.locks[App(c.jobs[t])] == w.pc[t].lock)
  }

  ghost predicate HeldRight(w: World) {
    && (forall l | l in w.held ::
          w.held[l] in w.pc && (w.pc[w.held[l]].Write? || w.pc[w.held[l]].Release?) && w.pc[w.held[l]].lock == l)
    && (forall t | t in w.pc && (w.pc[t].Write? || w.pc[t].Release?) ::
          w.pc[t].lock in w.held && w.held[w.pc[t].lock] == t)
  }

  /** Every cached application has a lock. */
  ghost predicate KeysLocked(w: World)
    requires w.current < |w.tables|
  {
    w.tables[w.current].entries.Keys <= w.locks.Keys
  }

  ghost predicate Safe(c: Config, w: World) {
    && Shape(c, w) && GlobalRight(w) && LocksRight(c, w) && HeldRight(w) && KeysLocked(w)
    && !w.crashed
  }

  predicate InGlobal(p: Pc) {
    p.LookupIn? || p.EnsureIn? || p.ResetIn?
  }

  predicate HoldsLock(p: Pc) {
    p.Write? || p.Release?
  }

  /** A step of one goroutine that takes or frees no lock. */
  lemma MoveSafe(c: Config, w: World, t: Tid, p: Pc)
    requires Safe(c, w) && t in w.pc && Fits(c.jobs[t], p)
    requires !InGlobal(w.pc[t]) && !InGlobal(p) && !HoldsLock(w.pc[t]) && !HoldsLock(p)
    requires p.Lookup? ==> p.table < |w.tables|
    requires Window(p) ==> App(c.jobs[t]) in w.locks && (p.Taking? ==> w.locks[App(c.jobs[t])] == p.lock)
    ensures Safe(c, Move(w, t, p))
  {
  }

  lemma StartSafe(c: Config, w: World, t: Tid)
    requires Safe(c, w) && Enabled(c, w, Start(t))
    ensures Safe(c, Apply(c, w, Start(t)))
  {
    MoveSafe(c, w, t, Apply(c, w, Start(t)).pc[t]);
    hide Safe;
  }

  lemma AskSafe(c: Config, w: World, t: Tid, ok: bool)
    requires Safe(c, w) && Enabled(c, w, AskHouston(t, ok))
    ensures Safe(c, Apply(c, w, AskHouston(t, ok)))
  {
    MoveSafe(c, w, t, Apply(c, w, AskHouston(t, ok)).pc[t]);
    hide Safe;
  }

  /** The lock an update looks for is there. */
  lemma FetchSafe(c: Config, w: World, t: Tid)
    requires Safe(c, w) && Enabled(c, w, Fetch(t))
    ensures Safe(c, Apply(c, w, Fetch(t)))
  {
    var app := App(c.jobs[t]);
    assert app in w.locks;
    MoveSafe(c, w, t, Taking(w.pc[t].since, w.pc[t].answer, w.locks[app]));
    hide Safe;
  }

  lemma WithLockSafe(c: Config, w: World, app: string)
    requires Safe(c, w)
    ensures Safe(c, WithLock(w, app)) && app in WithLock(w, app).locks
  {
    hide Fits;
  }

  lemma EnterGlobalSafe(c: Config, w: World, t: Tid, p: Pc)
    requires Safe(c, w) && t in w.pc && w.global == Free && Fits(c.jobs[t], p)
    requires InGlobal(p) && !Window(w.pc[t]) && (p.LookupIn? ==> p.table < |w.tables|)
    requires !p.ResetIn? ==> App(c.jobs[t]) in w.locks
    ensures Safe(c, Move(w, t, p).(global := HeldBy(t)))
  {
  }

  lemma GrabSafe(c: Config, w: World, t: Tid)
    requires Safe(c, w) && Enabled(c, w, Grab(t))
    ensures Safe(c, Apply(c, w, Grab(t)))
  {
    var app := App(c.jobs[t]);
    WithLockSafe(c, w, app);
    match w.pc[t]
    case Lookup(table) => EnterGlobalSafe(c, WithLock(w, app), t, LookupIn(table)); hide Safe;
    case Ensure(since, answer) => EnterGlobalSafe(c, WithLock(w, app), t, EnsureIn(since, answer)); hide Safe;
    case Reset => EnterGlobalSafe(c, w, t, ResetIn); hide Safe;
  }

  lemma LeaveGlobalSafe(c: Config, w: World, t: Tid, p: Pc)
    requires Safe(c, w) && w.global == HeldBy(t) && Fits(c.jobs[t], p)
    requires p.Done? || p.Ask? || (p.Take? && !w.pc[t].ResetIn?)
    ensures Safe(c, Move(w, t, p).(global := Free))
  {
  }

  lemma ResetSafe(c: Config, w: World)
    requires Safe(c, w) && w.global.HeldBy? && w.pc[w.global.t].ResetIn?
    requires forall t | t in w.pc :: !Window(w.pc[t])
    ensures Safe(c, Emptied(w))
  {
    hide Fits;
  }

  lemma InsideSafe(c: Config, w: World, t: Tid)
    requires Safe(c, w) && Enabled(c, w, Inside(t)) && Clean(c, w, Inside(t))
    ensures Safe(c, Apply(c, w, Inside(t)))
  {
    assert t in w.pc && w.global == HeldBy(t) && Fits(c.jobs[t], w.pc[t]);
    hide Shape, GlobalRight, LocksRight, HeldRight, KeysLocked;
    if w.pc[t].ResetIn? {
      ResetSafe(c, w);
      LeaveGlobalSafe(c, Emptied(w), t, Done(None));
    } else {
      LeaveGlobalSafe(c, w, t, Apply(c, w, Inside(t)).pc[t]);
    }
    hide Safe;
  }

  lemma AcquireSafe(c: Config, w: World, t: Tid)
    requires Safe(c, w) && Enabled(c, w, Acquire(t))
    ensures Safe(c, Apply(c, w, Acquire(t)))
  {
  }

  lemma PutSafe(c: Config, w: World, t: Tid)
    requires Safe(c, w) && Enabled(c, w, Put(t))
    ensures Safe(c, Apply(c, w, Put(t)))
  {
    assert App(c.jobs[t]) in w.locks;
  }

  /** The lock an update releases is the one it holds. */
  lemma UnlockSafe(c: Config, w: World, t: Tid)
    requires Safe(c, w) && Enabled(c, w, Unlock(t))
    ensures w.locks[App(c.jobs[t])] == w.pc[t].lock && w.held[w.pc[t].lock] == t
    ensures Safe(c, Apply(c, w, Unlock(t)))
  {
  }

  lemma ApplySafe(c: Config, w: World, a: Action)
    requires Safe(c, w) && Enabled(c, w, a) && Clean(c, w, a)
    ensures Safe(c, Apply(c, w, a))
  {
    match a
    case Start(t) => StartSafe(c, w, t);
    case Grab(t) => GrabSafe(c, w, t);
    case Inside(t) => InsideSafe(c, w, t);
    case AskHouston(t, ok) => AskSafe(c, w, t, ok);
    case Fetch(t) => FetchSafe(c, w, t);
    case Acquire(t) => AcquireSafe(c, w, t);
    case Put(t) => PutSafe(c, w, t);
    case Unlock(t) => UnlockSafe(c, w, t);
    case Change(_, _) =>
  }

  lemma {:induction false} ContinueSafe(c: Config, w: World, schedule: seq<Action>)
    requires Safe(c, w) && CleanFrom(c, w, schedule)
    ensures Safe(c, Continue(c, w, schedule))
  {
    if schedule == [] {
    } else {
      var v, a := Continue(c, w, schedule[..|schedule| - 1]), schedule[|schedule| - 1];
      ContinueSafe(c, w, schedule[..|schedule| - 1]);
      if Enabled(c, v, a) { ApplySafe(c, v, a); }
      hide Safe, Apply, Enabled, Clean;
    }
  }

  /** Under every schedule in which no reset falls into an update's window, no missing lock is used
      and no unheld lock is released, and every cached application has a lock. */
  lemma CleanSchedulesSafe(c: Config, schedule: seq<Action>)
    requires CleanFrom(c, Init(c), schedule)
    ensures Safe(c, Execute(c, schedule))
  {
    ContinueSafe(c, Init(c), schedule);
  }

  // ---- progress ----

  predicate Returned(w: World, t: Tid) {
    t in w.pc && w.pc[t].Done?
  }

  ghost predicate CanStep(c: Config, w: World) {
    exists a :: Enabled(c, w, a) && Clean(c, w, a) && !a.Change?
  }

  lemma HolderCanStep(c: Config, w: World, t: Tid)
    requires Safe(c, w) && t in w.pc && HoldsLock(w.pc[t])
    ensures CanStep(c, w)
  {
    var a := if w.pc[t].Write? then Put(t) else Unlock(t);
    assert Enabled(c, w, a) && Clean(c, w, a);
  }

  lemma WindowCanStep(c: Config, w: World, t: Tid)
    requires Safe(c, w) && t in w.pc && Window(w.pc[t])
    ensures CanStep(c, w)
  {
    if HoldsLock(w.pc[t]) {
      HolderCanStep(c, w, t);
    } else if w.pc[t].Taking? && w.pc[t].lock in w.held {
      HolderCanStep(c, w, w.held[w.pc[t].lock]);
    } else {
      var a := if w.pc[t].Take? then Fetch(t) else Acquire(t);
      assert Enabled(c, w, a) && Clean(c, w, a);
    }
  }

  lemma GlobalCanStep(c: Config, w: World, t: Tid)
    requires Safe(c, w) && w.global == HeldBy(t) && forall u | u in w.pc :: !Window(w.pc[u])
    ensures CanStep(c, w)
  {
    assert InGlobal(w.pc[t]);
    assert w.held.Keys == {};
    assert Enabled(c, w, Inside(t)) && Clean(c, w, Inside(t));
  }

  lemma FreeCanStep(c: Config, w: World, t: Tid)
    requires Safe(c, w) && w.global == Free && t in w.pc && !w.pc[t].Done? && !Window(w.pc[t])
    ensures CanStep(c, w)
  {
    assert !InGlobal(w.pc[t]);
    var a := if w.pc[t].Begin? then Start(t) else if w.pc[t].Ask? then AskHouston(t, true) else Grab(t);
    assert Enabled(c, w, a) && Clean(c, w, a);
  }

  /** Under every such schedule, while some goroutine has not returned, some goroutine can step, and
      without a reset falling into a window. */
  lemma NoDeadlock(c: Config, schedule: seq<Action>, t: Tid)
    requires CleanFrom(c, Init(c), schedule)
    requires t in c.jobs && !Returned(Execute(c, schedule), t)
    ensures CanStep(c, Execute(c, schedule))
  {
    var w := Execute(c, schedule);
    CleanSchedulesSafe(c, schedule);
    if u :| u in w.pc && Window(w.pc[u]) {
      WindowCanStep(c, w, u);
    } else {
      match w.global
      case HeldBy(u) => GlobalCanStep(c, w, u);
      case Free => FreeCanStep(c, w, t);
    }
  }

  // ---- a reset is safe exactly outside every window ----

  lemma ContinueSnoc(c: Config, w: World, schedule: seq<Action>, a: Action)
    ensures Continue(c, w, schedule + [a])
            == var v := Continue(c, w, schedule); if Enabled(c, v, a) then Apply(c, v, a) else v
    ensures CleanFrom(c, w, schedule + [a]) <==> CleanFrom(c, w, schedule) && Clean(c, Continue(c, w, schedule), a)
  {
    assert (schedule + [a])[..|schedule|] == schedule;
  }

  ghost predicate Doomed(c: Config, w: World, t: Tid) {
    && t in c.jobs && w.current < |w.tables| && w.locks == map[] && !w.crashed
    && t in w.pc && Window(w.pc[t]) && (w.pc[t].Taking? ==> w.pc[t].lock !in w.held)
  }

  function StepsLeft(p: Pc): nat {
    match p
    case Taking(_, _, _) => 2
    case Write(_, _, _) => 1
    case _ => 0
  }

  function StepOf(t: Tid, p: Pc): Action {
    match p
    case Take(_, _) => Fetch(t)
    case Taking(_, _, _) => Acquire(t)
    case Write(_, _, _) => Put(t)
    case _ => Unlock(t)
  }

  lemma DoomedStep(c: Config, w: World, t: Tid)
    requires Doomed(c, w, t)
    ensures var a := StepOf(t, w.pc[t]);
            Enabled(c, w, a) && Clean(c, w, a)
            && (Apply(c, w, a).crashed
                || (Doomed(c, Apply(c, w, a), t) && StepsLeft(Apply(c, w, a).pc[t]) < StepsLeft(w.pc[t])))
  {
  }

  /** Once syncMap is empty, an update in its window crashes. */
  lemma {:induction false} WindowCrashes(c: Config, w: World, before: seq<Action>, t: Tid)
    returns (schedule: seq<Action>)
    requires CleanFrom(c, w, before) && Doomed(c, Continue(c, w, before), t)
    ensures CleanFrom(c, w, schedule) && Continue(c, w, schedule).crashed
    decreases StepsLeft(Continue(c, w, before).pc[t])
  {
    var v := Continue(c, w, before);
    var a := StepOf(t, v.pc[t]);
    DoomedStep(c, v, t);
    ContinueSnoc(c, w, before, a);
    schedule := before + [a];
    hide Continue, CleanFrom, Doomed, Enabled, Apply, Clean;
    if !Continue(c, w, schedule).crashed {
      schedule := WindowCrashes(c, w, schedule, t);
    }
  }

  /** From a safe state, a reset lets no further schedule crash exactly when it falls into no
      update's window. */
  lemma ResetHarmless(c: Config, w: World, r: Tid)
    requires Safe(c, w) && Enabled(c, w, Inside(r)) && w.pc[r].ResetIn?
    ensures (forall schedule | CleanFrom(c, Apply(c, w, Inside(r)), schedule) ::
               !Continue(c, Apply(c, w, Inside(r)), schedule).crashed)
            <==> forall t | t in w.pc :: !Window(w.pc[t])
  {
    var w' := Apply(c, w, Inside(r));
    if forall t | t in w.pc :: !Window(w.pc[t]) {
      InsideSafe(c, w, r);
      forall schedule | CleanFrom(c, w', schedule) ensures !Continue(c, w', schedule).crashed {
        ContinueSafe(c, w', schedule);
      }
    } else {
      var t :| t in w.pc && Window(w.pc[t]);
      if w.pc[t].Taking? && w.pc[t].lock in w.held {
        t := w.held[w.pc[t].lock];
      }
      var schedule := WindowCrashes(c, w', [], t);
    }
    hide Continue, CleanFrom;
  }
}
