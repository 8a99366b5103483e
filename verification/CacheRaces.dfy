/** Exactly which goroutines can make the cache serve what an update has already replaced. */
module CacheRaces {
  import opened Wrappers
  import opened Houston
  import opened CacheLocks
  import opened CacheCoherence
  import opened CacheFreshness

  /** A goroutine that may update the application: by an event, or by a read that misses. */
  predicate Concerns(c: Config, t: Tid, app: string) {
    t in c.jobs && !c.jobs[t].Resetting? && c.jobs[t].app == app
  }

  // ---- schedules, step by step ----

  lemma Extend(c: Config, before: seq<Action>, a: Action) returns (schedule: seq<Action>)
    requires CleanFrom(c, Init(c), before)
    requires Enabled(c, Execute(c, before), a) && Clean(c, Execute(c, before), a)
    ensures schedule == before + [a] && CleanFrom(c, Init(c), schedule)
    ensures Execute(c, schedule) == Apply(c, Execute(c, before), a)
    ensures ApartThroughout(c, before) && Apart(c, Execute(c, schedule)) ==> ApartThroughout(c, schedule)
  {
    schedule := before + [a];
    assert schedule[..|before|] == before;
    ContinueSnoc(c, Init(c), before, a);
    hide Apart, Apply, Enabled, Clean, CleanFrom;
  }

  /** Nobody is at a lock. */
  ghost predicate Quiet(w: World) {
    w.global == Free && w.held == map[] && !w.crashed && w.current < |w.tables|
  }

  /** Nobody but perhaps one goroutine is in an update. */
  ghost predicate Alone(w: World, t: Tid) {
    forall u | u in w.pc && u != t :: !Section(w.pc[u])
  }

  /** A clean schedule whose updates are apart, with at most this goroutine in one. */
  ghost predicate Orderly(c: Config, schedule: seq<Action>, t: Tid) {
    CleanFrom(c, Init(c), schedule) && ApartThroughout(c, schedule) && Alone(Execute(c, schedule), t)
  }

  /** A step of that goroutine, or of Houston's, keeps it so. */
  lemma ExtendOrderly(c: Config, before: seq<Action>, a: Action, t: Tid) returns (schedule: seq<Action>)
    requires CleanFrom(c, Init(c), before) && (a.Change? || a.t == t)
    requires Enabled(c, Execute(c, before), a) && Clean(c, Execute(c, before), a)
    ensures schedule == before + [a] && CleanFrom(c, Init(c), schedule)
    ensures Execute(c, schedule) == Apply(c, Execute(c, before), a)
    ensures Orderly(c, before, t) ==> Orderly(c, schedule, t)
  {
    schedule := Extend(c, before, a);
    OthersStay(c, Execute(c, before), a, t);
    hide Apply, Enabled, Clean, CleanFrom, Execute, Section;
  }

  lemma OthersStay(c: Config, w: World, a: Action, t: Tid)
    requires Enabled(c, w, a) && (a.Change? || a.t == t)
    ensures Alone(w, t) ==> Alone(Apply(c, w, a), t) && Apart(c, Apply(c, w, a))
  {
  }

  // ---- one update ----

  lemma LookIn(c: Config, w: World, t: Tid, app: string)
    requires Concerns(c, t, app) && Quiet(w) && t in w.pc && w.pc[t].Lookup?
    ensures Enabled(c, w, Grab(t)) && Clean(c, w, Grab(t))
    ensures Apply(c, w, Grab(t))
            == Move(WithLock(w, app), t, LookupIn(w.pc[t].table)).(global := HeldBy(t))
    ensures app in WithLock(w, app).locks
  {
  }

  lemma Miss(c: Config, w: World, t: Tid, app: string)
    requires Concerns(c, t, app) && w.global == HeldBy(t) && w.held == map[] && !w.crashed && app in w.locks
    requires w.current < |w.tables| && t in w.pc && w.pc[t] == LookupIn(w.current)
    requires app !in w.tables[w.current].entries
    ensures Enabled(c, w, Inside(t)) && Clean(c, w, Inside(t))
    ensures Apply(c, w, Inside(t)) == Move(w, t, Ask(Version(w))).(global := Free)
  {
  }

  /** A reader that finds nothing in the table in use goes on to ask. */
  lemma MissSteps(c: Config, before: seq<Action>, t: Tid, app: string) returns (schedule: seq<Action>)
    requires CleanFrom(c, Init(c), before) && Concerns(c, t, app)
    requires var w := Execute(c, before);
             && Quiet(w) && t in w.pc && w.pc[t] == Lookup(w.current) && app !in w.tables[w.current].entries
    ensures CleanFrom(c, Init(c), schedule) && (Orderly(c, before, t) ==> Orderly(c, schedule, t))
    ensures var w := Execute(c, before); Execute(c, schedule) == Move(WithLock(w, app), t, Ask(Version(w)))
  {
    hide Execute, CleanFrom, Orderly, Apply, Enabled, Clean;
    var w := Execute(c, before);
    LookIn(c, w, t, app);
    schedule := ExtendOrderly(c, before, Grab(t), t);
    Miss(c, Execute(c, schedule), t, app);
    schedule := ExtendOrderly(c, schedule, Inside(t), t);
    assert Execute(c, schedule).pc == w.pc[t := Ask(Version(w))];
  }

  lemma StartStep(c: Config, before: seq<Action>, t: Tid, app: string) returns (schedule: seq<Action>)
    requires CleanFrom(c, Init(c), before) && Concerns(c, t, app)
    requires var w := Execute(c, before); Quiet(w) && t in w.pc && w.pc[t].Begin?
    ensures schedule == before + [Start(t)]
    ensures CleanFrom(c, Init(c), schedule) && (Orderly(c, before, t) ==> Orderly(c, schedule, t))
    ensures var w := Execute(c, before);
            Execute(c, schedule) == Move(w, t, if c.jobs[t].Reading? then Lookup(w.current) else Ask(Version(w)))
  {
    schedule := ExtendOrderly(c, before, Start(t), t);
    hide Execute, CleanFrom, Orderly;
  }

  /** What a goroutine's first half leaves: the question asked, and a lock made if it had to look. */
  ghost function Asked(c: Config, w: World, t: Tid, app: string): World
    requires t in c.jobs
  {
    Move(if c.jobs[t].Reading? then WithLock(w, app) else w, t, Ensure(Version(w), Answer(app, Version(w))))
  }

  /** Houston's configuration of an application changes. */
  lemma ChangeStep(c: Config, before: seq<Action>, app: string, t: Tid) returns (schedule: seq<Action>)
    requires CleanFrom(c, Init(c), before) && Quiet(Execute(c, before))
    ensures CleanFrom(c, Init(c), schedule) && (Orderly(c, before, t) ==> Orderly(c, schedule, t))
    ensures var w := Execute(c, before);
            Execute(c, schedule) == w.(truths := w.truths + [Truth(w)[app := map[]]])
  {
    schedule := ExtendOrderly(c, before, Change(app, map[]), t);
    hide Execute, CleanFrom, Orderly;
  }

  lemma AnswerStep(c: Config, w: World, t: Tid, app: string)
    requires Concerns(c, t, app) && Quiet(w) && t in w.pc && w.pc[t].Ask?
    ensures Enabled(c, w, AskHouston(t, true)) && Clean(c, w, AskHouston(t, true))
    ensures Apply(c, w, AskHouston(t, true)) == Move(w, t, Ensure(w.pc[t].since, Answer(app, Version(w))))
  {
  }

  /** From its start to its answer; a reader misses first. */
  lemma AskSteps(c: Config, before: seq<Action>, t: Tid, app: string) returns (schedule: seq<Action>)
    requires CleanFrom(c, Init(c), before) && Concerns(c, t, app)
    requires var w := Execute(c, before);
             && Quiet(w) && t in w.pc && w.pc[t].Begin? && app !in w.tables[w.current].entries
    ensures CleanFrom(c, Init(c), schedule) && (Orderly(c, before, t) ==> Orderly(c, schedule, t))
    ensures Execute(c, schedule) == Asked(c, Execute(c, before), t, app)
  {
    hide Execute, CleanFrom, Orderly, Apply, Enabled, Clean;
    var w := Execute(c, before);
    schedule := StartStep(c, before, t, app);
    if c.jobs[t].Reading? {
      schedule := MissSteps(c, schedule, t, app);
      assert Execute(c, schedule).pc == w.pc[t := Ask(Version(w))];
    }
    AnswerStep(c, Execute(c, schedule), t, app);
    schedule := ExtendOrderly(c, schedule, AskHouston(t, true), t);
    assert Execute(c, schedule).pc == w.pc[t := Ensure(Version(w), Answer(app, Version(w)))];
  }

  lemma EnsureSteps(c: Config, before: seq<Action>, t: Tid, app: string) returns (schedule: seq<Action>)
    requires CleanFrom(c, Init(c), before) && Concerns(c, t, app)
    requires var w := Execute(c, before); Quiet(w) && t in w.pc && w.pc[t].Ensure?
    ensures CleanFrom(c, Init(c), schedule) && (Orderly(c, before, t) ==> Orderly(c, schedule, t))
    ensures var w := Execute(c, before);
            Execute(c, schedule) == Move(WithLock(w, app), t, Take(w.pc[t].since, w.pc[t].answer))
  {
    var w := Execute(c, before);
    schedule := ExtendOrderly(c, before, Grab(t), t);
    assert Execute(c, schedule).pc[t] == EnsureIn(w.pc[t].since, w.pc[t].answer);
    schedule := ExtendOrderly(c, schedule, Inside(t), t);
    assert Execute(c, schedule).pc == w.pc[t := Take(w.pc[t].since, w.pc[t].answer)];
    hide Execute, CleanFrom, Orderly;
  }

  /** The table in use after one update has written and is complete. */
  function Updated(table: Table, t: Tid, app: string, since: nat, answer: Answer): Table {
    Table(table.entries[app := Entry(answer, since, t)], Newest(table.latest, app, since))
  }

  lemma LockSteps(c: Config, before: seq<Action>, t: Tid, app: string) returns (schedule: seq<Action>)
    requires CleanFrom(c, Init(c), before) && Concerns(c, t, app)
    requires var w := Execute(c, before); Quiet(w) && t in w.pc && w.pc[t].Take? && app in w.locks
    ensures CleanFrom(c, Init(c), schedule) && (Orderly(c, before, t) ==> Orderly(c, schedule, t))
    ensures var w := Execute(c, before);
            Execute(c, schedule) == Move(w, t, Write(w.pc[t].since, w.pc[t].answer, w.locks[app]))
                                    .(held := map[w.locks[app] := t])
  {
    var w := Execute(c, before);
    schedule := ExtendOrderly(c, before, Fetch(t), t);
    schedule := ExtendOrderly(c, schedule, Acquire(t), t);
    assert Execute(c, schedule).pc == w.pc[t := Write(w.pc[t].since, w.pc[t].answer, w.locks[app])];
    hide Execute, CleanFrom, Orderly;
  }

  lemma WriteSteps(c: Config, before: seq<Action>, t: Tid, app: string)
    returns (schedule: seq<Action>, served: Option<Entry>)
    requires CleanFrom(c, Init(c), before) && Concerns(c, t, app)
    requires var w := Execute(c, before);
             && !w.crashed && w.current < |w.tables| && t in w.pc && w.pc[t].Write? && app in w.locks
             && w.held == map[w.locks[app] := t]
    ensures CleanFrom(c, Init(c), schedule) && (Orderly(c, before, t) ==> Orderly(c, schedule, t))
    ensures var w := Execute(c, before);
            var table := Updated(w.tables[w.current], t, app, w.pc[t].since, w.pc[t].answer);
            Execute(c, schedule)
            == Move(w, t, Done(served)).(tables := w.tables[w.current := table], held := map[])
  {
    var w := Execute(c, before);
    schedule := ExtendOrderly(c, before, Put(t), t);
    served := Served(c, t, Execute(c, schedule).pc[t]);
    schedule := ExtendOrderly(c, schedule, Unlock(t), t);
    assert Execute(c, schedule).held == map[];
    assert Execute(c, schedule).pc == w.pc[t := Done(served)];
    hide Execute, CleanFrom, Orderly;
  }

  /** An update that has its answer, to its end. */
  lemma FinishUpdate(c: Config, before: seq<Action>, t: Tid, app: string)
    returns (schedule: seq<Action>, served: Option<Entry>)
    requires CleanFrom(c, Init(c), before) && Concerns(c, t, app)
    requires var w := Execute(c, before); Quiet(w) && t in w.pc && w.pc[t].Ensure?
    ensures CleanFrom(c, Init(c), schedule) && (Orderly(c, before, t) ==> Orderly(c, schedule, t))
    ensures var w := Execute(c, before);
            var table := Updated(w.tables[w.current], t, app, w.pc[t].since, w.pc[t].answer);
            Execute(c, schedule)
            == Move(WithLock(w, app), t, Done(served)).(tables := w.tables[w.current := table])
  {
    var w := Execute(c, before);
    schedule := EnsureSteps(c, before, t, app);
    schedule := LockSteps(c, schedule, t, app);
    schedule, served := WriteSteps(c, schedule, t, app);
    assert Execute(c, schedule).pc == w.pc[t := Done(served)];
    hide Execute, CleanFrom, Orderly;
  }

  // ---- overlapping updates ----

  /** No entry of any table is older than an update completed while it was in use. */
  ghost predicate NothingOlder(w: World) {
    forall i, app | 0 <= i < |w.tables| :: EntryFresh(w.tables[i], app)
  }

  /** No two goroutines read or update the same application. */
  ghost predicate OneEach(c: Config) {
    forall t, u, app | Concerns(c, t, app) && Concerns(c, u, app) :: t == u
  }

  lemma {:induction false} OneEachApart(c: Config, schedule: seq<Action>)
    requires OneEach(c) && CleanFrom(c, Init(c), schedule)
    ensures ApartThroughout(c, schedule)
  {
    CleanSchedulesSafe(c, schedule);
    var w := Execute(c, schedule);
    forall t, u | t in w.pc && u in w.pc && t in c.jobs && u in c.jobs && t != u
                  && Section(w.pc[t]) && Section(w.pc[u])
      ensures App(c.jobs[t]) != App(c.jobs[u])
    {
      assert Fits(c.jobs[t], w.pc[t]) && Fits(c.jobs[u], w.pc[u]);
      assert Concerns(c, t, App(c.jobs[t])) && Concerns(c, u, App(c.jobs[u]));
    }
    if schedule == [] {
    } else {
      OneEachApart(c, schedule[..|schedule| - 1]);
    }
    hide Execute, Safe, Section, Fits;
  }

  /** Two goroutines of one application have asked Houston, before and after a change. */
  lemma BothAsk(c: Config, t: Tid, u: Tid, app: string) returns (s: seq<Action>)
    requires t != u && Concerns(c, t, app) && Concerns(c, u, app)
    ensures CleanFrom(c, Init(c), s)
    ensures var w := Execute(c, s);
            && Quiet(w) && w.tables == [NEW_TABLE] && w.current == 0
            && t in w.pc && w.pc[t] == Ensure(0, Answer(app, 0))
            && u in w.pc && w.pc[u] == Ensure(1, Answer(app, 1))
  {
    assert Execute(c, []) == Init(c) && CleanFrom(c, Init(c), []);
    hide Execute, CleanFrom, Orderly;
    s := AskSteps(c, [], t, app);
    s := ChangeStep(c, s, app, t);
    s := AskSteps(c, s, u, app);
  }

  /** Any two goroutines that read or update the same application can overlap so that the one that
      asked first writes last: the cache is left with an answer older than the start of a completed
      update, and no reset has happened. */
  lemma OverlapGoesStale(c: Config, t: Tid, u: Tid, app: string) returns (s: seq<Action>)
    requires t != u && Concerns(c, t, app) && Concerns(c, u, app)
    ensures CleanFrom(c, Init(c), s)
    ensures var w := Execute(c, s);
            && w.current < |w.tables| && !EntryFresh(w.tables[w.current], app)
            && Returned(w, t) && Returned(w, u)
  {
    s := BothAsk(c, t, u, app);
    var served: Option<Entry>;
    s, served := FinishUpdate(c, s, u, app);
    s, served := FinishUpdate(c, s, t, app);
    hide Execute, CleanFrom, Orderly;
  }

  /** Every clean schedule keeps every entry at least as new as the updates completed exactly when no
      two goroutines read or update the same application. */
  lemma NeverOlder(c: Config)
    ensures (forall schedule | CleanFrom(c, Init(c), schedule) :: NothingOlder(Execute(c, schedule))) <==> OneEach(c)
  {
    if t, u, app :| Concerns(c, t, app) && Concerns(c, u, app) && t != u {
      var s := OverlapGoesStale(c, t, u, app);
      assert !NothingOlder(Execute(c, s));
    } else {
      forall schedule | CleanFrom(c, Init(c), schedule) ensures NothingOlder(Execute(c, schedule)) {
        OneEachApart(c, schedule);
        AllGood(c, schedule);
        GoodNothingOlder(c, Execute(c, schedule));
      }
    }
    hide Execute, CleanFrom, NothingOlder;
  }

  lemma GoodNothingOlder(c: Config, w: World)
    requires Good(c, w)
    ensures NothingOlder(w)
  {
    forall i, app | 0 <= i < |w.tables| ensures EntryFresh(w.tables[i], app) {
      assert TableFresh(|w.truths|, w.tables[i]);
    }
  }

  // ---- reads that a reset overtakes ----

  /** When the reader hits, it is served nothing older than the updates completed since the last
      reset. */
  ghost predicate ReadFresh(c: Config, w: World, t: Tid)
    requires Reads(c, w, t)
  {
    var app := App(c.jobs[t]);
    app in w.tables[w.current].latest && app in TableRead(c, w, t).entries
    ==> w.tables[w.current].latest[app] <= TableRead(c, w, t).entries[app].answer.version
  }

  ghost predicate AlwaysReadsFresh(c: Config, t: Tid) {
    forall schedule | CleanFrom(c, Init(c), schedule) && ApartThroughout(c, schedule)
                      && Reads(c, Execute(c, schedule), t) ::
      ReadFresh(c, Execute(c, schedule), t)
  }

  ghost predicate SomeReset(c: Config) {
    exists r :: r in c.jobs && c.jobs[r].Resetting?
  }

  /** Two more goroutines that read or update the reader's application. */
  ghost predicate TwoOthers(c: Config, t: Tid)
    requires t in c.jobs
  {
    exists u, v :: u != v && u != t && v != t && Concerns(c, u, App(c.jobs[t])) && Concerns(c, v, App(c.jobs[t]))
  }

  lemma {:induction false} ResetsNeedOne(c: Config, schedule: seq<Action>)
    requires CleanFrom(c, Init(c), schedule) && Execute(c, schedule).current > 0
    ensures SomeReset(c)
  {
    var init, a := schedule[..|schedule| - 1], schedule[|schedule| - 1];
    if Execute(c, init).current > 0 {
      ResetsNeedOne(c, init);
    } else {
      CleanSchedulesSafe(c, init);
      assert Fits(c.jobs[a.t], Execute(c, init).pc[a.t]);
    }
  }

  /** Entries of one application in two tables are by two goroutines, and a reader that is looking is
      neither. */
  lemma TwoWriters(c: Config, w: World, t: Tid, i: nat, j: nat)
    requires WrittenOnce(c, w) && t in c.jobs && t in w.pc && w.pc[t].LookupIn? && i < j < |w.tables|
    requires App(c.jobs[t]) in w.tables[i].entries && App(c.jobs[t]) in w.tables[j].entries
    ensures TwoOthers(c, t)
  {
    var app := App(c.jobs[t]);
    var u, v := w.tables[i].entries[app].writer, w.tables[j].entries[app].writer;
    assert Written(c, w, app, u) && Written(c, w, app, v) && u != v;
    assert Concerns(c, u, app) && Concerns(c, v, app);
  }

  lemma FewGoroutinesReadFresh(c: Config, schedule: seq<Action>, t: Tid)
    requires CleanFrom(c, Init(c), schedule) && ApartThroughout(c, schedule) && Reads(c, Execute(c, schedule), t)
    requires !(SomeReset(c) && TwoOthers(c, t))
    ensures ReadFresh(c, Execute(c, schedule), t)
  {
    AllGood(c, schedule);
    var w, app := Execute(c, schedule), App(c.jobs[t]);
    var i := w.pc[t].table;
    assert i <= w.current;
    GoodNothingOlder(c, w);
    assert EntryFresh(w.tables[w.current], app);
    hide Execute, CleanFrom, ApartThroughout, Safe, Coherent, Fresh, WrittenOnce, TwoOthers;
    if i < w.current && app in w.tables[w.current].latest && app in w.tables[i].entries {
      ResetsNeedOne(c, schedule);
      TwoWriters(c, w, t, i, w.current);
    }
  }

  /** A goroutine whose update is over leaves the floor to another. */
  lemma HandOver(c: Config, schedule: seq<Action>, t: Tid, u: Tid)
    requires Orderly(c, schedule, t)
    requires t in Execute(c, schedule).pc ==> !Section(Execute(c, schedule).pc[t])
    ensures Orderly(c, schedule, u)
  {
    hide Execute, CleanFrom, ApartThroughout, Section;
  }

  /** What a whole update changes. */
  ghost predicate UpdateOver(c: Config, w: World, w': World, t: Tid, app: string) {
    && Quiet(w) && Quiet(w') && t in w'.pc && w'.pc[t].Done? && w'.pc == w.pc[t := w'.pc[t]]
    && w'.current == w.current && w'.truths == w.truths
    && w'.tables == w.tables[w.current := Updated(w.tables[w.current], t, app, Version(w), Answer(app, Version(w)))]
  }

  lemma UpdateIsOver(c: Config, w: World, w': World, t: Tid, app: string, served: Option<Entry>)
    requires Quiet(w) && t in c.jobs
    requires var v := Asked(c, w, t, app);
             var table := Updated(v.tables[v.current], t, app, v.pc[t].since, v.pc[t].answer);
             w' == Move(WithLock(v, app), t, Done(served)).(tables := v.tables[v.current := table])
    ensures UpdateOver(c, w, w', t, app)
  {
    assert w'.pc == w.pc[t := Done(served)];
  }

  lemma WholeUpdate(c: Config, before: seq<Action>, t: Tid, app: string) returns (schedule: seq<Action>)
    requires Orderly(c, before, t) && Concerns(c, t, app)
    requires var w := Execute(c, before);
             && Quiet(w) && t in w.pc && w.pc[t].Begin? && app !in w.tables[w.current].entries
    ensures Orderly(c, schedule, t) && UpdateOver(c, Execute(c, before), Execute(c, schedule), t, app)
  {
    var served: Option<Entry>;
    assert CleanFrom(c, Init(c), before);
    hide Execute, CleanFrom, Orderly, UpdateOver;
    schedule := AskSteps(c, before, t, app);
    schedule, served := FinishUpdate(c, schedule, t, app);
    UpdateIsOver(c, Execute(c, before), Execute(c, schedule), t, app, served);
  }

  lemma EnterReset(c: Config, before: seq<Action>, r: Tid) returns (schedule: seq<Action>)
    requires Orderly(c, before, r) && r in c.jobs && c.jobs[r].Resetting?
    requires var w := Execute(c, before); Quiet(w) && r in w.pc && w.pc[r].Begin?
    ensures Orderly(c, schedule, r)
    ensures var w := Execute(c, before); Execute(c, schedule) == Move(w, r, ResetIn).(global := HeldBy(r))
  {
    var w := Execute(c, before);
    schedule := ExtendOrderly(c, before, Start(r), r);
    schedule := ExtendOrderly(c, schedule, Grab(r), r);
    assert Execute(c, schedule).pc == w.pc[r := ResetIn];
    hide Execute, CleanFrom, Orderly;
  }

  lemma ResetSteps(c: Config, before: seq<Action>, r: Tid) returns (schedule: seq<Action>)
    requires Orderly(c, before, r) && r in c.jobs && c.jobs[r].Resetting?
    requires var w := Execute(c, before); Quiet(w) && r in w.pc && w.pc[r].Begin?
    ensures Orderly(c, schedule, r)
    ensures var w := Execute(c, before);
            Execute(c, schedule) == Move(Emptied(w), r, Done(None))
  {
    var w := Execute(c, before);
    schedule := EnterReset(c, before, r);
    assert Alone(Execute(c, schedule), r);
    hide Execute, CleanFrom, Orderly;
    schedule := ExtendOrderly(c, schedule, Inside(r), r);
    assert Execute(c, schedule).pc == w.pc[r := Done(None)];
  }

  /** A reader of the application, one that empties the cache, and two more that update it. */
  ghost predicate Cast(c: Config, t: Tid, r: Tid, u: Tid, v: Tid, app: string) {
    && t in c.jobs && c.jobs[t] == Reading(app) && r in c.jobs && c.jobs[r].Resetting?
    && Concerns(c, u, app) && Concerns(c, v, app) && u != v && u != t && v != t
  }

  /** An update has filled the table, and the reader has fetched it. */
  ghost predicate Filled(w: World, t: Tid, r: Tid, u: Tid, v: Tid, app: string) {
    && Quiet(w) && t in w.pc && w.pc[t] == Lookup(0) && r in w.pc && w.pc[r].Begin? && v in w.pc && w.pc[v].Begin?
    && w.tables == [Updated(NEW_TABLE, u, app, 0, Answer(app, 0))] && w.current == 0 && |w.truths| == 1
  }

  /** And a reset has replaced it. */
  ghost predicate Overtaken(w: World, t: Tid, u: Tid, v: Tid, app: string) {
    && Quiet(w) && t in w.pc && w.pc[t] == Lookup(0) && v in w.pc && w.pc[v].Begin?
    && w.tables == [Updated(NEW_TABLE, u, app, 0, Answer(app, 0)), NEW_TABLE] && w.current == 1
    && |w.truths| == 1
  }

  lemma FillTable(c: Config, t: Tid, r: Tid, u: Tid, v: Tid, app: string) returns (s: seq<Action>)
    requires Cast(c, t, r, u, v, app)
    ensures Orderly(c, s, r) && Filled(Execute(c, s), t, r, u, v, app)
  {
    assert Orderly(c, [], u) && Execute(c, []) == Init(c);
    s := WholeUpdate(c, [], u, app);
    assert Orderly(c, s, u) ==> CleanFrom(c, Init(c), s);
    hide Execute, CleanFrom, ApartThroughout, Orderly;
    HandOver(c, s, u, t);
    s := StartStep(c, s, t, app);
    HandOver(c, s, t, r);
  }

  lemma OvertakeReader(c: Config, t: Tid, r: Tid, u: Tid, v: Tid, app: string) returns (s: seq<Action>)
    requires Cast(c, t, r, u, v, app)
    ensures Orderly(c, s, v) && Overtaken(Execute(c, s), t, u, v, app)
  {
    s := FillTable(c, t, r, u, v, app);
    hide Execute, Orderly;
    s := ResetSteps(c, s, r);
    HandOver(c, s, r, v);
  }

  /** Then Houston's configuration changes and another update completes. */
  ghost predicate Behind(w: World, t: Tid, u: Tid, app: string) {
    && Quiet(w) && t in w.pc && w.pc[t] == Lookup(0) && w.current == 1 && |w.tables| == 2
    && w.tables[0] == Updated(NEW_TABLE, u, app, 0, Answer(app, 0)) && w.tables[1].latest == map[app := 1]
  }

  lemma UpdateLeavesBehind(c: Config, w: World, w': World, t: Tid, u: Tid, v: Tid, app: string,
                           truth: map<string, Routes>)
    requires Overtaken(w, t, u, v, app) && t != v
    requires UpdateOver(c, w.(truths := w.truths + [truth]), w', v, app)
    ensures Behind(w', t, u, app)
  {
  }

  lemma UpdateBehindReader(c: Config, t: Tid, r: Tid, u: Tid, v: Tid, app: string) returns (s: seq<Action>)
    requires Cast(c, t, r, u, v, app)
    ensures Orderly(c, s, t) && Behind(Execute(c, s), t, u, app)
  {
    s := OvertakeReader(c, t, r, u, v, app);
    assert CleanFrom(c, Init(c), s);
    hide Execute, CleanFrom, Orderly, Behind;
    var w := Execute(c, s);
    s := ChangeStep(c, s, app, v);
    s := WholeUpdate(c, s, v, app);
    UpdateLeavesBehind(c, w, Execute(c, s), t, u, v, app, Truth(w)[app := map[]]);
    HandOver(c, s, v, t);
  }

  /** And the reader looks its application up. */
  lemma OvertakenReadIsStale(c: Config, t: Tid, r: Tid, u: Tid, v: Tid, app: string) returns (s: seq<Action>)
    requires Cast(c, t, r, u, v, app)
    ensures CleanFrom(c, Init(c), s) && ApartThroughout(c, s)
    ensures Reads(c, Execute(c, s), t) && !ReadFresh(c, Execute(c, s), t)
  {
    s := UpdateBehindReader(c, t, r, u, v, app);
    hide Execute, CleanFrom, ApartThroughout;
    LookIn(c, Execute(c, s), t, app);
    s := ExtendOrderly(c, s, Grab(t), t);
  }

  /** While updates of one application do not overlap, a reader's hits are at least as new as the updates
      completed since the last reset, in every schedule, exactly when nothing resets the cache or no
      two other goroutines read or update the reader's application. */
  lemma ReadsFreshExactly(c: Config, t: Tid)
    requires t in c.jobs && c.jobs[t].Reading?
    ensures AlwaysReadsFresh(c, t) <==> !(SomeReset(c) && TwoOthers(c, t))
  {
    var app := App(c.jobs[t]);
    if SomeReset(c) && TwoOthers(c, t) {
      var r :| r in c.jobs && c.jobs[r].Resetting?;
      var u, v :| u != v && u != t && v != t && Concerns(c, u, app) && Concerns(c, v, app);
      var s := OvertakenReadIsStale(c, t, r, u, v, app);
    } else {
      forall schedule | CleanFrom(c, Init(c), schedule) && ApartThroughout(c, schedule)
                        && Reads(c, Execute(c, schedule), t)
        ensures ReadFresh(c, Execute(c, schedule), t)
      {
        FewGoroutinesReadFresh(c, schedule, t);
      }
    }
    hide Execute, CleanFrom, ApartThroughout, Reads;
  }
}
