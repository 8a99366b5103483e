/** Which configurations of the dead letter queue's goroutines always come to an end. */
module DeadLetterEnds {
  import opened Builds
  import opened Text
  import opened DeadLetter
  import opened DeadLetterFlush
  import opened DeadLetterLocks
  import opened DeadLetterClose
  import opened Measures

  // ---- how long one loop can be ----

  function KeysOf(visits: seq<Visit>): set<Key> {
    set i | 0 <= i < |visits| :: visits[i].key
  }

  lemma {:induction false} DistinctKeysCounted(visits: seq<Visit>)
    requires DistinctKeys(visits)
    ensures |KeysOf(visits)| == |visits|
  {
    if visits == [] {
      assert KeysOf(visits) == {};
    } else {
      var init, last := visits[..|visits| - 1], visits[|visits| - 1];
      DistinctKeysCounted(init);
      assert KeysOf(visits) == KeysOf(init) + {last.key};
      assert last.key !in KeysOf(init);
    }
  }

  lemma SubsetSize<T>(a: set<T>, b: set<T>)
    requires a <= b
    ensures |a| <= |b|
  {
    assert b == a + (b - a);
  }

  /** Repaired, the loop over the map has at most as many steps as the map has entries. */
  lemma RepairedRangeEnds(s: Store, visits: seq<Visit>)
    requires RangePrefix(Repaired, s, visits)
    ensures |visits| <= |s.queue|
  {
    DistinctKeysCounted(visits);
    forall i | 0 <= i < |visits| ensures visits[i].key in s.queue {
      RepairedKeys(s, visits, i);
    }
    SubsetSize(KeysOf(visits), s.queue.Keys);
  }

  /** As typed, visiting the longest key makes a longer one. */
  lemma {:induction false} LongRange(s: Store, n: nat) returns (visits: seq<Visit>, k: Key)
    requires s.queue != map[]
    ensures RangePrefix(AsTyped, s, visits) && |visits| == n
    ensures k in FlushAll(AsTyped, s, visits).queue && !Visits(visits, k)
    ensures forall j | j in FlushAll(AsTyped, s, visits).queue :: |j| <= |k|
  {
    if n == 0 {
      visits := [];
      k := LongestKey(s.queue.Keys);
    } else {
      var init, j := LongRange(s, n - 1);
      var v := Visit(j, Outcome(true, 0));
      VisitSnoc(AsTyped, s, init, v);
      visits, k := init + [v], ObjectName(j, 0);
      VisitsSnoc(init, v, k);
      VisitedShorter(s, init, k);
      assert FlushAll(AsTyped, s, visits).queue.Keys == FlushAll(AsTyped, s, init).queue.Keys + {k};
    }
  }

  /** A key longer than all there are was not visited. */
  lemma VisitedShorter(s: Store, visits: seq<Visit>, k: Key)
    requires RangePrefix(AsTyped, s, visits)
    requires k !in FlushAll(AsTyped, s, visits).queue
    ensures !Visits(visits, k)
  {
    if i :| 0 <= i < |visits| && visits[i].key == k {
      EntriesStay(AsTyped, s, visits, i, k);
    }
  }

  lemma {:induction false} EntriesStay(b: Build, s: Store, visits: seq<Visit>, i: nat, k: Key)
    requires i <= |visits| && k in FlushAll(b, s, visits[..i]).queue
    ensures k in FlushAll(b, s, visits).queue
  {
    if i == |visits| {
      assert visits[..i] == visits;
    } else {
      var init := visits[..|visits| - 1];
      assert init[..i] == visits[..i];
      EntriesStay(b, s, init, i, k);
    }
  }

  ghost predicate LoopReaches(s: Store, n: nat) {
    exists visits :: RangePrefix(AsTyped, s, visits) && |visits| >= n
  }

  /** As typed, the loop can have any number of steps exactly when the map is not empty. */
  lemma TypedRangeUnbounded(s: Store)
    ensures (forall n: nat :: LoopReaches(s, n)) <==> s.queue != map[]
  {
    if s.queue == map[] {
      forall visits | RangePrefix(AsTyped, s, visits) ensures |visits| < 1 {
        NothingToVisit(s, visits);
      }
      assert !LoopReaches(s, 1);
    } else {
      forall n: nat ensures LoopReaches(s, n) {
        var visits, k := LongRange(s, n);
      }
    }
    hide RangePrefix;
  }

  // ---- runs that end ----

  ghost predicate SomeFlush(c: Config) {
    exists t :: t in c.jobs && !c.jobs[t].Adding?
  }

  ghost predicate SomeAdd(c: Config) {
    exists u :: Adder(c, u)
  }

  /** How many actions of a schedule happen. */
  ghost function Taken(c: Config, schedule: seq<Action>): nat {
    if schedule == [] then 0
    else
      var init, a := schedule[..|schedule| - 1], schedule[|schedule| - 1];
      Taken(c, init) + if Enabled(c, Execute(c, init), a) then 1 else 0
  }

  /** How many actions a goroutine can still take; a loop has at most one visit per goroutine. */
  function Left(c: Config, job: Job, p: Pc): nat {
    match p
    case Begin => (match job case Adding(_, _) => 6 case Flushing => |c.jobs| + 2 case Closing => |c.jobs| + 3)
    case Waited => |c.jobs| + 2
    case Locked => 5
    case Counted => 4
    case Added => 3
    case Settled(_) => 2
    case Ranging(done) => if |done| <= |c.jobs| then |c.jobs| + 1 - |done| else 0
    case Unlocked => 1
    case Finished => 0
  }

  ghost function Lefts(c: Config, m: Machine): map<nat, nat> {
    map t | t in m.pc && t in c.jobs :: Left(c, c.jobs[t], m.pc[t])
  }

  /** The keys that goroutines add. */
  ghost function AddedKeys(c: Config): set<Key> {
    set t | t in c.jobs && Adder(c, t) :: c.jobs[t].key
  }

  ghost predicate KeysAdded(c: Config, s: Store) {
    s.queue.Keys <= AddedKeys(c)
  }

  lemma {:induction false} ImageSize(jobs: map<Tid, Job>, keys: set<Key>)
    requires forall k | k in keys :: exists t :: t in jobs && jobs[t].Adding? && jobs[t].key == k
    ensures |keys| <= |jobs|
    decreases |keys|
  {
    if keys == {} {
    } else {
      var k :| k in keys;
      var t :| t in jobs && jobs[t].Adding? && jobs[t].key == k;
      var rest := map u | u in jobs && u != t :: jobs[u];
      forall j | j in keys - {k} ensures exists u :: u in rest && rest[u].Adding? && rest[u].key == j {
        var u :| u in jobs && jobs[u].Adding? && jobs[u].key == j;
        assert u in rest && rest[u].key == j;
      }
      ImageSize(rest, keys - {k});
      assert jobs.Keys == rest.Keys + {t};
      assert |jobs.Keys| == |rest.Keys| + 1;
    }
  }

  lemma FewAddedKeys(c: Config)
    ensures |AddedKeys(c)| <= |c.jobs|
  {
    forall k | k in AddedKeys(c) ensures exists t :: t in c.jobs && c.jobs[t].Adding? && c.jobs[t].key == k {
      var t :| t in c.jobs && Adder(c, t) && c.jobs[t].key == k;
    }
    ImageSize(c.jobs, AddedKeys(c));
  }

  /** Repaired, or when nothing is added, only keys that are added have entries. */
  ghost predicate OnlyAddedKeys(c: Config, m: Machine) {
    KeysAdded(c, m.store) && KeysAdded(c, m.base)
  }

  lemma OnlyAddedKeysStep(c: Config, m: Machine, a: Action)
    requires c.build == Repaired || !SomeAdd(c)
    requires ShapeInv(c, m) && OnlyAddedKeys(c, m) && Enabled(c, m, a)
    ensures OnlyAddedKeys(c, Apply(c, m, a))
  {
    assert PcFits(c.jobs[a.t], m.pc[a.t]);
    if a.Push? || a.Settle? {
      assert Adder(c, a.t);
      assert c.jobs[a.t].key in AddedKeys(c);
    }
  }

  lemma {:induction false} OnlyAddedKeysKept(c: Config, schedule: seq<Action>)
    requires c.build == Repaired || !SomeAdd(c)
    ensures OnlyAddedKeys(c, Execute(c, schedule))
  {
    if schedule == [] {
    } else {
      var m, a := Execute(c, schedule[..|schedule| - 1]), schedule[|schedule| - 1];
      OnlyAddedKeysKept(c, schedule[..|schedule| - 1]);
      ExecuteInv(c, schedule[..|schedule| - 1]);
      if Enabled(c, m, a) { OnlyAddedKeysStep(c, m, a); }
      hide OnlyAddedKeys, Apply, Enabled;
    }
  }

  /** Configurations in which no loop can run away. */
  ghost predicate Ends(c: Config) {
    c.build == Repaired || !SomeFlush(c) || !SomeAdd(c)
  }

  /** A loop has at most one visit per goroutine. */
  lemma LoopFits(c: Config, base: Store, done: seq<Visit>)
    requires (c.build == Repaired || !SomeAdd(c)) && KeysAdded(c, base) && RangePrefix(c.build, base, done)
    ensures |done| <= |c.jobs|
  {
    FewAddedKeys(c);
    if c.build == Repaired {
      RepairedRangeEnds(base, done);
      SubsetSize(base.queue.Keys, AddedKeys(c));
    } else {
      assert AddedKeys(c) == {};
      NothingToVisit(base, done);
    }
  }

  lemma RangingFits(c: Config, schedule: seq<Action>, a: Action)
    requires Ends(c) && Enabled(c, Execute(c, schedule), a) && Execute(c, schedule).pc[a.t].Ranging?
    ensures var done := Execute(c, schedule).pc[a.t].done;
            |done| <= |c.jobs| && (a.VisitKey? ==> |done| < |c.jobs|)
  {
    var m := Execute(c, schedule);
    ExecuteInv(c, schedule);
    assert PcFits(c.jobs[a.t], m.pc[a.t]) && InLock(m.pc[a.t]);
    assert SomeFlush(c);
    OnlyAddedKeysKept(c, schedule);
    var done := m.pc[a.t].done;
    LoopFits(c, m.base, done);
    if a.VisitKey? {
      VisitSnoc(c.build, m.base, done, a.visit);
      LoopFits(c, m.base, done + [a.visit]);
    }
    hide Execute, KeysAdded, RangePrefix, FlushAll;
  }

  lemma ActionUses(c: Config, m: Machine, a: Action)
    requires ShapeInv(c, m) && Enabled(c, m, a)
    requires m.pc[a.t].Ranging? ==>
               |m.pc[a.t].done| <= |c.jobs| && (a.VisitKey? ==> |m.pc[a.t].done| < |c.jobs|)
    ensures a.t in m.pc && a.t in Apply(c, m, a).pc && Apply(c, m, a).pc == m.pc[a.t := Apply(c, m, a).pc[a.t]]
    ensures Left(c, c.jobs[a.t], Apply(c, m, a).pc[a.t]) < Left(c, c.jobs[a.t], m.pc[a.t])
  {
    assert PcFits(c.jobs[a.t], m.pc[a.t]);
  }

  lemma LeftsUpdate(c: Config, m: Machine, m': Machine, t: Tid, n: nat)
    requires t in m.pc && t in c.jobs && t < n && t in m'.pc && m'.pc == m.pc[t := m'.pc[t]]
    requires Left(c, c.jobs[t], m'.pc[t]) < Left(c, c.jobs[t], m.pc[t])
    ensures Total(Lefts(c, m'), n) < Total(Lefts(c, m), n)
  {
    var v := Left(c, c.jobs[t], m'.pc[t]);
    TotalUpdate(Lefts(c, m), t, v, n);
    assert Lefts(c, m') == Lefts(c, m)[t := v];
    hide Left, Total;
  }

  /** Every action that happens uses up one of its goroutine's. */
  lemma StepUses(c: Config, schedule: seq<Action>, a: Action, n: nat)
    requires Ends(c) && (forall t | t in c.jobs :: t < n)
    requires Enabled(c, Execute(c, schedule), a)
    ensures var m := Execute(c, schedule);
            Total(Lefts(c, Apply(c, m, a)), n) < Total(Lefts(c, m), n)
  {
    var m := Execute(c, schedule);
    ExecuteInv(c, schedule);
    if m.pc[a.t].Ranging? { RangingFits(c, schedule, a); }
    ActionUses(c, m, a);
    assert a.t in c.jobs;
    hide Execute, Enabled, Apply, Inv, Left, Lefts;
    LeftsUpdate(c, m, Apply(c, m, a), a.t, n);
  }

  lemma {:induction false} TakenBounded(c: Config, schedule: seq<Action>, n: nat)
    requires Ends(c) && (forall t | t in c.jobs :: t < n)
    ensures Taken(c, schedule) + Total(Lefts(c, Execute(c, schedule)), n) <= Total(Lefts(c, Init(c)), n)
  {
    if schedule == [] {
    } else {
      var init, a := schedule[..|schedule| - 1], schedule[|schedule| - 1];
      TakenBounded(c, init, n);
      if Enabled(c, Execute(c, init), a) { StepUses(c, init, a, n); }
      hide Enabled, Apply, Lefts, Total;
    }
  }

  /** Any schedule that cannot be extended has every goroutine returned. */
  lemma StuckHasReturned(c: Config, schedule: seq<Action>, t: Tid)
    requires t in c.jobs && !CanStep(c, Execute(c, schedule))
    ensures At(Execute(c, schedule), t, Finished)
  {
    if !At(Execute(c, schedule), t, Finished) {
      NoDeadlock(c, schedule, t);
    }
  }

  // ---- runs that need not end ----

  lemma TakenSnoc(c: Config, schedule: seq<Action>, a: Action)
    requires Enabled(c, Execute(c, schedule), a)
    ensures Execute(c, schedule + [a]) == Apply(c, Execute(c, schedule), a)
    ensures Taken(c, schedule + [a]) == Taken(c, schedule) + 1
  {
    assert (schedule + [a])[..|schedule|] == schedule;
    hide Enabled, Apply;
  }

  /** One add, alone and not stored, up to its end. */
  lemma AddAlone(c: Config, u: Tid) returns (schedule: seq<Action>)
    requires Adder(c, u)
    ensures var m := Execute(c, schedule);
            && m.pc == Init(c).pc[u := Finished] && m.holder == Free && m.waitGroup == 0
            && m.store == m.base && c.jobs[u].key in m.store.queue
  {
    assert Execute(c, []) == Init(c);
    hide Execute;
    schedule := AddAfter(c, [], u);
    assert c.jobs[u].key in Execute(c, schedule).store.queue;
    schedule := AddFinishes(c, schedule, u);
    assert Execute(c, schedule).pc == Init(c).pc[u := Finished];
  }

  /** Then a flush takes the lock. */
  lemma FlushBegins(c: Config, u: Tid, t: Tid) returns (schedule: seq<Action>)
    requires Adder(c, u) && t in c.jobs && !c.jobs[t].Adding?
    ensures var m := Execute(c, schedule);
            && t in m.pc && m.pc[t] == Ranging([]) && m.holder == HeldBy(t) && m.store == m.base
            && m.base.queue != map[]
  {
    schedule := AddAlone(c, u);
    if c.jobs[t].Closing? {
      ExecuteSnoc(c, schedule, Wait(t));
      schedule := schedule + [Wait(t)];
    }
    ExecuteSnoc(c, schedule, Lock(t));
    schedule := schedule + [Lock(t)];
    hide Execute;
  }

  lemma RangePrefixInit(b: Build, s: Store, visits: seq<Visit>)
    requires RangePrefix(b, s, visits) && visits != []
    ensures var init, v := visits[..|visits| - 1], visits[|visits| - 1];
            RangePrefix(b, s, init) && v.key in FlushAll(b, s, init).queue && !Visits(init, v.key)
  {
    var init := visits[..|visits| - 1];
    forall i | 0 <= i < |init| ensures init[i].key in FlushAll(b, s, init[..i]).queue {
      assert init[..i] == visits[..i] && init[i] == visits[i];
    }
  }

  ghost function InLoop(c: Config, m: Machine, t: Tid, visits: seq<Visit>): Machine {
    m.(pc := m.pc[t := Ranging(visits)], store := FlushAll(c.build, m.base, visits))
  }

  lemma LoopStep(c: Config, m: Machine, t: Tid, init: seq<Visit>, v: Visit)
    requires t in c.jobs && v.key in FlushAll(c.build, m.base, init).queue && !Visits(init, v.key)
    ensures Enabled(c, InLoop(c, m, t, init), VisitKey(t, v))
    ensures Apply(c, InLoop(c, m, t, init), VisitKey(t, v)) == InLoop(c, m, t, init + [v])
  {
    var m1 := InLoop(c, m, t, init);
    assert FlushAll(c.build, m.base, init + [v]) == FlushKey(c.build, m1.store, v.key, v.outcome) by {
      assert (init + [v])[..|init|] == init;
    }
    assert m1.pc[t := Ranging(init + [v])] == m.pc[t := Ranging(init + [v])];
    hide FlushAll, FlushKey, Visits, Trigger, Operation;
  }

  /** The loop goes through any visits it may make. */
  lemma {:induction false} LoopGoes(c: Config, before: seq<Action>, t: Tid, visits: seq<Visit>)
    returns (schedule: seq<Action>)
    requires var m := Execute(c, before);
             && t in c.jobs && t in m.pc && m.pc[t] == Ranging([]) && m.store == m.base
             && RangePrefix(c.build, m.base, visits)
    ensures Taken(c, schedule) == Taken(c, before) + |visits|
    ensures Execute(c, schedule) == InLoop(c, Execute(c, before), t, visits)
  {
    hide Execute, Taken, RangePrefix, Enabled, Apply;
    var m := Execute(c, before);
    if visits == [] {
      schedule := before;
      assert m.pc[t := Ranging(visits)] == m.pc;
    } else {
      var init, v := visits[..|visits| - 1], visits[|visits| - 1];
      RangePrefixInit(c.build, m.base, visits);
      var s := LoopGoes(c, before, t, init);
      LoopStep(c, m, t, init, v);
      TakenSnoc(c, s, VisitKey(t, v));
      schedule := s + [VisitKey(t, v)];
      assert init + [v] == visits;
    }
  }

  lemma RunsAway(c: Config, u: Tid, t: Tid, n: nat) returns (schedule: seq<Action>)
    requires c.build == AsTyped && Adder(c, u) && t in c.jobs && !c.jobs[t].Adding?
    ensures Taken(c, schedule) >= n
  {
    var before := FlushBegins(c, u, t);
    var visits, k := LongRange(Execute(c, before).base, n);
    schedule := LoopGoes(c, before, t, visits);
    hide Execute, Taken, RangePrefix;
  }

  ghost predicate RunsWithin(c: Config, n: nat) {
    forall schedule :: Taken(c, schedule) <= n
  }

  /** The runs of a configuration are bounded in length exactly when it is the repaired build, or nothing
      flushes, or nothing is added. As typed a flush that stores a batch makes a new entry, and the loop
      may go on to it. */
  lemma RunsEnd(c: Config)
    ensures (exists n: nat :: RunsWithin(c, n)) <==> Ends(c)
  {
    if Ends(c) {
      var n := KeysBounded(c.jobs.Keys);
      forall schedule ensures Taken(c, schedule) <= Total(Lefts(c, Init(c)), n) {
        TakenBounded(c, schedule, n);
      }
      assert RunsWithin(c, Total(Lefts(c, Init(c)), n));
    } else {
      var u :| Adder(c, u);
      var t :| t in c.jobs && !c.jobs[t].Adding?;
      forall n: nat ensures !RunsWithin(c, n) {
        var schedule := RunsAway(c, u, t, n + 1);
      }
    }
    hide Taken, Total, Lefts;
  }
}
