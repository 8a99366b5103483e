/** What Close guarantees, and what it does not. */
module DeadLetterClose {
  import opened Builds
  import opened Text
  import opened Framing
  import opened DeadLetter
  import opened DeadLetterFlush
  import opened DeadLetterOffers
  import opened DeadLetterLocks
  import opened Bucket

  /** The items of the adds among some operations that pass validation, in order. */
  ghost function Items(events: seq<Event>): seq<(Key, Data)> {
    if events == [] then []
    else
      var last := events[|events| - 1];
      Items(events[..|events| - 1]) +
      if last.AddEvent? && Validate(last.key, last.data) == Accept then [(last.key, last.data)] else []
  }

  /** The queue accepts exactly the items of those adds. */
  lemma {:induction false} AcceptedAreItems(b: Build, size: int64, events: seq<Event>)
    ensures Run(b, size, events).accepted == Items(events)
  {
    if events == [] {
    } else {
      var init, last := events[..|events| - 1], events[|events| - 1];
      AcceptedAreItems(b, size, init);
      if last.FlushEvent? {
        FlushAllMeaning(b, Run(b, size, init), last.visits, "");
      }
    }
  }

  // ---- what Close's flush leaves ----

  /** The key's upload was tried and failed. */
  ghost predicate FailedVisit(visits: seq<Visit>, k: Key) {
    exists i :: 0 <= i < |visits| && visits[i].key == k && !visits[i].outcome.stored
  }

  /** After a flush that follows `before`, either S3 has taken everything added for the key, or the
      key's upload failed and its batch is still queued, whole. */
  ghost predicate DrainedBy(c: Config, before: seq<Event>, visits: seq<Visit>, k: Key) {
    var s := Run(c.build, c.size, before);
    var s' := Run(c.build, c.size, before + [FlushEvent(visits)]);
    || (Held(s', k) == [] && Received(s'.uploads, k) == Frame(AcceptedFor(Items(before), k)))
    || (Held(s', k) == Held(s, k) && FailedVisit(visits, k))
  }

  /** And the bucket still holds it. */
  ghost predicate KeptBy(c: Config, before: seq<Event>, visits: seq<Visit>, k: Key) {
    AllKept(Run(c.build, c.size, before + [FlushEvent(visits)]), k)
  }

  lemma FlushDrains(c: Config, before: seq<Event>, visits: seq<Visit>, k: Key)
    requires c.build == Repaired && Ranges(Repaired, Run(Repaired, c.size, before), visits)
    ensures DrainedBy(c, before, visits, k)
    ensures KeptBy(c, before, visits, k)
            <==> !Overwritten(Run(c.build, c.size, before + [FlushEvent(visits)]).uploads, k)
  {
    var s := Run(Repaired, c.size, before);
    var s' := FlushAll(Repaired, s, visits);
    RunSnoc(Repaired, c.size, before, FlushEvent(visits));
    FlushAllMeaning(Repaired, s, visits, k);
    History(c.size, before + [FlushEvent(visits)], k);
    KeptExactly(c.size, before + [FlushEvent(visits)], k);
    AcceptedAreItems(Repaired, c.size, before);
    hide FlushAll, Run, AllKept, Overwritten;
    if Held(s', k) == [] {
      var acc := AcceptedFor(s.accepted, k);
      assert acc[..|acc|] == acc;
    } else {
      assert k in s.queue && Visits(visits, k);
      var i :| 0 <= i < |visits| && visits[i].key == k;
      assert !visits[i].outcome.stored;
    }
  }

  /** As typed a flush drains a key exactly when nothing was ever added for it, or its upload failed
      and no other key's upload emptied its entry. */
  lemma TypedFlushDrains(c: Config, before: seq<Event>, visits: seq<Visit>, k: Key)
    requires c.build == AsTyped && Ranges(AsTyped, Run(AsTyped, c.size, before), visits)
    ensures DrainedBy(c, before, visits, k)
            <==> AcceptedFor(Items(before), k) == []
                 || (FailedVisit(visits, k)
                     && (Held(Run(AsTyped, c.size, before), k) == [] || !Emptied(AsTyped, visits, k)))
  {
    var s := Run(AsTyped, c.size, before);
    RunSnoc(AsTyped, c.size, before, FlushEvent(visits));
    FlushAllMeaning(AsTyped, s, visits, k);
    TypedStoresNothing(c.size, before + [FlushEvent(visits)], k);
    AcceptedAreItems(AsTyped, c.size, before);
    HeldWasAccepted(c.size, before + [FlushEvent(visits)], k);
    FrameSize(AcceptedFor(s.accepted, k));
    hide FlushAll, Run, Emptied, FailedVisit, AcceptedFor;
  }

  lemma TriggerShrinks(size: int64, s: Store, k: Key, o: Outcome, j: Key)
    ensures |Held(Trigger(AsTyped, size, s, k, o), j)| <= |Held(s, j)|
    ensures Trigger(AsTyped, size, s, k, o).accepted == s.accepted
  {
    FlushKeyMeaning(AsTyped, s, k, o, j);
    hide FlushKey;
  }

  /** As typed too, nothing is queued that was not accepted. */
  lemma {:induction false} HeldWasAccepted(size: int64, events: seq<Event>, k: Key)
    ensures |Held(Run(AsTyped, size, events), k)| <= |AcceptedFor(Run(AsTyped, size, events).accepted, k)|
  {
    if events == [] {
    } else {
      var init, last := events[..|events| - 1], events[|events| - 1];
      HeldWasAccepted(size, init, k);
      var s := Run(AsTyped, size, init);
      match last
      case AddEvent(j, d, o) =>
        AcceptedSnoc(s.accepted, (j, d), k);
        assert |Held(Append(s, j, d), k)| == |Held(s, k)| + if j == k then 1 else 0;
        TriggerShrinks(size, Append(s, j, d), j, o, k);
        hide Trigger, AcceptedFor;
      case FlushEvent(visits) =>
        FlushAllMeaning(AsTyped, s, visits, k);
        hide FlushAll, Emptied;
    }
  }

  // ---- where Close's flush stands in the log ----

  /** The closer's Lock step in the schedule, at which the log was what stands before its flush. */
  ghost predicate LockedAt(c: Config, schedule: seq<Action>, t: Tid, n: nat, log: seq<(Tid, Event)>) {
    n < |schedule| && schedule[n] == Lock(t) && Enabled(c, Execute(c, schedule[..n]), Lock(t))
    && Execute(c, schedule[..n]).log == log
  }

  lemma LockedAtStays(c: Config, schedule: seq<Action>, t: Tid, n: nat, log: seq<(Tid, Event)>)
    requires schedule != [] && LockedAt(c, schedule[..|schedule| - 1], t, n, log)
    ensures LockedAt(c, schedule, t, n, log)
  {
    var init := schedule[..|schedule| - 1];
    assert init[..n] == schedule[..n] && init[n] == schedule[n];
    hide Execute, Enabled;
  }

  /** While a goroutine has the lock, the log is what it was at its Lock step. */
  lemma {:induction false} HolderLocked(c: Config, schedule: seq<Action>, t: Tid) returns (n: nat)
    requires Execute(c, schedule).holder == HeldBy(t)
    ensures LockedAt(c, schedule, t, n, Execute(c, schedule).log)
  {
    var init, a := schedule[..|schedule| - 1], schedule[|schedule| - 1];
    var m := Execute(c, init);
    ExecuteInv(c, init);
    if Enabled(c, m, a) && a.Lock? {
      n := |init|;
    } else {
      assert Execute(c, schedule).log == m.log;
      n := HolderLocked(c, init, t);
      LockedAtStays(c, schedule, t, n, m.log);
    }
    hide Inv;
  }

  /** An operation in the log stands right after what the log was at its goroutine's Lock step. */
  lemma {:induction false} LoggedLocked(c: Config, schedule: seq<Action>, i: nat) returns (n: nat)
    requires i < |Execute(c, schedule).log|
    ensures LockedAt(c, schedule, Execute(c, schedule).log[i].0, n, Execute(c, schedule).log[..i])
  {
    var init, a := schedule[..|schedule| - 1], schedule[|schedule| - 1];
    var m, log := Execute(c, init), Execute(c, schedule).log;
    ExecuteInv(c, init);
    if i < |m.log| {
      assert log[..i] == m.log[..i] && log[i] == m.log[i];
      n := LoggedLocked(c, init, i);
    } else {
      assert a.Unlock? && log[..i] == m.log && m.holder == HeldBy(a.t);
      n := HolderLocked(c, init, a.t);
    }
    LockedAtStays(c, schedule, log[i].0, n, log[..i]);
    hide Inv;
  }

  lemma {:induction false} LoggedIndex(log: seq<(Tid, Event)>, t: Tid) returns (i: nat)
    requires Logged(log, t) > 0
    ensures i < |log| && log[i].0 == t
  {
    if log[|log| - 1].0 == t {
      i := |log| - 1;
    } else {
      i := LoggedIndex(log[..|log| - 1], t);
    }
  }

  /** Repaired, when a closer has returned, its flush stands in the log, right after what the log was
      when the closer took the lock. Every item added before that was taken by S3, or is still queued
      after a failed upload of its key; and what S3 took is still in the bucket exactly when no
      non-empty upload of the key was followed by another of it in the same second. */
  lemma CloseDrains(c: Config, schedule: seq<Action>, t: Tid) returns (i: nat, n: nat)
    requires c.build == Repaired && t in c.jobs && c.jobs[t].Closing?
    requires At(Execute(c, schedule), t, Finished)
    ensures var log := Execute(c, schedule).log;
            && i < |log| && log[i].0 == t && log[i].1.FlushEvent? && LockedAt(c, schedule, t, n, log[..i])
            && forall k :: DrainedBy(c, Events(log[..i]), log[i].1.visits, k)
                           && (KeptBy(c, Events(log[..i]), log[i].1.visits, k)
                               <==> !Overwritten(Run(c.build, c.size, Events(log[..i]) + [log[i].1]).uploads, k))
  {
    Refinement(c, schedule);
    var log := Execute(c, schedule).log;
    i := LoggedIndex(log, t);
    n := LoggedLocked(c, schedule, i);
    assert Genuine(c, log, i);
    forall k
      ensures DrainedBy(c, Events(log[..i]), log[i].1.visits, k)
      ensures KeptBy(c, Events(log[..i]), log[i].1.visits, k)
              <==> !Overwritten(Run(c.build, c.size, Events(log[..i]) + [log[i].1]).uploads, k)
    {
      FlushDrains(c, Events(log[..i]), log[i].1.visits, k);
    }
    hide DrainedBy, KeptBy, Overwritten, Execute, Run, LockedAt;
  }

  // ---- what was ever offered to S3 ----

  lemma {:induction false} EventsAt(log: seq<(Tid, Event)>, i: nat)
    requires i < |log|
    ensures |Events(log)| == |log| && Events(log)[i] == log[i].1 && Events(log)[..i] == Events(log[..i])
  {
    var n := |log| - 1;
    if i == n {
      if n > 0 { EventsAt(log[..n], 0); }
    } else {
      EventsAt(log[..n], i);
      assert log[..n][..i] == log[..i];
    }
  }

  /** Repaired, under every schedule an accepted item was handed to S3 exactly when a flush, Close's or
      another, follows its add in the log, or it or a later item of its key made the batch reach the
      queue size. */
  lemma ItemOffered(c: Config, schedule: seq<Action>, p: nat)
    requires c.build == Repaired && p < |Execute(c, schedule).log| && Execute(c, schedule).log[p].1.AddEvent?
    ensures var log := Execute(c, schedule).log;
            var events := Events(log);
            && |events| == |log| && events[p] == log[p].1
            && (Offered(c.size, events, p) <==>
                exists i :: p <= i < |log| && (log[i].1.FlushEvent? || Reaches(c.size, events, i, log[p].1.key)))
  {
    Refinement(c, schedule);
    var log := Execute(c, schedule).log;
    var events := Events(log);
    EventsAt(log, p);
    assert Genuine(c, log, p);
    OfferedExactly(c.size, events, p);
    forall i | 0 <= i < |log| ensures events[i] == log[i].1 && (Flushes(c.size, events, i) <==> log[i].1.FlushEvent?) {
      EventsAt(log, i);
      assert Genuine(c, log, i);
    }
    hide Offered, Reaches, Flushes, Execute, Genuine;
  }

  ghost predicate AllOffered(c: Config, log: seq<(Tid, Event)>) {
    forall p | 0 <= p < |log| && log[p].1.AddEvent? ::
      p < |Events(log)| && Events(log)[p].AddEvent? && Offered(c.size, Events(log), p)
  }

  /** A goroutine that adds an item the queue accepts. */
  ghost predicate Adder(c: Config, u: Tid) {
    u in c.jobs && c.jobs[u].Adding? && Validate(c.jobs[u].key, c.jobs[u].data) == Accept
  }

  lemma ExecuteSnoc(c: Config, schedule: seq<Action>, a: Action)
    requires Enabled(c, Execute(c, schedule), a)
    ensures Execute(c, schedule + [a]) == Apply(c, Execute(c, schedule), a)
  {
    assert (schedule + [a])[..|schedule|] == schedule;
  }

  /** Close runs to its end before anything else. */
  lemma CloseFirst(c: Config, t: Tid) returns (schedule: seq<Action>)
    requires t in c.jobs && c.jobs[t].Closing?
    ensures Execute(c, schedule) == Init(c).(pc := Init(c).pc[t := Finished], log := [(t, FlushEvent([]))])
  {
    schedule := [];
    ExecuteSnoc(c, schedule, Wait(t));
    schedule := schedule + [Wait(t)];
    ExecuteSnoc(c, schedule, Lock(t));
    schedule := schedule + [Lock(t)];
    ExecuteSnoc(c, schedule, Unlock(t));
    schedule := schedule + [Unlock(t)];
    assert Execute(c, schedule).pc == Init(c).pc[t := Finished];
    assert Execute(c, schedule).log == [(t, FlushEvent([]))];
    hide Execute;
  }

  /** An add that was waiting for the lock, up to its append. */
  lemma AddAfter(c: Config, before: seq<Action>, u: Tid) returns (schedule: seq<Action>)
    requires Adder(c, u)
    requires var m := Execute(c, before);
             u in m.pc && m.pc[u] == Begin && m.holder == Free && m.waitGroup == 0
    ensures var m := Execute(c, before);
            Execute(c, schedule)
            == m.(pc := m.pc[u := Added], holder := HeldBy(u), waitGroup := 1,
                  store := Append(m.store, c.jobs[u].key, c.jobs[u].data))
  {
    var m := Execute(c, before);
    ExecuteSnoc(c, before, Lock(u));
    schedule := before + [Lock(u)];
    ExecuteSnoc(c, schedule, Count(u));
    schedule := schedule + [Count(u)];
    ExecuteSnoc(c, schedule, Push(u));
    schedule := schedule + [Push(u)];
    assert Execute(c, schedule).pc == m.pc[u := Added];
    hide Execute;
  }

  lemma UnlockAndDone(c: Config, before: seq<Action>, u: Tid) returns (schedule: seq<Action>)
    requires Adder(c, u)
    requires var m := Execute(c, before); u in m.pc && m.pc[u] == Settled(FAILED) && m.waitGroup == 1
    ensures var m := Execute(c, before);
            Execute(c, schedule)
            == m.(pc := m.pc[u := Finished], holder := Free, waitGroup := 0, base := m.store,
                  log := m.log + [(u, AddEvent(c.jobs[u].key, c.jobs[u].data, FAILED))])
  {
    var m := Execute(c, before);
    ExecuteSnoc(c, before, Unlock(u));
    schedule := before + [Unlock(u)];
    ExecuteSnoc(c, schedule, Done(u));
    schedule := schedule + [Done(u)];
    assert Execute(c, schedule).pc == m.pc[u := Finished];
    hide Execute;
  }

  /** And on to its return; a flush that its size triggers fails. */
  lemma AddFinishes(c: Config, before: seq<Action>, u: Tid) returns (schedule: seq<Action>)
    requires Adder(c, u)
    requires var m := Execute(c, before); u in m.pc && m.pc[u] == Added && m.waitGroup == 1
    ensures var m, m' := Execute(c, before), Execute(c, schedule);
            && m'.pc == m.pc[u := Finished] && m'.holder == Free && m'.waitGroup == 0 && m'.base == m'.store
            && m'.store.queue == m.store.queue && m'.store.uploads == m.store.uploads
            && m'.log == m.log + [(u, AddEvent(c.jobs[u].key, c.jobs[u].data, FAILED))]
  {
    var m := Execute(c, before);
    ExecuteSnoc(c, before, Settle(u, FAILED));
    schedule := before + [Settle(u, FAILED)];
    var s := Execute(c, schedule).store;
    assert s.queue == m.store.queue && s.uploads == m.store.uploads;
    hide Execute, Enabled, Trigger;
    schedule := UnlockAndDone(c, schedule, u);
    assert Execute(c, schedule).pc == m.pc[u := Finished];
  }

  /** The wait group only counts an add that has the lock already: an add called before Close may
      append after Close's flush. */
  lemma LateAdd(c: Config, t: Tid, u: Tid) returns (schedule: seq<Action>)
    requires t in c.jobs && c.jobs[t].Closing? && Adder(c, u) && c.size > 1
    ensures var m := Execute(c, schedule);
            && At(m, t, Finished) && At(m, u, Finished) && Held(m.store, c.jobs[u].key) == [c.jobs[u].data]
            && m.store.uploads == []
            && m.log == [(t, FlushEvent([])), (u, AddEvent(c.jobs[u].key, c.jobs[u].data, FAILED))]
  {
    schedule := CloseFirst(c, t);
    hide Execute;
    schedule := AddAfter(c, schedule, u);
    assert Held(Execute(c, schedule).store, c.jobs[u].key) == [c.jobs[u].data];
    schedule := AddFinishes(c, schedule, u);
  }

  lemma LateAddNotOffered(c: Config, schedule: seq<Action>, t: Tid, u: Tid)
    requires c.build == Repaired && Adder(c, u) && c.size > 1
    requires Execute(c, schedule).log
             == [(t, FlushEvent([])), (u, AddEvent(c.jobs[u].key, c.jobs[u].data, FAILED))]
    ensures !AllOffered(c, Execute(c, schedule).log)
  {
    ItemOffered(c, schedule, 1);
    var log, k := Execute(c, schedule).log, c.jobs[u].key;
    var events := Events(log);
    EventsAt(log, 1);
    EventsAt(log, 0);
    Step(c.size, events, 0);
    assert events[..0] == [];
    assert Before(c.size, events, 1) == EMPTY;
    assert !Reaches(c.size, events, 1, k);
    hide Execute, Offered, Run;
  }

  /** Repaired, every schedule in which a closer has returned has handed every accepted item to S3
      exactly when nothing is added at all or the queue size lets every add flush. */
  lemma CloseOffersAll(c: Config, t: Tid)
    requires c.build == Repaired && t in c.jobs && c.jobs[t].Closing?
    ensures (forall schedule | At(Execute(c, schedule), t, Finished) :: AllOffered(c, Execute(c, schedule).log))
            <==> c.size <= 1 || !exists u :: Adder(c, u)
  {
    if u :| Adder(c, u) && c.size > 1 {
      var schedule := LateAdd(c, t, u);
      LateAddNotOffered(c, schedule, t, u);
    } else {
      forall schedule ensures AllOffered(c, Execute(c, schedule).log) {
        SmallQueueOffers(c, schedule);
      }
    }
    hide AllOffered, Execute;
  }

  lemma SmallQueueOffers(c: Config, schedule: seq<Action>)
    requires c.build == Repaired && (c.size <= 1 || !exists u :: Adder(c, u))
    ensures AllOffered(c, Execute(c, schedule).log)
  {
    Refinement(c, schedule);
    var log := Execute(c, schedule).log;
    forall p | 0 <= p < |log| && log[p].1.AddEvent?
      ensures p < |Events(log)| && Events(log)[p].AddEvent? && Offered(c.size, Events(log), p)
    {
      assert Genuine(c, log, p);
      assert Adder(c, log[p].0);
      ItemOffered(c, schedule, p);
      assert Reaches(c.size, Events(log), p, log[p].1.key);
    }
    hide Execute, Offered;
  }
}
