/** How long a batch of dead letters gets. */
module DeadLetterBound {
  import opened Builds
  import opened Text
  import opened Framing
  import opened DeadLetter

  /** By how much a length reaches past the last one that does not trigger a flush. */
  function Excess(size: int64, length: nat): nat {
    var limit := if size > 1 then size - 1 else 0;
    if length > limit then length - limit else 0
  }

  predicate BoundedAt(size: int64, s: Store, k: Key) {
    Failures(s, k) == Excess(size, |Held(s, k)|)
  }

  ghost predicate Bounded(size: int64, s: Store) {
    forall k :: BoundedAt(size, s, k)
  }

  lemma BoundedFlushKey(size: int64, s: Store, k: Key, o: Outcome)
    requires Bounded(size, s)
    ensures Bounded(size, FlushKey(Repaired, s, k, o))
  {
    var s' := FlushKey(Repaired, s, k, o);
    forall j ensures BoundedAt(size, s', j) {
      assert BoundedAt(size, s, j);
    }
  }

  lemma {:induction false} BoundedFlushAll(size: int64, s: Store, visits: seq<Visit>)
    requires Bounded(size, s)
    ensures Bounded(size, FlushAll(Repaired, s, visits))
  {
    if visits == [] {
    } else {
      var init, last := visits[..|visits| - 1], visits[|visits| - 1];
      BoundedFlushAll(size, s, init);
      BoundedFlushKey(size, FlushAll(Repaired, s, init), last.key, last.outcome);
    }
  }

  lemma BoundedTrigger(size: int64, s: Store, k: Key, o: Outcome, j: Key)
    requires |Held(s, j)| > 0 || j != k
    requires Failures(s, j) == Excess(size, if j == k then |Held(s, k)| - 1 else |Held(s, j)|)
    ensures var s' := Trigger(Repaired, size, s, k, o);
            Failures(s', j) == Excess(size, |Held(s', j)|)
  {
    hide UploadOf;
  }

  lemma BoundedAdd(size: int64, s: Store, k: Key, d: Data, o: Outcome)
    requires Bounded(size, s)
    ensures Bounded(size, Add(Repaired, size, s, k, d, o))
  {
    var s1 := Append(s, k, d);
    var s' := Add(Repaired, size, s, k, d, o);
    forall j ensures BoundedAt(size, s', j) {
      assert BoundedAt(size, s, j);
      assert |Held(s1, j)| == |Held(s, j)| + (if j == k then 1 else 0) && Failures(s1, j) == Failures(s, j);
      hide Append, Trigger;
      if Validate(k, d) == Accept { BoundedTrigger(size, s1, k, o, j); }
    }
  }

  /** Repaired, in every run a key holds more than queueSize - 1 items by exactly the number of
      its size-triggered flushes that failed since its last stored one. */
  lemma {:induction false} QueueBound(size: int64, events: seq<Event>)
    ensures Bounded(size, Run(Repaired, size, events))
  {
    if events == [] {
    } else {
      var init, last := events[..|events| - 1], events[|events| - 1];
      QueueBound(size, init);
      var s := Run(Repaired, size, init);
      match last
      case AddEvent(k, d, o) => BoundedAdd(size, s, k, d, o);
      case FlushEvent(visits) => BoundedFlushAll(size, s, visits);
    }
  }

  /** Every flush that a size triggers in the run is stored. */
  ghost predicate AddsStored(events: seq<Event>) {
    forall i | 0 <= i < |events| && events[i].AddEvent? :: events[i].outcome.stored
  }

  lemma {:induction false} NoFailures(size: int64, events: seq<Event>, k: Key)
    requires AddsStored(events)
    ensures Failures(Run(Repaired, size, events), k) == 0
  {
    if events == [] {
    } else {
      var init, last := events[..|events| - 1], events[|events| - 1];
      NoFailures(size, init, k);
      match last
      case AddEvent(_, _, _) =>
      case FlushEvent(visits) => NoFailuresInFlush(Run(Repaired, size, init), visits, k);
    }
  }

  lemma {:induction false} NoFailuresInFlush(s: Store, visits: seq<Visit>, k: Key)
    requires Failures(s, k) == 0
    ensures Failures(FlushAll(Repaired, s, visits), k) == 0
  {
    if visits == [] {
    } else {
      NoFailuresInFlush(s, visits[..|visits| - 1], k);
    }
  }

  /** Repaired, when no size-triggered flush fails, every key stays below the queue size. */
  lemma NeverFull(size: int64, events: seq<Event>, k: Key)
    requires size > 0 && AddsStored(events)
    ensures |Held(Run(Repaired, size, events), k)| < size
  {
    QueueBound(size, events);
    assert BoundedAt(size, Run(Repaired, size, events), k);
    NoFailures(size, events, k);
  }

  // ---- as typed ----

  /** As typed a key that is no object name stays below the queue size exactly until that many items
      were ever accepted for it. */
  lemma TypedQueueBound(size: int64, events: seq<Event>, k: Key)
    requires !IsObjectName(k)
    ensures var s := Run(AsTyped, size, events);
            |Held(s, k)| < size <==> |AcceptedFor(s.accepted, k)| < size
  {
    TypedRun(size, events);
  }

  /** Only adds of one key, every flush they trigger stored. */
  lemma {:induction false} StoredAdds(size: int64, k: Key, n: nat) returns (events: seq<Event>)
    requires ValidKey(k)
    ensures var s := Run(AsTyped, size, events);
            AddsStored(events) && |Held(s, k)| == n && Failures(s, k) == 0
  {
    if n == 0 {
      events := [];
    } else {
      var init := StoredAdds(size, k, n - 1);
      var add := AddEvent(k, [0], Outcome(true, 0));
      RunSnoc(AsTyped, size, init, add);
      assert |ObjectName(k, 0)| > |k|;
      events := init + [add];
    }
  }

  /** As typed neither bound holds in every run of any key that can be queued at all: not that a key
      stays below the queue size while no size-triggered flush fails, */
  lemma TypedNeverFull(size: int64, k: Key)
    requires size > 0
    ensures (forall events | AddsStored(events) :: |Held(Run(AsTyped, size, events), k)| < size) <==> !ValidKey(k)
  {
    if ValidKey(k) {
      var events := StoredAdds(size, k, size);
      assert |Held(Run(AsTyped, size, events), k)| == size;
    } else {
      forall events | AddsStored(events) ensures |Held(Run(AsTyped, size, events), k)| < size {
        TypedRun(size, events);
      }
    }
  }

  /** nor that it is over by the failures counted. */
  lemma TypedBound(size: int64, k: Key)
    ensures (forall events :: BoundedAt(size, Run(AsTyped, size, events), k)) <==> !ValidKey(k)
  {
    if ValidKey(k) {
      var n := if size > 1 then size else 1;
      var events := StoredAdds(size, k, n);
      assert !BoundedAt(size, Run(AsTyped, size, events), k);
    } else {
      forall events ensures BoundedAt(size, Run(AsTyped, size, events), k) {
        TypedRun(size, events);
      }
    }
  }
}
