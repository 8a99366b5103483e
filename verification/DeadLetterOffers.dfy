/** Which accepted items were ever handed to S3, stored or not. Repaired build. */
module DeadLetterOffers {
  import opened Builds
  import opened Text
  import opened Framing
  import opened DeadLetter
  import opened DeadLetterFlush

  ghost function Before(size: int64, events: seq<Event>, i: nat): Store
    requires i <= |events|
  {
    Run(Repaired, size, events[..i])
  }

  lemma Step(size: int64, events: seq<Event>, i: nat)
    requires i < |events|
    ensures Before(size, events, i + 1) == Next(Repaired, size, Before(size, events, i), events[i])
  {
    RunSnoc(Repaired, size, events[..i], events[i]);
    assert events[..i + 1] == events[..i] + [events[i]];
  }

  /** The add of an item that the queue accepts. */
  predicate Adds(e: Event, k: Key) {
    e.AddEvent? && e.key == k && Validate(k, e.data) == Accept
  }

  /** An add of the key makes its batch reach the queue size. */
  ghost predicate Reaches(size: int64, events: seq<Event>, i: nat, k: Key)
    requires i < |events|
  {
    Adds(events[i], k) && |Held(Before(size, events, i), k)| + 1 >= size
  }

  ghost predicate Flushes(size: int64, events: seq<Event>, i: nat)
    requires i < |events|
  {
    events[i].FlushEvent? && Ranges(Repaired, Before(size, events, i), events[i].visits)
  }

  /** The operation hands the key's batch to S3. */
  ghost predicate Offers(size: int64, events: seq<Event>, i: nat, k: Key)
    requires i < |events|
  {
    Reaches(size, events, i, k) || (Flushes(size, events, i) && Visits(events[i].visits, k))
  }

  /** What was accepted for the key when its batch is handed over, and that batch. */
  ghost function AcceptedThen(size: int64, events: seq<Event>, i: nat, k: Key): seq<Data>
    requires i < |events|
  {
    AcceptedFor(Before(size, events, i).accepted, k) + if Adds(events[i], k) then [events[i].data] else []
  }

  ghost function Handed(size: int64, events: seq<Event>, i: nat, k: Key): seq<Data>
    requires i < |events|
  {
    Held(Before(size, events, i), k) + if Adds(events[i], k) then [events[i].data] else []
  }

  /** The place of an added item among all that were accepted for its key. */
  ghost function Place(size: int64, events: seq<Event>, p: nat): nat
    requires p < |events| && events[p].AddEvent?
  {
    |AcceptedFor(Before(size, events, p).accepted, events[p].key)|
  }

  /** The batch handed over is the end of what was accepted, and the item is in it. */
  ghost predicate HandsOver(size: int64, events: seq<Event>, i: nat, p: nat)
    requires i < |events| && p < |events| && events[p].AddEvent?
  {
    var k := events[p].key;
    var accepted, batch, place := AcceptedThen(size, events, i, k), Handed(size, events, i, k), Place(size, events, p);
    && Offers(size, events, i, k)
    && |batch| <= |accepted| && batch == accepted[|accepted| - |batch|..]
    && |accepted| - |batch| <= place < |accepted| && accepted[place] == events[p].data
  }

  /** Some operation from the item's add on handed it to S3. */
  ghost predicate Offered(size: int64, events: seq<Event>, p: nat)
    requires p < |events| && events[p].AddEvent?
  {
    exists i :: p <= i < |events| && HandsOver(size, events, i, p)
  }

  // ---- a batch stays until it is offered ----

  lemma TriggerOther(size: int64, s: Store, k: Key, o: Outcome, j: Key)
    requires j != k || |Held(s, k)| < size
    ensures Held(Trigger(Repaired, size, s, k, o), j) == Held(s, j)
    ensures Trigger(Repaired, size, s, k, o).accepted == s.accepted
  {
  }

  /** An operation that does not offer the key's batch only appends to it what is accepted. */
  lemma Untouched(size: int64, events: seq<Event>, i: nat, k: Key)
    requires i < |events| && !Offers(size, events, i, k)
    ensures Held(Before(size, events, i + 1), k) == Handed(size, events, i, k)
  {
    Step(size, events, i);
    var s := Before(size, events, i);
    match events[i]
    case AddEvent(j, d, o) =>
      if Validate(j, d) == Accept { TriggerOther(size, Append(s, j, d), j, o, k); }
    case FlushEvent(visits) =>
      if Flushes(size, events, i) {
        FlushAllMeaning(Repaired, s, visits, k);
        EmptiedIsVisited(visits, k);
      }
  }

  lemma EmptiedIsVisited(visits: seq<Visit>, k: Key)
    ensures Emptied(Repaired, visits, k) ==> Visits(visits, k)
  {
  }

  lemma AcceptedAfter(size: int64, events: seq<Event>, i: nat, k: Key)
    requires i < |events|
    ensures AcceptedFor(Before(size, events, i + 1).accepted, k) == AcceptedThen(size, events, i, k)
  {
    Step(size, events, i);
    var s := Before(size, events, i);
    match events[i]
    case AddEvent(j, d, o) =>
      if Validate(j, d) == Accept {
        AddAccepts(Repaired, size, s, j, d, o);
        AcceptedSnoc(s.accepted, (j, d), k);
      }
    case FlushEvent(visits) => FlushAllMeaning(Repaired, s, visits, k);
  }

  /** How many of the key's accepted items are gone from the queue. */
  ghost function Gone(size: int64, events: seq<Event>, i: nat, k: Key): int
    requires i <= |events|
  {
    Drained(Before(size, events, i), k)
  }

  lemma GoneStays(size: int64, events: seq<Event>, i: nat, k: Key)
    requires i < |events| && !Offers(size, events, i, k)
    ensures Gone(size, events, i + 1, k) == Gone(size, events, i, k)
  {
    Untouched(size, events, i, k);
    AcceptedAfter(size, events, i, k);
    hide Before, Offers, AcceptedFor, Held;
  }

  /** While nothing offers the key's batch, the item stays where it is. */
  lemma {:induction false} Stays(size: int64, events: seq<Event>, p: nat, i: nat)
    requires p < i <= |events| && events[p].AddEvent? && Adds(events[p], events[p].key)
    requires forall j | p <= j < i :: !Offers(size, events, j, events[p].key)
    ensures Gone(size, events, i, events[p].key) <= Place(size, events, p)
  {
    GoneStays(size, events, i - 1, events[p].key);
    if i == p + 1 {
    } else {
      Stays(size, events, p, i - 1);
      hide Gone;
    }
    hide Before, Offers, AcceptedFor, Held;
  }

  /** Accepted items keep their places. */
  lemma {:induction false} KeepsPlace(size: int64, events: seq<Event>, p: nat, i: nat)
    requires p <= i < |events| && events[p].AddEvent? && Adds(events[p], events[p].key)
    ensures var accepted := AcceptedThen(size, events, i, events[p].key);
            Place(size, events, p) < |accepted| && accepted[Place(size, events, p)] == events[p].data
  {
    if i == p {
    } else {
      KeepsPlace(size, events, p, i - 1);
      AcceptedAfter(size, events, i - 1, events[p].key);
    }
    hide Run, AcceptedFor;
  }

  /** A batch that is handed over is the end of what was accepted. */
  lemma HandedIsEnd(size: int64, events: seq<Event>, i: nat, k: Key)
    requires i < |events|
    ensures var accepted, batch := AcceptedThen(size, events, i, k), Handed(size, events, i, k);
            && |batch| <= |accepted| && batch == accepted[|accepted| - |batch|..]
            && |accepted| - |batch| == Gone(size, events, i, k)
  {
    History(size, events[..i], k);
    var s := Before(size, events, i);
    var acc := AcceptedFor(s.accepted, k);
    assert Held(s, k) == acc[|acc| - |Held(s, k)|..];
    hide Run, AcceptedFor, Held;
  }

  /** The first operation that offers the key's batch hands the item over. */
  lemma FirstHandsOver(size: int64, events: seq<Event>, p: nat, i: nat)
    requires p <= i < |events| && events[p].AddEvent? && Adds(events[p], events[p].key)
    requires Offers(size, events, i, events[p].key)
    requires forall j | p <= j < i :: !Offers(size, events, j, events[p].key)
    ensures HandsOver(size, events, i, p)
  {
    HandedIsEnd(size, events, i, events[p].key);
    if p < i {
      Stays(size, events, p, i);
    } else {
      assert Gone(size, events, i, events[p].key) <= Place(size, events, p);
    }
    KeepsPlace(size, events, p, i);
    hide Offers, Gone, AcceptedThen, Handed, Place, Adds;
  }

  lemma {:induction false} FirstOffer(size: int64, events: seq<Event>, p: nat, i: nat, k: Key) returns (first: nat)
    requires p <= i < |events| && Offers(size, events, i, k)
    ensures p <= first <= i && Offers(size, events, first, k)
    ensures forall j | p <= j < first :: !Offers(size, events, j, k)
    decreases i - p
  {
    if j :| p <= j < i && Offers(size, events, j, k) {
      first := FirstOffer(size, events, p, j, k);
    } else {
      first := i;
    }
    hide Offers;
  }

  /** Once added, a key has an entry, so every flush visits it. */
  lemma {:induction false} EntryStays(size: int64, events: seq<Event>, p: nat, i: nat)
    requires p < i <= |events| && events[p].AddEvent? && Adds(events[p], events[p].key)
    ensures events[p].key in Before(size, events, i).queue
  {
    var k := events[p].key;
    Step(size, events, i - 1);
    if i == p + 1 {
    } else {
      EntryStays(size, events, p, i - 1);
      if events[i - 1].FlushEvent? {
        FlushAllMeaning(Repaired, Before(size, events, i - 1), events[i - 1].visits, k);
      }
    }
    hide Run, FlushAll;
  }

  /** Repaired, in every run an accepted item was handed to S3 exactly when a flush comes after its
      add, or it or a later item of its key makes the batch reach the queue size. */
  lemma OfferedExactly(size: int64, events: seq<Event>, p: nat)
    requires p < |events| && events[p].AddEvent? && Adds(events[p], events[p].key)
    ensures Offered(size, events, p) <==>
            exists i :: p <= i < |events| && (Flushes(size, events, i) || Reaches(size, events, i, events[p].key))
  {
    var k := events[p].key;
    if i :| p <= i < |events| && (Flushes(size, events, i) || Reaches(size, events, i, k)) {
      if Flushes(size, events, i) { EntryStays(size, events, p, i); }
      assert Offers(size, events, i, k);
      var first := FirstOffer(size, events, p, i, k);
      FirstHandsOver(size, events, p, first);
    }
    hide Flushes, Reaches;
  }

  lemma AddUploads(size: int64, s: Store, k: Key, d: Data, o: Outcome)
    requires Validate(k, d) == Accept && |Held(s, k)| + 1 >= size && o.stored
    ensures UploadOf(Repaired, k, o.now, Held(s, k) + [d]) in Add(Repaired, size, s, k, d, o).uploads
  {
    var s1 := Append(s, k, d);
    assert Held(s1, k) == Held(s, k) + [d];
    assert Trigger(Repaired, size, s1, k, o) == FlushKey(Repaired, s1, k, o);
    hide Append, UploadOf, Held;
  }

  lemma FlushUploads(s: Store, visits: seq<Visit>, v: Visit)
    requires Ranges(Repaired, s, visits) && v in visits && v.outcome.stored
    ensures UploadOf(Repaired, v.key, v.outcome.now, Held(s, v.key)) in FlushAll(Repaired, s, visits).uploads
  {
    FlushAllUploads(s, visits);
    StoredIsUploaded(s, visits, v);
    hide FlushAll, UploadOf, UploadsOf;
  }

  /** What is handed over is what S3 gets if it takes it. */
  lemma HandedIsUploaded(size: int64, events: seq<Event>, i: nat, k: Key, o: Outcome)
    requires i < |events| && Offers(size, events, i, k) && o.stored
    requires if events[i].AddEvent? then events[i].outcome == o else Visit(k, o) in events[i].visits
    ensures UploadOf(Repaired, k, o.now, Handed(size, events, i, k)) in Before(size, events, i + 1).uploads
  {
    Step(size, events, i);
    var s := Before(size, events, i);
    hide Before, UploadOf, Held, FlushAll, Add;
    match events[i]
    case AddEvent(_, d, _) => AddUploads(size, s, k, d, o);
    case FlushEvent(visits) =>
      assert Held(s, k) + [] == Held(s, k);
      FlushUploads(s, visits, Visit(k, o));
  }

  lemma {:induction false} StoredIsUploaded(s: Store, visits: seq<Visit>, v: Visit)
    requires v in visits && v.outcome.stored
    ensures UploadOf(Repaired, v.key, v.outcome.now, Held(s, v.key)) in UploadsOf(s, visits)
  {
    if visits[|visits| - 1] == v {
    } else {
      StoredIsUploaded(s, visits[..|visits| - 1], v);
    }
  }
}
