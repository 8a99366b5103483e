/** The dead letter queue as a value: batches by key, and the ledger of what went in and out. */
module DeadLetter {
  import opened Builds
  import opened Text
  import opened Framing

  type Key = string
  type Queue = map<Key, seq<Data>>

  /** One object S3 took, with the counts the client adds to its metrics for it. */
  datatype Upload = Upload(key: Key, now: int64, body: Data, count: nat, size: nat)

  function NameOf(u: Upload): string {
    ObjectName(u.key, u.now)
  }

  /** What an attempt to store an object meets: whether S3 takes it, and the clock. */
  datatype Outcome = Outcome(stored: bool, now: int64)

  /** `accepted` lists what entered the queue, in order; `sizeFailures` counts for each key
      the flushes that its size triggered and that failed, since its last stored flush. */
  datatype Store = Store(queue: Queue, accepted: seq<(Key, Data)>, uploads: seq<Upload>,
                         sizeFailures: map<Key, nat>)

  const EMPTY := Store(map[], [], [], map[])

  function Held(s: Store, k: Key): seq<Data> {
    if k in s.queue then s.queue[k] else []
  }

  function Failures(s: Store, k: Key): nat {
    if k in s.sizeFailures then s.sizeFailures[k] else 0
  }

  // ---- operations ----

  datatype Verdict = Accept | Ignore | Reject

  /** An empty key or a key without a slash is an error; no data is silently nothing to do. */
  function Validate(key: Key, data: Data): Verdict {
    if |key| == 0 then Reject
    else if |data| == 0 then Ignore
    else if '/' !in key then Reject
    else Accept
  }

  /** The bytes handed to S3. As typed they are the slice the buffer was made from, which
      stays empty whatever is written to the buffer. */
  function Body(b: Build, batch: seq<Data>): Data {
    match b
    case AsTyped => []
    case Repaired => Frame(batch)
  }

  /** The entry emptied by a stored flush. As typed the key has by then been overwritten
      with the object's name. */
  function ClearedKey(b: Build, k: Key, now: int64): Key {
    match b
    case AsTyped => ObjectName(k, now)
    case Repaired => k
  }

  function UploadOf(b: Build, k: Key, now: int64, batch: seq<Data>): Upload {
    Upload(k, now, Body(b, batch), |batch|, |Frame(batch)|)
  }

  function FlushKey(b: Build, s: Store, k: Key, o: Outcome): Store {
    if !o.stored then s
    else
      var batch := Held(s, k);
      Store(s.queue[ClearedKey(b, k, o.now) := []],
            s.accepted,
            s.uploads + [UploadOf(b, k, o.now, batch)],
            s.sizeFailures[k := 0])
  }

  function Append(s: Store, k: Key, d: Data): Store {
    s.(queue := s.queue[k := Held(s, k) + [d]], accepted := s.accepted + [(k, d)])
  }

  /** The size trigger, on a state whose item is already appended: flush the key when it has reached
      the queue size. */
  function Trigger(b: Build, size: int64, s: Store, k: Key, o: Outcome): Store {
    if |Held(s, k)| < size then s
    else if o.stored then FlushKey(b, s, k, o)
    else s.(sizeFailures := s.sizeFailures[k := Failures(s, k) + 1])
  }

  /** AddToQueue. */
  function Add(b: Build, size: int64, s: Store, k: Key, d: Data, o: Outcome): Store {
    if Validate(k, d) != Accept then s
    else Trigger(b, size, Append(s, k, d), k, o)
  }

  /** One step of Flush's loop over the map. */
  datatype Visit = Visit(key: Key, outcome: Outcome)

  function FlushAll(b: Build, s: Store, visits: seq<Visit>): Store {
    if visits == [] then s
    else
      var last := visits[|visits| - 1];
      FlushKey(b, FlushAll(b, s, visits[..|visits| - 1]), last.key, last.outcome)
  }

  lemma FlushAllStep(b: Build, s: Store, visits: seq<Visit>, i: nat)
    requires i < |visits|
    ensures FlushAll(b, s, visits[..i + 1])
            == FlushKey(b, FlushAll(b, s, visits[..i]), visits[i].key, visits[i].outcome)
    ensures Errors(visits[..i + 1])
            == Errors(visits[..i]) + if visits[i].outcome.stored then [] else [visits[i].key]
  {
    assert visits[..i + 1][..i] == visits[..i];
  }

  /** The keys whose upload failed, in the order they were visited. */
  function Errors(visits: seq<Visit>): (keys: seq<Key>)
    ensures keys == [] <==> forall i | 0 <= i < |visits| :: visits[i].outcome.stored
    ensures forall k :: k in keys <==> exists i :: 0 <= i < |visits| && visits[i].key == k && !visits[i].outcome.stored
  {
    if visits == [] then []
    else
      var last := visits[|visits| - 1];
      Errors(visits[..|visits| - 1]) + if last.outcome.stored then [] else [last.key]
  }

  ghost predicate Visits(visits: seq<Visit>, k: Key) {
    exists i :: 0 <= i < |visits| && visits[i].key == k
  }

  /** What Go promises of `range` over a map that grows meanwhile: no entry twice, every entry
      that was there at the start, and of the entries made meanwhile any or none. */
  ghost predicate RangePrefix(b: Build, s: Store, visits: seq<Visit>) {
    && (forall i, j | 0 <= i < j < |visits| :: visits[i].key != visits[j].key)
    && (forall i | 0 <= i < |visits| :: visits[i].key in FlushAll(b, s, visits[..i]).queue)
  }

  ghost predicate Ranges(b: Build, s: Store, visits: seq<Visit>) {
    RangePrefix(b, s, visits) && forall k | k in s.queue :: Visits(visits, k)
  }

  // ---- runs ----

  datatype Event =
    | AddEvent(key: Key, data: Data, outcome: Outcome)
    | FlushEvent(visits: seq<Visit>)

  /** A flush that is not an iteration of the map is no event of the client and changes nothing. */
  ghost function Next(b: Build, size: int64, s: Store, e: Event): Store {
    match e
    case AddEvent(k, d, o) => Add(b, size, s, k, d, o)
    case FlushEvent(visits) => if Ranges(b, s, visits) then FlushAll(b, s, visits) else s
  }

  ghost function Run(b: Build, size: int64, events: seq<Event>): Store {
    if events == [] then EMPTY
    else Next(b, size, Run(b, size, events[..|events| - 1]), events[|events| - 1])
  }

  lemma RunSnoc(b: Build, size: int64, events: seq<Event>, e: Event)
    ensures Run(b, size, events + [e]) == Next(b, size, Run(b, size, events), e)
  {
    assert (events + [e])[..|events|] == events;
  }

  /** What was accepted for one key, in acceptance order. */
  function AcceptedFor(log: seq<(Key, Data)>, k: Key): seq<Data> {
    if log == [] then []
    else
      var last := log[|log| - 1];
      AcceptedFor(log[..|log| - 1], k) + if last.0 == k then [last.1] else []
  }

  /** Every byte S3 took for one key, in the order it took them. What of it the bucket still holds is
      said in Bucket. */
  function Received(uploads: seq<Upload>, k: Key): Data {
    if uploads == [] then []
    else
      var last := uploads[|uploads| - 1];
      Received(uploads[..|uploads| - 1], k) + if last.key == k then last.body else []
  }

  lemma AcceptedSnoc(log: seq<(Key, Data)>, x: (Key, Data), k: Key)
    ensures AcceptedFor(log + [x], k) == AcceptedFor(log, k) + if x.0 == k then [x.1] else []
  {
    assert (log + [x])[..|log|] == log;
  }

  lemma ReceivedSnoc(uploads: seq<Upload>, u: Upload, k: Key)
    ensures Received(uploads + [u], k) == Received(uploads, k) + if u.key == k then u.body else []
  {
    assert (uploads + [u])[..|uploads|] == uploads;
  }

  lemma AddAccepts(b: Build, size: int64, s: Store, k: Key, d: Data, o: Outcome)
    requires Validate(k, d) == Accept
    ensures Add(b, size, s, k, d, o).accepted == s.accepted + [(k, d)]
  {
  }

  // ---- conservation: every accepted byte was taken by S3 or is in the queue, in order ----

  /** How many of the accepted items of a key have left the queue. */
  function Drained(s: Store, k: Key): int {
    |AcceptedFor(s.accepted, k)| - |Held(s, k)|
  }

  /** The queue holds the newest accepted items of the key. */
  ghost predicate HoldsNewest(s: Store, k: Key) {
    Drained(s, k) >= 0 && Held(s, k) == AcceptedFor(s.accepted, k)[Drained(s, k)..]
  }

  /** The items that left the queue are exactly what S3 took, framed, in order. */
  ghost predicate Conserved(s: Store, k: Key) {
    HoldsNewest(s, k) && Received(s.uploads, k) == Frame(AcceptedFor(s.accepted, k)[..Drained(s, k)])
  }

  lemma ConservedAppend(s: Store, k: Key, d: Data, j: Key)
    requires HoldsNewest(s, j)
    ensures HoldsNewest(Append(s, k, d), j)
    ensures Drained(Append(s, k, d), j) == Drained(s, j)
    ensures Conserved(s, j) ==> Conserved(Append(s, k, d), j)
  {
    AcceptedSnoc(s.accepted, (k, d), j);
    var s', acc := Append(s, k, d), AcceptedFor(s.accepted, j);
    var m := Drained(s, j);
    assert AcceptedFor(s'.accepted, j)[..m] == acc[..m];
  }

  lemma FlushKeyMeaning(b: Build, s: Store, k: Key, o: Outcome, j: Key)
    ensures var s' := FlushKey(b, s, k, o);
            && Held(s', j) == (if o.stored && ClearedKey(b, k, o.now) == j then [] else Held(s, j))
            && s'.accepted == s.accepted
            && Received(s'.uploads, j) == Received(s.uploads, j)
                 + (if o.stored && j == k then Body(b, Held(s, k)) else [])
  {
    if o.stored {
      ReceivedSnoc(s.uploads, FlushKey(b, s, k, o).uploads[|s.uploads|], j);
    }
  }

  lemma FrameRest(acc: seq<Data>, m: nat)
    requires m <= |acc|
    ensures Frame(acc[..m]) + Frame(acc[m..]) == Frame(acc)
  {
    assert acc[..m] + acc[m..] == acc;
    FrameAppend(acc[..m], acc[m..]);
    hide Frame;
  }

  lemma ConservedWhenEmpty(s: Store, k: Key)
    requires Held(s, k) == [] && Received(s.uploads, k) == Frame(AcceptedFor(s.accepted, k))
    ensures Conserved(s, k)
  {
    var acc := AcceptedFor(s.accepted, k);
    assert acc[..|acc|] == acc && acc[|acc|..] == [];
  }

  lemma ConservedFlushKey(s: Store, k: Key, o: Outcome, j: Key)
    requires Conserved(s, j)
    ensures Conserved(FlushKey(Repaired, s, k, o), j)
  {
    var s' := FlushKey(Repaired, s, k, o);
    FlushKeyMeaning(Repaired, s, k, o, j);
    if o.stored && j == k {
      FrameRest(AcceptedFor(s.accepted, j), Drained(s, j));
      ConservedWhenEmpty(s', j);
    } else {
      assert Held(s', j) == Held(s, j) && s'.accepted == s.accepted;
      assert Received(s'.uploads, j) == Received(s.uploads, j);
    }
  }

  lemma {:induction false} ConservedFlushAll(s: Store, visits: seq<Visit>, j: Key)
    requires Conserved(s, j)
    ensures Conserved(FlushAll(Repaired, s, visits), j)
  {
    if visits == [] {
    } else {
      var init, last := visits[..|visits| - 1], visits[|visits| - 1];
      ConservedFlushAll(s, init, j);
      ConservedFlushKey(FlushAll(Repaired, s, init), last.key, last.outcome, j);
    }
  }

  lemma ConservedTrigger(size: int64, s: Store, k: Key, o: Outcome, j: Key)
    requires Conserved(s, j)
    ensures Conserved(Trigger(Repaired, size, s, k, o), j)
  {
    ConservedFlushKey(s, k, o, j);
    hide FlushKey;
  }

  lemma ConservedAdd(size: int64, s: Store, k: Key, d: Data, o: Outcome, j: Key)
    requires Conserved(s, j)
    ensures Conserved(Add(Repaired, size, s, k, d, o), j)
  {
    if Validate(k, d) == Accept {
      ConservedAppend(s, k, d, j);
      ConservedTrigger(size, Append(s, k, d), k, o, j);
      hide Append, Trigger, Conserved, HoldsNewest;
    }
  }

  /** Repaired, in every run of adds and flushes against any S3, and for every key: what S3 took
      followed by what is queued is what was accepted, in acceptance order. */
  lemma {:induction false} History(size: int64, events: seq<Event>, k: Key)
    ensures Conserved(Run(Repaired, size, events), k)
  {
    if events == [] {
    } else {
      var init, last := events[..|events| - 1], events[|events| - 1];
      History(size, init, k);
      var s := Run(Repaired, size, init);
      match last
      case AddEvent(key, d, o) => ConservedAdd(size, s, key, d, o, k);
      case FlushEvent(visits) => ConservedFlushAll(s, visits, k);
    }
  }

  /** The same law on bytes alone. */
  lemma HistoryBytes(size: int64, events: seq<Event>, k: Key)
    ensures var s := Run(Repaired, size, events);
            Received(s.uploads, k) + Frame(Held(s, k)) == Frame(AcceptedFor(s.accepted, k))
  {
    History(size, events, k);
    var s := Run(Repaired, size, events);
    FrameRest(AcceptedFor(s.accepted, k), Drained(s, k));
  }

  // ---- the same law of the code as typed ----

  ghost predicate ValidKey(k: Key) {
    |k| > 0 && '/' in k
  }

  /** Some valid key's upload can be given this key as its name. */
  ghost predicate IsObjectName(k: Key) {
    exists j: Key, now: int64 :: ValidKey(j) && k == ObjectName(j, now)
  }

  ghost predicate KeysValid(s: Store) {
    (forall k | k in s.queue :: ValidKey(k)) && (forall k | k in s.sizeFailures :: ValidKey(k))
  }

  /** Invariant of the code as typed: nothing but empty bodies reaches S3, and a key that is no
      object name keeps everything it ever accepted. */
  ghost predicate TypedInvariant(s: Store) {
    && KeysValid(s)
    && (forall k :: Received(s.uploads, k) == [])
    && (forall k | !IsObjectName(k) :: Held(s, k) == AcceptedFor(s.accepted, k))
  }

  lemma TypedFlushKey(s: Store, k: Key, o: Outcome)
    requires TypedInvariant(s) && ValidKey(k)
    ensures TypedInvariant(FlushKey(AsTyped, s, k, o))
  {
    if o.stored {
      var s' := FlushKey(AsTyped, s, k, o);
      assert IsObjectName(ObjectName(k, o.now));
      forall j ensures Received(s'.uploads, j) == [] {
        ReceivedSnoc(s.uploads, s'.uploads[|s.uploads|], j);
      }
    }
  }

  lemma TypedAppend(s: Store, k: Key, d: Data)
    requires TypedInvariant(s) && ValidKey(k)
    ensures TypedInvariant(Append(s, k, d))
  {
    forall j | !IsObjectName(j)
      ensures Held(Append(s, k, d), j) == AcceptedFor(Append(s, k, d).accepted, j)
    {
      AcceptedSnoc(s.accepted, (k, d), j);
    }
  }

  lemma {:induction false} TypedFlushAll(s: Store, visits: seq<Visit>)
    requires TypedInvariant(s) && RangePrefix(AsTyped, s, visits)
    ensures TypedInvariant(FlushAll(AsTyped, s, visits))
  {
    if visits == [] {
    } else {
      var init, last := visits[..|visits| - 1], visits[|visits| - 1];
      forall i | 0 <= i < |init| ensures init[i].key in FlushAll(AsTyped, s, init[..i]).queue {
        assert init[..i] == visits[..i];
        assert visits[i].key in FlushAll(AsTyped, s, visits[..i]).queue;
      }
      TypedFlushAll(s, init);
      TypedFlushKey(FlushAll(AsTyped, s, init), last.key, last.outcome);
    }
  }

  lemma {:induction false} TypedRun(size: int64, events: seq<Event>)
    ensures TypedInvariant(Run(AsTyped, size, events))
  {
    if events == [] {
    } else {
      var init, last := events[..|events| - 1], events[|events| - 1];
      TypedRun(size, init);
      var s := Run(AsTyped, size, init);
      match last
      case AddEvent(k, d, o) =>
        if Validate(k, d) == Accept {
          TypedAppend(s, k, d);
          TypedFlushKey(Append(s, k, d), k, o);
        }
      case FlushEvent(visits) =>
        if Ranges(AsTyped, s, visits) {
          TypedFlushAll(s, visits);
        }
    }
  }

  /** As typed, no run stores a single byte, whatever it accepts. */
  lemma TypedStoresNothing(size: int64, events: seq<Event>, k: Key)
    ensures Received(Run(AsTyped, size, events).uploads, k) == []
  {
    TypedRun(size, events);
  }

  const FAILED := Outcome(false, 0)

  /** While no flush is stored, adds only append. */
  lemma FailedAdd(b: Build, size: int64, s: Store, k: Key, d: Data)
    requires ValidKey(k) && d != []
    ensures var s' := Add(b, size, s, k, d, FAILED);
            s'.queue == s.queue[k := Held(s, k) + [d]] && s'.accepted == s.accepted + [(k, d)]
  {
  }

  lemma TwoFailedAdds(b: Build, size: int64, k: Key, j: Key, d: Data) returns (events: seq<Event>)
    requires ValidKey(k) && ValidKey(j) && k != j && d != []
    ensures var s := Run(b, size, events);
            s.queue == map[k := [d], j := [d]] && AcceptedFor(s.accepted, k) == [d]
  {
    var add1, add2 := AddEvent(k, d, FAILED), AddEvent(j, d, FAILED);
    events := [add1] + [add2];
    var s1 := Run(b, size, [add1]);
    RunSnoc(b, size, [], add1);
    RunSnoc(b, size, [add1], add2);
    assert [] + [add1] == [add1];
    FailedAdd(b, size, EMPTY, k, d);
    FailedAdd(b, size, s1, j, d);
    assert [] + [d] == [d];
    AcceptedSnoc(EMPTY.accepted, (k, d), k);
    AcceptedSnoc(s1.accepted, (j, d), k);
  }

  /** One flush that stores the second of two keys. */
  lemma StoreSecond(b: Build, s: Store, k: Key, j: Key, now: int64) returns (visits: seq<Visit>)
    requires s.queue.Keys == {k, j} && k != j
    ensures Ranges(b, s, visits) && FlushAll(b, s, visits) == FlushKey(b, s, j, Outcome(true, now))
  {
    visits := [Visit(k, FAILED), Visit(j, Outcome(true, now))];
    assert visits[..1] == [Visit(k, FAILED)] && visits[..1][..0] == [] && visits[..0] == [];
    assert FlushAll(b, s, visits[..1]) == s;
    assert visits[0].key == k && visits[1].key == j;
  }

  lemma LostItem(s: Store, k: Key, d: Data)
    requires Held(s, k) == [] && AcceptedFor(s.accepted, k) == [d] && Received(s.uploads, k) == []
    ensures !Conserved(s, k)
  {
    FrameSize([d]);
    assert [d][..1] == [d];
  }

  /** A run that loses an item: it is queued under the name another key is stored under. */
  lemma TypedLosesItem(size: int64, k: Key, j: Key, now: int64) returns (events: seq<Event>)
    requires ValidKey(j) && k == ObjectName(j, now)
    ensures !Conserved(Run(AsTyped, size, events), k)
  {
    var d := [0 as byte];
    assert k[|j|] == '/';
    var adds := TwoFailedAdds(AsTyped, size, k, j, d);
    var s2 := Run(AsTyped, size, adds);
    var visits := StoreSecond(AsTyped, s2, k, j, now);
    RunSnoc(AsTyped, size, adds, FlushEvent(visits));
    FlushKeyMeaning(AsTyped, s2, j, Outcome(true, now), k);
    events := adds + [FlushEvent(visits)];
    TypedStoresNothing(size, events, k);
    LostItem(Run(AsTyped, size, events), k, d);
  }

  /** As typed, the history law holds of a key in every run exactly when no upload can be
      named like the key. */
  lemma TypedHistory(size: int64, k: Key)
    ensures (forall events :: Conserved(Run(AsTyped, size, events), k)) <==> !IsObjectName(k)
  {
    if IsObjectName(k) {
      var j: Key, now: int64 :| ValidKey(j) && k == ObjectName(j, now);
      var events := TypedLosesItem(size, k, j, now);
    } else {
      forall events ensures Conserved(Run(AsTyped, size, events), k) {
        TypedRun(size, events);
      }
    }
  }

  /** A batch key of slash-free parts is never an object name. */
  lemma BatchKeyIsNoObjectName(app: string, topic: string)
    requires '/' !in app && '/' !in topic
    ensures !IsObjectName(BatchKey(app, topic))
  {
    forall j: Key, now: int64 | BatchKey(app, topic) == ObjectName(j, now) ensures !ValidKey(j) {
      SlashPosition(app, topic, j, Decimal(now));
    }
  }
}
