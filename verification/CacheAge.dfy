/** The age of what the cache serves, with a timer that empties it and calls to Houston that take
    time. */
module CacheAge {
  import opened Builds
  import opened Wrappers
  import opened IntegrationCache

  /** A call to Houston under way: for which application, the how-manieth call it is, and whether a
      read that missed waits for it. */
  datatype Call = Call(app: string, number: nat, reading: bool)

  /** A read that has fetched a table and not yet looked into it. */
  datatype Reader = Reader(app: string, table: nat)

  /** An answer served, when, and the call that brought it. */
  datatype Serving = Serving(time: nat, call: nat)

  /** `asked` lists when each call began. A cache entry's `at` is the number of its call. `table` is the
      table in use, `older` those that resets have replaced. The last two fields only observe: whether
      a reset ever fell into a call, and whether one ever overtook a reader that would find something
      in the table it had fetched. */
  datatype Timed = Timed(now: nat, deadline: Option<nat>, asked: seq<nat>, pending: seq<Call>,
                         readers: seq<Reader>, older: seq<Table>, table: Table, served: seq<Serving>,
                         straddled: bool, overtaken: bool)

  datatype Event =
    | Tick                           // a unit of time passes
    | Fire                           // the timer resets the cache
    | Read(app: string)              // a read fetches the table in use
    | Look(i: nat)                   // and looks into it
    | Refresh(app: string)           // an event from Houston
    | Answered(i: nat, reply: Reply) // a call returns

  function TableAt(s: Timed, k: nat): Table {
    if k < |s.older| then s.older[k] else s.table
  }

  predicate Finds(s: Timed, r: Reader) {
    r.app in TableAt(s, r.table)
  }

  predicate SomeReaderFinds(s: Timed) {
    exists i | 0 <= i < |s.readers| :: Finds(s, s.readers[i])
  }

  /** Time does not pass a deadline before the timer has fired. */
  predicate Happens(s: Timed, e: Event) {
    match e
    case Tick => s.deadline != Some(s.now)
    case Fire => s.deadline == Some(s.now)
    case Look(i) => i < |s.readers|
    case Answered(i, _) => i < |s.pending|
    case _ => true
  }

  function Ask(s: Timed, app: string, reading: bool): Timed {
    s.(asked := s.asked + [s.now], pending := s.pending + [Call(app, |s.asked|, reading)])
  }

  function Serve(s: Timed, call: nat): Timed {
    s.(served := s.served + [Serving(s.now, call)])
  }

  function LookUp(s: Timed, i: nat): Timed
    requires i < |s.readers|
  {
    var r, s1 := s.readers[i], s.(readers := s.readers[..i] + s.readers[i + 1..]);
    if Finds(s, r) then Serve(s1, TableAt(s, r.table)[r.app].at) else Ask(s1, r.app, true)
  }

  function Return(b: Build, s: Timed, i: nat, reply: Reply): Timed
    requires i < |s.pending|
  {
    var call, s1 := s.pending[i], s.(pending := s.pending[..i] + s.pending[i + 1..]);
    if call.reading then
      var (r, table) := Missed(b, s.table, call.app, reply, call.number);
      var s2 := s1.(table := table);
      if r.Answer? then Serve(s2, r.cached.at) else s2
    else s1.(table := Update(s.table, call.app, reply, call.number))
  }

  /** As typed the timer is never armed again; repaired it recurs. */
  function Reset(b: Build, ttl: nat, s: Timed): Timed {
    s.(older := s.older + [s.table], table := map[],
       deadline := if b.AsTyped? then None else Some(s.now + ttl),
       straddled := s.straddled || s.pending != [],
       overtaken := s.overtaken || SomeReaderFinds(s))
  }

  function Step(b: Build, ttl: nat, s: Timed, e: Event): Timed
    requires Happens(s, e)
  {
    match e
    case Tick => s.(now := s.now + 1)
    case Fire => Reset(b, ttl, s)
    case Read(app) => s.(readers := s.readers + [Reader(app, |s.older|)])
    case Look(i) => LookUp(s, i)
    case Refresh(app) => Ask(s, app, false)
    case Answered(i, reply) => Return(b, s, i, reply)
  }

  function From(b: Build, ttl: nat, s: Timed, events: seq<Event>): Timed {
    if events == [] then s
    else
      var s', e := From(b, ttl, s, events[..|events| - 1]), events[|events| - 1];
      if Happens(s', e) then Step(b, ttl, s', e) else s'
  }

  function Start(ttl: nat): Timed {
    Timed(0, Some(ttl), [], [], [], [], map[], [], false, false)
  }

  function Reached(b: Build, ttl: nat, events: seq<Event>): Timed {
    From(b, ttl, Start(ttl), events)
  }

  function AskedAt(s: Timed, call: nat): nat {
    if call < |s.asked| then s.asked[call] else 0
  }

  // ---- a reset makes the cache ask again ----

  ghost predicate EntriesSince(t: Table, call: nat) {
    forall app | app in t :: t[app].at >= call
  }

  /** What is in the cache, on its way there or about to be found comes from calls from this one on, and
      so does what was served after the first `n`. */
  ghost predicate Since(s: Timed, call: nat, n: nat) {
    && call <= |s.asked| && n <= |s.served|
    && (forall i | 0 <= i < |s.pending| :: s.pending[i].number >= call)
    && EntriesSince(s.table, call)
    && (forall i | 0 <= i < |s.readers| :: ReaderSince(s, s.readers[i], call))
    && (forall i | n <= i < |s.served| :: s.served[i].call >= call)
  }

  ghost predicate ReaderSince(s: Timed, r: Reader, call: nat) {
    r.table <= |s.older| && (Finds(s, r) ==> TableAt(s, r.table)[r.app].at >= call)
  }

  lemma ReturnSince(b: Build, s: Timed, i: nat, reply: Reply, call: nat, n: nat)
    requires Since(s, call, n) && i < |s.pending|
    ensures Since(Return(b, s, i, reply), call, n)
  {
    var s' := Return(b, s, i, reply);
    assert s'.readers == s.readers && s'.older == s.older && EntriesSince(s'.table, call);
    forall j | 0 <= j < |s.readers| ensures ReaderSince(s', s.readers[j], call) {
      assert ReaderSince(s, s.readers[j], call);
    }
  }

  lemma LookSince(s: Timed, i: nat, call: nat, n: nat)
    requires Since(s, call, n) && i < |s.readers|
    ensures Since(LookUp(s, i), call, n)
  {
    assert ReaderSince(s, s.readers[i], call);
    var s' := LookUp(s, i);
    forall j | 0 <= j < |s'.readers| ensures ReaderSince(s', s'.readers[j], call) {
      assert ReaderSince(s, s'.readers[j], call);
    }
  }

  lemma StepSince(b: Build, ttl: nat, s: Timed, e: Event, call: nat, n: nat)
    requires Since(s, call, n) && Happens(s, e)
    ensures Since(Step(b, ttl, s, e), call, n)
  {
    match e
    case Look(i) => LookSince(s, i, call, n);
    case Answered(i, reply) => ReturnSince(b, s, i, reply, call, n);
    case _ =>
      var s' := Step(b, ttl, s, e);
      forall j | 0 <= j < |s'.readers| ensures ReaderSince(s', s'.readers[j], call) {
        assert j < |s.readers| ==> ReaderSince(s, s.readers[j], call);
      }
  }

  lemma {:induction false} FromSince(b: Build, ttl: nat, s: Timed, events: seq<Event>, call: nat, n: nat)
    requires Since(s, call, n)
    ensures Since(From(b, ttl, s, events), call, n)
  {
    if events == [] {
    } else {
      var s', e := From(b, ttl, s, events[..|events| - 1]), events[|events| - 1];
      FromSince(b, ttl, s, events[..|events| - 1], call, n);
      if Happens(s', e) { StepSince(b, ttl, s', e, call, n); }
      hide Since, Happens, Step;
    }
  }

  lemma FromSnoc(b: Build, ttl: nat, s: Timed, events: seq<Event>, e: Event)
    requires Happens(From(b, ttl, s, events), e)
    ensures From(b, ttl, s, events + [e]) == Step(b, ttl, From(b, ttl, s, events), e)
  {
    assert (events + [e])[..|events|] == events;
  }

  /** What the cache serves from this state on comes from calls that have not begun yet. */
  ghost predicate AsksAgain(b: Build, ttl: nat, s: Timed) {
    forall events, i | |s.served| <= i < |From(b, ttl, s, events).served| ::
      From(b, ttl, s, events).served[i].call >= |s.asked|
  }

  /** Every call in the cache, in a replaced table or under way has begun. */
  ghost predicate CallsBegan(s: Timed) {
    && (forall i | 0 <= i < |s.pending| :: s.pending[i].number < |s.asked|)
    && EntriesBegan(s, s.table)
    && (forall k | 0 <= k < |s.older| :: EntriesBegan(s, s.older[k]))
  }

  ghost predicate EntriesBegan(s: Timed, t: Table) {
    forall app | app in t :: t[app].at < |s.asked|
  }

  lemma ReturnCallsBegan(b: Build, s: Timed, i: nat, reply: Reply)
    requires CallsBegan(s) && i < |s.pending|
    ensures CallsBegan(Return(b, s, i, reply))
  {
    var s' := Return(b, s, i, reply);
    assert EntriesBegan(s', s'.table) && s'.older == s.older && s'.asked == s.asked;
    forall k | 0 <= k < |s.older| ensures EntriesBegan(s', s.older[k]) {
      assert EntriesBegan(s, s.older[k]);
    }
    hide Missed, Update;
  }

  lemma StepCallsBegan(b: Build, ttl: nat, s: Timed, e: Event)
    requires CallsBegan(s) && Happens(s, e)
    ensures CallsBegan(Step(b, ttl, s, e))
  {
    if e.Answered? {
      ReturnCallsBegan(b, s, e.i, e.reply);
    } else {
      var s' := Step(b, ttl, s, e);
      assert |s.asked| <= |s'.asked|;
      assert EntriesBegan(s', s'.table);
      forall k | 0 <= k < |s'.older| ensures EntriesBegan(s', s'.older[k]) {
        assert k < |s.older| ==> EntriesBegan(s, s.older[k]) && s'.older[k] == s.older[k];
      }
    }
    hide Return;
  }

  lemma {:induction false} ReachedCallsBegan(b: Build, ttl: nat, events: seq<Event>)
    ensures CallsBegan(Reached(b, ttl, events))
  {
    if events == [] {
    } else {
      var s, e := Reached(b, ttl, events[..|events| - 1]), events[|events| - 1];
      ReachedCallsBegan(b, ttl, events[..|events| - 1]);
      if Happens(s, e) { StepCallsBegan(b, ttl, s, e); }
      hide CallsBegan, Happens, Step;
    }
  }

  /** The last answer served comes from a call that had begun in the earlier state. */
  ghost predicate ServesEarlier(s: Timed, s': Timed) {
    |s.served| < |s'.served| && s'.served[|s'.served| - 1].call < |s.asked|
  }

  /** A call under way can still fill the cache. */
  lemma PendingFills(b: Build, ttl: nat, s: Timed) returns (events: seq<Event>)
    requires s.pending != [] && CallsBegan(s)
    ensures ServesEarlier(s, From(b, ttl, s, events))
  {
    var fill, read, look := Answered(0, Says(map[])), Read(s.pending[0].app), Look(|s.readers|);
    assert From(b, ttl, s, []) == s;
    hide From;
    FromSnoc(b, ttl, s, [], fill);
    FromSnoc(b, ttl, s, [] + [fill], read);
    FromSnoc(b, ttl, s, [] + [fill] + [read], look);
    events := [] + [fill] + [read] + [look];
  }

  /** A reader that has fetched a table is served from it. */
  lemma ReaderIsServed(b: Build, ttl: nat, s: Timed) returns (events: seq<Event>)
    requires SomeReaderFinds(s) && CallsBegan(s)
    ensures ServesEarlier(s, From(b, ttl, s, events))
  {
    var i :| 0 <= i < |s.readers| && Finds(s, s.readers[i]);
    assert From(b, ttl, s, []) == s;
    hide From;
    FromSnoc(b, ttl, s, [], Look(i));
    assert EntriesBegan(s, TableAt(s, s.readers[i].table));
    events := [] + [Look(i)];
  }

  ghost predicate ReadersHaveTables(s: Timed) {
    forall i | 0 <= i < |s.readers| :: s.readers[i].table <= |s.older|
  }

  lemma StepReadersHaveTables(b: Build, ttl: nat, s: Timed, e: Event)
    requires ReadersHaveTables(s) && Happens(s, e)
    ensures ReadersHaveTables(Step(b, ttl, s, e))
  {
    hide Missed, Update, Finds, SomeReaderFinds;
  }

  lemma {:induction false} ReachedReadersHaveTables(b: Build, ttl: nat, events: seq<Event>)
    ensures ReadersHaveTables(Reached(b, ttl, events))
  {
    if events == [] {
    } else {
      var s, e := Reached(b, ttl, events[..|events| - 1]), events[|events| - 1];
      ReachedReadersHaveTables(b, ttl, events[..|events| - 1]);
      if Happens(s, e) { StepReadersHaveTables(b, ttl, s, e); }
      hide ReadersHaveTables, Happens, Step;
    }
  }

  /** A reset changes nothing for a reader that has fetched its table. */
  lemma ResetKeepsReaders(b: Build, ttl: nat, s: Timed)
    requires ReadersHaveTables(s)
    ensures SomeReaderFinds(Reset(b, ttl, s)) <==> SomeReaderFinds(s)
  {
    var s' := Reset(b, ttl, s);
    assert forall i | 0 <= i < |s.readers| :: Finds(s', s.readers[i]) <==> Finds(s, s.readers[i]);
  }

  /** In either build, and wherever a run has come when the timer fires: whatever is served after that
      reset was asked for after it, in every continuation, exactly when no call was under way and no
      reader had yet to look into a table in which it finds its application. */
  lemma ReadAfterResetAsks(b: Build, ttl: nat, before: seq<Event>)
    requires Happens(Reached(b, ttl, before), Fire)
    ensures var s := Reached(b, ttl, before);
            AsksAgain(b, ttl, Reset(b, ttl, s)) <==> s.pending == [] && !SomeReaderFinds(s)
  {
    ReachedReadersHaveTables(b, ttl, before);
    ReachedCallsBegan(b, ttl, before);
    var s := Reached(b, ttl, before);
    StepCallsBegan(b, ttl, s, Fire);
    ResetKeepsReaders(b, ttl, s);
    var s' := Reset(b, ttl, s);
    hide Reached;
    if s.pending == [] && !SomeReaderFinds(s) {
      assert Since(s', |s'.asked|, |s'.served|);
      forall events, i | |s'.served| <= i < |From(b, ttl, s', events).served|
        ensures From(b, ttl, s', events).served[i].call >= |s'.asked|
      {
        FromSince(b, ttl, s', events, |s'.asked|, |s'.served|);
      }
    } else {
      var events: seq<Event>;
      if s.pending != [] {
        events := PendingFills(b, ttl, s');
      } else {
        events := ReaderIsServed(b, ttl, s');
      }
      assert From(b, ttl, s', events).served[|From(b, ttl, s', events).served| - 1].call < |s'.asked|;
    }
    hide Reset, Since, CallsBegan, SomeReaderFinds;
  }

  // ---- how old an answer can be ----

  /** Every answer served was asked for within the last `ttl`. */
  ghost predicate FreshEnough(ttl: nat, s: Timed) {
    forall x | x in s.served :: x.call < |s.asked| && AskedAt(s, x.call) <= x.time <= AskedAt(s, x.call) + ttl
  }

  /** A call began at most `ttl` before the deadline, and not in the future. */
  ghost predicate Recent(ttl: nat, s: Timed, call: nat)
    requires s.deadline.Some?
  {
    call < |s.asked| && s.deadline.value <= AskedAt(s, call) + ttl && AskedAt(s, call) <= s.now
  }

  /** No reset has fallen into a call or overtaken a reader that finds something. */
  predicate Undisturbed(s: Timed) {
    !s.straddled && !s.overtaken
  }

  ghost predicate RecentEntries(ttl: nat, s: Timed, t: Table)
    requires s.deadline.Some?
  {
    forall app | app in t :: Recent(ttl, s, t[app].at)
  }

  ghost predicate RecentReader(ttl: nat, s: Timed, r: Reader)
    requires s.deadline.Some?
  {
    r.table <= |s.older| && (Finds(s, r) ==> Recent(ttl, s, TableAt(s, r.table)[r.app].at))
  }

  ghost predicate RepairedTimer(ttl: nat, s: Timed) {
    && s.deadline.Some? && s.now <= s.deadline.value <= s.now + ttl
    && ReadersHaveTables(s)
    && (Undisturbed(s) ==>
          && (forall i | 0 <= i < |s.pending| :: Recent(ttl, s, s.pending[i].number))
          && RecentEntries(ttl, s, s.table)
          && (forall i | 0 <= i < |s.readers| :: RecentReader(ttl, s, s.readers[i]))
          && FreshEnough(ttl, s))
  }

  lemma RepairedTimerReturn(ttl: nat, s: Timed, i: nat, reply: Reply)
    requires RepairedTimer(ttl, s) && i < |s.pending|
    ensures RepairedTimer(ttl, Return(Repaired, s, i, reply))
  {
    var s' := Return(Repaired, s, i, reply);
    if Undisturbed(s) {
      assert RecentEntries(ttl, s', s'.table);
      forall j | 0 <= j < |s.readers| ensures RecentReader(ttl, s', s.readers[j]) {
        assert RecentReader(ttl, s, s.readers[j]);
      }
    }
  }

  lemma RepairedTimerLook(ttl: nat, s: Timed, i: nat)
    requires RepairedTimer(ttl, s) && i < |s.readers|
    ensures RepairedTimer(ttl, LookUp(s, i))
  {
    var s' := LookUp(s, i);
    if Undisturbed(s) {
      assert RecentReader(ttl, s, s.readers[i]);
      forall j | 0 <= j < |s'.readers| ensures RecentReader(ttl, s', s'.readers[j]) {
        assert RecentReader(ttl, s, s'.readers[j]);
      }
    }
  }

  lemma RepairedTimerReset(ttl: nat, s: Timed)
    requires RepairedTimer(ttl, s) && s.deadline == Some(s.now)
    ensures RepairedTimer(ttl, Reset(Repaired, ttl, s))
  {
    var s' := Reset(Repaired, ttl, s);
    if Undisturbed(s') {
      forall j | 0 <= j < |s.readers| ensures RecentReader(ttl, s', s.readers[j]) {
        assert Finds(s', s.readers[j]) <==> Finds(s, s.readers[j]);
      }
    }
  }

  lemma RepairedTimerStep(ttl: nat, s: Timed, e: Event)
    requires RepairedTimer(ttl, s) && Happens(s, e)
    ensures RepairedTimer(ttl, Step(Repaired, ttl, s, e))
  {
    match e
    case Look(i) => RepairedTimerLook(ttl, s, i);
    case Answered(i, reply) => RepairedTimerReturn(ttl, s, i, reply);
    case Fire => RepairedTimerReset(ttl, s);
    case _ =>
      var s' := Step(Repaired, ttl, s, e);
      if Undisturbed(s) {
        forall j | 0 <= j < |s'.readers| ensures RecentReader(ttl, s', s'.readers[j]) {
          assert j < |s.readers| ==> RecentReader(ttl, s, s.readers[j]);
        }
      }
  }

  lemma {:induction false} RepairedTimerKept(ttl: nat, events: seq<Event>)
    ensures RepairedTimer(ttl, Reached(Repaired, ttl, events))
  {
    if events == [] {
    } else {
      var s, e := Reached(Repaired, ttl, events[..|events| - 1]), events[|events| - 1];
      RepairedTimerKept(ttl, events[..|events| - 1]);
      if Happens(s, e) { RepairedTimerStep(ttl, s, e); }
      hide RepairedTimer, Happens, Step;
    }
  }

  /** Repaired, in every run in which no reset falls into a call or overtakes a reader, every answer
      served was asked for within the last TTL. */
  lemma BoundedStaleness(ttl: nat, events: seq<Event>)
    requires Undisturbed(Reached(Repaired, ttl, events))
    ensures FreshEnough(ttl, Reached(Repaired, ttl, events))
  {
    RepairedTimerKept(ttl, events);
  }

  /** As typed, what was asked before the only reset is gone after it. */
  ghost predicate Current(ttl: nat, s: Timed, call: nat) {
    call < |s.asked| && AskedAt(s, call) <= s.now && (s.deadline == None ==> ttl <= AskedAt(s, call))
  }

  ghost predicate CurrentEntries(ttl: nat, s: Timed, t: Table) {
    forall app | app in t :: Current(ttl, s, t[app].at)
  }

  ghost predicate CurrentReader(ttl: nat, s: Timed, r: Reader) {
    r.table <= |s.older| && (Finds(s, r) ==> Current(ttl, s, TableAt(s, r.table)[r.app].at))
  }

  ghost predicate ServedInTime(ttl: nat, s: Timed) {
    forall x | x in s.served ::
      x.call < |s.asked| && AskedAt(s, x.call) <= x.time && (ttl < x.time ==> ttl <= AskedAt(s, x.call))
  }

  ghost predicate TypedTimer(ttl: nat, s: Timed) {
    && (s.deadline == Some(ttl) ==> s.now <= ttl)
    && (s.deadline == Some(ttl) || (s.deadline == None && ttl <= s.now))
    && ReadersHaveTables(s)
    && (Undisturbed(s) ==>
          && (forall i | 0 <= i < |s.pending| :: Current(ttl, s, s.pending[i].number))
          && CurrentEntries(ttl, s, s.table)
          && (forall i | 0 <= i < |s.readers| :: CurrentReader(ttl, s, s.readers[i]))
          && ServedInTime(ttl, s))
  }

  lemma TypedTimerReturn(ttl: nat, s: Timed, i: nat, reply: Reply)
    requires TypedTimer(ttl, s) && i < |s.pending|
    ensures TypedTimer(ttl, Return(AsTyped, s, i, reply))
  {
    var s' := Return(AsTyped, s, i, reply);
    if Undisturbed(s) {
      assert CurrentEntries(ttl, s', s'.table);
      forall j | 0 <= j < |s.readers| ensures CurrentReader(ttl, s', s.readers[j]) {
        assert CurrentReader(ttl, s, s.readers[j]);
      }
    }
  }

  lemma TypedTimerLook(ttl: nat, s: Timed, i: nat)
    requires TypedTimer(ttl, s) && i < |s.readers|
    ensures TypedTimer(ttl, LookUp(s, i))
  {
    var s' := LookUp(s, i);
    if Undisturbed(s) {
      assert CurrentReader(ttl, s, s.readers[i]);
      forall j | 0 <= j < |s'.readers| ensures CurrentReader(ttl, s', s'.readers[j]) {
        assert CurrentReader(ttl, s, s'.readers[j]);
      }
    }
  }

  lemma TypedTimerReset(ttl: nat, s: Timed)
    requires TypedTimer(ttl, s) && s.deadline == Some(s.now)
    ensures TypedTimer(ttl, Reset(AsTyped, ttl, s))
  {
    var s' := Reset(AsTyped, ttl, s);
    if Undisturbed(s') {
      forall j | 0 <= j < |s.readers| ensures CurrentReader(ttl, s', s.readers[j]) {
        assert Finds(s', s.readers[j]) <==> Finds(s, s.readers[j]);
      }
    }
  }

  lemma TypedTimerStep(ttl: nat, s: Timed, e: Event)
    requires TypedTimer(ttl, s) && Happens(s, e)
    ensures TypedTimer(ttl, Step(AsTyped, ttl, s, e))
  {
    match e
    case Look(i) => TypedTimerLook(ttl, s, i);
    case Answered(i, reply) => TypedTimerReturn(ttl, s, i, reply);
    case Fire => TypedTimerReset(ttl, s);
    case _ =>
      var s' := Step(AsTyped, ttl, s, e);
      if Undisturbed(s) {
        forall j | 0 <= j < |s'.readers| ensures CurrentReader(ttl, s', s'.readers[j]) {
          assert j < |s.readers| ==> CurrentReader(ttl, s, s.readers[j]);
        }
      }
  }

  lemma {:induction false} TypedTimerKept(ttl: nat, events: seq<Event>)
    ensures TypedTimer(ttl, Reached(AsTyped, ttl, events))
  {
    if events == [] {
    } else {
      var s, e := Reached(AsTyped, ttl, events[..|events| - 1]), events[|events| - 1];
      TypedTimerKept(ttl, events[..|events| - 1]);
      if Happens(s, e) { TypedTimerStep(ttl, s, e); }
      hide TypedTimer, Happens, Step;
    }
  }

  // ---- runs ----

  lemma ReachedSnoc(b: Build, ttl: nat, events: seq<Event>, e: Event)
    requires Happens(Reached(b, ttl, events), e)
    ensures Reached(b, ttl, events + [e]) == Step(b, ttl, Reached(b, ttl, events), e)
  {
    FromSnoc(b, ttl, Start(ttl), events, e);
    hide From;
  }

  lemma {:induction false} Waiting(b: Build, ttl: nat, events: seq<Event>, until: nat) returns (events': seq<Event>)
    requires var s := Reached(b, ttl, events);
             s.now <= until && (s.deadline.Some? ==> until <= s.deadline.value)
    ensures Reached(b, ttl, events') == Reached(b, ttl, events).(now := until)
    decreases until - Reached(b, ttl, events).now
  {
    if Reached(b, ttl, events).now == until {
      events' := events;
    } else {
      ReachedSnoc(b, ttl, events, Tick);
      events' := Waiting(b, ttl, events + [Tick], until);
    }
    hide Reached;
  }

  /** One answer is fetched and cached at once. */
  lemma FillNow(b: Build, ttl: nat, before: seq<Event>) returns (events: seq<Event>)
    requires var s := Reached(b, ttl, before); s.pending == [] && s.readers == []
    ensures var s := Reached(b, ttl, before);
            Reached(b, ttl, events)
            == s.(asked := s.asked + [s.now], table := s.table["" := Cached(map[], |s.asked|)])
  {
    hide Reached;
    ReachedSnoc(b, ttl, before, Refresh(""));
    events := before + [Refresh("")];
    assert Reached(b, ttl, events).pending == [Call("", |Reached(b, ttl, before).asked|, false)];
    ReachedSnoc(b, ttl, events, Answered(0, Says(map[])));
    events := events + [Answered(0, Says(map[]))];
  }

  /** The reader fetches the table in use. */
  lemma ReadNow(b: Build, ttl: nat, before: seq<Event>) returns (events: seq<Event>)
    requires Reached(b, ttl, before).readers == []
    ensures var s := Reached(b, ttl, before);
            Reached(b, ttl, events) == s.(readers := [Reader("", |s.older|)])
  {
    hide Reached;
    ReachedSnoc(b, ttl, before, Read(""));
    events := before + [Read("")];
  }

  /** And finds its answer in it. */
  lemma LookNow(b: Build, ttl: nat, before: seq<Event>) returns (events: seq<Event>)
    requires var s := Reached(b, ttl, before); |s.readers| == 1 && Finds(s, s.readers[0])
    ensures var s := Reached(b, ttl, before);
            var x := Serving(s.now, TableAt(s, s.readers[0].table)[s.readers[0].app].at);
            Reached(b, ttl, events) == s.(readers := [], served := s.served + [x])
  {
    hide Reached;
    ReachedSnoc(b, ttl, before, Look(0));
    events := before + [Look(0)];
  }

  lemma FireNow(b: Build, ttl: nat, before: seq<Event>) returns (events: seq<Event>)
    requires Happens(Reached(b, ttl, before), Fire)
    ensures Reached(b, ttl, events) == Reset(b, ttl, Reached(b, ttl, before))
  {
    hide Reached;
    ReachedSnoc(b, ttl, before, Fire);
    events := before + [Fire];
  }

  /** The timer fires once; what is fetched right after is served for ever. */
  lemma StaleRead(ttl: nat, t: nat) returns (events: seq<Event>)
    requires t > 2 * ttl
    ensures var s := Reached(AsTyped, ttl, events);
            Undisturbed(s) && Serving(t, 0) in s.served && AskedAt(s, 0) == ttl
  {
    assert Reached(AsTyped, ttl, []) == Start(ttl);
    hide Reached;
    events := Waiting(AsTyped, ttl, [], ttl);
    events := FireNow(AsTyped, ttl, events);
    events := FillNow(AsTyped, ttl, events);
    events := Waiting(AsTyped, ttl, events, t);
    events := ReadNow(AsTyped, ttl, events);
    events := LookNow(AsTyped, ttl, events);
    var s := Reached(AsTyped, ttl, events);
    assert s.served[|s.served| - 1] == Serving(t, 0);
  }

  /** As typed, in the runs in which no reset falls into a call or overtakes a reader, answers served at
      time t are within the TTL exactly while t is at most twice the TTL. */
  lemma TypedStaleness(ttl: nat, t: nat)
    ensures (forall events, x | Undisturbed(Reached(AsTyped, ttl, events))
                                && x in Reached(AsTyped, ttl, events).served && x.time == t ::
               t <= AskedAt(Reached(AsTyped, ttl, events), x.call) + ttl)
            <==> t <= 2 * ttl
  {
    if t <= 2 * ttl {
      forall events, x | Undisturbed(Reached(AsTyped, ttl, events))
                         && x in Reached(AsTyped, ttl, events).served && x.time == t
        ensures t <= AskedAt(Reached(AsTyped, ttl, events), x.call) + ttl
      {
        TypedTimerKept(ttl, events);
      }
    } else {
      var events := StaleRead(ttl, t);
      assert Serving(t, 0) in Reached(AsTyped, ttl, events).served;
    }
    hide Reached;
  }

  /** A call that a reset overtakes brings an answer that is served when it is older than the TTL. */
  lemma StraddlingGoesStale(ttl: nat) returns (events: seq<Event>)
    requires ttl > 0
    ensures var s := Reached(Repaired, ttl, events); !s.overtaken && !FreshEnough(ttl, s)
  {
    assert Reached(Repaired, ttl, []) == Start(ttl);
    hide Reached;
    ReachedSnoc(Repaired, ttl, [], Refresh(""));
    events := [] + [Refresh("")];
    events := Waiting(Repaired, ttl, events, ttl);
    events := FireNow(Repaired, ttl, events);
    ReachedSnoc(Repaired, ttl, events, Answered(0, Says(map[])));
    events := events + [Answered(0, Says(map[]))];
    events := Waiting(Repaired, ttl, events, ttl + 1);
    events := ReadNow(Repaired, ttl, events);
    events := LookNow(Repaired, ttl, events);
    var s := Reached(Repaired, ttl, events);
    assert s.served[0] == Serving(ttl + 1, 0) && s.asked == [0];
  }

  /** In either build, so is a reader that a reset overtakes, from the table it had fetched. */
  lemma OvertakenGoesStale(b: Build, ttl: nat) returns (events: seq<Event>)
    requires ttl > 0
    ensures var s := Reached(b, ttl, events); !s.straddled && !FreshEnough(ttl, s)
  {
    assert Reached(b, ttl, []) == Start(ttl);
    hide Reached;
    events := FillNow(b, ttl, []);
    events := Waiting(b, ttl, events, ttl);
    events := ReadNow(b, ttl, events);
    events := FireNow(b, ttl, events);
    events := Waiting(b, ttl, events, ttl + 1);
    events := LookNow(b, ttl, events);
    var s := Reached(b, ttl, events);
    assert s.served[0] == Serving(ttl + 1, 0) && s.asked == [0];
  }

  /** For no positive TTL can either half of the condition be dropped. */
  lemma StalenessNeedsCondition(ttl: nat)
    requires ttl > 0
    ensures !forall events | !Reached(Repaired, ttl, events).overtaken ::
               FreshEnough(ttl, Reached(Repaired, ttl, events))
    ensures !forall events | !Reached(Repaired, ttl, events).straddled ::
               FreshEnough(ttl, Reached(Repaired, ttl, events))
  {
    var events := StraddlingGoesStale(ttl);
    var events' := OvertakenGoesStale(Repaired, ttl);
    hide Reached, FreshEnough;
  }

  // ---- undisturbed, the timed cache is the cache ----

  /** What a read does if nothing else happens: Houston is asked only on a miss. */
  function ReadSteps(s: Timed, app: string, reply: Reply): seq<Event> {
    [] + [Read(app)] + [Look(|s.readers|)] + if app in s.table then [] else [Answered(|s.pending|, reply)]
  }

  lemma ReadAndLook(b: Build, ttl: nat, s: Timed, app: string)
    ensures var s' := From(b, ttl, s, [] + [Read(app)] + [Look(|s.readers|)]);
            s' == if app in s.table then Serve(s, s.table[app].at) else Ask(s, app, true)
  {
    assert From(b, ttl, s, []) == s;
    hide From;
    FromSnoc(b, ttl, s, [], Read(app));
    var s1 := s.(readers := s.readers + [Reader(app, |s.older|)]);
    FromSnoc(b, ttl, s, [] + [Read(app)], Look(|s.readers|));
    assert s1.readers[..|s.readers|] + s1.readers[|s.readers| + 1..] == s.readers;
  }

  /** Undisturbed, a read serves what the cache's lookup answers, and leaves the table it leaves. */
  lemma ReadIsLookup(b: Build, ttl: nat, s: Timed, app: string, reply: Reply)
    ensures var s' := From(b, ttl, s, ReadSteps(s, app, reply));
            var (r, table) := Lookup(b, s.table, app, reply, |s.asked|);
            && s'.table == table && s'.pending == s.pending && s'.readers == s.readers
            && s'.served == s.served + if r.Answer? then [Serving(s.now, r.cached.at)] else []
  {
    var steps := [] + [Read(app)] + [Look(|s.readers|)];
    ReadAndLook(b, ttl, s, app);
    if app in s.table {
      assert steps + [] == steps;
    } else {
      var s1 := Ask(s, app, true);
      hide From;
      FromSnoc(b, ttl, s, steps, Answered(|s.pending|, reply));
      assert s1.pending[..|s.pending|] + s1.pending[|s.pending| + 1..] == s.pending;
    }
  }

  /** And a refresh is the cache's update. */
  lemma RefreshIsUpdate(b: Build, ttl: nat, s: Timed, app: string, reply: Reply)
    ensures var s' := From(b, ttl, s, [] + [Refresh(app)] + [Answered(|s.pending|, reply)]);
            && s'.table == Update(s.table, app, reply, |s.asked|) && s'.pending == s.pending
            && s'.served == s.served
  {
    assert From(b, ttl, s, []) == s;
    hide From;
    FromSnoc(b, ttl, s, [], Refresh(app));
    var s1 := Ask(s, app, false);
    FromSnoc(b, ttl, s, [] + [Refresh(app)], Answered(|s.pending|, reply));
    assert s1.pending[..|s.pending|] + s1.pending[|s.pending| + 1..] == s.pending;
  }
}
