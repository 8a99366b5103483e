/** What holds in every run of the router. */
module PipelineLaws {
  import opened Builds
  import opened Framing
  import opened Wrappers
  import opened MessageCodec
  import opened MessageLaws
  import opened Routing
  import opened DeadLetter
  import opened DeadLetterFlush
  import opened Producer
  import opened Pipeline

  // ---- every message is counted once ----

  ghost predicate Counted(s: State) {
    s.counts.consumed == s.counts.routed + s.counts.retried + s.counts.noIntegration
                         + if s.job.Idle? then 0 else 1
  }

  lemma LookedUpCounted(s: State)
    requires Counted(s) && s.job.Looking?
    ensures Counted(LookedUp(s))
  {
  }

  lemma RepliedCounted(c: Config, s: State, reply: Reply)
    requires Counted(s) && s.job.Asking?
    ensures Counted(Replied(c, s, reply))
  {
    hide Enter;
  }

  lemma ApplyCounted(c: Config, s: State, h: Happening)
    requires Counted(s) && Enabled(c, s, h)
    ensures Counted(Apply(c, s, h))
  {
    match h
    case Look => LookedUpCounted(s);
    case Answered(reply) => RepliedCounted(c, s, reply);
    case _ =>
      hide Add, FlushAll, Decode, Skips, Ranges, Assign, Enter, Bury, Drop, Arrive, Leave;
  }

  // ---- what routing leaves alone ----

  /** The dead letters, the topics sent and the event loop. */
  ghost predicate SameLetters(s: State, s': State) {
    && s'.letters == s.letters && s'.store == s.store && s'.books.dead == s.books.dead
    && s'.topics == s.topics && s'.running == s.running
  }

  lemma ConsumedFields(s: State, m: Message, key: Data, value: Data)
    ensures SameLetters(s, Consumed(s, m, key, value))
  {
  }

  lemma LookedUpFields(s: State)
    requires s.job.Looking?
    ensures SameLetters(s, LookedUp(s)) && LookedUp(s).books == s.books
  {
  }

  lemma RepliedFields(c: Config, s: State, reply: Reply)
    requires s.job.Asking?
    ensures SameLetters(s, Replied(c, s, reply))
  {
  }

  lemma FannedFields(c: Config, s: State, name: string)
    requires Enabled(c, s, Fan(name))
    ensures SameLetters(s, Fanned(c, s, name))
  {
    hide Assign, Skips;
  }

  // ---- where copies come from ----

  /** The copies one happening produces. */
  function NewItems(c: Config, s: State, h: Happening): seq<Item> {
    match h
    case Answered(reply) =>
      if s.job.Asking? && reply.Down?
      then [Item(|s.books.produced|, s.job.msg, s.job.message.appId, "", None, RETRY, s.job.key, s.job.value)]
      else []
    case Fan(name) =>
      if s.job.Fanning? && s.job.ref < |s.answers| && name in s.answers[s.job.ref].routes
         && s.job.variable < |s.cells| && !Skips(c.build, s.job.message, name)
      then [Item(|s.books.produced|, s.job.msg, s.job.message.appId, name, Some(s.job.ref),
                 Assign(c.build, s.cells, s.job.variable, s.answers[s.job.ref].routes[name]).1,
                 s.job.key, s.job.value)]
      else []
    case _ => []
  }

  lemma FannedProduced(c: Config, s: State, name: string)
    requires Enabled(c, s, Fan(name))
    ensures Fanned(c, s, name).books.produced == s.books.produced + NewItems(c, s, Fan(name))
  {
    hide Skips, Assign;
  }

  lemma RepliedProduced(c: Config, s: State, reply: Reply)
    requires s.job.Asking?
    ensures Replied(c, s, reply).books.produced == s.books.produced + NewItems(c, s, Answered(reply))
  {
  }

  lemma ProducedAfter(c: Config, s: State, h: Happening)
    requires Enabled(c, s, h)
    ensures Apply(c, s, h).books.produced == s.books.produced + NewItems(c, s, h)
  {
    hide Add, FlushAll, Decode, Ranges, FailureKey, LookedUp, Replied, Fanned;
    match h
    case Look => LookedUpFields(s);
    case Answered(reply) => RepliedProduced(c, s, reply);
    case Fan(name) => FannedProduced(c, s, name);
    case _ =>
  }

  /** What is known of every copy from its production on: its value parsed, as a message of the
      application it was routed under, and if it has a source, that is an answer Houston gave for
      the same application, with an integration of that name. */
  ghost predicate WellBorn(c: Config, s: State, item: Item) {
    && Parse(c, item.value).Some? && Parse(c, item.value).value.appId == item.app
    && item.msg < s.messages
    && (item.source.Some? ==> item.source.value < |s.answers| && s.answers[item.source.value].app == item.app
                              && item.name in s.answers[item.source.value].routes)
  }

  ghost predicate TableGrounded(s: State, t: map<string, nat>) {
    forall app | app in t :: t[app] < |s.answers| && s.answers[t[app]].app == app
  }

  ghost predicate CacheGrounded(s: State) {
    TableGrounded(s, s.cache) && forall k | 0 <= k < |s.older| :: TableGrounded(s, s.older[k])
  }

  ghost predicate JobGrounded(c: Config, s: State) {
    && (!s.job.Idle? ==> Parse(c, s.job.value) == Some(s.job.message) && s.job.msg < s.messages)
    && (s.job.Fanning? ==>
      && s.job.ref < |s.answers| && s.answers[s.job.ref].app == s.job.message.appId
      && s.job.remaining <= s.answers[s.job.ref].routes.Keys)
  }

  ghost predicate ItemsWellBorn(c: Config, s: State) {
    forall i | 0 <= i < |s.books.produced| :: WellBorn(c, s, s.books.produced[i])
  }

  ghost predicate Grounded(c: Config, s: State) {
    CacheGrounded(s) && JobGrounded(c, s) && ItemsWellBorn(c, s)
  }

  /** Published answers are never changed, only added to. */
  ghost predicate Extends(s: State, s': State) {
    s.messages <= s'.messages && |s.answers| <= |s'.answers| && s'.answers[..|s.answers|] == s.answers
  }

  lemma ApplyExtends(c: Config, s: State, h: Happening)
    requires Enabled(c, s, h)
    ensures Extends(s, Apply(c, s, h))
  {
    hide Add, FlushAll, Decode, Skips, Ranges, Assign, FailureKey, Enter, Bury, Drop, Arrive, Leave;
  }

  lemma ExtendsKeeps(s: State, s': State, ref: nat)
    requires Extends(s, s') && ref < |s.answers|
    ensures ref < |s'.answers| && s'.answers[ref] == s.answers[ref]
  {
    assert s'.answers[ref] == s'.answers[..|s.answers|][ref];
  }

  lemma ConsumedGrounded(c: Config, s: State, key: Data, value: Data)
    requires CacheGrounded(s) && Parse(c, value).Some?
    ensures var s' := Consumed(s, Parse(c, value).value, key, value);
            CacheGrounded(s') && JobGrounded(c, s')
  {
    hide Decode;
    var s' := Consumed(s, Parse(c, value).value, key, value);
    forall k | 0 <= k < |s.older| ensures TableGrounded(s', s.older[k]) {
      assert TableGrounded(s, s.older[k]);
    }
  }

  lemma LookedUpGrounded(c: Config, s: State)
    requires CacheGrounded(s) && JobGrounded(c, s) && s.job.Looking?
    ensures CacheGrounded(LookedUp(s)) && JobGrounded(c, LookedUp(s))
  {
    var s' := LookedUp(s);
    assert TableGrounded(s, TableAt(s, s.job.table));
    assert s'.older == s.older && s'.cache == s.cache && s'.answers == s.answers;
    forall k | 0 <= k < |s.older| ensures TableGrounded(s', s.older[k]) {
      assert TableGrounded(s, s.older[k]);
    }
    hide Decode;
  }

  lemma PublishGrounded(c: Config, s: State, app: string, routes: map<string, string>)
    requires CacheGrounded(s) && JobGrounded(c, s)
    ensures CacheGrounded(Publish(s, app, routes)) && JobGrounded(c, Publish(s, app, routes))
  {
    var s' := Publish(s, app, routes);
    forall k | 0 <= k < |s.older| ensures TableGrounded(s', s.older[k]) {
      assert TableGrounded(s, s.older[k]);
    }
    hide Decode;
  }

  lemma SameTablesGrounded(s: State, s': State)
    requires CacheGrounded(s) && s'.older == s.older && s'.cache == s.cache && s'.answers == s.answers
    ensures CacheGrounded(s')
  {
    forall k | 0 <= k < |s.older| ensures TableGrounded(s', s.older[k]) {
      assert TableGrounded(s, s.older[k]);
    }
  }

  lemma RepliedTables(c: Config, s: State, reply: Reply)
    requires s.job.Asking?
    ensures var s' := Replied(c, s, reply);
            var s1 := if reply.Says? then Publish(s, s.job.message.appId, reply.routes) else s;
            s'.older == s1.older && s'.cache == s1.cache && s'.answers == s1.answers && s'.messages == s.messages
  {
    hide Enter;
  }

  lemma RepliedJobGrounded(c: Config, s: State, reply: Reply)
    requires JobGrounded(c, s) && s.job.Asking?
    ensures JobGrounded(c, Replied(c, s, reply))
  {
    hide Enter, Decode;
  }

  lemma RepliedGrounded(c: Config, s: State, reply: Reply)
    requires CacheGrounded(s) && JobGrounded(c, s) && s.job.Asking?
    ensures CacheGrounded(Replied(c, s, reply)) && JobGrounded(c, Replied(c, s, reply))
  {
    RepliedTables(c, s, reply);
    RepliedJobGrounded(c, s, reply);
    if reply.Says? {
      PublishGrounded(c, s, s.job.message.appId, reply.routes);
      SameTablesGrounded(Publish(s, s.job.message.appId, reply.routes), Replied(c, s, reply));
    } else {
      SameTablesGrounded(s, Replied(c, s, reply));
    }
    hide Replied, Publish, CacheGrounded, JobGrounded;
  }

  /** All other happenings leave the answers, the cache's references and the job's answer alone. */
  lemma QuietFields(c: Config, s: State, h: Happening)
    requires Enabled(c, s, h) && !h.Consume? && !h.Look? && !h.Answered? && !h.Refresh?
    ensures var s' := Apply(c, s, h);
            && s'.answers == s.answers && s'.messages == s.messages
            && ((s'.older == s.older && s'.cache == s.cache) || (s'.older == s.older + [s.cache] && s'.cache == map[]))
            && (s'.job == s.job || s'.job == Idle
                || (h.Fan? && s.job.Fanning? && s'.job == s.job.(remaining := s.job.remaining - {h.name})))
  {
    hide Add, FlushAll, Decode, Skips, Ranges, Assign, FailureKey, Enter, Bury, Drop, Arrive, Leave;
  }

  lemma ApplyGroundedState(c: Config, s: State, h: Happening)
    requires CacheGrounded(s) && JobGrounded(c, s) && Enabled(c, s, h)
    ensures CacheGrounded(Apply(c, s, h)) && JobGrounded(c, Apply(c, s, h))
  {
    match h
    case Consume(value, key) =>
      if Parse(c, value).Some? { ConsumedGrounded(c, s, key, value); }
    case Look => LookedUpGrounded(c, s);
    case Answered(reply) => RepliedGrounded(c, s, reply);
    case Refresh(app, routes) => PublishGrounded(c, s, app, routes);
    case _ =>
      QuietFields(c, s, h);
      var s' := Apply(c, s, h);
      forall k | 0 <= k < |s'.older| ensures TableGrounded(s', s'.older[k]) {
        assert k < |s.older| ==> TableGrounded(s, s.older[k]);
      }
      hide Apply, Enabled, Decode;
  }

  lemma NewItemsWellBorn(c: Config, s: State, h: Happening)
    requires Grounded(c, s) && Enabled(c, s, h)
    ensures forall item | item in NewItems(c, s, h) :: WellBorn(c, Apply(c, s, h), item)
  {
    ApplyExtends(c, s, h);
    var s' := Apply(c, s, h);
    if h.Fan? {
      ExtendsKeeps(s, s', s.job.ref);
    }
    hide Add, FlushAll, Decode, Skips, Ranges, Assign, Enter;
  }

  lemma ApplyGrounded(c: Config, s: State, h: Happening)
    requires Grounded(c, s) && Enabled(c, s, h)
    ensures Grounded(c, Apply(c, s, h))
  {
    var s' := Apply(c, s, h);
    ApplyGroundedState(c, s, h);
    ProducedAfter(c, s, h);
    NewItemsWellBorn(c, s, h);
    ApplyExtends(c, s, h);
    hide Apply, NewItems, Enabled;
    var n := |s.books.produced|;
    forall i | 0 <= i < |s'.books.produced| ensures WellBorn(c, s', s'.books.produced[i]) {
      if i < n {
        var item := s.books.produced[i];
        assert WellBorn(c, s, item);
        if item.source.Some? { ExtendsKeeps(s, s', item.source.value); }
      } else {
        assert s'.books.produced[i] in NewItems(c, s, h);
      }
    }
  }

  // ---- the event loop and the dead letters ----

  lemma InFlightIsProduced(k: Books, item: Item)
    requires Accounted(k) && item in k.inFlight
    ensures item.id < |k.produced| && k.produced[item.id] == item
  {
    assert item in multiset(k.produced);
    assert item in k.produced;
  }

  lemma ParsedIsNotEmpty(c: Config, value: Data)
    requires ReadsNothingFromNothing(c) && Parse(c, value).Some?
    ensures value != []
  {
    NothingDecodesFromNothing();
    hide Decode;
  }

  /** What the dead letter queue should have accepted: each copy under its application and topic. */
  function Log(b: Build, dead: seq<Dead>): seq<(Key, Data)> {
    if dead == [] then []
    else
      var d := dead[|dead| - 1];
      Log(b, dead[..|dead| - 1]) + [(DeadKey(b, d), d.item.value)]
  }

  function DeadKey(b: Build, d: Dead): Key {
    FailureKey(b, d.item.app, d.topic, d.address)
  }

  lemma LogSnoc(b: Build, dead: seq<Dead>, d: Dead)
    ensures Log(b, dead + [d]) == Log(b, dead) + [(DeadKey(b, d), d.item.value)]
  {
    assert (dead + [d])[..|dead|] == dead;
  }

  ghost predicate LettersRight(c: Config, s: State) {
    && s.store == Run(c.build, c.size, s.letters)
    && s.store.accepted == Log(c.build, s.books.dead)
  }

  /** A report of a failed delivery parses, under the application its copy was routed under. */
  lemma ReportParses(c: Config, s: State, item: Item)
    requires Accounted(s.books) && Grounded(c, s) && item in s.books.inFlight
    ensures Parse(c, item.value).Some? && Parse(c, item.value).value.appId == item.app
  {
    InFlightIsProduced(s.books, item);
    assert WellBorn(c, s, s.books.produced[item.id]);
    hide Decode;
  }

  lemma ApplyRunning(c: Config, s: State, h: Happening)
    requires Accounted(s.books) && Grounded(c, s) && s.running && Enabled(c, s, h)
    ensures Apply(c, s, h).running
  {
    match h
    case Consume(value, key) =>
      if Parse(c, value).Some? { ConsumedFields(s, Parse(c, value).value, key, value); }
    case Look => LookedUpFields(s);
    case Answered(reply) => RepliedFields(c, s, reply);
    case Fan(name) => FannedFields(c, s, name);
    case Fail(item, _, _) => ReportParses(c, s, item);
    case _ =>
    hide Add, FlushAll, Decode, Ranges, FailureKey, Consumed, LookedUp, Replied, Fanned, Accounted, Grounded;
  }

  lemma FailLetters(c: Config, s: State, item: Item, address: string, o: Outcome)
    requires ReadsNothingFromNothing(c) && Accounted(s.books) && Grounded(c, s) && LettersRight(c, s)
    requires Enabled(c, s, Fail(item, address, o))
    ensures LettersRight(c, Failed(c, s, item, address, o))
  {
    ReportParses(c, s, item);
    ParsedIsNotEmpty(c, item.value);
    var d := Dead(item, s.topics[item.id], address);
    var k := DeadKey(c.build, d);
    FailureKeyAccepted(c.build, item.app, d.topic, address, item.value);
    AddAccepts(c.build, c.size, s.store, k, item.value, o);
    LogSnoc(c.build, s.books.dead, d);
    RunSnoc(c.build, c.size, s.letters, AddEvent(k, item.value, o));
    hide Add, Run, Log, Decode, FailureKey, Accounted, Grounded, Validate;
  }

  lemma FlushLettersRight(c: Config, s: State, visits: seq<DeadLetter.Visit>)
    requires LettersRight(c, s) && Enabled(c, s, FlushLetters(visits))
    ensures LettersRight(c, Apply(c, s, FlushLetters(visits)))
  {
    RunSnoc(c.build, c.size, s.letters, FlushEvent(visits));
    FlushAllMeaning(c.build, s.store, visits, "");
    hide Run, Log, FlushAll;
  }

  lemma OtherLetters(c: Config, s: State, h: Happening)
    requires Enabled(c, s, h) && !h.Fail? && !h.FlushLetters?
    ensures var s' := Apply(c, s, h);
            s'.letters == s.letters && s'.store == s.store && s'.books.dead == s.books.dead
  {
    match h
    case Consume(value, key) =>
      if Parse(c, value).Some? { ConsumedFields(s, Parse(c, value).value, key, value); }
    case Look => LookedUpFields(s);
    case Answered(reply) => RepliedFields(c, s, reply);
    case Fan(name) => FannedFields(c, s, name);
    case _ =>
    hide Add, FlushAll, Decode, Ranges, FailureKey, Consumed, LookedUp, Replied, Fanned;
  }

  lemma ApplyLetters(c: Config, s: State, h: Happening)
    requires ReadsNothingFromNothing(c) && Accounted(s.books) && Grounded(c, s) && LettersRight(c, s)
    requires Enabled(c, s, h)
    ensures LettersRight(c, Apply(c, s, h))
  {
    match h
    case Fail(item, address, o) => FailLetters(c, s, item, address, o);
    case FlushLetters(visits) => FlushLettersRight(c, s, visits);
    case _ =>
      OtherLetters(c, s, h);
      hide Apply, Run, Log, Enabled, Accounted, Grounded;
  }
}
