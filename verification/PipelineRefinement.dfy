/** Undisturbed, the transition system's small steps on one message are the producer's
    HandleMessage. */
module PipelineRefinement {
  import opened Framing
  import opened Wrappers
  import opened MessageCodec
  import opened Routing
  import opened Producer
  import opened Pipeline
  import IntegrationCache

  function CopiesOf(items: seq<Item>): seq<Copy> {
    if items == [] then []
    else
      var last := items[|items| - 1];
      CopiesOf(items[..|items| - 1]) + [Copy(last.name, last.cell, last.key, last.value)]
  }

  lemma CopiesOfSnoc(items: seq<Item>, item: Item)
    ensures CopiesOf(items + [item]) == CopiesOf(items) + [Copy(item.name, item.cell, item.key, item.value)]
  {
    assert (items + [item])[..|items|] == items;
  }

  /** What the producer sees of the state. */
  function LineOf(s: State): Line {
    Line(s.cells, CopiesOf(s.books.channel))
  }

  /** The cache has an answer for the message. */
  predicate Hit(s: State, m: Message) {
    Knows(s, s.cache, m.appId)
  }

  /** What the cache answers the producer. */
  function AnswerOf(c: Config, s: State, m: Message, reply: Reply): Answer {
    if Hit(s, m) then Found(Some(s.answers[s.cache[m.appId]].routes))
    else
      match reply
      case Down => Unavailable
      case Says(routes) => Found(if c.build.AsTyped? then None else Some(routes))
  }

  function Fans(order: seq<string>): seq<Happening> {
    if order == [] then [] else Fans(order[..|order| - 1]) + [Fan(order[|order| - 1])]
  }

  /** A state that is about to fan out a message over some integrations. */
  ghost predicate Begun(s: State, l: Line, ints: map<string, string>) {
    && s.job.Fanning? && s.job.variable == |l.cells| && s.job.remaining == ints.Keys
    && s.job.ref < |s.answers| && s.answers[s.job.ref].routes == ints
    && LineOf(s) == l.(cells := l.cells + [""])
  }

  lemma FannedLine(c: Config, s: State, name: string)
    requires Enabled(c, s, Fan(name))
    ensures var s', j := Fanned(c, s, name), s.job;
            && LineOf(s') == Iterate(c.build, LineOf(s), j.variable, j.message, j.key, j.value,
                                     name, s.answers[j.ref].routes[name])
            && s'.job == j.(remaining := j.remaining - {name})
            && s'.answers == s.answers && s'.counts == s.counts
  {
    var j := s.job;
    var cell := Assign(c.build, s.cells, j.variable, s.answers[j.ref].routes[name]).1;
    CopiesOfSnoc(s.books.channel,
                 Item(|s.books.produced|, j.msg, j.message.appId, name, Some(j.ref), cell, j.key, j.value));
    hide CopiesOf, Skips, Assign;
  }

  /** A state in the middle of the loop, some integrations done. */
  ghost predicate Looped(c: Config, s: State, s': State, l: Line, ints: map<string, string>, done: seq<string>)
    requires s.job.Fanning? && forall k | k in done :: k in ints
  {
    && LineOf(s') == FanOut(c.build, l, s.job.message, s.job.key, s.job.value, ints, done)
    && s'.job == s.job.(remaining := ints.Keys - set k | k in done)
    && s'.answers == s.answers && s'.counts == s.counts
  }

  lemma LoopCanStep(c: Config, s: State, s': State, l: Line, ints: map<string, string>, done: seq<string>, name: string)
    requires Begun(s, l, ints) && name in ints && name !in done && forall k | k in done :: k in ints
    requires Looped(c, s, s', l, ints, done)
    ensures Enabled(c, s', Fan(name))
  {
    assert LineOf(s').cells == s'.cells;
    hide CopiesOf;
  }

  lemma LoopStep(c: Config, s: State, s': State, l: Line, ints: map<string, string>, done: seq<string>, name: string)
    requires Begun(s, l, ints) && name in ints && name !in done && forall k | k in done :: k in ints
    requires Looped(c, s, s', l, ints, done)
    ensures Enabled(c, s', Fan(name)) && Looped(c, s, Fanned(c, s', name), l, ints, done + [name])
  {
    LoopCanStep(c, s, s', l, ints, done, name);
    hide Fanned, LineOf, Enabled;
    FannedLine(c, s', name);
    var m, key, value, next := s.job.message, s.job.key, s.job.value, done + [name];
    assert FanOut(c.build, l, m, key, value, ints, next)
        == Iterate(c.build, FanOut(c.build, l, m, key, value, ints, done), |l.cells|, m, key, value, name, ints[name])
    by {
      assert next[..|next| - 1] == done;
      hide Iterate;
    }
    assert (set k | k in next) == (set k | k in done) + {name};
    hide Iterate, FanOut;
  }

  /** The loop, one happening an iteration. */
  lemma {:induction false} FansAreTheLoop(c: Config, s: State, l: Line, ints: map<string, string>, order: seq<string>)
    requires Begun(s, l, ints) && Distinct(order) && forall k | k in order :: k in ints
    ensures Looped(c, s, From(c, s, Fans(order)), l, ints, order)
  {
    if order != [] {
      var init, name := order[..|order| - 1], order[|order| - 1];
      assert order == init + [name];
      DistinctSnoc(init, name);
      FansAreTheLoop(c, s, l, ints, init);
      FromSnoc(c, s, Fans(init), Fan(name));
      LoopStep(c, s, From(c, s, Fans(init)), l, ints, init, name);
      hide Looped, From, Enabled, Fanned;
    } else {
      assert ints.Keys - {} == ints.Keys;
    }
  }

  /** The happenings up to the loop: Houston is asked only on a miss. */
  function Opening(s: State, m: Message, key: Data, value: Data, reply: Reply): seq<Happening> {
    [Consume(value, key)] + [Look] + if Hit(s, m) then [] else [Answered(reply)]
  }

  function Closing(fate: Fate, order: seq<string>): seq<Happening> {
    if fate.FannedOut? then Fans(order) + [FinishFan] else []
  }

  function Looked(s: State, m: Message, key: Data, value: Data): State {
    LookedUp(Consumed(s, m, key, value))
  }

  function Opened(c: Config, s: State, m: Message, key: Data, value: Data, reply: Reply): State {
    var s1 := Looked(s, m, key, value);
    if Hit(s, m) then s1 else Replied(c, s1, reply)
  }

  lemma LookSteps(c: Config, s: State, m: Message, key: Data, value: Data)
    requires s.job.Idle? && Parse(c, value) == Some(m)
    ensures From(c, s, [Consume(value, key)] + [Look]) == Looked(s, m, key, value)
  {
    var h, s1 := Consume(value, key), Consumed(s, m, key, value);
    assert [] + [h] == [h] && From(c, s, []) == s;
    assert Enabled(c, s, h) && Apply(c, s, h) == s1;
    FromSnoc(c, s, [], h);
    assert Enabled(c, s1, Look) && Apply(c, s1, Look) == LookedUp(s1);
    FromSnoc(c, s, [h], Look);
    hide From, Consumed, LookedUp, Enabled, Apply, Decode;
  }

  lemma OpeningIsOpened(c: Config, s: State, m: Message, key: Data, value: Data, reply: Reply)
    requires s.job.Idle? && Parse(c, value) == Some(m)
    ensures From(c, s, Opening(s, m, key, value, reply)) == Opened(c, s, m, key, value, reply)
  {
    var hs, s1 := [Consume(value, key)] + [Look], Looked(s, m, key, value);
    LookSteps(c, s, m, key, value);
    if Hit(s, m) {
      assert hs + [] == hs;
    } else {
      FromSnoc(c, s, hs, Answered(reply));
      assert Enabled(c, s1, Answered(reply)) && Apply(c, s1, Answered(reply)) == Replied(c, s1, reply);
    }
    hide From, Replied, Enabled, Apply, Looked;
  }

  /** A state that is done with the message. */
  ghost predicate Settled(c: Config, s: State, s': State, m: Message, key: Data, value: Data,
                          answer: Answer, order: seq<string>)
    requires FateOf(answer).FannedOut? ==> forall k | k in order :: k in answer.integrations.value
  {
    && LineOf(s') == Handled(c.build, LineOf(s), m, key, value, answer, order)
    && s'.counts == Count(s.counts, FateOf(answer))
    && s'.job == Idle
  }

  /** A state in which HandleMessage has come to the loop. */
  ghost predicate AtLoop(s: State, s': State, m: Message, key: Data, value: Data, ints: map<string, string>) {
    && Begun(s', LineOf(s), ints)
    && s'.job.message == m && s'.job.key == key && s'.job.value == value
    && s'.counts == s.counts.(consumed := s.counts.consumed + 1)
  }

  lemma BeginIsHandled(s: State, s1: State, msg: nat, m: Message, key: Data, value: Data, ref: nat)
    requires ref < |s1.answers| && s1.books == s.books && s1.cells == s.cells
    requires s1.counts == s.counts.(consumed := s.counts.consumed + 1)
    ensures var s', ints := Begin(s1, msg, m, key, value, ref), s1.answers[ref].routes;
            if |ints| == 0 then LineOf(s') == LineOf(s) && s'.job == Idle && s'.counts == Count(s.counts, NoIntegration)
            else AtLoop(s, s', m, key, value, ints)
  {
    hide CopiesOf;
  }

  lemma HitIsHandled(c: Config, s: State, m: Message, key: Data, value: Data, reply: Reply)
    requires s.job.Idle? && Hit(s, m)
    ensures var s', answer := Looked(s, m, key, value), AnswerOf(c, s, m, reply);
            if FateOf(answer).FannedOut? then AtLoop(s, s', m, key, value, answer.integrations.value)
            else Settled(c, s, s', m, key, value, answer, [])
  {
    BeginIsHandled(s, Consumed(s, m, key, value), s.messages, m, key, value, s.cache[m.appId]);
    hide CopiesOf, FanOut, Begin, AtLoop;
  }

  lemma MissIsHandled(c: Config, s: State, m: Message, key: Data, value: Data, reply: Reply)
    requires s.job.Idle? && !Hit(s, m)
    ensures var s', answer := Replied(c, Looked(s, m, key, value), reply), AnswerOf(c, s, m, reply);
            if FateOf(answer).FannedOut? then AtLoop(s, s', m, key, value, answer.integrations.value)
            else Settled(c, s, s', m, key, value, answer, [])
  {
    var s1 := Looked(s, m, key, value).(job := Idle);
    if reply.Down? {
      CopiesOfSnoc(s.books.channel, Item(|s.books.produced|, s.messages, m.appId, "", None, RETRY, key, value));
    } else {
      BeginIsHandled(s, Publish(s1, m.appId, reply.routes), s.messages, m, key, value, |s.answers|);
    }
    hide CopiesOf, FanOut, Begin, AtLoop;
  }

  /** Up to the loop, the steps do what HandleMessage does. */
  lemma OpeningIsHandled(c: Config, s: State, m: Message, key: Data, value: Data, reply: Reply)
    requires s.job.Idle?
    ensures var s', answer := Opened(c, s, m, key, value, reply), AnswerOf(c, s, m, reply);
            if FateOf(answer).FannedOut? then AtLoop(s, s', m, key, value, answer.integrations.value)
            else Settled(c, s, s', m, key, value, answer, [])
  {
    if Hit(s, m) {
      HitIsHandled(c, s, m, key, value, reply);
    } else {
      MissIsHandled(c, s, m, key, value, reply);
    }
    hide Looked, Replied, Hit, AnswerOf, AtLoop, Settled;
  }

  lemma LoopIsHandled(c: Config, s: State, s1: State, m: Message, key: Data, value: Data,
                      ints: map<string, string>, order: seq<string>)
    requires AtLoop(s, s1, m, key, value, ints) && Distinct(order) && ints != map[]
    requires forall k :: k in order <==> k in ints
    ensures Settled(c, s, From(c, s1, Fans(order) + [FinishFan]), m, key, value, Found(Some(ints)), order)
  {
    FansAreTheLoop(c, s1, LineOf(s), ints, order);
    FromSnoc(c, s1, Fans(order), FinishFan);
    assert ints.Keys - (set k | k in order) == {};
    assert ints.Keys != {};
    hide From, FanOut, CopiesOf, Fans;
  }

  /** Undisturbed, the steps on one message end with exactly the copies, variables and counts that
      HandleMessage ends with, whatever the cache answers and in whatever order the integrations
      are ranged over. */
  lemma HandledInSteps(c: Config, s: State, m: Message, key: Data, value: Data, reply: Reply, order: seq<string>)
    requires s.job.Idle? && Parse(c, value) == Some(m) && Distinct(order)
    requires var answer := AnswerOf(c, s, m, reply);
             FateOf(answer).FannedOut? ==> forall k :: k in order <==> k in answer.integrations.value
    ensures var answer := AnswerOf(c, s, m, reply);
            var steps := Opening(s, m, key, value, reply) + Closing(FateOf(answer), order);
            var s' := From(c, s, steps);
            && LineOf(s') == Handled(c.build, LineOf(s), m, key, value, answer, order)
            && s'.counts == Count(s.counts, FateOf(answer))
            && s'.job == Idle
  {
    var answer := AnswerOf(c, s, m, reply);
    OpeningIsOpened(c, s, m, key, value, reply);
    OpeningIsHandled(c, s, m, key, value, reply);
    FromAppend(c, s, Opening(s, m, key, value, reply), Closing(FateOf(answer), order));
    var s1 := Opened(c, s, m, key, value, reply);
    hide Opened, Opening, AnswerOf, LineOf, Fans, Decode, AtLoop, FanOut;
    if FateOf(answer).FannedOut? {
      LoopIsHandled(c, s, s1, m, key, value, answer.integrations.value, order);
    } else {
      assert From(c, s1, []) == s1;
    }
    hide From;
  }

  /** A message that does not parse changes nothing, as in HandleMessage. */
  lemma UnparsedChangesNothing(c: Config, s: State, key: Data, value: Data)
    requires s.job.Idle? && Parse(c, value) == None
    ensures Enabled(c, s, Consume(value, key)) && Apply(c, s, Consume(value, key)) == s
  {
    hide Decode;
  }

  // ---- the cache ----

  ghost predicate RefersToAnswers(s: State) {
    forall app | app in s.cache :: s.cache[app] < |s.answers|
  }

  /** The cache of the transition system as the cache's own table; an answer's place in the order of
      publication stands for its time. */
  ghost function TableOf(s: State): IntegrationCache.Table
    requires RefersToAnswers(s)
  {
    map app | app in s.cache :: IntegrationCache.Cached(s.answers[s.cache[app]].routes, s.cache[app])
  }

  function HoustonSays(reply: Reply): IntegrationCache.Reply {
    match reply
    case Down => IntegrationCache.Error
    case Says(routes) => IntegrationCache.Says(routes)
  }

  function Answering(r: IntegrationCache.Result): Answer {
    match r
    case Failed => Unavailable
    case Nil => Found(None)
    case Answer(cached) => Found(Some(cached.routes))
  }

  lemma PublishIsUpdate(s: State, app: string, routes: map<string, string>)
    requires RefersToAnswers(s)
    ensures var s' := Publish(s, app, routes);
            && RefersToAnswers(s')
            && TableOf(s') == IntegrationCache.Update(TableOf(s), app, IntegrationCache.Says(routes), |s.answers|)
  {
    var s' := Publish(s, app, routes);
    assert forall a | a in s.cache :: s'.answers[s.cache[a]] == s.answers[s.cache[a]];
  }

  /** On a hit nothing changes; on a miss the cache is filled unless Houston fails. */
  lemma OpenedCache(c: Config, s: State, m: Message, key: Data, value: Data, reply: Reply)
    requires RefersToAnswers(s)
    ensures var s' := Opened(c, s, m, key, value, reply);
            var s1 := if m.appId !in s.cache && reply.Says? then Publish(s, m.appId, reply.routes) else s;
            s'.cache == s1.cache && s'.answers == s1.answers
  {
    hide Enter;
  }

  lemma SameTable(s: State, s': State)
    requires RefersToAnswers(s) && s'.cache == s.cache && s'.answers == s.answers
    ensures RefersToAnswers(s') && TableOf(s') == TableOf(s)
  {
  }

  lemma AnswerIsLookup(c: Config, s: State, m: Message, reply: Reply, now: nat)
    requires RefersToAnswers(s)
    ensures AnswerOf(c, s, m, reply)
            == Answering(IntegrationCache.Lookup(c.build, TableOf(s), m.appId, HoustonSays(reply), now).0)
  {
  }

  /** Undisturbed, the transition system reads and fills its cache as the cache does. */
  lemma CacheRefined(c: Config, s: State, m: Message, key: Data, value: Data, reply: Reply)
    requires RefersToAnswers(s)
    ensures var (r, table) := IntegrationCache.Lookup(c.build, TableOf(s), m.appId, HoustonSays(reply), |s.answers|);
            var s' := Opened(c, s, m, key, value, reply);
            && RefersToAnswers(s') && TableOf(s') == table
            && AnswerOf(c, s, m, reply) == Answering(r)
  {
    AnswerIsLookup(c, s, m, reply, |s.answers|);
    OpenedCache(c, s, m, key, value, reply);
    var s' := Opened(c, s, m, key, value, reply);
    hide Opened, Publish, AnswerOf, Answering;
    if m.appId !in s.cache && reply.Says? {
      PublishIsUpdate(s, m.appId, reply.routes);
      SameTable(Publish(s, m.appId, reply.routes), s');
    } else {
      SameTable(s, s');
    }
  }

  /** A refresh does to the cache what an update does, and a reset empties it. */
  lemma RefreshAndReset(c: Config, s: State, app: string, routes: map<string, string>)
    requires RefersToAnswers(s)
    ensures var s' := Apply(c, s, Refresh(app, routes));
            && RefersToAnswers(s')
            && TableOf(s') == IntegrationCache.Update(TableOf(s), app, IntegrationCache.Says(routes), |s.answers|)
            && s'.books == s.books && s'.job == s.job && s'.store == s.store
    ensures var s' := Apply(c, s, ResetCache);
            RefersToAnswers(s') && TableOf(s') == map[] && s'.books == s.books && s'.job == s.job && s'.store == s.store
  {
    PublishIsUpdate(s, app, routes);
  }

  /** The table a message has fetched, after a reset and an update of its application. */
  lemma TableStays(s: State, app: string, routes: map<string, string>)
    requires Knows(s, s.cache, app)
    ensures var s' := Publish(s.(older := s.older + [s.cache], cache := map[]), app, routes);
            && TableAt(s', |s.older|) == s.cache && Knows(s', s.cache, app)
            && s'.answers[s.cache[app]] == s.answers[s.cache[app]]
  {
  }

  /** A message that has fetched the table is routed by it, whatever becomes of the cache before it looks:
      here a reset and an update of its application. */
  lemma FetchedTableRoutes(c: Config, s: State, m: Message, key: Data, value: Data, routes: map<string, string>)
    requires s.job.Idle? && Parse(c, value) == Some(m) && Hit(s, m) && s.answers[s.cache[m.appId]].routes != map[]
    ensures var s' := From(c, s, [Consume(value, key)] + [ResetCache] + [Refresh(m.appId, routes)] + [Look]);
            s'.job.Fanning? && s'.job.ref == s.cache[m.appId] && s'.job.message == m
  {
    var h, s1 := Consume(value, key), Consumed(s, m, key, value);
    assert From(c, s, []) == s && [] + [h] == [h];
    assert Enabled(c, s, h) && Apply(c, s, h) == s1;
    var s2 := s1.(older := s1.older + [s1.cache], cache := map[]);
    assert Enabled(c, s1, ResetCache) && Apply(c, s1, ResetCache) == s2;
    var s3 := Publish(s2, m.appId, routes);
    assert Enabled(c, s2, Refresh(m.appId, routes)) && Apply(c, s2, Refresh(m.appId, routes)) == s3;
    assert Enabled(c, s3, Look) && Apply(c, s3, Look) == LookedUp(s3);
    TableStays(s1, m.appId, routes);
    assert s3.answers[s.cache[m.appId]].routes != map[];
    hide From, Decode, Apply, Enabled, Publish;
    FromSnoc(c, s, [], h);
    FromSnoc(c, s, [h], ResetCache);
    FromSnoc(c, s, [h] + [ResetCache], Refresh(m.appId, routes));
    FromSnoc(c, s, [h] + [ResetCache] + [Refresh(m.appId, routes)], Look);
  }
}
