/** What becomes of the messages whose application is not in the cache. */
module RouterMisses {
  import opened Builds
  import opened Wrappers
  import opened Framing
  import opened MessageCodec
  import opened Routing
  import opened DeadLetter
  import opened Producer
  import opened Pipeline
  import opened PipelineLaws
  import opened PipelineTopics
  import opened Router

  /** As typed, a message that missed has no copies but one for the retry topic, and never comes to the
      loop. */
  ghost predicate MissesUnrouted(s: State) {
    && (forall msg | msg in s.missed :: msg < s.messages)
    && (s.job.Looking? || s.job.Fanning? ==> s.job.msg !in s.missed)
    && (forall i | 0 <= i < |s.books.produced| && s.books.produced[i].source.Some? ::
          s.books.produced[i].msg !in s.missed)
  }

  /** What a happening does to the messages that missed. */
  ghost predicate MissedChange(s: State, s': State) {
    && s.messages <= s'.messages
    && (s'.missed == s.missed
        || (s.job.Looking? && s'.missed == s.missed + {s.job.msg} && s'.job.Asking?))
    && (s'.job.Fanning? ==> !s.job.Idle? && !s.job.Asking? && s'.job.msg == s.job.msg && s'.missed == s.missed)
    && (s'.job.Looking? ==> if s.job.Looking? then s'.job.msg == s.job.msg
                            else s'.job.msg == s.messages && s'.missed == s.missed)
  }

  lemma LookMisses(s: State)
    requires s.job.Looking?
    ensures MissedChange(s, LookedUp(s))
  {
  }

  lemma ReplyMisses(c: Config, s: State, reply: Reply)
    requires c.build == AsTyped && s.job.Asking?
    ensures MissedChange(s, Replied(c, s, reply))
  {
  }

  lemma FanMisses(c: Config, s: State, name: string)
    requires Enabled(c, s, Fan(name))
    ensures MissedChange(s, Fanned(c, s, name))
  {
    hide Skips, Assign, Enter;
  }

  lemma MissedAfter(c: Config, s: State, h: Happening)
    requires c.build == AsTyped && Enabled(c, s, h)
    ensures MissedChange(s, Apply(c, s, h))
  {
    hide Add, FlushAll, Decode, Ranges, FailureKey, LookedUp, Replied, Fanned;
    match h
    case Look => LookMisses(s);
    case Answered(reply) => ReplyMisses(c, s, reply);
    case Fan(name) => FanMisses(c, s, name);
    case _ =>
  }

  lemma MissesGrow(s: State, s': State, added: seq<Item>)
    requires MissesUnrouted(s) && Snapshot(s) && (!s.job.Idle? ==> s.job.msg < s.messages) && MissedChange(s, s')
    requires s'.books.produced == s.books.produced + added
    requires forall item | item in added && item.source.Some? ::
               s.job.Fanning? && item.msg == s.job.msg && s'.missed == s.missed
    ensures MissesUnrouted(s')
  {
    forall i | 0 <= i < |s'.books.produced| && s'.books.produced[i].source.Some?
      ensures s'.books.produced[i].msg !in s'.missed
    {
      if i >= |s.books.produced| { assert s'.books.produced[i] in added; }
    }
  }

  lemma ApplyMisses(c: Config, s: State, h: Happening)
    requires c.build == AsTyped && Inv(c, s) && MissesUnrouted(s) && Enabled(c, s, h)
    ensures MissesUnrouted(Apply(c, s, h))
  {
    MissedAfter(c, s, h);
    ProducedAfter(c, s, h);
    NewItemFacts(c, s, h);
    NewItemSource(c, s, h);
    assert Snapshot(s) && (!s.job.Idle? ==> s.job.msg < s.messages) by {
      assert JobGrounded(c, s);
      hide Decode;
    }
    hide Apply, Enabled, NewItems, Inv, MissesUnrouted, MissedChange, Snapshot;
    MissesGrow(s, Apply(c, s, h), NewItems(c, s, h));
  }

  /** A copy with a source comes from the loop. */
  lemma NewItemSource(c: Config, s: State, h: Happening)
    requires Enabled(c, s, h)
    ensures forall item | item in NewItems(c, s, h) && item.source.Some? :: s.job.Fanning? && h.Fan?
    ensures h.Fan? ==> Apply(c, s, h).missed == s.missed
  {
    hide Skips, Assign, Enter;
  }

  lemma {:induction false} FromMisses(c: Config, hs: seq<Happening>)
    requires c.build == AsTyped && ReadsNothingFromNothing(c)
    ensures MissesUnrouted(After(c, hs))
  {
    if hs == [] {
    } else {
      var s, h := After(c, hs[..|hs| - 1]), hs[|hs| - 1];
      FromMisses(c, hs[..|hs| - 1]);
      AfterInv(c, hs[..|hs| - 1]);
      if Enabled(c, s, h) { ApplyMisses(c, s, h); }
      hide Inv, MissesUnrouted, Apply, Enabled, ReadsNothingFromNothing;
    }
  }

  // ---- the first message after a reset ----

  /** The happening puts an answer for the application into the cache. */
  predicate Brings(s: State, h: Happening, app: string) {
    || (h.Refresh? && h.app == app)
    || (h.Answered? && h.reply.Says? && s.job.Asking? && s.job.message.appId == app)
  }

  /** Nothing that happens does. */
  ghost predicate NothingBrings(c: Config, s: State, hs: seq<Happening>, app: string) {
    hs == [] ||
    (NothingBrings(c, s, hs[..|hs| - 1], app) && !Brings(From(c, s, hs[..|hs| - 1]), hs[|hs| - 1], app))
  }

  lemma UncachedStep(c: Config, s: State, h: Happening, app: string)
    requires Enabled(c, s, h) && app !in s.cache && !Brings(s, h, app)
    ensures app !in Apply(c, s, h).cache
  {
    hide Add, FlushAll, Decode, Ranges, FailureKey, Enter, Bury, Drop, Arrive, Leave, Skips, Assign;
  }

  lemma {:induction false} UncachedStays(c: Config, s: State, hs: seq<Happening>, app: string)
    requires app !in s.cache && NothingBrings(c, s, hs, app)
    ensures app !in From(c, s, hs).cache
  {
    if hs == [] {
    } else {
      var s', h := From(c, s, hs[..|hs| - 1]), hs[|hs| - 1];
      UncachedStays(c, s, hs[..|hs| - 1], app);
      if Enabled(c, s', h) { UncachedStep(c, s', h, app); }
      hide Apply, Enabled, Brings;
    }
  }

  lemma MissedStep(c: Config, s: State, h: Happening, msg: nat)
    requires Enabled(c, s, h) && msg in s.missed
    ensures msg in Apply(c, s, h).missed
  {
    hide Add, FlushAll, Decode, Ranges, FailureKey, Enter, Bury, Drop, Arrive, Leave, Skips, Assign;
  }

  lemma {:induction false} MissedStays(c: Config, s: State, hs: seq<Happening>, msg: nat)
    requires msg in s.missed
    ensures msg in From(c, s, hs).missed
  {
    if hs == [] {
    } else {
      var s', h := From(c, s, hs[..|hs| - 1]), hs[|hs| - 1];
      MissedStays(c, s, hs[..|hs| - 1], msg);
      if Enabled(c, s', h) { MissedStep(c, s', h, msg); }
      hide Apply, Enabled;
    }
  }

  lemma ConsumeMisses(c: Config, s: State, m: Message, key: Data, value: Data)
    requires s.job.Idle? && Parse(c, value) == Some(m) && m.appId !in s.cache
    ensures s.messages in From(c, s, [Consume(value, key)] + [Look]).missed
  {
    var h := Consume(value, key);
    assert ([h] + [Look])[..1] == [h] && [h][..0] == [];
    assert From(c, s, [h]) == Consumed(s, m, key, value);
    hide Decode;
  }

  /** As typed, the first message of an application after a reset is never routed: if nothing has put its
      application into the cache since, then whatever happens afterwards, its only copy, if any, is for
      the retry topic. */
  lemma TypedFirstAfterReset(c: Config, before: seq<Happening>, quiet: seq<Happening>, m: Message,
                             key: Data, value: Data, later: seq<Happening>, i: nat)
    requires c.build == AsTyped && ReadsNothingFromNothing(c) && Parse(c, value) == Some(m)
    requires NothingBrings(c, After(c, before + [ResetCache]), quiet, m.appId)
    requires After(c, before + [ResetCache] + quiet).job.Idle?
    requires var hs := before + [ResetCache] + quiet + ([Consume(value, key)] + [Look]) + later;
             i < |After(c, hs).books.produced|
             && After(c, hs).books.produced[i].msg == After(c, before + [ResetCache] + quiet).messages
    ensures var hs := before + [ResetCache] + quiet + ([Consume(value, key)] + [Look]) + later;
            After(c, hs).books.produced[i].source == None
  {
    var reset := before + [ResetCache];
    assert reset[..|before|] == before;
    assert After(c, reset).cache == map[];
    var s := After(c, reset + quiet);
    hide From;
    FromAppend(c, Initial(c), reset, quiet);
    UncachedStays(c, After(c, reset), quiet, m.appId);
    var steps := [Consume(value, key)] + [Look];
    FromAppend(c, Initial(c), reset + quiet, steps);
    ConsumeMisses(c, s, m, key, value);
    FromAppend(c, Initial(c), reset + quiet + steps, later);
    MissedStays(c, After(c, reset + quiet + steps), later, s.messages);
    FromMisses(c, reset + quiet + steps + later);
    hide NothingBrings, ReadsNothingFromNothing, Decode;
  }

  /** As typed, in every run no message that missed is ever routed. */
  lemma TypedMissesUnrouted(c: Config, hs: seq<Happening>, i: nat)
    requires c.build == AsTyped && ReadsNothingFromNothing(c) && i < |After(c, hs).books.produced|
    ensures After(c, hs).books.produced[i].msg in After(c, hs).missed
            ==> After(c, hs).books.produced[i].source == None
  {
    FromMisses(c, hs);
  }
}
