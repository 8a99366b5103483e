/** The main results on the router as a whole. */
module Router {
  import opened Builds
  import opened Framing
  import opened MessageCodec
  import opened Routing
  import opened DeadLetter
  import opened Bucket
  import opened Producer
  import opened Pipeline
  import opened PipelineLaws
  import opened PipelineTopics

  // ---- the fan-out is exact ----

  /** The copies of one message for one integration. */
  function Copies(items: seq<Item>, msg: nat, name: string): nat {
    if items == [] then 0
    else
      var last := items[|items| - 1];
      Copies(items[..|items| - 1], msg, name) + if last.msg == msg && last.name == name then 1 else 0
  }

  lemma CopiesSnoc(items: seq<Item>, item: Item, msg: nat, name: string)
    ensures Copies(items + [item], msg, name)
            == Copies(items, msg, name) + if item.msg == msg && item.name == name then 1 else 0
  {
    assert (items + [item])[..|items|] == items;
  }

  lemma {:induction false} NoCopiesYet(items: seq<Item>, msg: nat, name: string)
    requires forall i | 0 <= i < |items| :: items[i].msg != msg
    ensures Copies(items, msg, name) == 0
  {
    if items == [] {
    } else {
      NoCopiesYet(items[..|items| - 1], msg, name);
    }
  }

  /** An integration already looked at has one copy, unless the message skips it; the others have
      none. */
  function Due(b: Build, m: Message, routes: map<string, string>, remaining: set<string>, name: string): nat {
    if name in routes && name !in remaining && !Skips(b, m, name) then 1 else 0
  }

  ghost predicate FanExact(c: Config, s: State) {
    s.job.Fanning? && s.job.ref < |s.answers| ==>
      forall name :: Copies(s.books.produced, s.job.msg, name)
                     == Due(c.build, s.job.message, s.answers[s.job.ref].routes, s.job.remaining, name)
  }

  lemma FanStep(c: Config, s: State, name: string)
    requires Enabled(c, s, Fan(name))
    ensures var s' := Fanned(c, s, name);
            && s'.job == s.job.(remaining := s.job.remaining - {name}) && s'.answers == s.answers
            && s'.books.produced == s.books.produced + NewItems(c, s, Fan(name))
            && (if Skips(c.build, s.job.message, name) then NewItems(c, s, Fan(name)) == []
                else exists item: Item :: NewItems(c, s, Fan(name)) == [item]
                                          && item.msg == s.job.msg && item.name == name)
  {
    hide Assign, Skips;
  }

  lemma FanStepExact(c: Config, s: State, name: string)
    requires FanExact(c, s) && Enabled(c, s, Fan(name))
    ensures FanExact(c, Fanned(c, s, name))
  {
    var s', m, routes := Fanned(c, s, name), s.job.message, s.answers[s.job.ref].routes;
    FanStep(c, s, name);
    assert name in routes && name in s.job.remaining;
    hide Fanned, NewItems, Enabled;
    forall n ensures Copies(s'.books.produced, s.job.msg, n) == Due(c.build, m, routes, s'.job.remaining, n) {
      assert Copies(s.books.produced, s.job.msg, n) == Due(c.build, m, routes, s.job.remaining, n);
      if item: Item :| NewItems(c, s, Fan(name)) == [item] && item.msg == s.job.msg && item.name == name {
        CopiesSnoc(s.books.produced, item, s.job.msg, n);
      }
    }
    hide Copies, Skips;
  }

  /** A message that starts to fan out has every integration ahead of it. */
  ghost predicate Starts(s': State, msg: nat) {
    s'.job.Fanning? ==> s'.job.msg == msg && s'.job.ref < |s'.answers|
                        && s'.job.remaining == s'.answers[s'.job.ref].routes.Keys
  }

  lemma LookStarts(s: State)
    requires s.job.Looking?
    ensures Starts(LookedUp(s), s.job.msg) && LookedUp(s).books == s.books
  {
  }

  lemma ReplyStarts(c: Config, s: State, reply: Reply)
    requires s.job.Asking?
    ensures Starts(Replied(c, s, reply), s.job.msg)
    ensures Replied(c, s, reply).job.Fanning? ==> Replied(c, s, reply).books == s.books
  {
    hide Enter;
  }

  /** And no copies. */
  lemma StartExact(c: Config, s: State, s': State, msg: nat)
    requires Starts(s', msg) && (s'.job.Fanning? ==> s'.books == s.books)
    requires forall i | 0 <= i < |s.books.produced| :: s.books.produced[i].msg != msg
    ensures FanExact(c, s')
  {
    if s'.job.Fanning? {
      forall n ensures Copies(s'.books.produced, s'.job.msg, n) == 0 {
        NoCopiesYet(s.books.produced, msg, n);
      }
    }
    hide Copies, Skips;
  }

  lemma ApplyExact(c: Config, s: State, h: Happening)
    requires FanExact(c, s) && Grounded(c, s) && Snapshot(s) && Enabled(c, s, h)
    ensures FanExact(c, Apply(c, s, h))
  {
    match h
    case Look =>
      LookStarts(s);
      StartExact(c, s, Apply(c, s, h), s.job.msg);
    case Answered(reply) =>
      ReplyStarts(c, s, reply);
      StartExact(c, s, Apply(c, s, h), s.job.msg);
    case Fan(name) => FanStepExact(c, s, name);
    case _ =>
      ProducedAfter(c, s, h);
      ApplyExtends(c, s, h);
      QuietJob(c, s, h);
      QuietExact(c, s, Apply(c, s, h));
      hide Apply, Enabled, FanExact, Grounded, Snapshot;
  }

  lemma QuietExact(c: Config, s: State, s': State)
    requires FanExact(c, s) && JobGrounded(c, s) && Extends(s, s')
    requires (s'.job == s.job || !s'.job.Fanning?) && s'.books.produced == s.books.produced
    ensures FanExact(c, s')
  {
    if s'.job.Fanning? { ExtendsKeeps(s, s', s.job.ref); }
    hide Copies, Due, Parse;
  }

  lemma QuietJob(c: Config, s: State, h: Happening)
    requires Enabled(c, s, h) && !h.Look? && !h.Answered? && !h.Fan?
    ensures Apply(c, s, h).job == s.job || !Apply(c, s, h).job.Fanning?
    ensures NewItems(c, s, h) == []
  {
    hide Add, FlushAll, Decode, Skips, Ranges, Assign, FailureKey, Enter, Bury, Drop, Arrive, Leave;
  }

  // ---- the invariant ----

  ghost predicate Inv(c: Config, s: State) {
    && Accounted(s.books)
    && Counted(s)
    && Grounded(c, s)
    && s.running
    && LettersRight(c, s)
    && Snapshot(s)
    && CellsRight(c, s)
    && PipelineTopics.SentRight(c, s)
    && FanExact(c, s)
  }

  lemma InitialInv(c: Config)
    ensures Inv(c, Initial(c))
  {
  }

  lemma ApplyInv(c: Config, s: State, h: Happening)
    requires ReadsNothingFromNothing(c) && Inv(c, s) && Enabled(c, s, h)
    ensures Inv(c, Apply(c, s, h))
  {
    hide Accounted, Counted, Grounded, LettersRight, Snapshot, CellsRight, PipelineTopics.SentRight, FanExact;
    hide Apply, Enabled, ReadsNothingFromNothing;
    ApplyBooks(c, s, h);
    StepAccounted(s.books, Apply(c, s, h).books);
    ApplyCounted(c, s, h);
    ApplyGrounded(c, s, h);
    ApplyRunning(c, s, h);
    ApplyLetters(c, s, h);
    ApplySnapshot(c, s, h);
    ApplyCells(c, s, h);
    ApplySent(c, s, h);
    ApplyExact(c, s, h);
  }

  lemma {:induction false} AfterInv(c: Config, hs: seq<Happening>)
    requires ReadsNothingFromNothing(c)
    ensures Inv(c, After(c, hs))
  {
    if hs == [] {
      InitialInv(c);
    } else {
      var s, h := After(c, hs[..|hs| - 1]), hs[|hs| - 1];
      AfterInv(c, hs[..|hs| - 1]);
      if Enabled(c, s, h) { ApplyInv(c, s, h); }
      hide Inv, Apply, Enabled, ReadsNothingFromNothing;
    }
  }

  // ---- main results ----

  /** The event loop never leaves early: whatever fails and in whatever order, every copy whose
      report may still come parses, as a message of the application it was routed under, and the
      dead letter queue accepts it. */
  lemma EventLoopStaysOn(c: Config, hs: seq<Happening>, item: Item, topic: string, address: string)
    requires ReadsNothingFromNothing(c) && item in After(c, hs).books.inFlight
    ensures After(c, hs).running
    ensures Parse(c, item.value).Some? && Parse(c, item.value).value.appId == item.app
    ensures Validate(FailureKey(c.build, item.app, topic, address), item.value) == Accept
  {
    AfterInv(c, hs);
    ReportParses(c, After(c, hs), item);
    ParsedIsNotEmpty(c, item.value);
    FailureKeyAccepted(c.build, item.app, topic, address, item.value);
  }

  /** Every copy is sent where one single answer for its application said: a message's copies all
      come from the same answer, whatever updates and resets happen meanwhile. */
  lemma CopiesRoutedByOneAnswer(c: Config, hs: seq<Happening>, i: nat, j: nat)
    requires ReadsNothingFromNothing(c)
    requires i < |After(c, hs).books.produced| && j < |After(c, hs).books.produced|
    ensures var s := After(c, hs);
            var item, other := s.books.produced[i], s.books.produced[j];
            && item.id == i && WellBorn(c, s, item)
            && (item.msg == other.msg ==> item.source == other.source)
            && (i in s.topics ==> RightTopic(c, s.answers, item, s.topics[i]))
  {
    AfterInv(c, hs);
  }

  /** Every message consumed is counted once more: as routed, as retried or as one without
      integrations, or it is being handled. */
  lemma MessagesCounted(c: Config, hs: seq<Happening>)
    requires ReadsNothingFromNothing(c)
    ensures var s := After(c, hs);
            s.counts.consumed == s.counts.routed + s.counts.retried + s.counts.noIntegration
                                 + if s.job.Idle? then 0 else 1
  {
    AfterInv(c, hs);
  }

  /** When the loop over a message's integrations is done, each integration of the answer has
      exactly one copy, unless the message skips it, and nothing else has one. */
  lemma FanOutExact(c: Config, hs: seq<Happening>, name: string)
    requires ReadsNothingFromNothing(c) && Enabled(c, After(c, hs), FinishFan)
    ensures var s := After(c, hs);
            && s.job.ref < |s.answers|
            && Copies(s.books.produced, s.job.msg, name)
               == if name in s.answers[s.job.ref].routes && !Skips(c.build, s.job.message, name) then 1 else 0
  {
    AfterInv(c, hs);
    assert FanExact(c, After(c, hs)) && JobGrounded(c, After(c, hs));
    hide Copies, Accounted, Counted, LettersRight, Snapshot, CellsRight, PipelineTopics.SentRight, Skips, After;
  }

  /** The values of the dead copies of one batch key, in the order they failed. */
  function DeadValues(b: Build, dead: seq<Dead>, k: Key): seq<Data> {
    AcceptedFor(Log(b, dead), k)
  }

  /** End to end, repaired: every copy ever produced is at exactly one place, and of the copies that
      died under a key, S3 has taken the first ones, newline-framed and in order, and the rest are
      queued, in order. That holds whatever Houston, Kafka and S3 do. What S3 took is all still in the
      bucket exactly when no non-empty upload of the key was followed by another in the same second. */
  lemma EndToEnd(c: Config, hs: seq<Happening>, k: Key)
    requires ReadsNothingFromNothing(c) && c.build == Repaired
    ensures var s := After(c, hs);
            var values := DeadValues(c.build, s.books.dead, k);
            && Accounted(s.books)
            && |Held(s.store, k)| <= |values|
            && var taken := |values| - |Held(s.store, k)|;
               && Received(s.store.uploads, k) == Frame(values[..taken]) && Held(s.store, k) == values[taken..]
               && (ReadKey(s.store.uploads, k) == Frame(values[..taken]) <==> !Overwritten(s.store.uploads, k))
  {
    AfterInv(c, hs);
    var s := After(c, hs);
    History(c.size, s.letters, k);
    KeptExactly(c.size, s.letters, k);
    hide After, Run, ReadKey, Overwritten, Frame, Received, Accounted, Counted, Grounded, Snapshot, CellsRight;
  }

  /** End to end, as typed: every copy is at exactly one place too, but what died stays in the queue,
      whole, under a key made of an address, and S3 never receives a byte. */
  lemma TypedEndToEnd(c: Config, hs: seq<Happening>, i: nat, k: Key)
    requires ReadsNothingFromNothing(c) && c.build == AsTyped && i < |After(c, hs).books.dead|
    ensures var s := After(c, hs);
            var dead := DeadKey(c.build, s.books.dead[i]);
            && Accounted(s.books)
            && Received(s.store.uploads, k) == []
            && Held(s.store, dead) == DeadValues(c.build, s.books.dead, dead)
  {
    AfterInv(c, hs);
    var s := After(c, hs);
    var d := s.books.dead[i];
    TypedRun(c.size, s.letters);
    TypedFailureKeySafe(d.item.app, d.topic, d.address);
  }
}
