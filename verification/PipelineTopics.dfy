/** Where copies go, in every run of the router: each message is routed by one of Houston's
    answers, and each copy is sent to a topic of it. */
module PipelineTopics {
  import opened Wrappers
  import opened MessageCodec
  import opened Routing
  import opened DeadLetter
  import opened Producer
  import opened Pipeline
  import opened PipelineLaws

  // ---- one answer a message ----

  ghost predicate Snapshot(s: State) {
    && (forall i, j | 0 <= i < |s.books.produced| && 0 <= j < |s.books.produced| ::
          s.books.produced[i].msg == s.books.produced[j].msg
          ==> s.books.produced[i].source == s.books.produced[j].source)
    && (s.job.Fanning? ==> forall i | 0 <= i < |s.books.produced| ::
          s.books.produced[i].msg == s.job.msg ==> s.books.produced[i].source == Some(s.job.ref))
    && (BeforeTheLoop(s.job) ==> forall i | 0 <= i < |s.books.produced| :: s.books.produced[i].msg != s.job.msg)
  }

  /** A message is being handled and has not come to the loop. */
  predicate BeforeTheLoop(j: Job) {
    j.Looking? || j.Asking?
  }

  lemma LookJob(s: State)
    requires s.job.Looking? && LookedUp(s).job.Fanning?
    ensures LookedUp(s).job.msg == s.job.msg && LookedUp(s).job.variable == |s.cells|
  {
  }

  lemma ReplyJob(c: Config, s: State, reply: Reply)
    requires s.job.Asking? && Replied(c, s, reply).job.Fanning?
    ensures reply.Says? && Replied(c, s, reply).job.msg == s.job.msg && Replied(c, s, reply).job.variable == |s.cells|
  {
  }

  lemma FanJob(c: Config, s: State, name: string)
    requires Enabled(c, s, Fan(name))
    ensures Fanned(c, s, name).job == s.job.(remaining := s.job.remaining - {name})
  {
    hide Skips, Assign, Enter;
  }

  /** A message that starts to fan out was already being handled. */
  lemma JobAfter(c: Config, s: State, h: Happening)
    requires Enabled(c, s, h) && Apply(c, s, h).job.Fanning?
    ensures var j := Apply(c, s, h).job;
            || (s.job.Fanning? && j.msg == s.job.msg && j.ref == s.job.ref && j.variable == s.job.variable)
            || (BeforeTheLoop(s.job) && j.msg == s.job.msg && j.variable == |s.cells| && NewItems(c, s, h) == [])
  {
    hide Add, FlushAll, Decode, Ranges, FailureKey, LookedUp, Replied, Fanned;
    match h
    case Look => LookJob(s);
    case Answered(reply) => ReplyJob(c, s, reply);
    case Fan(name) => FanJob(c, s, name);
    case _ =>
  }

  lemma BeforeTheLoopAfter(c: Config, s: State, h: Happening)
    requires Enabled(c, s, h) && BeforeTheLoop(Apply(c, s, h).job)
    ensures NewItems(c, s, h) == []
    ensures if s.job.Idle? then Apply(c, s, h).job.msg == s.messages
            else BeforeTheLoop(s.job) && Apply(c, s, h).job.msg == s.job.msg
  {
    hide Add, FlushAll, Decode, Skips, Ranges, Assign, FailureKey, Enter, Bury, Drop, Arrive, Leave;
  }

  lemma NewItemFacts(c: Config, s: State, h: Happening)
    requires Enabled(c, s, h)
    ensures |NewItems(c, s, h)| <= 1
    ensures forall item | item in NewItems(c, s, h) ::
              !s.job.Idle? && item.msg == s.job.msg && (s.job.Fanning? ==> item.source == Some(s.job.ref))
  {
    hide Add, FlushAll, Decode, Skips, Ranges, Assign, FailureKey, Enter;
  }

  lemma SnapshotGrows(s: State, s': State, added: seq<Item>)
    requires Snapshot(s) && s'.books.produced == s.books.produced + added && |added| <= 1
    requires forall i | 0 <= i < |s.books.produced| :: s.books.produced[i].msg < s.messages
    requires !s.job.Idle? ==> s.job.msg < s.messages
    requires forall item | item in added ::
               !s.job.Idle? && item.msg == s.job.msg && (s.job.Fanning? ==> item.source == Some(s.job.ref))
    requires s'.job.Fanning? ==>
               || (s.job.Fanning? && s'.job.msg == s.job.msg && s'.job.ref == s.job.ref)
               || (added == [] && BeforeTheLoop(s.job) && s'.job.msg == s.job.msg)
    requires BeforeTheLoop(s'.job) ==>
               added == [] && if s.job.Idle? then s'.job.msg == s.messages
                              else BeforeTheLoop(s.job) && s'.job.msg == s.job.msg
    ensures Snapshot(s')
  {
    assert added != [] ==> added[0] in added;
  }

  lemma ApplySnapshot(c: Config, s: State, h: Happening)
    requires Snapshot(s) && Grounded(c, s) && Enabled(c, s, h)
    ensures Snapshot(Apply(c, s, h))
  {
    var s' := Apply(c, s, h);
    ProducedAfter(c, s, h);
    NewItemFacts(c, s, h);
    if s'.job.Fanning? { JobAfter(c, s, h); }
    if BeforeTheLoop(s'.job) { BeforeTheLoopAfter(c, s, h); }
    forall i | 0 <= i < |s.books.produced| ensures s.books.produced[i].msg < s.messages {
      assert WellBorn(c, s, s.books.produced[i]);
    }
    assert JobGrounded(c, s);
    hide Apply, NewItems, Enabled, Grounded, Snapshot, Decode;
    SnapshotGrows(s, s', NewItems(c, s, h));
  }

  // ---- topics ----

  /** The retry topic for a copy without a source; otherwise a topic of the answer it was routed
      by. Repaired, the topic of the integration it is for. */
  ghost predicate RightTopic(c: Config, answers: seq<Published>, item: Item, topic: string) {
    match item.source
    case None => topic == c.retryTopic
    case Some(ref) =>
      && ref < |answers| && item.name in answers[ref].routes
      && (match c.build
          case AsTyped => topic in answers[ref].routes.Values
          case Repaired => topic == answers[ref].routes[item.name])
  }

  ghost predicate CellsRight(c: Config, s: State) {
    && |s.cells| > 0 && s.cells[RETRY] == c.retryTopic
    && (s.job.Fanning? ==> RETRY < s.job.variable < |s.cells|)
    && (forall item | item in s.books.channel ::
          && item.cell < |s.cells| && RightTopic(c, s.answers, item, s.cells[item.cell])
          && (s.job.Fanning? && item.cell == s.job.variable ==> item.source == Some(s.job.ref)))
  }

  ghost predicate SentRight(c: Config, s: State) {
    && (forall id | id in s.topics ::
          id < |s.books.produced| && RightTopic(c, s.answers, s.books.produced[id], s.topics[id]))
    && (forall d | d in s.books.dead :: RightTopic(c, s.answers, d.item, d.topic))
  }

  lemma TopicKept(c: Config, s: State, s': State, item: Item, topic: string)
    requires Extends(s, s') && RightTopic(c, s.answers, item, topic)
    ensures RightTopic(c, s'.answers, item, topic)
  {
    if item.source.Some? { ExtendsKeeps(s, s', item.source.value); }
  }

  /** One assignment to the loop variable leaves every waiting copy a right topic. */
  lemma AssignCells(c: Config, s: State, topic: string, item: Item)
    requires CellsRight(c, s) && s.job.Fanning? && s.job.ref < |s.answers|
    requires topic in s.answers[s.job.ref].routes.Values && item in s.books.channel
    ensures var (cells, cell) := Assign(c.build, s.cells, s.job.variable, topic);
            && item.cell < |cells| && RightTopic(c, s.answers, item, cells[item.cell])
  {
    assert RightTopic(c, s.answers, item, s.cells[item.cell]);
  }

  lemma FanChannel(c: Config, s: State, name: string)
    requires Enabled(c, s, Fan(name))
    ensures var s', j := Fanned(c, s, name), s.job;
            var (cells, cell) := Assign(c.build, s.cells, j.variable, s.answers[j.ref].routes[name]);
            && s'.cells == cells && s'.answers == s.answers
            && s'.job.Fanning? && s'.job.variable == j.variable && s'.job.ref == j.ref
            && forall item | item in s'.books.channel && item !in s.books.channel ::
                 item.cell == cell && item.name == name && item.source == Some(j.ref)
  {
    hide Skips, Assign, Decode;
  }

  lemma FanCells(c: Config, s: State, name: string)
    requires CellsRight(c, s) && JobGrounded(c, s) && Enabled(c, s, Fan(name))
    ensures CellsRight(c, Fanned(c, s, name))
  {
    var s', j := Fanned(c, s, name), s.job;
    var topic := s.answers[j.ref].routes[name];
    FanChannel(c, s, name);
    assert topic in s.answers[j.ref].routes.Values;
    hide Skips, Decode, Fanned;
    forall item | item in s'.books.channel
      ensures item.cell < |s'.cells| && RightTopic(c, s.answers, item, s'.cells[item.cell])
      ensures item.cell == j.variable ==> item.source == Some(j.ref)
    {
      if item in s.books.channel { AssignCells(c, s, topic, item); }
    }
    hide RightTopic;
  }

  /** Before the loop: a variable is made for it, or a copy for the retry topic. */
  ghost predicate BeforeLoop(s: State, s': State) {
    && (s'.cells == s.cells || s'.cells == s.cells + [""])
    && (s'.job.Fanning? ==> s'.job.variable == |s.cells| && s'.cells == s.cells + [""])
    && (forall item | item in s'.books.channel && item !in s.books.channel :: item.source == None && item.cell == RETRY)
  }

  lemma BeforeLoopCells(c: Config, s: State, s': State)
    requires CellsRight(c, s) && !s.job.Fanning? && Extends(s, s') && BeforeLoop(s, s')
    ensures CellsRight(c, s')
  {
    forall item | item in s'.books.channel
      ensures item.cell < |s.cells| && RightTopic(c, s'.answers, item, s.cells[item.cell])
    {
      if item in s.books.channel {
        TopicKept(c, s, s', item, s.cells[item.cell]);
      }
    }
    hide RightTopic;
  }

  lemma LookCells(s: State)
    requires s.job.Looking?
    ensures BeforeLoop(s, LookedUp(s))
  {
  }

  lemma ReplyCells(c: Config, s: State, reply: Reply)
    requires s.job.Asking?
    ensures BeforeLoop(s, Replied(c, s, reply))
  {
  }

  lemma OtherCells(c: Config, s: State, h: Happening)
    requires Enabled(c, s, h) && !h.Look? && !h.Answered? && !h.Fan?
    ensures var s' := Apply(c, s, h);
            && s'.cells == s.cells && (s'.job == s.job || !s'.job.Fanning?)
            && forall item | item in s'.books.channel :: item in s.books.channel
  {
    hide Add, FlushAll, Decode, Skips, Ranges, Assign, FailureKey;
  }

  lemma ApplyCells(c: Config, s: State, h: Happening)
    requires CellsRight(c, s) && Grounded(c, s) && Enabled(c, s, h)
    ensures CellsRight(c, Apply(c, s, h))
  {
    var s' := Apply(c, s, h);
    ApplyExtends(c, s, h);
    match h
    case Look =>
      LookCells(s);
      BeforeLoopCells(c, s, s');
    case Answered(reply) =>
      ReplyCells(c, s, reply);
      BeforeLoopCells(c, s, s');
    case Fan(name) => FanCells(c, s, name);
    case _ =>
      OtherCells(c, s, h);
      forall item | item in s'.books.channel
        ensures RightTopic(c, s'.answers, item, s.cells[item.cell])
      {
        TopicKept(c, s, s', item, s.cells[item.cell]);
      }
      hide Apply, Enabled, Grounded, RightTopic;
  }

  /** What a happening adds to the topics sent and to the dead copies. */
  lemma SentAfter(c: Config, s: State, h: Happening)
    requires Enabled(c, s, h)
    ensures var s' := Apply(c, s, h);
            && s'.topics == (if h.Send? then var item := s.books.channel[0]; s.topics[item.id := s.cells[item.cell]]
                             else s.topics)
            && (s'.books.dead == s.books.dead
                || (h.Fail? && s'.books.dead == s.books.dead + [Dead(h.item, s.topics[h.item.id], h.address)]))
  {
    match h
    case Consume(value, key) =>
      if Parse(c, value).Some? { ConsumedFields(s, Parse(c, value).value, key, value); }
    case Look => LookedUpFields(s);
    case Answered(reply) => RepliedFields(c, s, reply);
    case Fan(name) => FannedFields(c, s, name);
    case _ =>
    hide Add, FlushAll, Decode, Ranges, FailureKey, Consumed, LookedUp, Replied, Fanned;
  }

  lemma ChannelIsProduced(k: Books, item: Item)
    requires Accounted(k) && item in k.channel
    ensures item.id < |k.produced| && k.produced[item.id] == item
  {
    assert item in multiset(k.channel);
    assert item in multiset(k.produced);
    assert item in k.produced;
  }

  lemma ApplySent(c: Config, s: State, h: Happening)
    requires SentRight(c, s) && CellsRight(c, s) && Accounted(s.books) && Enabled(c, s, h)
    ensures SentRight(c, Apply(c, s, h))
  {
    var s' := Apply(c, s, h);
    ApplyExtends(c, s, h);
    ProducedAfter(c, s, h);
    SentAfter(c, s, h);
    if h.Send? { ChannelIsProduced(s.books, s.books.channel[0]); }
    if h.Fail? { InFlightIsProduced(s.books, h.item); }
    forall id | id in s'.topics
      ensures id < |s'.books.produced| && RightTopic(c, s'.answers, s'.books.produced[id], s'.topics[id])
    {
      if h.Send? && id == s.books.channel[0].id {
        TopicKept(c, s, s', s.books.channel[0], s'.topics[id]);
      } else {
        TopicKept(c, s, s', s.books.produced[id], s.topics[id]);
      }
    }
    forall d | d in s'.books.dead ensures RightTopic(c, s'.answers, d.item, d.topic) {
      TopicKept(c, s, s', d.item, d.topic);
    }
    hide Apply, NewItems, Accounted, RightTopic;
  }
}
