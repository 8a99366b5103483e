/** The whole router as one transition system: consuming, fanning out, sending, delivery reports,
    dead letters, cache updates and resets, in any interleaving and with any failures. */
module Pipeline {
  import opened Builds
  import opened Text
  import opened Framing
  import opened Wrappers
  import opened Lexer
  import opened MessageCodec
  import opened Routing
  import opened DeadLetter
  import opened Producer

  /** `lex` is how the lexer reads a message's bytes; it reads nothing from nothing. */
  datatype Config = Config(build: Build, size: int64, retryOn: bool, retryTopic: string,
                           lex: Data -> seq<Token>)

  ghost predicate ReadsNothingFromNothing(c: Config) {
    c.lex([]) == []
  }

  function Parse(c: Config, value: Data): Option<Message> {
    Decode(c.lex(value))
  }

  /** One copy handed to the producer. `source` is the answer it was routed by, None for a copy to
      the retry topic; `msg` numbers the message it copies. */
  datatype Item = Item(id: nat, msg: nat, app: string, name: string, source: Option<nat>,
                       cell: nat, key: Data, value: Data)

  /** The message being handled, if any: once it has fetched a table of the cache and before it looks
      into it, while Houston is asked for its integrations, or while it is fanned out. */
  datatype Job =
    | Idle
    | Looking(msg: nat, message: Message, key: Data, value: Data, table: nat)
    | Asking(msg: nat, message: Message, key: Data, value: Data)
    | Fanning(msg: nat, message: Message, key: Data, value: Data, ref: nat, variable: nat,
              remaining: set<string>)

  /** A copy whose delivery failed and that was queued, with the topic it was sent to and the
      address that topic was reported at. */
  datatype Dead = Dead(item: Item, topic: string, address: string)

  /** An answer Houston gave for an application, in the map it was put in. */
  datatype Published = Published(app: string, routes: map<string, string>)

  /** Every copy ever produced, and the copies at each place. */
  datatype Books = Books(produced: seq<Item>, channel: seq<Item>, inFlight: multiset<Item>,
                         delivered: multiset<Item>, dropped: multiset<Item>, dead: seq<Dead>)

  function Enter(k: Books, item: Item): Books {
    k.(produced := k.produced + [item], channel := k.channel + [item])
  }

  function Leave(k: Books): Books
    requires k.channel != []
  {
    k.(channel := k.channel[1..], inFlight := k.inFlight + multiset{k.channel[0]})
  }

  function Arrive(k: Books, item: Item): Books {
    k.(inFlight := k.inFlight - multiset{item}, delivered := k.delivered + multiset{item})
  }

  function Drop(k: Books, item: Item): Books {
    k.(inFlight := k.inFlight - multiset{item}, dropped := k.dropped + multiset{item})
  }

  function Bury(k: Books, d: Dead): Books {
    k.(inFlight := k.inFlight - multiset{d.item}, dead := k.dead + [d])
  }

  /** `answers` are Houston's answers in the order they were published; `cache`, the table in use, and
      `older`, those that resets have replaced, refer to them. `topics` is where each sent copy went.
      `letters` are the operations of the dead letter queue, `store` its state. `missed` only observes:
      the messages whose application was not in the table. */
  datatype State = State(
    books: Books, cells: seq<string>, topics: map<nat, string>, messages: nat,
    answers: seq<Published>, older: seq<map<string, nat>>, cache: map<string, nat>, job: Job, counts: Counts,
    running: bool, letters: seq<Event>, store: Store, missed: set<nat>)

  datatype Reply = Down | Says(routes: map<string, string>)

  datatype Happening =
    | Consume(value: Data, key: Data)
    | Look                    // the message being handled looks into its table
    | Answered(reply: Reply)  // Houston answers a miss
    | Fan(name: string)
    | FinishFan
    | Send
    | Deliver(item: Item)
    | Fail(item: Item, address: string, outcome: Outcome)
    | FlushLetters(visits: seq<DeadLetter.Visit>)
    | Refresh(app: string, routes: map<string, string>)
    | ResetCache

  function Initial(c: Config): State {
    State(Books([], [], multiset{}, multiset{}, multiset{}, []), [c.retryTopic], map[], 0,
          [], [], map[], Idle, Counts(0, 0, 0, 0), true, [], EMPTY, {})
  }

  ghost predicate Enabled(c: Config, s: State, h: Happening) {
    match h
    case Consume(_, _) => s.job.Idle?
    case Look => s.job.Looking?
    case Answered(_) => s.job.Asking?
    case Fan(name) =>
      s.job.Fanning? && name in s.job.remaining && s.job.ref < |s.answers|
      && name in s.answers[s.job.ref].routes && s.job.variable < |s.cells|
    case FinishFan => s.job.Fanning? && s.job.remaining == {}
    case Send => s.books.channel != [] && s.books.channel[0].cell < |s.cells|
    case Deliver(item) =>
      s.running && item in s.books.inFlight && item.id in s.topics && s.topics[item.id] != ""
    case Fail(item, _, _) => s.running && item in s.books.inFlight && item.id in s.topics
    case FlushLetters(visits) => Ranges(c.build, s.store, visits)
    case _ => true
  }

  function Push(s: State, item: Item): State {
    s.(books := Enter(s.books, item))
  }

  function Publish(s: State, app: string, routes: map<string, string>): State {
    s.(answers := s.answers + [Published(app, routes)], cache := s.cache[app := |s.answers|])
  }

  /** A parsed message whose integrations are known. */
  function Begin(s: State, msg: nat, m: Message, key: Data, value: Data, ref: nat): State
    requires ref < |s.answers|
  {
    if |s.answers[ref].routes| == 0 then
      s.(job := Idle, counts := s.counts.(noIntegration := s.counts.noIntegration + 1))
    else
      s.(job := Fanning(msg, m, key, value, ref, |s.cells|, s.answers[ref].routes.Keys), cells := s.cells + [""])
  }

  function TableAt(s: State, k: nat): map<string, nat> {
    if k < |s.older| then s.older[k] else s.cache
  }

  /** The cache has an answer for the application. */
  predicate Knows(s: State, t: map<string, nat>, app: string) {
    app in t && t[app] < |s.answers|
  }

  /** HandleMessage up to the lookup: the table in use is fetched. */
  function Consumed(s: State, m: Message, key: Data, value: Data): State {
    s.(messages := s.messages + 1, counts := s.counts.(consumed := s.counts.consumed + 1),
       job := Looking(s.messages, m, key, value, |s.older|))
  }

  /** The lookup; on a miss Houston is asked. */
  function LookedUp(s: State): State
    requires s.job.Looking?
  {
    var j := s.job;
    var t := TableAt(s, j.table);
    if Knows(s, t, j.message.appId) then Begin(s, j.msg, j.message, j.key, j.value, t[j.message.appId])
    else s.(job := Asking(j.msg, j.message, j.key, j.value), missed := s.missed + {j.msg})
  }

  /** From Houston's answer to the loop. The cache is filled; as typed the caller then still gets the
      nil that missed. */
  function Replied(c: Config, s: State, reply: Reply): State
    requires s.job.Asking?
  {
    var j, s1 := s.job, s.(job := Idle);
    match reply
    case Down =>
      Push(s1, Item(|s.books.produced|, j.msg, j.message.appId, "", None, RETRY, j.key, j.value))
      .(counts := s.counts.(retried := s.counts.retried + 1))
    case Says(routes) =>
      var s2 := Publish(s1, j.message.appId, routes);
      match c.build
      case AsTyped => s2.(counts := s.counts.(noIntegration := s.counts.noIntegration + 1))
      case Repaired => Begin(s2, j.msg, j.message, j.key, j.value, |s.answers|)
  }

  function Fanned(c: Config, s: State, name: string): State
    requires s.job.Fanning? && s.job.ref < |s.answers| && name in s.answers[s.job.ref].routes
    requires s.job.variable < |s.cells|
  {
    var j := s.job;
    var (cells, cell) := Assign(c.build, s.cells, j.variable, s.answers[j.ref].routes[name]);
    var s1 := s.(cells := cells, job := j.(remaining := j.remaining - {name}));
    if Skips(c.build, j.message, name) then s1
    else Push(s1, Item(|s.books.produced|, j.msg, j.message.appId, name, Some(j.ref), cell, j.key, j.value))
  }

  /** A failed delivery report: parse again, and queue the value unless retry is off. */
  function Failed(c: Config, s: State, item: Item, address: string, o: Outcome): State
    requires item.id in s.topics
  {
    match Parse(c, item.value)
    case None => s.(running := false)
    case Some(m) =>
      if !c.retryOn then s.(books := Drop(s.books, item))
      else
        var k := FailureKey(c.build, m.appId, s.topics[item.id], address);
        s.(books := Bury(s.books, Dead(item, s.topics[item.id], address)),
           letters := s.letters + [AddEvent(k, item.value, o)],
           store := Add(c.build, c.size, s.store, k, item.value, o))
  }

  ghost function Apply(c: Config, s: State, h: Happening): State
    requires Enabled(c, s, h)
  {
    match h
    case Consume(value, key) =>
      (match Parse(c, value)
       case None => s
       case Some(m) => Consumed(s, m, key, value))
    case Look => LookedUp(s)
    case Answered(reply) => Replied(c, s, reply)
    case Fan(name) => Fanned(c, s, name)
    case FinishFan => s.(job := Idle, counts := s.counts.(routed := s.counts.routed + 1))
    case Send =>
      var item := s.books.channel[0];
      s.(books := Leave(s.books), topics := s.topics[item.id := s.cells[item.cell]])
    case Deliver(item) => s.(books := Arrive(s.books, item))
    case Fail(item, address, o) => Failed(c, s, item, address, o)
    case FlushLetters(visits) =>
      s.(letters := s.letters + [FlushEvent(visits)], store := FlushAll(c.build, s.store, visits))
    case Refresh(app, routes) => Publish(s, app, routes)
    case ResetCache => s.(older := s.older + [s.cache], cache := map[])
  }

  /** A run is any list of happenings; one that is not enabled does not happen. */
  ghost function From(c: Config, s: State, hs: seq<Happening>): State {
    if hs == [] then s
    else
      var s', h := From(c, s, hs[..|hs| - 1]), hs[|hs| - 1];
      if Enabled(c, s', h) then Apply(c, s', h) else s'
  }

  ghost function After(c: Config, hs: seq<Happening>): State {
    From(c, Initial(c), hs)
  }

  lemma FromSnoc(c: Config, s: State, hs: seq<Happening>, h: Happening)
    ensures From(c, s, hs + [h])
            == var s' := From(c, s, hs); if Enabled(c, s', h) then Apply(c, s', h) else s'
  {
    assert (hs + [h])[..|hs|] == hs;
  }

  lemma {:induction false} FromAppend(c: Config, s: State, hs: seq<Happening>, gs: seq<Happening>)
    ensures From(c, s, hs + gs) == From(c, From(c, s, hs), gs)
  {
    hide Apply, Enabled;
    if gs == [] {
      assert hs + gs == hs;
    } else {
      var init := gs[..|gs| - 1];
      FromAppend(c, s, hs, init);
      assert (hs + gs)[..|hs + gs| - 1] == hs + init && (hs + gs)[|hs + gs| - 1] == gs[|gs| - 1];
    }
  }

  function DeadItems(dead: seq<Dead>): seq<Item> {
    if dead == [] then [] else DeadItems(dead[..|dead| - 1]) + [dead[|dead| - 1].item]
  }

  // ---- conservation of copies ----

  /** Every copy ever produced is at exactly one place: the copies carry distinct ids, and the
      places together hold each exactly once. */
  ghost predicate Accounted(k: Books) {
    && (forall i | 0 <= i < |k.produced| :: k.produced[i].id == i)
    && multiset(k.produced) == multiset(k.channel) + k.inFlight + k.delivered + k.dropped
                               + multiset(DeadItems(k.dead))
  }

  lemma EnterAccounted(k: Books, item: Item)
    requires Accounted(k) && item.id == |k.produced|
    ensures Accounted(Enter(k, item))
  {
  }

  lemma LeaveAccounted(k: Books)
    requires Accounted(k) && k.channel != []
    ensures Accounted(Leave(k))
  {
    assert k.channel == [k.channel[0]] + k.channel[1..];
  }

  lemma ReportAccounted(k: Books, d: Dead)
    requires Accounted(k) && d.item in k.inFlight
    ensures Accounted(Arrive(k, d.item)) && Accounted(Drop(k, d.item)) && Accounted(Bury(k, d))
  {
    assert (k.dead + [d])[..|k.dead|] == k.dead;
    assert DeadItems(k.dead + [d]) == DeadItems(k.dead) + [d.item];
  }

  /** What one happening does to the books. */
  ghost predicate BooksStep(k: Books, k': Books) {
    || k' == k
    || (exists item: Item :: item.id == |k.produced| && k' == Enter(k, item))
    || (k.channel != [] && k' == Leave(k))
    || (exists item: Item :: item in k.inFlight && k' == Arrive(k, item))
    || (exists item: Item :: item in k.inFlight && k' == Drop(k, item))
    || (exists d: Dead :: d.item in k.inFlight && k' == Bury(k, d))
  }

  lemma RepliedBooks(c: Config, s: State, reply: Reply)
    requires s.job.Asking?
    ensures BooksStep(s.books, Replied(c, s, reply).books)
  {
    var j := s.job;
    var item := Item(|s.books.produced|, j.msg, j.message.appId, "", None, RETRY, j.key, j.value);
    assert BooksStep(s.books, Enter(s.books, item));
    hide BooksStep, Enter;
  }

  lemma FannedBooks(c: Config, s: State, name: string)
    requires Enabled(c, s, Fan(name))
    ensures BooksStep(s.books, Fanned(c, s, name).books)
  {
    var j := s.job;
    var cell := Assign(c.build, s.cells, j.variable, s.answers[j.ref].routes[name]).1;
    var item := Item(|s.books.produced|, j.msg, j.message.appId, name, Some(j.ref), cell, j.key, j.value);
    assert BooksStep(s.books, Enter(s.books, item));
    hide BooksStep, Enter, Assign, Skips;
  }

  lemma ReportSteps(k: Books, d: Dead)
    requires d.item in k.inFlight
    ensures BooksStep(k, Arrive(k, d.item)) && BooksStep(k, Drop(k, d.item)) && BooksStep(k, Bury(k, d))
  {
    hide Arrive, Drop, Bury;
  }

  lemma FailedBooks(c: Config, s: State, item: Item, address: string, o: Outcome)
    requires Enabled(c, s, Fail(item, address, o))
    ensures BooksStep(s.books, Failed(c, s, item, address, o).books)
  {
    hide BooksStep, Bury, Drop, Add, FailureKey, Decode;
    ReportSteps(s.books, Dead(item, s.topics[item.id], address));
    assert BooksStep(s.books, s.books) by { BooksStay(s.books); }
  }

  lemma BooksStay(k: Books)
    ensures BooksStep(k, k)
  {
  }

  lemma LeaveStep(k: Books)
    requires k.channel != []
    ensures BooksStep(k, Leave(k))
  {
    hide Leave;
  }

  lemma ApplyBooks(c: Config, s: State, h: Happening)
    requires Enabled(c, s, h)
    ensures BooksStep(s.books, Apply(c, s, h).books)
  {
    hide BooksStep, Leave, Arrive, Replied, Fanned, Failed, Add, FlushAll, Decode, Ranges;
    BooksStay(s.books);
    match h
    case Answered(reply) => RepliedBooks(c, s, reply);
    case Fan(name) => FannedBooks(c, s, name);
    case Send => LeaveStep(s.books);
    case Fail(item, address, o) => FailedBooks(c, s, item, address, o);
    case Deliver(item) => ReportSteps(s.books, Dead(item, "", ""));
    case _ =>
  }

  lemma StepAccounted(k: Books, k': Books)
    requires Accounted(k) && BooksStep(k, k')
    ensures Accounted(k')
  {
    hide Accounted;
    if k' == k {
    } else if item: Item :| item.id == |k.produced| && k' == Enter(k, item) {
      EnterAccounted(k, item);
    } else if k.channel != [] && k' == Leave(k) {
      LeaveAccounted(k);
    } else if item: Item :| item in k.inFlight && k' == Arrive(k, item) {
      ReportAccounted(k, Dead(item, "", ""));
    } else if item: Item :| item in k.inFlight && k' == Drop(k, item) {
      ReportAccounted(k, Dead(item, "", ""));
    } else {
      var d: Dead :| d.item in k.inFlight && k' == Bury(k, d);
      ReportAccounted(k, d);
    }
  }

  lemma {:induction false} CopiesAccounted(c: Config, hs: seq<Happening>)
    ensures Accounted(After(c, hs).books)
  {
    if hs == [] {
    } else {
      CopiesAccounted(c, hs[..|hs| - 1]);
      var s, h := After(c, hs[..|hs| - 1]), hs[|hs| - 1];
      if Enabled(c, s, h) {
        ApplyBooks(c, s, h);
        StepAccounted(s.books, Apply(c, s, h).books);
      }
    }
  }

  lemma {:induction false} ProducedOnce(items: seq<Item>, i: nat)
    requires (forall j | 0 <= j < |items| :: items[j].id == j) && i < |items|
    ensures multiset(items)[items[i]] == 1
  {
    var n := |items| - 1;
    var init, last := items[..n], items[n];
    assert items == init + [last];
    assert last !in init;
    if i < n {
      ProducedOnce(init, i);
      assert init[i] == items[i];
    }
  }

  /** In every run, each copy handed to the producer is at exactly one place: waiting in the channel,
      in flight, delivered, dropped because retry is off, or dead. */
  lemma CopyAtOnePlace(c: Config, hs: seq<Happening>, i: nat)
    requires i < |After(c, hs).books.produced|
    ensures var k := After(c, hs).books;
            var x := k.produced[i];
            multiset(k.channel)[x] + k.inFlight[x] + k.delivered[x] + k.dropped[x] + multiset(DeadItems(k.dead))[x] == 1
  {
    CopiesAccounted(c, hs);
    ProducedOnce(After(c, hs).books.produced, i);
  }

  // ---- the channel ----

  /** The channel holds the copies produced last, in order. */
  ghost predicate ChannelIsTail(k: Books) {
    |k.channel| <= |k.produced| && k.channel == k.produced[|k.produced| - |k.channel|..]
  }

  lemma EnterTail(k: Books, item: Item)
    requires ChannelIsTail(k)
    ensures ChannelIsTail(Enter(k, item))
  {
    var n := |k.produced| - |k.channel|;
    assert (k.produced + [item])[n..] == k.produced[n..] + [item];
  }

  lemma LeaveTail(k: Books)
    requires ChannelIsTail(k) && k.channel != []
    ensures ChannelIsTail(Leave(k))
  {
    var n := |k.produced| - |k.channel|;
    assert k.produced[n..][1..] == k.produced[n + 1..];
  }

  lemma ReportTail(k: Books, d: Dead)
    requires ChannelIsTail(k)
    ensures ChannelIsTail(Arrive(k, d.item)) && ChannelIsTail(Drop(k, d.item)) && ChannelIsTail(Bury(k, d))
  {
  }

  lemma StepTail(k: Books, k': Books)
    requires ChannelIsTail(k) && BooksStep(k, k')
    ensures ChannelIsTail(k')
  {
    hide ChannelIsTail, Enter, Leave, Arrive, Drop, Bury;
    if k' == k {
    } else if item: Item :| item.id == |k.produced| && k' == Enter(k, item) {
      EnterTail(k, item);
    } else if k.channel != [] && k' == Leave(k) {
      LeaveTail(k);
    } else if item: Item :| item in k.inFlight && k' == Arrive(k, item) {
      ReportTail(k, Dead(item, "", ""));
    } else if item: Item :| item in k.inFlight && k' == Drop(k, item) {
      ReportTail(k, Dead(item, "", ""));
    } else {
      var d: Dead :| d.item in k.inFlight && k' == Bury(k, d);
      ReportTail(k, d);
    }
  }

  lemma {:induction false} AfterTail(c: Config, hs: seq<Happening>)
    ensures ChannelIsTail(After(c, hs).books)
  {
    if hs == [] {
    } else {
      var s, h := After(c, hs[..|hs| - 1]), hs[|hs| - 1];
      AfterTail(c, hs[..|hs| - 1]);
      if Enabled(c, s, h) {
        ApplyBooks(c, s, h);
        StepTail(s.books, Apply(c, s, h).books);
      }
      hide ChannelIsTail, BooksStep, Apply, Enabled;
    }
  }

  /** In every run copies leave the channel in the order in which they were produced: when one is sent, it
      is the first produced of those that were not, and what is sent is what was put in. */
  lemma SentInOrder(c: Config, hs: seq<Happening>)
    requires Enabled(c, After(c, hs), Send)
    ensures var s := After(c, hs);
            var s', first := Apply(c, s, Send), |s.books.produced| - |s.books.channel|;
            && 0 <= first < |s.books.produced|
            && s'.books.inFlight == s.books.inFlight + multiset{s.books.produced[first]}
            && s'.books.channel == s.books.produced[first + 1..]
            && s'.books.produced == s.books.produced
  {
    AfterTail(c, hs);
    hide After;
  }
}
