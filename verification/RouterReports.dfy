/** What delivery reports do, in every run of the router. */
module RouterReports {
  import opened Builds
  import opened MessageCodec
  import opened DeadLetter
  import opened Producer
  import opened Pipeline
  import opened PipelineLaws
  import opened PipelineTopics
  import opened Router

  /** The copies that were reported as delivered in a run. */
  ghost function DeliveredIn(c: Config, hs: seq<Happening>): multiset<Item> {
    if hs == [] then multiset{}
    else
      var init, h := hs[..|hs| - 1], hs[|hs| - 1];
      DeliveredIn(c, init) + if h.Deliver? && Enabled(c, After(c, init), h) then multiset{h.item} else multiset{}
  }

  /** And those reported as failed. */
  ghost function FailedIn(c: Config, hs: seq<Happening>): multiset<Item> {
    if hs == [] then multiset{}
    else
      var init, h := hs[..|hs| - 1], hs[|hs| - 1];
      FailedIn(c, init) + if h.Fail? && Enabled(c, After(c, init), h) then multiset{h.item} else multiset{}
  }

  ghost predicate NoAdds(letters: seq<Event>) {
    forall i | 0 <= i < |letters| :: letters[i].FlushEvent?
  }

  /** Where reported copies are: delivered ones delivered, and failed ones dead or, with retry off,
      dropped. */
  ghost predicate ReportsPlaced(c: Config, s: State, delivered: multiset<Item>, failed: multiset<Item>) {
    && s.books.delivered == delivered
    && (if c.retryOn then s.books.dropped == multiset{} && multiset(DeadItems(s.books.dead)) == failed
        else s.books.dropped == failed && s.books.dead == [] && NoAdds(s.letters))
  }

  lemma DeadItemsSnoc(dead: seq<Dead>, d: Dead)
    ensures DeadItems(dead + [d]) == DeadItems(dead) + [d.item]
  {
    assert (dead + [d])[..|dead|] == dead;
  }

  /** What a failed report does to the places. */
  ghost predicate FailedTo(c: Config, s: State, s': State, item: Item) {
    && s'.books.delivered == s.books.delivered
    && (if c.retryOn then
          s'.books.dropped == s.books.dropped && DeadItems(s'.books.dead) == DeadItems(s.books.dead) + [item]
        else
          s'.books.dropped == s.books.dropped + multiset{item} && s'.books.dead == s.books.dead
          && s'.letters == s.letters)
  }

  lemma FailBooks(c: Config, s: State, item: Item, address: string, o: Outcome)
    requires item.id in s.topics && Parse(c, item.value).Some?
    ensures var s' := Failed(c, s, item, address, o);
            && (c.retryOn ==> s'.books == Bury(s.books, Dead(item, s.topics[item.id], address)))
            && (!c.retryOn ==> s'.books == Drop(s.books, item) && s'.letters == s.letters)
  {
    hide Add, FailureKey, Decode, Bury, Drop;
  }

  lemma FailPlaces(c: Config, s: State, item: Item, address: string, o: Outcome)
    requires Inv(c, s) && Enabled(c, s, Fail(item, address, o))
    ensures FailedTo(c, s, Failed(c, s, item, address, o), item)
  {
    assert Accounted(s.books) && Grounded(c, s);
    ReportParses(c, s, item);
    hide Inv, Failed, Decode, DeadItems, Accounted, Grounded;
    FailBooks(c, s, item, address, o);
    DeadItemsSnoc(s.books.dead, Dead(item, s.topics[item.id], address));
  }

  lemma FailedPlaced(c: Config, s: State, s': State, item: Item, delivered: multiset<Item>, failed: multiset<Item>)
    requires ReportsPlaced(c, s, delivered, failed) && FailedTo(c, s, s', item)
    ensures ReportsPlaced(c, s', delivered, failed + multiset{item})
  {
    hide DeadItems, NoAdds;
  }

  /** Happenings that are no reports leave these places alone. */
  lemma OtherPlaces(c: Config, s: State, h: Happening)
    requires Enabled(c, s, h) && !h.Deliver? && !h.Fail?
    ensures var s' := Apply(c, s, h);
            && s'.books.delivered == s.books.delivered && s'.books.dropped == s.books.dropped
            && s'.books.dead == s.books.dead && (NoAdds(s.letters) ==> NoAdds(s'.letters))
  {
    hide Add, FlushAll, Decode, Ranges, FailureKey, LookedUp, Replied, Fanned;
    match h
    case Look => LookedUpFields(s);
    case Answered(reply) => RepliedPlaces(c, s, reply);
    case Fan(name) => FannedPlaces(c, s, name);
    case _ =>
  }

  lemma RepliedPlaces(c: Config, s: State, reply: Reply)
    requires s.job.Asking?
    ensures var s' := Replied(c, s, reply);
            s'.books.delivered == s.books.delivered && s'.books.dropped == s.books.dropped
            && s'.books.dead == s.books.dead && s'.letters == s.letters
  {
  }

  lemma FannedPlaces(c: Config, s: State, name: string)
    requires Enabled(c, s, Fan(name))
    ensures var s' := Fanned(c, s, name);
            s'.books.delivered == s.books.delivered && s'.books.dropped == s.books.dropped
            && s'.books.dead == s.books.dead && s'.letters == s.letters
  {
  }

  lemma PlacedStep(c: Config, s: State, h: Happening, delivered: multiset<Item>, failed: multiset<Item>)
    requires Inv(c, s) && ReportsPlaced(c, s, delivered, failed) && Enabled(c, s, h)
    ensures ReportsPlaced(c, Apply(c, s, h),
                          delivered + if h.Deliver? then multiset{h.item} else multiset{},
                          failed + if h.Fail? then multiset{h.item} else multiset{})
  {
    hide Inv, Failed, DeadItems, NoAdds, Consumed, LookedUp, Replied, Fanned, FailedTo;
    if h.Fail? {
      FailPlaces(c, s, h.item, h.address, h.outcome);
      FailedPlaced(c, s, Apply(c, s, h), h.item, delivered, failed);
      hide Apply, Enabled, ReportsPlaced;
    } else if h.Deliver? {
    } else {
      OtherPlaces(c, s, h);
      hide Apply, Enabled;
    }
  }

  lemma {:induction false} AfterPlaced(c: Config, hs: seq<Happening>)
    requires ReadsNothingFromNothing(c)
    ensures ReportsPlaced(c, After(c, hs), DeliveredIn(c, hs), FailedIn(c, hs))
  {
    if hs == [] {
    } else {
      var init, h := hs[..|hs| - 1], hs[|hs| - 1];
      var s := After(c, init);
      AfterPlaced(c, init);
      AfterInv(c, init);
      if Enabled(c, s, h) { PlacedStep(c, s, h, DeliveredIn(c, init), FailedIn(c, init)); }
      hide Inv, Enabled, Apply, ReportsPlaced, ReadsNothingFromNothing;
    }
  }

  /** In every run the delivered copies are those reported as delivered, and those reported as failed are
      dead if retry is on, and dropped, with nothing queued, if it is off. */
  lemma ReportsDecide(c: Config, hs: seq<Happening>)
    requires ReadsNothingFromNothing(c)
    ensures var s := After(c, hs);
            && s.books.delivered == DeliveredIn(c, hs)
            && (c.retryOn ==> s.books.dropped == multiset{} && multiset(DeadItems(s.books.dead)) == FailedIn(c, hs))
            && (!c.retryOn ==> s.books.dropped == FailedIn(c, hs) && s.books.dead == []
                               && forall i | 0 <= i < |s.letters| :: s.letters[i].FlushEvent?)
  {
    AfterPlaced(c, hs);
    hide After, DeliveredIn, FailedIn;
  }

  /** One failed report does to the event loop and the dead letter queue what HandleReport does. */
  lemma FailIsHandled(c: Config, s: State, item: Item, address: string, o: Outcome)
    requires Enabled(c, s, Fail(item, address, o))
    ensures var s', message := Apply(c, s, Fail(item, address, o)), Decode(c.lex(item.value));
            && (s'.running <==> message.Some?)
            && s'.store == if message.Some? && c.retryOn then
                             Add(c.build, c.size, s.store,
                                 FailureKey(c.build, message.value.appId, s.topics[item.id], address), item.value, o)
                           else s.store
  {
    hide Add, FailureKey, Decode;
  }

  // ---- what is filed under what ----

  lemma {:induction false} LogAt(b: Build, dead: seq<Dead>, i: nat)
    requires i < |dead|
    ensures |Log(b, dead)| == |dead| && Log(b, dead)[i] == (DeadKey(b, dead[i]), dead[i].item.value)
  {
    if i == |dead| - 1 {
      if i > 0 { LogAt(b, dead[..i], 0); }
    } else {
      LogAt(b, dead[..|dead| - 1], i);
    }
  }

  /** In every run, each dead copy's value is in the queue's log of accepted items, filed under its
      application first and, repaired, the topic it was sent to second. */
  lemma DeadLettersFiled(c: Config, hs: seq<Happening>, i: nat)
    requires ReadsNothingFromNothing(c) && i < |After(c, hs).books.dead|
    ensures var s := After(c, hs);
            var d := s.books.dead[i];
            && |s.store.accepted| == |s.books.dead|
            && Filed(c.build, s.store.accepted[i], d.item.app, d.topic, d.address, d.item.value)
  {
    AfterInv(c, hs);
    var s := After(c, hs);
    var d := s.books.dead[i];
    LogAt(c.build, s.books.dead, i);
    FailureKeyFiled(c.build, d.item.app, d.topic, d.address, d.item.value);
    assert LettersRight(c, s);
    hide After, Log, FailureKey, Filed, Run;
  }

  /** And two dead copies of slash-free applications share a batch exactly when they are of one
      application and, repaired, of one topic. */
  lemma DeadLettersShare(c: Config, hs: seq<Happening>, i: nat, j: nat)
    requires ReadsNothingFromNothing(c) && i < |After(c, hs).books.dead| && j < |After(c, hs).books.dead|
    requires '/' !in After(c, hs).books.dead[i].item.app && '/' !in After(c, hs).books.dead[j].item.app
    ensures var s := After(c, hs);
            var d, e := s.books.dead[i], s.books.dead[j];
            && |s.store.accepted| == |s.books.dead|
            && (s.store.accepted[i].0 == s.store.accepted[j].0
                <==> d.item.app == e.item.app
                     && if c.build.AsTyped? then d.address == e.address else d.topic == e.topic)
  {
    AfterInv(c, hs);
    var s := After(c, hs);
    var d, e := s.books.dead[i], s.books.dead[j];
    LogAt(c.build, s.books.dead, i);
    LogAt(c.build, s.books.dead, j);
    FailureKeysDiffer(c.build, d.item.app, d.topic, d.address, e.item.app, e.topic, e.address);
    assert LettersRight(c, s);
    hide After, Log, FailureKey, Run;
  }

  /** One flush of the dead letters is the queue's Flush, and moves no copy. */
  lemma FlushIsHandled(c: Config, s: State, visits: seq<DeadLetter.Visit>)
    requires Enabled(c, s, FlushLetters(visits))
    ensures var s' := Apply(c, s, FlushLetters(visits));
            s'.store == FlushAll(c.build, s.store, visits) && s'.books == s.books && s'.running == s.running
  {
    hide FlushAll, Ranges;
  }

  // ---- copies without a topic ----

  ghost predicate DeliveredHaveTopics(s: State) {
    forall item | item in s.books.delivered :: item.id in s.topics && s.topics[item.id] != ""
  }

  /** A delivered copy is not sent again. */
  lemma DeliveredNotWaiting(k: Books, item: Item)
    requires Accounted(k) && item in k.delivered && k.channel != []
    ensures item.id != k.channel[0].id
  {
    var first := k.channel[0];
    assert first in multiset(k.channel);
    assert item in multiset(k.produced) && first in multiset(k.produced);
    assert item in k.produced && first in k.produced;
    if item.id == first.id {
      assert item == k.produced[item.id] == first;
      ProducedOnce(k.produced, item.id);
      assert false;
    }
  }

  lemma DeliveredAfter(c: Config, s: State, h: Happening)
    requires Inv(c, s) && Enabled(c, s, h)
    ensures Apply(c, s, h).books.delivered == s.books.delivered + if h.Deliver? then multiset{h.item} else multiset{}
  {
    hide Inv, Failed, Consumed, LookedUp, Replied, Fanned, FailedTo;
    if h.Fail? {
      FailPlaces(c, s, h.item, h.address, h.outcome);
      FailKeepsDelivered(c, s, Apply(c, s, h), h.item);
    } else if h.Deliver? {
    } else {
      OtherPlaces(c, s, h);
      hide Apply, Enabled;
    }
  }

  lemma FailKeepsDelivered(c: Config, s: State, s': State, item: Item)
    requires FailedTo(c, s, s', item)
    ensures s'.books.delivered == s.books.delivered
  {
  }

  lemma TopicsKept(s: State, s': State, h: Happening)
    requires DeliveredHaveTopics(s) && Accounted(s.books)
    requires s'.books.delivered == s.books.delivered + if h.Deliver? then multiset{h.item} else multiset{}
    requires h.Deliver? ==> h.item.id in s.topics && s.topics[h.item.id] != ""
    requires h.Send? ==> s.books.channel != [] && s.books.channel[0].cell < |s.cells|
    requires s'.topics == if h.Send? then s.topics[s.books.channel[0].id := s.cells[s.books.channel[0].cell]]
                          else s.topics
    ensures DeliveredHaveTopics(s')
  {
    if h.Send? {
      forall item | item in s.books.delivered ensures item.id != s.books.channel[0].id {
        DeliveredNotWaiting(s.books, item);
      }
    }
    hide Accounted;
  }

  lemma TopicsStep(c: Config, s: State, h: Happening)
    requires Inv(c, s) && DeliveredHaveTopics(s) && Enabled(c, s, h)
    ensures DeliveredHaveTopics(Apply(c, s, h))
  {
    assert Accounted(s.books);
    DeliveredAfter(c, s, h);
    SentAfter(c, s, h);
    hide Inv, Apply, Accounted, DeliveredHaveTopics, Ranges;
    TopicsKept(s, Apply(c, s, h), h);
  }

  /** In every run, a delivered copy was sent to a topic that is not empty: one without a topic is only ever
      reported as failed. */
  lemma {:induction false} DeliveredToTopics(c: Config, hs: seq<Happening>)
    requires ReadsNothingFromNothing(c)
    ensures forall item | item in After(c, hs).books.delivered ::
              item.id in After(c, hs).topics && After(c, hs).topics[item.id] != ""
  {
    if hs == [] {
    } else {
      var init, h := hs[..|hs| - 1], hs[|hs| - 1];
      var s := After(c, init);
      DeliveredToTopics(c, init);
      AfterInv(c, init);
      if Enabled(c, s, h) { TopicsStep(c, s, h); }
      hide Inv, Enabled, Apply, ReadsNothingFromNothing;
    }
  }
}
