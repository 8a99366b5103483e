/** The clickstream producer: routing a consumed message, and its delivery reports. */
module Producer {
  import opened Builds
  import opened Text
  import opened Framing
  import opened Wrappers
  import opened Lexer
  import opened MessageCodec
  import opened Routing
  import opened DeadLetter
  import DeadLetterClient

  /** What the integration cache answers: an error when Houston cannot be asked, otherwise the
      application's integrations, or nil. */
  datatype Answer = Unavailable | Found(integrations: Option<map<string, string>>)

  /** Messages counted as consumed, and what became of them. */
  datatype Counts = Counts(consumed: nat, routed: nat, retried: nat, noIntegration: nat)

  /** What a message does once it is parsed. */
  datatype Fate = Retried | NoIntegration | FannedOut

  function FateOf(answer: Answer): Fate {
    match answer
    case Unavailable => Retried
    case Found(None) => NoIntegration
    case Found(Some(ints)) => if |ints| == 0 then NoIntegration else FannedOut
  }

  function Count(c: Counts, f: Fate): Counts {
    match f
    case Retried => c.(consumed := c.consumed + 1, retried := c.retried + 1)
    case NoIntegration => c.(consumed := c.consumed + 1, noIntegration := c.noIntegration + 1)
    case FannedOut => c.(consumed := c.consumed + 1, routed := c.routed + 1)
  }

  /** The first variable holds the retry topic. */
  const RETRY: nat := 0

  /** The line after a parsed message was handled. */
  function Handled(b: Build, l: Line, m: Message, key: Data, value: Data, answer: Answer, order: seq<string>): Line
    requires FateOf(answer).FannedOut? ==> forall k | k in order :: k in answer.integrations.value
  {
    match FateOf(answer)
    case Retried => l.(channel := l.channel + [Copy("", RETRY, key, value)])
    case NoIntegration => l
    case FannedOut => FanOut(b, l, m, key, value, answer.integrations.value, order)
  }

  /** The dead letter key of a failed delivery. As typed it prints the pointer to the topic, so it
      is made of an address. */
  function FailureKey(b: Build, app: string, topic: string, address: string): Key {
    match b
    case AsTyped => app + "/" + "%!s(*string=" + address + ")"
    case Repaired => BatchKey(app, topic)
  }

  /** A failure key is always one the queue accepts, whatever the application and topic. */
  lemma FailureKeyAccepted(b: Build, app: string, topic: string, address: string, value: Data)
    requires value != []
    ensures Validate(FailureKey(b, app, topic, address), value) == Accept
  {
    assert FailureKey(b, app, topic, address)[|app|] == '/';
  }

  /** As typed no failure key can be taken for an object's name, so nothing queued under one is
      ever overwritten. */
  lemma TypedFailureKeySafe(app: string, topic: string, address: string)
    ensures !IsObjectName(FailureKey(AsTyped, app, topic, address))
  {
    var k := FailureKey(AsTyped, app, topic, address);
    forall j: Key, now: int64 ensures k != ObjectName(j, now) {
      assert k[|k| - 1] == ')';
      var name := ObjectName(j, now);
      assert name[|name| - 1] == Decimal(now)[|Decimal(now)| - 1];
    }
  }

  /** As typed two failures of one application share a batch exactly when the topics' addresses
      print alike, whatever the topics are. */
  lemma TypedBatchesByAddress(app: string, t: string, a: string, t': string, a': string)
    ensures FailureKey(AsTyped, app, t, a) == FailureKey(AsTyped, app, t', a') <==> a == a'
    ensures FailureKey(Repaired, app, t, a) == FailureKey(Repaired, app, t', a') <==> t == t'
  {
    var p := app + "/" + "%!s(*string=";
    assert (p + a + ")")[|p|..|p + a|] == a && (p + a' + ")")[|p|..|p + a'|] == a';
    var q := app + "/";
    assert (q + t)[|q|..] == t && (q + t')[|q|..] == t';
  }

  /** For slash-free applications, two failures share a batch exactly when they are of one application
      and, repaired, of one topic; as typed, of topics whose addresses print alike. */
  lemma FailureKeysDiffer(b: Build, app: string, t: string, a: string, app': string, t': string, a': string)
    requires '/' !in app && '/' !in app'
    ensures FailureKey(b, app, t, a) == FailureKey(b, app', t', a')
            <==> app == app' && if b.AsTyped? then a == a' else t == t'
  {
    var k, k' := FailureKey(b, app, t, a), FailureKey(b, app', t', a');
    if k == k' {
      assert k[|app|] == '/' && k'[|app'|] == '/';
      assert forall i | 0 <= i < |app| :: k[i] == app[i];
      assert forall i | 0 <= i < |app'| :: k'[i] == app'[i];
      assert |app| == |app'|;
      assert app == k[..|app|] && app' == k'[..|app'|];
    }
    TypedBatchesByAddress(app, t, a, t', a');
  }

  /** The first part of the name under which a batch of failures is uploaded is the application, and,
      repaired, the second is the topic; as typed it shows an address. */
  lemma FailureNameParts(b: Build, app: string, topic: string, address: string, now: int64)
    requires '/' !in app && '/' !in topic && '/' !in address
    ensures Split(ObjectName(FailureKey(b, app, topic, address), now), '/')
            == [app, if b.AsTyped? then "%!s(*string=" + address + ")" else topic, Decimal(now)]
  {
    var part := if b.AsTyped? then "%!s(*string=" + address + ")" else topic;
    NameParts(FailureKey(b, app, topic, address), now);
    assert FailureKey(b, app, topic, address) == app + ['/'] + part;
    SplitAppend(app, '/', part);
    SplitWhole(app, '/');
    SplitWhole(part, '/');
  }

  /** The parts of the key by themselves. */
  lemma FailureKeyParts(b: Build, app: string, topic: string, address: string)
    requires '/' !in app && '/' !in topic && '/' !in address
    ensures Split(FailureKey(b, app, topic, address), '/')
            == [app, if b.AsTyped? then "%!s(*string=" + address + ")" else topic]
  {
    var part := if b.AsTyped? then "%!s(*string=" + address + ")" else topic;
    assert FailureKey(b, app, topic, address) == app + ['/'] + part;
    SplitAppend(app, '/', part);
    SplitWhole(app, '/');
    SplitWhole(part, '/');
  }

  /** A failed copy's value is queued under its application first, and, repaired, its topic second; as typed
      the address shows instead. */
  ghost predicate Filed(b: Build, letter: (Key, Data), app: string, topic: string, address: string, value: Data) {
    && letter.1 == value
    && ('/' !in app && '/' !in topic && '/' !in address ==>
          Split(letter.0, '/') == [app, if b.AsTyped? then "%!s(*string=" + address + ")" else topic])
  }

  lemma FailureKeyFiled(b: Build, app: string, topic: string, address: string, value: Data)
    ensures Filed(b, (FailureKey(b, app, topic, address), value), app, topic, address, value)
    ensures value != [] ==> Validate(FailureKey(b, app, topic, address), value) == Accept
  {
    if '/' !in app && '/' !in topic && '/' !in address { FailureKeyParts(b, app, topic, address); }
    if value != [] { FailureKeyAccepted(b, app, topic, address, value); }
  }

  /** What a message's copies are: one for each integration ranged over and not skipped, with the message's
      key and value; repaired each on its own topic. */
  ghost predicate CopiesOut(b: Build, cells: seq<string>, channel: seq<Copy>, cells': seq<string>, channel': seq<Copy>,
                       m: Message, key: Data, value: Data, ints: map<string, string>, order: seq<string>) {
    && |cells| < |cells'| && cells'[..|cells|] == cells
    && |channel| <= |channel'| && channel'[..|channel|] == channel
    && (forall name :: name in Names(channel'[|channel|..]) <==>
                       name in order && !Skips(b, m, name))
    && (forall i | |channel| <= i < |channel'| ::
          && channel'[i].key == key && channel'[i].value == value
          && channel'[i].name in ints && channel'[i].cell < |cells'|
          && (b.Repaired? ==> cells'[channel'[i].cell] == ints[channel'[i].name]))
  }

  class ClickstreamProducer {
    const build: Build
    const retryOn: bool
    const deadLetters: DeadLetterClient.Client
    var cells: seq<string>
    var channel: seq<Copy>
    var counts: Counts

    constructor (build: Build, retryTopic: string, retryOn: bool, deadLetters: DeadLetterClient.Client)
      ensures this.build == build && this.retryOn == retryOn && this.deadLetters == deadLetters
      ensures cells == [retryTopic] && channel == [] && counts == Counts(0, 0, 0, 0)
    {
      this.build, this.retryOn, this.deadLetters := build, retryOn, deadLetters;
      cells, channel, counts := [retryTopic], [], Counts(0, 0, 0, 0);
    }

    /** Handles one consumed message: `tokens` is its text, `answer` what the cache says for its
        application, `order` the one in which the integrations are ranged over. */
    method HandleMessage(value: Data, key: Data, tokens: seq<Token>, answer: Answer, order: seq<string>)
      returns (ok: bool)
      requires FateOf(answer).FannedOut? ==> forall k | k in order :: k in answer.integrations.value
      modifies this
      ensures Decode(tokens) == None ==> !ok && unchanged(this)
      ensures Decode(tokens).Some? ==>
                && Line(cells, channel)
                   == Handled(build, Line(old(cells), old(channel)), Decode(tokens).value, key, value, answer, order)
                && counts == Count(old(counts), FateOf(answer))
                && (ok <==> answer != Unavailable)
      ensures Decode(tokens).Some? && answer == Unavailable ==>
                && cells == old(cells) && channel == old(channel) + [Copy("", 0, key, value)]
                && counts == old(counts).(consumed := old(counts).consumed + 1, retried := old(counts).retried + 1)
      ensures Decode(tokens).Some? && answer.Found?
              && (answer.integrations == None || answer.integrations == Some(map[])) ==>
                && cells == old(cells) && channel == old(channel)
                && counts == old(counts).(consumed := old(counts).consumed + 1,
                                          noIntegration := old(counts).noIntegration + 1)
      ensures Decode(tokens).Some? && answer.Found?
              && answer.integrations.Some? && answer.integrations.value != map[] ==>
                && CopiesOut(build, old(cells), old(channel), cells, channel, Decode(tokens).value, key, value,
                        answer.integrations.value, order)
                && counts == old(counts).(consumed := old(counts).consumed + 1, routed := old(counts).routed + 1)
    {
      var message := Unmarshal(tokens);
      if message.None? { return false; }
      counts := counts.(consumed := counts.consumed + 1);
      match answer {
        case Unavailable =>
          channel := channel + [Copy("", RETRY, key, value)];
          counts := counts.(retried := counts.retried + 1);
          return false;
        case Found(None) =>
          counts := counts.(noIntegration := counts.noIntegration + 1);
        case Found(Some(ints)) =>
          if |ints| == 0 {
            counts := counts.(noIntegration := counts.noIntegration + 1);
          } else {
            assert ints != map[];
            SendCopies(message.value, key, value, ints, order);
            counts := counts.(routed := counts.routed + 1);
          }
      }
      return true;
    }

    method SendCopies(m: Message, key: Data, value: Data, ints: map<string, string>, order: seq<string>)
      requires forall k | k in order :: k in ints
      modifies this`cells, this`channel
      ensures Line(cells, channel) == FanOut(build, Line(old(cells), old(channel)), m, key, value, ints, order)
      ensures CopiesOut(build, old(cells), old(channel), cells, channel, m, key, value, ints, order)
    {
      ghost var before := Line(cells, channel);
      var variable := |cells|;
      cells := cells + [""];
      assert order[..|order|] == order;
      for i := 0 to |order|
        invariant variable == |before.cells| < |cells|
        invariant Line(cells, channel) == FanOut(build, before, m, key, value, ints, order[..i])
      {
        assert order[..i + 1][..i] == order[..i];
        var name, cell := order[i], variable;
        if build.AsTyped? {
          cells := cells[variable := ints[name]];
        } else {
          cells, cell := cells + [ints[name]], |cells|;
        }
        if !Skips(build, m, name) {
          channel := channel + [Copy(name, cell, key, value)];
        }
      }
      FanOutCopies(build, before, m, key, value, ints, order);
      FanOutTopics(build, before, m, key, value, ints, order);
      hide FanOut, Names;
    }

    /** One delivery report. The event loop ends on a failed one that does not parse; otherwise a
        failed copy is queued as a dead letter if retry is on. */
    method HandleReport(value: Data, tokens: seq<Token>, failed: bool, topic: string, address: string, outcome: Outcome)
      returns (run: bool)
      modifies deadLetters
      ensures run <==> !failed || Decode(tokens).Some?
      ensures deadLetters.State() ==
                if failed && Decode(tokens).Some? && retryOn then
                  Add(deadLetters.build, deadLetters.queueSize, old(deadLetters.State()),
                      FailureKey(build, Decode(tokens).value.appId, topic, address), value, outcome)
                else old(deadLetters.State())
      ensures failed && Decode(tokens).Some? && retryOn && value != [] ==>
                |deadLetters.accepted| == |old(deadLetters.accepted)| + 1
                && Filed(build, deadLetters.accepted[|old(deadLetters.accepted)|],
                         Decode(tokens).value.appId, topic, address, value)
    {
      if failed {
        var message := Unmarshal(tokens);
        if message.None? { return false; }
        if retryOn {
          FailureKeyFiled(build, message.value.appId, topic, address, value);
          var r := deadLetters.AddToQueue(FailureKey(build, message.value.appId, topic, address), value, outcome);
        }
      }
      return true;
    }
  }
}
