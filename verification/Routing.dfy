/** How one message fans out: which integrations get a copy, and which topic each copy names. */
module Routing {
  import opened Builds
  import opened Framing
  import opened MessageCodec

  /** One copy handed to the producer's channel. It names its topic by reference: `cell` is the
      variable that holds the topic when the copy is taken from the channel. */
  datatype Copy = Copy(name: string, cell: nat, key: Data, value: Data)

  /** The variables topics are referred to by, and the copies not yet taken from the channel. */
  datatype Line = Line(cells: seq<string>, channel: seq<Copy>)

  predicate OptsOut(m: Message, name: string) {
    m.integrations.Some? && name in m.integrations.value && !m.integrations.value[name]
  }

  /** The opt-out test. As typed the two results of the map access are swapped: what is tested as
      present is the value, and what is tested as the value is presence. */
  predicate Skips(b: Build, m: Message, name: string) {
    match b
    case AsTyped =>
      var present := m.integrations.Some? && name in m.integrations.value;
      var value := present && m.integrations.value[name];
      value && !present
    case Repaired => OptsOut(m, name)
  }

  /** As typed no integration is ever skipped: the message's opt-outs are respected exactly when it
      opts out of none of the application's integrations. */
  lemma TypedIgnoresOptOut(m: Message, ints: map<string, string>)
    ensures (forall name | name in ints :: Skips(AsTyped, m, name) == OptsOut(m, name))
            <==> !exists name :: name in ints && OptsOut(m, name)
    ensures forall name | name in ints :: Skips(Repaired, m, name) == OptsOut(m, name)
  {
  }

  /** The loop variable as the copies see it. As typed one variable serves the whole loop; repaired
      every iteration has its own. */
  function Assign(b: Build, cells: seq<string>, variable: nat, topic: string): (r: (seq<string>, nat))
    requires variable < |cells|
  {
    match b
    case AsTyped => (cells[variable := topic], variable)
    case Repaired => (cells + [topic], |cells|)
  }

  /** One iteration of the loop over the integrations. */
  function Iterate(b: Build, l: Line, variable: nat, m: Message, key: Data, value: Data,
                   name: string, topic: string): Line
    requires variable < |l.cells|
  {
    var (cells, cell) := Assign(b, l.cells, variable, topic);
    Line(cells, if Skips(b, m, name) then l.channel else l.channel + [Copy(name, cell, key, value)])
  }

  /** The loop; `variable` is declared before it. */
  function FanOut(b: Build, l: Line, m: Message, key: Data, value: Data,
                  ints: map<string, string>, order: seq<string>): (r: Line)
    requires forall k | k in order :: k in ints
    ensures |r.cells| > |l.cells|
  {
    if order == [] then l.(cells := l.cells + [""])
    else
      var last := order[|order| - 1];
      var r := FanOut(b, l, m, key, value, ints, order[..|order| - 1]);
      Iterate(b, r, |l.cells|, m, key, value, last, ints[last])
  }

  /** The names that get a copy, in the order the integrations are ranged over. */
  function Routed(b: Build, m: Message, order: seq<string>): (names: seq<string>)
    ensures forall name :: name in names <==> name in order && !Skips(b, m, name)
  {
    if order == [] then []
    else
      var last := order[|order| - 1];
      Routed(b, m, order[..|order| - 1]) + if Skips(b, m, last) then [] else [last]
  }

  function Names(copies: seq<Copy>): seq<string> {
    if copies == [] then [] else Names(copies[..|copies| - 1]) + [copies[|copies| - 1].name]
  }

  /** The loop adds one copy for every name that is routed, in order, with the message's key and
      value, and no other. */
  lemma {:induction false} FanOutCopies(b: Build, l: Line, m: Message, key: Data, value: Data,
                                        ints: map<string, string>, order: seq<string>)
    requires forall k | k in order :: k in ints
    ensures var r := FanOut(b, l, m, key, value, ints, order);
            && |r.channel| >= |l.channel| && r.channel[..|l.channel|] == l.channel
            && Names(r.channel[|l.channel|..]) == Routed(b, m, order)
            && forall i | |l.channel| <= i < |r.channel| :: r.channel[i].key == key && r.channel[i].value == value
  {
    if order == [] {
    } else {
      var n := |order| - 1;
      FanOutCopies(b, l, m, key, value, ints, order[..n]);
      var r := FanOut(b, l, m, key, value, ints, order[..n]);
      var r' := FanOut(b, l, m, key, value, ints, order);
      if !Skips(b, m, order[n]) {
        var added := r'.channel[|l.channel|..];
        assert added[..|added| - 1] == r.channel[|l.channel|..];
      }
    }
  }

  /** Repaired each copy refers to its integration's topic; as typed all refer to the loop variable, which
      the last iteration has set. The variables there were before stay as they were. */
  lemma {:induction false} FanOutTopics(b: Build, l: Line, m: Message, key: Data, value: Data,
                                        ints: map<string, string>, order: seq<string>)
    requires forall k | k in order :: k in ints
    ensures var r := FanOut(b, l, m, key, value, ints, order);
            && |l.cells| < |r.cells| && r.cells[..|l.cells|] == l.cells && |l.channel| <= |r.channel|
            && (order != [] && b.AsTyped? ==> r.cells[|l.cells|] == ints[order[|order| - 1]])
            && forall i | |l.channel| <= i < |r.channel| ::
                 var copy := r.channel[i];
                 && copy.name in ints && copy.cell < |r.cells|
                 && (if b.AsTyped? then copy.cell == |l.cells| else r.cells[copy.cell] == ints[copy.name])
  {
    if order == [] {
    } else {
      FanOutTopics(b, l, m, key, value, ints, order[..|order| - 1]);
    }
    hide Skips;
  }

  predicate Distinct(names: seq<string>) {
    forall i, j | 0 <= i < j < |names| :: names[i] != names[j]
  }

  lemma DistinctSnoc(names: seq<string>, name: string)
    ensures Distinct(names + [name]) <==> Distinct(names) && name !in names
  {
    var all := names + [name];
    assert forall i | 0 <= i < |names| :: all[i] == names[i];
    if Distinct(all) {
      assert forall i | 0 <= i < |names| :: all[i] != all[|names|];
    }
  }

  /** No name is routed twice. */
  lemma {:induction false} RoutedOnce(b: Build, m: Message, order: seq<string>)
    requires Distinct(order)
    ensures Distinct(Routed(b, m, order))
  {
    if order == [] {
    } else {
      var n := |order| - 1;
      assert order == order[..n] + [order[n]];
      DistinctSnoc(order[..n], order[n]);
      DistinctSnoc(Routed(b, m, order[..n]), order[n]);
      RoutedOnce(b, m, order[..n]);
    }
  }

  // ---- the race between the loop and the channel ----

  /** What the producer's own goroutine sends: it reads the topic when it takes the copy. */
  datatype Sent = Sent(copy: Copy, topic: string)
  datatype Race = Race(line: Line, variable: nat, visited: seq<string>, sent: seq<Sent>)
  datatype Move = Visit(name: string) | Transmit

  ghost predicate CanMove(ints: map<string, string>, r: Race, a: Move) {
    match a
    case Visit(name) => name in ints && name !in r.visited && r.variable < |r.line.cells|
    case Transmit => r.line.channel != [] && r.line.channel[0].cell < |r.line.cells|
  }

  /** Any interleaving of the loop over the integrations with the goroutine that drains the
      channel; a move that cannot happen does not. */
  ghost function RunRace(b: Build, m: Message, ints: map<string, string>, moves: seq<Move>): Race {
    if moves == [] then Race(Line([""], []), 0, [], [])
    else
      var r, a := RunRace(b, m, ints, moves[..|moves| - 1]), moves[|moves| - 1];
      if !CanMove(ints, r, a) then r
      else
        match a
        case Visit(name) =>
          r.(line := Iterate(b, r.line, r.variable, m, [], [], name, ints[name]), visited := r.visited + [name])
        case Transmit =>
          var copy := r.line.channel[0];
          r.(line := r.line.(channel := r.line.channel[1..]),
             sent := r.sent + [Sent(copy, r.line.cells[copy.cell])])
  }

  ghost predicate SentRight(ints: map<string, string>, r: Race) {
    forall s | s in r.sent :: s.copy.name in ints && s.topic == ints[s.copy.name]
  }

  /** Whatever the interleaving, a waiting copy's variable holds its own topic. */
  ghost predicate OwnVariables(ints: map<string, string>, r: Race) {
    && r.variable < |r.line.cells|
    && (forall c | c in r.line.channel ::
          c.name in ints && c.cell < |r.line.cells| && r.line.cells[c.cell] == ints[c.name])
    && SentRight(ints, r)
  }

  lemma {:induction false} RepairedRace(m: Message, ints: map<string, string>, moves: seq<Move>)
    ensures OwnVariables(ints, RunRace(Repaired, m, ints, moves))
  {
    if moves == [] {
    } else {
      RepairedRace(m, ints, moves[..|moves| - 1]);
    }
  }

  /** As typed with one topic for all: the variable and every waiting copy agree with it. */
  ghost predicate OneTopic(ints: map<string, string>, r: Race, topic: string) {
    && r.variable == 0 < |r.line.cells|
    && (forall c | c in r.line.channel :: c.name in ints && c.cell == 0 && r.line.cells[0] == topic)
    && SentRight(ints, r)
  }

  lemma {:induction false} SameTopicRace(m: Message, ints: map<string, string>, topic: string, moves: seq<Move>)
    requires forall name | name in ints :: ints[name] == topic
    ensures OneTopic(ints, RunRace(AsTyped, m, ints, moves), topic)
  {
    if moves == [] {
    } else {
      SameTopicRace(m, ints, topic, moves[..|moves| - 1]);
    }
  }

  lemma RaceSnoc(b: Build, m: Message, ints: map<string, string>, moves: seq<Move>, a: Move)
    requires CanMove(ints, RunRace(b, m, ints, moves), a)
    ensures var r, r' := RunRace(b, m, ints, moves), RunRace(b, m, ints, moves + [a]);
            match a
            case Visit(name) => r' == r.(line := Iterate(b, r.line, r.variable, m, [], [], name, ints[name]),
                                         visited := r.visited + [name])
            case Transmit => r' == r.(line := r.line.(channel := r.line.channel[1..]),
                                      sent := r.sent + [Sent(r.line.channel[0], r.line.cells[r.line.channel[0].cell])])
  {
    assert (moves + [a])[..|moves|] == moves;
  }

  /** Two integrations on different topics, and the channel drained late. */
  lemma LateTransmit(m: Message, ints: map<string, string>, one: string, two: string) returns (moves: seq<Move>)
    requires one in ints && two in ints && ints[one] != ints[two]
    ensures !SentRight(ints, RunRace(AsTyped, m, ints, moves))
  {
    var a, c, d := Visit(one), Visit(two), Transmit;
    assert RunRace(AsTyped, m, ints, []) == Race(Line([""], []), 0, [], []);
    hide RunRace;
    RaceSnoc(AsTyped, m, ints, [], a);
    var r1 := RunRace(AsTyped, m, ints, [] + [a]);
    assert r1.line.cells == [ints[one]] && r1.line.channel == [] + [Copy(one, 0, [], [])];
    assert r1.visited == [one] && r1.variable == 0;
    RaceSnoc(AsTyped, m, ints, [] + [a], c);
    var r2 := RunRace(AsTyped, m, ints, [] + [a] + [c]);
    assert r2.line.cells == [ints[two]] && r2.line.channel[0] == Copy(one, 0, [], []);
    RaceSnoc(AsTyped, m, ints, [] + [a] + [c], d);
    moves := [] + [a] + [c] + [d];
    assert RunRace(AsTyped, m, ints, moves).sent[|r2.sent|] == Sent(Copy(one, 0, [], []), ints[two]);
  }

  /** As typed every interleaving sends every copy to its own topic exactly when the application's
      integrations all have the same topic. Repaired every interleaving does. */
  lemma CopiesReachTheirTopics(m: Message, ints: map<string, string>)
    ensures (forall moves :: SentRight(ints, RunRace(AsTyped, m, ints, moves)))
            <==> (forall one, two | one in ints && two in ints :: ints[one] == ints[two])
    ensures forall moves :: SentRight(ints, RunRace(Repaired, m, ints, moves))
  {
    forall moves ensures SentRight(ints, RunRace(Repaired, m, ints, moves)) {
      RepairedRace(m, ints, moves);
    }
    if forall one, two | one in ints && two in ints :: ints[one] == ints[two] {
      var topic := if ints == map[] then "" else var name :| name in ints; ints[name];
      forall moves ensures SentRight(ints, RunRace(AsTyped, m, ints, moves)) {
        SameTopicRace(m, ints, topic, moves);
      }
    } else {
      var one, two :| one in ints && two in ints && ints[one] != ints[two];
      var moves := LateTransmit(m, ints, one, two);
    }
  }
}
