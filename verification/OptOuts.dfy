/** Which integrations a message opts out of, told from its text. */
module OptOuts {
  import opened Builds
  import opened Wrappers
  import opened Framing
  import opened MessageCodec
  import opened MessageGrammar
  import opened MessageLanguage
  import opened Lexer
  import opened Routing
  import opened Pipeline
  import opened PipelineLaws
  import opened Router

  /** The entries of the last integrations field that is not null. */
  function LastFlags(fs: seq<Field>): seq<(string, bool)> {
    if fs == [] then []
    else
      var last := fs[|fs| - 1];
      if last.FlagsField? then last.flags else LastFlags(fs[..|fs| - 1])
  }

  /** The value of the last entry of a name. */
  function LastValue(flags: seq<(string, bool)>, name: string): Option<bool> {
    if flags == [] then None
    else
      var last := flags[|flags| - 1];
      if last.0 == name then Some(last.1) else LastValue(flags[..|flags| - 1], name)
  }

  /** The text says of the integration, last and in its last integrations, that it is off. */
  predicate SaysOff(fs: seq<Field>, name: string) {
    LastValue(LastFlags(fs), name) == Some(false)
  }

  lemma {:induction false} MeaningFlags(fs: seq<Field>)
    ensures var flags := LastFlags(fs);
            Meaning(fs).integrations == if flags == [] then None else Some(FlagsMap(flags))
  {
    if fs == [] {
    } else {
      MeaningFlags(fs[..|fs| - 1]);
    }
    hide FlagsMap;
  }

  lemma {:induction false} FlagsMapValue(flags: seq<(string, bool)>, name: string)
    ensures name in FlagsMap(flags) <==> LastValue(flags, name).Some?
    ensures name in FlagsMap(flags) ==> FlagsMap(flags)[name] == LastValue(flags, name).value
  {
    if flags == [] {
    } else {
      FlagsMapValue(flags[..|flags| - 1], name);
    }
  }

  /** A text and its fields; the bare null has none. */
  predicate HasFields(data: seq<Token>, fs: seq<Field>) {
    AllWellFormed(fs) && (data == Print(fs) || (data == [Null] && fs == []))
  }

  lemma DecodedFields(data: seq<Token>, fs: seq<Field>, m: Message)
    requires HasFields(data, fs) && Decode(data) == Some(m)
    ensures m == Meaning(fs)
  {
    if data == Print(fs) {
      DecodePrint(fs);
    } else {
      Language(data, m);
      forall gs ensures Print(gs) != [Null] {
        assert Print(gs)[0] == LBrace;
      }
    }
    hide Decode;
  }

  /** Repaired the loop skips a name exactly when the text says it is off; as typed it skips none. */
  lemma SkipsWhatIsOff(data: seq<Token>, fs: seq<Field>, m: Message, name: string)
    requires HasFields(data, fs) && Decode(data) == Some(m)
    ensures Skips(Repaired, m, name) <==> SaysOff(fs, name)
    ensures !Skips(AsTyped, m, name)
  {
    DecodedFields(data, fs, m);
    MeaningFlags(fs);
    FlagsMapValue(LastFlags(fs), name);
    hide Decode, Print, Meaning, FlagsMap, LastFlags, LastValue;
  }

  lemma {:induction false} NamesAdded(b: Build, l: Line, m: Message, key: Data, value: Data,
                                      ints: map<string, string>, order: seq<string>, name: string)
    requires forall k | k in order :: k in ints
    ensures var r := FanOut(b, l, m, key, value, ints, order);
            |l.channel| <= |r.channel|
            && (name in Names(r.channel[|l.channel|..]) <==> name in order && !Skips(b, m, name))
  {
    FanOutCopies(b, l, m, key, value, ints, order);
    hide FanOut, Names, Skips;
  }

  /** For a message decoded from any text, the loop gives a name it ranges over no copy exactly when the
      last entry of that name in the last integrations that are not null is false. As typed every name
      gets one. */
  lemma CopiesUnlessOff(data: seq<Token>, fs: seq<Field>, m: Message, l: Line, key: Data, value: Data,
                        ints: map<string, string>, order: seq<string>, name: string)
    requires HasFields(data, fs) && Decode(data) == Some(m)
    requires (forall k | k in order :: k in ints) && name in order
    ensures var r := FanOut(Repaired, l, m, key, value, ints, order);
            |l.channel| <= |r.channel|
            && (name !in Names(r.channel[|l.channel|..]) <==> LastValue(LastFlags(fs), name) == Some(false))
    ensures var r := FanOut(AsTyped, l, m, key, value, ints, order);
            |l.channel| <= |r.channel| && name in Names(r.channel[|l.channel|..])
  {
    SkipsWhatIsOff(data, fs, m, name);
    NamesAdded(Repaired, l, m, key, value, ints, order, name);
    NamesAdded(AsTyped, l, m, key, value, ints, order, name);
    hide FanOut, Names, Skips, LastFlags, LastValue, Decode, Print;
  }

  /** The same in every run of the router: when a message's loop is done, an integration of its answer has
      one copy of the message, unless, repaired, the message's text says it is off; then none. Nothing else
      has one. */
  lemma FanOutByText(c: Config, hs: seq<Happening>, fs: seq<Field>, name: string)
    requires ReadsNothingFromNothing(c) && Enabled(c, After(c, hs), FinishFan)
    requires HasFields(c.lex(After(c, hs).job.value), fs)
    ensures var s := After(c, hs);
            && s.job.ref < |s.answers|
            && Copies(s.books.produced, s.job.msg, name)
               == if name !in s.answers[s.job.ref].routes then 0
                  else if c.build == Repaired && LastValue(LastFlags(fs), name) == Some(false) then 0 else 1
  {
    FanOutExact(c, hs, name);
    AfterInv(c, hs);
    var s := After(c, hs);
    assert JobGrounded(c, s);
    SkipsWhatIsOff(c.lex(s.job.value), fs, s.job.message, name);
    hide After, Copies, Inv, Skips, LastFlags, LastValue, Decode, Print;
  }
}
