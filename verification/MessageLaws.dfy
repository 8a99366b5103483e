/** What the language theorem says about messages: the encoder's round trip, fields the router
    does not know, nulls and duplicates. */
module MessageLaws {
  import opened Wrappers
  import opened Lexer
  import opened MessageCodec
  import opened MessageGrammar

  // ---- encoding ----

  /** An order in which Go may range over a map. */
  ghost predicate RangesOver<V>(order: seq<string>, m: map<string, V>) {
    && (forall i, j | 0 <= i < j < |order| :: order[i] != order[j])
    && (forall k :: k in order <==> k in m)
  }

  function Entries(order: seq<string>, m: map<string, bool>): seq<(string, bool)>
    requires forall k | k in order :: k in m
  {
    if order == [] then []
    else
      var last := order[|order| - 1];
      Entries(order[..|order| - 1], m) + [(last, m[last])]
  }

  function EncodedFields(m: Message, order: seq<string>): seq<Field>
    requires m.integrations.Some? ==> forall k | k in order :: k in m.integrations.value
  {
    [AppField(m.appId), IdField(m.messageId),
     match m.integrations
     case None => NullField("integrations")
     case Some(flags) => FlagsField(Entries(order, flags))]
  }

  lemma {:induction false} PrintFlagsSnoc(flags: seq<(string, bool)>, f: (string, bool))
    ensures PrintMoreFlags(flags + [f]) == PrintMoreFlags(flags) + [Comma] + PrintFlag(f)
    ensures PrintFlags(flags + [f]) == PrintFlags(flags) + (if flags == [] then [] else [Comma]) + PrintFlag(f)
  {
    if flags == [] {
      assert flags + [f] == [f];
    } else {
      assert (flags + [f])[1..] == flags[1..] + [f];
      PrintFlagsSnoc(flags[1..], f);
    }
  }

  /** The loop over the map: a comma before every entry but the first. */
  method MarshalFlags(flags: map<string, bool>, order: seq<string>) returns (out: seq<Token>)
    requires RangesOver(order, flags)
    ensures out == PrintFlags(Entries(order, flags))
  {
    out := [];
    var first := true;
    assert order[..|order|] == order;
    for i := 0 to |order|
      invariant first <==> i == 0
      invariant |Entries(order[..i], flags)| == i
      invariant out == PrintFlags(Entries(order[..i], flags))
    {
      assert order[..i + 1][..i] == order[..i];
      ghost var f := (order[i], flags[order[i]]);
      assert Entries(order[..i + 1], flags) == Entries(order[..i], flags) + [f];
      PrintFlagsSnoc(Entries(order[..i], flags), f);
      hide Entries, PrintFlags;
      if !first { out := out + [Comma]; }
      first := false;
      var entry := [Str(order[i])];
      entry := entry + [Colon];
      entry := entry + [Bool(flags[order[i]])];
      assert entry == PrintFlag(f);
      out := out + entry;
    }
  }

  /** MarshalJSON; `order` is the one in which the integrations are ranged over. */
  method Marshal(m: Message, order: seq<string>) returns (out: seq<Token>)
    requires m.integrations.Some? ==> RangesOver(order, m.integrations.value)
    ensures out == Print(EncodedFields(m, order))
  {
    ghost var fs := EncodedFields(m, order);
    PrintThree(fs);
    out := [LBrace];
    var field := [Str("appId"), Colon, Str(m.appId)];
    assert field == PrintField(fs[0]);
    out := out + field;
    field := [Str("messageId"), Colon, Str(m.messageId)];
    assert field == PrintField(fs[1]);
    out := out + ([Comma] + field);
    field := [Str("integrations"), Colon];
    if m.integrations.None? {
      field := field + [Null];
    } else {
      var flags := MarshalFlags(m.integrations.value, order);
      field := field + ([LBrace] + flags + [RBrace]);
    }
    assert field == PrintField(fs[2]);
    hide PrintField, Print, EncodedFields;
    out := out + ([Comma] + field);
    out := out + [RBrace];
  }

  lemma PrintThree(fs: seq<Field>)
    requires |fs| == 3
    ensures Print(fs) == [LBrace] + PrintField(fs[0]) + ([Comma] + PrintField(fs[1]))
                         + ([Comma] + PrintField(fs[2])) + [RBrace]
  {
    hide PrintField;
    assert fs[1..] == [fs[1], fs[2]] && fs[1..][1..] == [fs[2]] && [fs[2]][1..] == [];
    assert PrintMore([]) == [];
    assert PrintMore([fs[2]]) == [Comma] + PrintField(fs[2]) + [];
    assert PrintMore(fs[1..]) == [Comma] + PrintField(fs[1]) + PrintMore([fs[2]]);
    assert PrintFields(fs) == PrintField(fs[0]) + PrintMore(fs[1..]);
  }

  /** Each name, a colon and its value, with commas between them, token by token. */
  ghost predicate FlagsPrinted(out: seq<Token>, order: seq<string>, flags: map<string, bool>) {
    && |out| == (if order == [] then 0 else 4 * |order| - 1)
    && forall i | 0 <= i < |order| ::
         && order[i] in flags && out[4 * i] == Str(order[i]) && out[4 * i + 1] == Colon
         && out[4 * i + 2] == Bool(flags[order[i]]) && (i < |order| - 1 ==> out[4 * i + 3] == Comma)
  }

  lemma FlagsPrintedSnoc(out: seq<Token>, order: seq<string>, flags: map<string, bool>, name: string)
    requires FlagsPrinted(out, order, flags) && name in flags
    ensures FlagsPrinted(out + (if order == [] then [] else [Comma]) + [Str(name), Colon, Bool(flags[name])],
                         order + [name], flags)
  {
  }

  /** What the encoder's loop prints, token by token. */
  lemma {:induction false} FlagTokensAre(order: seq<string>, flags: map<string, bool>)
    requires forall k | k in order :: k in flags
    ensures FlagsPrinted(PrintFlags(Entries(order, flags)), order, flags)
    ensures Entries(order, flags) == [] <==> order == []
  {
    if order == [] {
    } else {
      var init, last := order[..|order| - 1], order[|order| - 1];
      FlagTokensAre(init, flags);
      var f := (last, flags[last]);
      assert Entries(order, flags) == Entries(init, flags) + [f];
      PrintFlagsSnoc(Entries(init, flags), f);
      FlagsPrintedSnoc(PrintFlags(Entries(init, flags)), init, flags, last);
      assert PrintFlag(f) == [Str(last), Colon, Bool(flags[last])];
      assert order == init + [last];
      hide Entries, PrintFlags, FlagsPrinted;
    }
  }

  /** What the encoder prints, token by token: the three fields, in this order. */
  lemma EncodedTokens(m: Message, order: seq<string>)
    requires m.integrations.Some? ==> RangesOver(order, m.integrations.value)
    ensures var flags := if m.integrations.None? then [Null]
                         else [LBrace] + PrintFlags(Entries(order, m.integrations.value)) + [RBrace];
            Print(EncodedFields(m, order))
            == [LBrace] + [Str("appId"), Colon, Str(m.appId)]
               + ([Comma] + [Str("messageId"), Colon, Str(m.messageId)])
               + ([Comma] + ([Str("integrations"), Colon] + flags)) + [RBrace]
    ensures m.integrations.Some? ==>
              FlagsPrinted(PrintFlags(Entries(order, m.integrations.value)), order, m.integrations.value)
  {
    var fs := EncodedFields(m, order);
    PrintThree(fs);
    assert PrintField(fs[0]) == [Str("appId"), Colon, Str(m.appId)];
    assert PrintField(fs[1]) == [Str("messageId"), Colon, Str(m.messageId)];
    if m.integrations.Some? { FlagTokensAre(order, m.integrations.value); }
    hide PrintFlags, Entries, FlagsPrinted, Print;
  }

  lemma {:induction false} EntriesRebuild(order: seq<string>, m: map<string, bool>)
    requires forall k | k in order :: k in m
    ensures FlagsMap(Entries(order, m)) == map k | k in order :: m[k]
    ensures Entries(order, m) == [] <==> order == []
  {
    if order == [] {
    } else {
      var n := |order| - 1;
      EntriesRebuild(order[..n], m);
      assert Entries(order, m)[..|Entries(order, m)| - 1] == Entries(order[..n], m);
      assert order == order[..n] + [order[n]];
    }
  }

  /** What a message is after one trip: an empty map has become a nil one. */
  function Normal(m: Message): Message {
    if m.integrations == Some(map[]) then m.(integrations := None) else m
  }

  lemma MeaningThree(f: Field, g: Field, h: Field)
    ensures Meaning([f, g, h]) == MeaningOf(h, MeaningOf(g, MeaningOf(f, BLANK)))
  {
    hide MeaningOf;
    assert [f, g, h][..2] == [f, g] && [f, g][..1] == [f] && [f][..0] == [];
    assert Meaning([f]) == MeaningOf(f, BLANK);
    assert Meaning([f, g]) == MeaningOf(g, Meaning([f]));
  }

  lemma EncodedMeaning(m: Message, order: seq<string>)
    requires m.integrations.Some? ==> RangesOver(order, m.integrations.value)
    ensures Meaning(EncodedFields(m, order)) == Normal(m)
  {
    var fs := EncodedFields(m, order);
    MeaningThree(fs[0], fs[1], fs[2]);
    if m.integrations.Some? {
      var flags := m.integrations.value;
      EntriesRebuild(order, flags);
      assert (map k | k in order :: flags[k]) == flags;
      assert flags == map[] <==> order == [] by {
        if order != [] { assert order[0] in flags; }
      }
    }
    hide Meaning, Entries;
  }

  /** In whatever order the map is ranged over, decoding what was encoded gives the message back,
      and exactly when its integrations are not an empty map that is not nil. */
  lemma RoundTrip(m: Message, order: seq<string>)
    requires m.integrations.Some? ==> RangesOver(order, m.integrations.value)
    ensures Decode(Print(EncodedFields(m, order))) == Some(Normal(m))
    ensures Decode(Print(EncodedFields(m, order))) == Some(m) <==> m.integrations != Some(map[])
  {
    DecodePrint(EncodedFields(m, order));
    EncodedMeaning(m, order);
  }

  // ---- fields the router does not know, nulls, duplicates ----

  lemma {:induction false} FoldAppend(fs: seq<Field>, gs: seq<Field>, m: Message)
    ensures FoldFields(fs + gs, m) == FoldFields(gs, FoldFields(fs, m))
  {
    if fs == [] {
      assert fs + gs == gs;
    } else {
      assert (fs + gs)[1..] == fs[1..] + gs;
      FoldAppend(fs[1..], gs, MeaningOf(fs[0], m));
    }
  }

  lemma DecodeFold(fs: seq<Field>)
    requires AllWellFormed(fs)
    ensures Decode(Print(fs)) == Some(FoldFields(fs, BLANK))
  {
    DecodePrint(fs);
    FoldIsMeaning(fs);
  }

  /** A null, or a field under a key the message does not have. */
  predicate Ignored(f: Field) {
    f.NullField? || f.TokenField? || f.GroupField?
  }

  /** Such a field, of any nesting and anywhere in the object, changes nothing. */
  lemma IgnoredFieldsIgnored(fs: seq<Field>, f: Field, gs: seq<Field>)
    requires AllWellFormed(fs) && WellFormed(f) && AllWellFormed(gs) && Ignored(f)
    ensures Decode(Print(fs + [f] + gs)) == Decode(Print(fs + gs))
  {
    DecodeFold(fs + [f] + gs);
    DecodeFold(fs + gs);
    FoldAppend(fs, gs, BLANK);
    FoldAppend(fs + [f], gs, BLANK);
    FoldFieldsSnoc(fs, f, BLANK);
  }

  /** Both set the same part of the message. */
  predicate SamePart(f: Field, g: Field) {
    (f.AppField? && g.AppField?) || (f.IdField? && g.IdField?) || (f.FlagsField? && g.FlagsField?)
  }

  /** The messages differ at most in the part the field sets. */
  predicate AgreeBut(f: Field, m: Message, n: Message) {
    MeaningOf(f, m) == MeaningOf(f, n)
  }

  lemma {:induction false} AgreementKept(f: Field, fs: seq<Field>, m: Message, n: Message)
    requires AgreeBut(f, m, n) && !Ignored(f)
    ensures AgreeBut(f, FoldFields(fs, m), FoldFields(fs, n))
  {
    if fs == [] {
    } else {
      AgreementKept(f, fs[1..], MeaningOf(fs[0], m), MeaningOf(fs[0], n));
    }
  }

  lemma DuplicateFolds(fs: seq<Field>, f: Field, gs: seq<Field>, g: Field, m: Message)
    requires SamePart(f, g)
    ensures FoldFields(fs + [f] + gs + [g], m) == FoldFields(fs + gs + [g], m)
  {
    FoldFieldsSnoc(fs + [f] + gs, g, m);
    FoldFieldsSnoc(fs + gs, g, m);
    FoldAppend(fs + [f], gs, m);
    FoldAppend(fs, gs, m);
    FoldFieldsSnoc(fs, f, m);
    var n, n' := FoldFields(fs, m), FoldFields(fs + [f], m);
    assert AgreeBut(g, n', n);
    AgreementKept(g, gs, n', n);
    hide FoldFields;
  }

  lemma AppendWellFormed(fs: seq<Field>, gs: seq<Field>)
    requires AllWellFormed(fs) && AllWellFormed(gs)
    ensures AllWellFormed(fs + gs)
  {
    hide WellFormed;
  }

  /** The last duplicate wins alone: an earlier field of the same key might as well not be there,
      so integrations are replaced, never merged. */
  lemma LastDuplicateWins(fs: seq<Field>, f: Field, gs: seq<Field>, g: Field, hs: seq<Field>)
    requires AllWellFormed(fs) && AllWellFormed(gs) && AllWellFormed(hs) && SamePart(f, g)
    ensures Decode(Print(fs + [f] + gs + [g] + hs)) == Decode(Print(fs + gs + [g] + hs))
  {
    var with, without := fs + [f] + gs + [g], fs + gs + [g];
    assert AllWellFormed([f]) && AllWellFormed([g]) by { assert WellFormed(f) && WellFormed(g); }
    AppendWellFormed(fs, [f]);
    AppendWellFormed(fs + [f], gs);
    AppendWellFormed(fs + [f] + gs, [g]);
    AppendWellFormed(with, hs);
    AppendWellFormed(fs, gs);
    AppendWellFormed(fs + gs, [g]);
    AppendWellFormed(without, hs);
    hide AllWellFormed;
    DecodeFold(with + hs);
    DecodeFold(without + hs);
    FoldAppend(with, hs, BLANK);
    FoldAppend(without, hs, BLANK);
    DuplicateFolds(fs, f, gs, g, BLANK);
    hide FoldFields, Decode, Print, Meaning;
  }

  // ---- values of any nesting are groups ----

  /** A JSON value (RFC 8259, sections 3 to 5). */
  datatype Json = Scalar(token: Token) | Object(members: seq<Member>) | Array(items: seq<Json>)
  datatype Member = Member(key: string, value: Json)

  predicate IsJson(j: Json) {
    match j
    case Scalar(t) => t.Str? || t.Num? || t.Bool? || t.Null?
    case Object(members) => forall i | 0 <= i < |members| :: IsJson(members[i].value)
    case Array(items) => forall i | 0 <= i < |items| :: IsJson(items[i])
  }

  function PrintJson(j: Json): seq<Token> {
    match j
    case Scalar(t) => [t]
    case Object(members) => [LBrace] + PrintMembers(members) + [RBrace]
    case Array(items) => [LBracket] + PrintItems(items) + [RBracket]
  }

  function PrintMembers(members: seq<Member>): seq<Token> {
    if members == [] then []
    else
      [Str(members[0].key), Colon] + PrintJson(members[0].value)
      + (if |members| == 1 then [] else [Comma]) + PrintMembers(members[1..])
  }

  function PrintItems(items: seq<Json>): seq<Token> {
    if items == [] then []
    else PrintJson(items[0]) + (if |items| == 1 then [] else [Comma]) + PrintItems(items[1..])
  }

  lemma {:induction false} LevelAppend(ts: seq<Token>, us: seq<Token>, brace: bool, level: nat)
    requires level > 0 && LevelAfter(ts, brace, level).Some?
    ensures LevelAfter(ts, brace, level).value > 0
    ensures LevelAfter(ts + us, brace, level) == LevelAfter(us, brace, LevelAfter(ts, brace, level).value)
  {
    if ts == [] {
      assert ts + us == us;
    } else {
      assert (ts + us)[0] == ts[0] && (ts + us)[1..] == ts[1..] + us;
      LevelAppend(ts[1..], us, brace,
                  if Opens(ts[0], brace) then level + 1 else if Closes(ts[0], brace) then level - 1 else level);
    }
  }

  /** Tokens that leave the level where it was, for either kind of bracket and at any level. */
  ghost predicate Balanced(ts: seq<Token>) {
    forall brace, level: nat | level > 0 :: LevelAfter(ts, brace, level) == Some(level)
  }

  lemma BalancedAppend(ts: seq<Token>, us: seq<Token>)
    requires Balanced(ts) && Balanced(us)
    ensures Balanced(ts + us)
  {
    forall brace, level: nat | level > 0 ensures LevelAfter(ts + us, brace, level) == Some(level) {
      LevelAppend(ts, us, brace, level);
    }
  }

  lemma BalancedToken(t: Token)
    requires !t.LBrace? && !t.RBrace? && !t.LBracket? && !t.RBracket?
    ensures Balanced([t])
  {
    assert [t][1..] == [];
  }

  lemma BalancedBrackets(ts: seq<Token>, brace: bool)
    requires Balanced(ts)
    ensures Balanced([Opening(brace)] + ts + [Closing(brace)])
  {
    var o, c := Opening(brace), Closing(brace);
    forall kind, level: nat | level > 0 ensures LevelAfter([o] + ts + [c], kind, level) == Some(level) {
      assert ([o] + ts + [c])[1..] == ts + [c];
      var inside := if kind == brace then level + 1 else level;
      LevelAppend(ts, [c], kind, inside);
      assert [c][1..] == [];
      assert LevelAfter([c], kind, inside) == Some(level);
    }
  }

  lemma {:induction false} JsonBalanced(j: Json)
    requires IsJson(j)
    ensures Balanced(PrintJson(j))
    decreases j, 0
  {
    match j
    case Scalar(t) => BalancedToken(t);
    case Object(members) =>
      MembersBalanced(members);
      BalancedBrackets(PrintMembers(members), true);
    case Array(items) =>
      ItemsBalanced(items);
      BalancedBrackets(PrintItems(items), false);
  }

  lemma {:induction false} MembersBalanced(members: seq<Member>)
    requires forall i | 0 <= i < |members| :: IsJson(members[i].value)
    ensures Balanced(PrintMembers(members))
    decreases members, 1
  {
    if members == [] {
    } else {
      var key, value := Str(members[0].key), members[0].value;
      var sep := if |members| == 1 then [] else [Comma];
      JsonBalanced(value);
      MembersBalanced(members[1..]);
      BalancedToken(key);
      BalancedToken(Colon);
      BalancedToken(Comma);
      BalancedAppend([key], [Colon]);
      assert [key, Colon] == [key] + [Colon];
      BalancedAppend([key, Colon], PrintJson(value));
      BalancedAppend([key, Colon] + PrintJson(value), sep);
      BalancedAppend([key, Colon] + PrintJson(value) + sep, PrintMembers(members[1..]));
    }
  }

  lemma {:induction false} ItemsBalanced(items: seq<Json>)
    requires forall i | 0 <= i < |items| :: IsJson(items[i])
    ensures Balanced(PrintItems(items))
    decreases items, 1
  {
    if items == [] {
    } else {
      var sep := if |items| == 1 then [] else [Comma];
      JsonBalanced(items[0]);
      ItemsBalanced(items[1..]);
      BalancedToken(Comma);
      BalancedAppend(PrintJson(items[0]), sep);
      BalancedAppend(PrintJson(items[0]) + sep, PrintItems(items[1..]));
    }
  }

  /** Every JSON value under a key the message does not have is a field the decoder ignores. */
  lemma JsonFieldIgnored(key: string, j: Json) returns (f: Field)
    requires !Known(key) && IsJson(j)
    ensures WellFormed(f) && Ignored(f) && PrintField(f) == [Str(key), Colon] + PrintJson(j)
  {
    match j
    case Scalar(t) => f := if t == Null then NullField(key) else TokenField(key, t);
    case Object(members) =>
      MembersBalanced(members);
      f := GroupField(key, true, PrintMembers(members));
    case Array(items) =>
      ItemsBalanced(items);
      f := GroupField(key, false, PrintItems(items));
  }

  /** No tokens, no message. */
  lemma NothingDecodesFromNothing()
    ensures Decode([]) == None
  {
  }
}
