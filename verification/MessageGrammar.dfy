/** The texts the message decoder accepts, and what it makes of them: a grammar that knows
    nothing of the lexer, and the proof that the decoder implements exactly that. */
module MessageGrammar {
  import opened Wrappers
  import opened Lexer
  import opened MessageCodec

  /** One field of the object. A field the message does not have carries one token, or a bracket
      with any tokens up to the one that closes it. */
  datatype Field =
    | NullField(key: string)
    | AppField(text: string)
    | IdField(text: string)
    | FlagsField(flags: seq<(string, bool)>)
    | TokenField(key: string, value: Token)
    | GroupField(key: string, brace: bool, inner: seq<Token>)

  /** The level after some tokens inside `level` open brackets, None when they close them all. */
  function LevelAfter(ts: seq<Token>, brace: bool, level: nat): Option<nat>
    requires level > 0
  {
    if ts == [] then Some(level)
    else if Opens(ts[0], brace) then LevelAfter(ts[1..], brace, level + 1)
    else if Closes(ts[0], brace) then if level == 1 then None else LevelAfter(ts[1..], brace, level - 1)
    else LevelAfter(ts[1..], brace, level)
  }

  predicate Known(key: string) {
    key == "appId" || key == "messageId" || key == "integrations"
  }

  predicate WellFormed(f: Field) {
    match f
    case TokenField(key, v) => !Known(key) && (v.Str? || v.Num? || v.Bool?)
    case GroupField(key, brace, inner) => !Known(key) && LevelAfter(inner, brace, 1) == Some(1)
    case _ => true
  }

  predicate AllWellFormed(fs: seq<Field>) {
    forall i | 0 <= i < |fs| :: WellFormed(fs[i])
  }

  function Opening(brace: bool): Token {
    if brace then LBrace else LBracket
  }

  function Closing(brace: bool): Token {
    if brace then RBrace else RBracket
  }

  function PrintFlag(f: (string, bool)): seq<Token> {
    [Str(f.0), Colon, Bool(f.1)]
  }

  /** Entries, each after a comma. */
  function PrintMoreFlags(flags: seq<(string, bool)>): seq<Token> {
    if flags == [] then [] else [Comma] + PrintFlag(flags[0]) + PrintMoreFlags(flags[1..])
  }

  /** Entries separated by commas. */
  function PrintFlags(flags: seq<(string, bool)>): seq<Token> {
    if flags == [] then [] else PrintFlag(flags[0]) + PrintMoreFlags(flags[1..])
  }

  function Key(f: Field): string {
    match f
    case NullField(key) => key
    case AppField(_) => "appId"
    case IdField(_) => "messageId"
    case FlagsField(_) => "integrations"
    case TokenField(key, _) => key
    case GroupField(key, _, _) => key
  }

  function PrintValue(f: Field): seq<Token> {
    match f
    case NullField(_) => [Null]
    case AppField(text) => [Str(text)]
    case IdField(text) => [Str(text)]
    case FlagsField(flags) => [LBrace] + PrintFlags(flags) + [RBrace]
    case TokenField(_, value) => [value]
    case GroupField(_, brace, inner) => [Opening(brace)] + inner + [Closing(brace)]
  }

  function PrintField(f: Field): seq<Token> {
    [Str(Key(f)), Colon] + PrintValue(f)
  }

  function PrintMore(fs: seq<Field>): seq<Token> {
    if fs == [] then [] else [Comma] + PrintField(fs[0]) + PrintMore(fs[1..])
  }

  function PrintFields(fs: seq<Field>): seq<Token> {
    if fs == [] then [] else PrintField(fs[0]) + PrintMore(fs[1..])
  }

  function Print(fs: seq<Field>): seq<Token> {
    [LBrace] + PrintFields(fs) + [RBrace]
  }

  /** The map some entries build: the last entry of a key wins. */
  function FlagsMap(flags: seq<(string, bool)>): map<string, bool> {
    if flags == [] then map[]
    else FlagsMap(flags[..|flags| - 1])[flags[|flags| - 1].0 := flags[|flags| - 1].1]
  }

  function MeaningOf(f: Field, m: Message): Message {
    match f
    case AppField(text) => m.(appId := text)
    case IdField(text) => m.(messageId := text)
    case FlagsField(flags) => m.(integrations := if flags == [] then None else Some(FlagsMap(flags)))
    case _ => m
  }

  /** What a message holds after some fields: each replaces, none merges. */
  function Meaning(fs: seq<Field>): Message {
    if fs == [] then BLANK else MeaningOf(fs[|fs| - 1], Meaning(fs[..|fs| - 1]))
  }

  // ---- the decoder accepts every text of the grammar ----

  /** A lexer inside an object, before its first entry or after an earlier one. */
  predicate Ready(x: Lex, first: bool) {
    !x.failed && x.token.None? && x.first == first && x.want == if first then NoSep else WantComma
  }

  function FoldFlags(flags: seq<(string, bool)>, m: map<string, bool>): map<string, bool> {
    if flags == [] then m else FoldFlags(flags[1..], m[flags[0].0 := flags[0].1])
  }

  function FoldFields(fs: seq<Field>, m: Message): Message {
    if fs == [] then m else FoldFields(fs[1..], MeaningOf(fs[0], m))
  }

  function FlagTokens(flags: seq<(string, bool)>, first: bool): seq<Token> {
    if first then PrintFlags(flags) else PrintMoreFlags(flags)
  }

  function FieldTokens(fs: seq<Field>, first: bool): seq<Token> {
    if first then PrintFields(fs) else PrintMore(fs)
  }

  /** A lexer that has just scanned the closing brace of an object. */
  predicate AtBrace(x: Lex, rest: seq<Token>) {
    !x.failed && x.token == Some(RBrace) && x.rest == rest && x.want == NoSep
  }

  predicate StartsValue(t: Token) {
    t.Str? || t.Num? || t.Bool? || t.Null? || t.LBrace? || t.LBracket?
  }

  /** The state that has scanned one token where no separator is awaited. */
  function Scanned(x: Lex, t: Token, rest: seq<Token>): Lex {
    Lex(rest, Some(t), if t.LBrace? || t.LBracket? then true else x.first, NoSep, false)
  }

  lemma FetchValue(x: Lex, t: Token, rest: seq<Token>)
    requires !x.failed && x.token.None? && x.want == NoSep && StartsValue(t)
    requires x.rest == [t] + rest
    ensures Fetch(x) == Scanned(x, t, rest)
  {
    assert x.rest[0] == t && x.rest[1..] == rest;
  }

  lemma FetchPastSeparator(x: Lex, sep: Token, t: Token, rest: seq<Token>)
    requires !x.failed && x.token.None? && StartsValue(t)
    requires (sep == Comma && x.want == WantComma) || (sep == Colon && x.want == WantColon)
    requires x.rest == [sep, t] + rest
    ensures Fetch(x) == Scanned(x, t, rest)
  {
    assert x.rest[0] == sep && x.rest[1..] == [t] + rest;
    FetchValue(x.(rest := [t] + rest, want := NoSep), t, rest);
  }

  /** Past the separator, an entry starts with its key and a colon. */
  lemma EntryStarts(x: Lex, first: bool, key: string, t: Token, rest: seq<Token>)
    requires Ready(x, first) && StartsValue(t)
    requires x.rest == (if first then [] else [Comma]) + [Str(key), Colon, t] + rest
    ensures !AtDelim(Peek(x), RBrace)
    ensures Text(Peek(x)) == (key, Lex([Colon, t] + rest, None, first, NoSep, false))
    ensures Peek(Want(Text(Peek(x)).1, WantColon)) == Lex(rest, Some(t), t.LBrace? || t.LBracket?, NoSep, false)
  {
    var tail := [Colon, t] + rest;
    if first {
      assert x.rest == [Str(key)] + tail;
      FetchValue(x, Str(key), tail);
    } else {
      assert x.rest == [Comma, Str(key)] + tail;
      FetchPastSeparator(x, Comma, Str(key), tail);
    }
    FetchPastSeparator(Want(Text(Peek(x)).1, WantColon), Colon, t, rest);
  }

  /** The brace that closes an object is scanned past no separator. */
  lemma ObjectEnds(x: Lex, first: bool, rest: seq<Token>)
    requires Ready(x, first) && x.rest == [RBrace] + rest
    ensures AtBrace(Peek(x), rest)
  {
    assert x.rest[0] == RBrace && x.rest[1..] == rest;
  }

  // ---- flags ----

  lemma FlagTokensCons(flags: seq<(string, bool)>, first: bool, rest: seq<Token>)
    requires flags != []
    ensures FlagTokens(flags, first) + [RBrace] + rest
            == (if first then [] else [Comma]) + [Str(flags[0].0), Colon, Bool(flags[0].1)]
               + (PrintMoreFlags(flags[1..]) + [RBrace] + rest)
  {
  }

  lemma FlagsAccepted(x: Lex, first: bool, flags: seq<(string, bool)>, m: map<string, bool>, rest: seq<Token>)
    requires Ready(x, first) && x.rest == FlagTokens(flags, first) + [RBrace] + rest
    ensures DecodeFlags(x, m).0 == FoldFlags(flags, m) && AtBrace(DecodeFlags(x, m).1, rest)
    decreases |flags|
  {
    if flags == [] {
      assert x.rest == [RBrace] + rest;
      ObjectEnds(x, first, rest);
    } else {
      var (key, value) := flags[0];
      var rest' := PrintMoreFlags(flags[1..]) + [RBrace] + rest;
      FlagTokensCons(flags, first, rest);
      EntryStarts(x, first, key, Bool(value), rest');
      hide Peek, Fetch, PrintMoreFlags, PrintFlags;
      var y := Want(Text(Peek(x)).1, WantColon);
      assert Truth(y) == (value, Lex(rest', None, false, NoSep, false));
      var z := Lex(rest', None, false, WantComma, false);
      assert DecodeFlags(x, m) == DecodeFlags(z, m[key := value]);
      FlagsAccepted(z, false, flags[1..], m[key := value], rest);
    }
  }

  lemma IntegrationsAccepted(x: Lex, flags: seq<(string, bool)>, rest: seq<Token>)
    requires x == Lex(PrintFlags(flags) + [RBrace] + rest, Some(LBrace), true, NoSep, false)
    ensures var (r, y) := DecodeIntegrations(x);
            && r == (if flags == [] then None else Some(FlagsMap(flags)))
            && !y.failed && y.token.None? && y.rest == rest
  {
    var y := Delim(x, LBrace);
    assert Ready(y, true);
    FlagsPeeked(y, map[]);
    FlagsAccepted(y, true, flags, map[], rest);
    FoldIsMap(flags, map[]);
    if flags == [] {
      assert y.rest == [RBrace] + rest;
      ObjectEnds(y, true, rest);
    } else {
      FlagTokensCons(flags, true, rest);
      EntryStarts(y, true, flags[0].0, Bool(flags[0].1), PrintMoreFlags(flags[1..]) + [RBrace] + rest);
      hide Fetch, PrintFlags, PrintMoreFlags, DecodeFlags;
      assert map[] + FlagsMap(flags) == FlagsMap(flags);
    }
  }

  // ---- groups ----

  /** Skipping a group stops right behind the bracket that closes it, whatever is inside. */
  lemma {:induction false} GroupSkipped(inner: seq<Token>, brace: bool, level: nat, rest: seq<Token>)
    requires level > 0 && LevelAfter(inner, brace, level) == Some(1)
    ensures AfterClose(inner + [Closing(brace)] + rest, brace, level) == Some(rest)
  {
    var ts := inner + [Closing(brace)] + rest;
    if inner == [] {
      assert ts[0] == Closing(brace) && ts[1..] == rest;
    } else {
      var t := inner[0];
      assert ts[0] == t && ts[1..] == inner[1..] + [Closing(brace)] + rest;
      var level' := if Opens(t, brace) then level + 1 else if Closes(t, brace) then level - 1 else level;
      GroupSkipped(inner[1..], brace, level', rest);
    }
  }

  // ---- fields ----

  function FirstToken(f: Field): Token {
    match f
    case NullField(_) => Null
    case AppField(text) => Str(text)
    case IdField(text) => Str(text)
    case FlagsField(_) => LBrace
    case TokenField(_, value) => value
    case GroupField(_, brace, _) => Opening(brace)
  }

  lemma GroupAccepted(f: Field, x: Lex, m: Message, rest: seq<Token>)
    requires WellFormed(f) && f.GroupField?
    requires x == Lex(PrintValue(f)[1..] + rest, Some(FirstToken(f)), true, NoSep, false)
    ensures DecodeValue(x, Key(f), m) == (m, Lex(rest, None, true, NoSep, false))
  {
    assert x.rest == f.inner + [Closing(f.brace)] + rest;
    GroupSkipped(f.inner, f.brace, 1, rest);
  }

  lemma TextAccepted(f: Field, x: Lex, m: Message, rest: seq<Token>)
    requires WellFormed(f) && (f.AppField? || f.IdField? || f.TokenField?)
    requires x == Lex(rest, Some(FirstToken(f)), false, NoSep, false)
    ensures DecodeValue(x, Key(f), m) == (MeaningOf(f, m), Lex(rest, None, false, NoSep, false))
  {
  }

  lemma FlagsFieldAccepted(f: Field, x: Lex, m: Message, rest: seq<Token>)
    requires f.FlagsField? && x == Lex(PrintValue(f)[1..] + rest, Some(LBrace), true, NoSep, false)
    ensures var (m', y) := DecodeValue(x, Key(f), m);
            m' == MeaningOf(f, m) && !y.failed && y.token.None? && y.rest == rest
  {
    assert x.rest == PrintFlags(f.flags) + [RBrace] + rest;
    IntegrationsAccepted(x, f.flags, rest);
    hide DecodeIntegrations, PrintFlags, FlagsMap;
  }

  lemma ValueAccepted(f: Field, x: Lex, m: Message, rest: seq<Token>)
    requires WellFormed(f) && !f.NullField?
    requires x == Lex(PrintValue(f)[1..] + rest, Some(FirstToken(f)), f.FlagsField? || f.GroupField?, NoSep, false)
    ensures var (m', y) := DecodeValue(x, Key(f), m);
            m' == MeaningOf(f, m) && !y.failed && y.token.None? && y.rest == rest
  {
    if f.FlagsField? {
      FlagsFieldAccepted(f, x, m, rest);
      hide DecodeValue, PrintFlags, FlagsMap;
    } else if f.GroupField? {
      GroupAccepted(f, x, m, rest);
      hide DecodeValue;
    } else {
      assert x.rest == rest;
      TextAccepted(f, x, m, rest);
      hide DecodeValue;
    }
  }

  lemma {:induction false} FoldIsMap(flags: seq<(string, bool)>, m: map<string, bool>)
    ensures FoldFlags(flags, m) == m + FlagsMap(flags)
  {
    if flags == [] {
    } else {
      var n := |flags| - 1;
      FoldFlagsSnoc(flags[..n], flags[n], m);
      FoldIsMap(flags[..n], m);
      assert flags[..n] + [flags[n]] == flags;
    }
  }

  lemma {:induction false} FoldFlagsSnoc(flags: seq<(string, bool)>, f: (string, bool), m: map<string, bool>)
    ensures FoldFlags(flags + [f], m) == FoldFlags(flags, m)[f.0 := f.1]
  {
    if flags == [] {
      assert flags + [f] == [f];
    } else {
      assert (flags + [f])[1..] == flags[1..] + [f];
      FoldFlagsSnoc(flags[1..], f, m[flags[0].0 := flags[0].1]);
    }
  }

  lemma {:induction false} FoldFieldsSnoc(fs: seq<Field>, f: Field, m: Message)
    ensures FoldFields(fs + [f], m) == MeaningOf(f, FoldFields(fs, m))
  {
    if fs == [] {
      assert fs + [f] == [f];
    } else {
      assert (fs + [f])[1..] == fs[1..] + [f];
      FoldFieldsSnoc(fs[1..], f, MeaningOf(fs[0], m));
    }
  }

  lemma {:induction false} FoldIsMeaning(fs: seq<Field>)
    ensures FoldFields(fs, BLANK) == Meaning(fs)
  {
    if fs == [] {
    } else {
      var n := |fs| - 1;
      FoldIsMeaning(fs[..n]);
      FoldFieldsSnoc(fs[..n], fs[n], BLANK);
      assert fs[..n] + [fs[n]] == fs;
    }
  }

  lemma FieldTokensCons(fs: seq<Field>, first: bool, rest: seq<Token>)
    requires fs != []
    ensures FieldTokens(fs, first) + [RBrace] + rest
            == (if first then [] else [Comma]) + [Str(Key(fs[0])), Colon, FirstToken(fs[0])]
               + (PrintValue(fs[0])[1..] + (PrintMore(fs[1..]) + [RBrace] + rest))
  {
    PrintValueHead(fs[0]);
    hide PrintValue, FirstToken, Key;
    ConcatEntry(if first then [] else [Comma], Key(fs[0]), FirstToken(fs[0]), PrintValue(fs[0])[1..],
                PrintMore(fs[1..]), rest);
  }

  lemma PrintValueHead(f: Field)
    ensures PrintValue(f) == [FirstToken(f)] + PrintValue(f)[1..]
  {
  }

  lemma ConcatEntry(head: seq<Token>, key: string, t: Token, value: seq<Token>, more: seq<Token>, rest: seq<Token>)
    ensures head + ([Str(key), Colon] + ([t] + value)) + more + [RBrace] + rest
            == head + [Str(key), Colon, t] + (value + (more + [RBrace] + rest))
    ensures [Str(key), Colon] + ([t] + value) + more + [RBrace] + rest
            == [] + [Str(key), Colon, t] + (value + (more + [RBrace] + rest))
  {
  }

  lemma FieldsAccepted(x: Lex, first: bool, fs: seq<Field>, m: Message, rest: seq<Token>)
    requires Ready(x, first) && AllWellFormed(fs) && x.rest == FieldTokens(fs, first) + [RBrace] + rest
    ensures DecodeFields(x, m).0 == FoldFields(fs, m) && AtBrace(DecodeFields(x, m).1, rest)
    decreases |fs|
  {
    if fs == [] {
      assert x.rest == [RBrace] + rest;
      ObjectEnds(x, first, rest);
    } else {
      var f, t := fs[0], FirstToken(fs[0]);
      var rest' := PrintMore(fs[1..]) + [RBrace] + rest;
      FieldTokensCons(fs, first, rest);
      EntryStarts(x, first, Key(f), t, PrintValue(f)[1..] + rest');
      var y := Peek(Want(Text(Peek(x)).1, WantColon));
      if f.NullField? {
        assert PrintValue(f)[1..] + rest' == rest';
        hide Fetch, PrintMore, PrintFields, DecodeValue;
        var z := Want(Skip(y), WantComma);
        assert DecodeFields(x, m) == DecodeFields(z, m);
        FieldsAccepted(z, false, fs[1..], m, rest);
      } else {
        ValueAccepted(f, y, m, rest');
        hide Fetch, PrintMore, PrintFields, DecodeValue, PrintValue;
        var (m', y') := DecodeValue(y, Key(f), m);
        var z := Want(y', WantComma);
        assert DecodeFields(x, m) == DecodeFields(z, m');
        FieldsAccepted(z, false, fs[1..], m', rest);
      }
    }
  }

  /** Completeness: every text of the grammar is accepted with its meaning. */
  lemma DecodePrint(fs: seq<Field>)
    requires AllWellFormed(fs)
    ensures Decode(Print(fs)) == Some(Meaning(fs))
  {
    var x := Start(Print(fs));
    assert Print(fs) == [LBrace] + (PrintFields(fs) + [RBrace]);
    FetchValue(x, LBrace, PrintFields(fs) + [RBrace]);
    var y := Delim(Peek(x), LBrace);
    assert y.rest == PrintFields(fs) + [RBrace] + [];
    FieldsAccepted(y, true, fs, BLANK, []);
    FoldIsMeaning(fs);
  }
}
