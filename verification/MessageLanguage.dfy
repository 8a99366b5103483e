/** The other half: whatever the message decoder accepts is a text of the grammar, and with it
    the exact language and meaning of the decoder. */
module MessageLanguage {
  import opened Wrappers
  import opened Lexer
  import opened MessageCodec
  import opened MessageGrammar

  // ---- what a successful scan has passed ----

  /** Where no separator is awaited, a scan takes the next token. */
  lemma FetchInverted(x: Lex) returns (t: Token, rest: seq<Token>)
    requires !x.failed && x.token.None? && x.want == NoSep && !Fetch(x).failed
    ensures x.rest == [t] + rest && (StartsValue(t) || (x.first && (t.RBrace? || t.RBracket?)))
    ensures Fetch(x).token == Some(t) && Fetch(x).rest == rest
  {
    t, rest := x.rest[0], x.rest[1..];
  }

  /** Where one is, the separator comes first; only a closing bracket may come without a comma. */
  lemma SeparatorInverted(x: Lex) returns (t: Token, rest: seq<Token>)
    requires !x.failed && x.token.None? && x.want != NoSep && !x.first && !Fetch(x).failed
    requires Fetch(x).token.value != RBrace && Fetch(x).token.value != RBracket
    ensures x.rest == [if x.want == WantComma then Comma else Colon, t] + rest && StartsValue(t)
    ensures Fetch(x).token == Some(t)
  {
    var y := x.(rest := x.rest[1..], want := NoSep);
    assert x.rest[0] == if x.want == WantComma then Comma else Colon;
    assert Fetch(x) == Fetch(y);
    t, rest := FetchInverted(y);
  }

  /** The first token of an entry. */
  lemma KeyInverted(x: Lex, first: bool) returns (t: Token, rest: seq<Token>)
    requires Ready(x, first) && !AtDelim(Peek(x), RBrace) && !Text(Peek(x)).1.failed
    ensures t.Str? && x.rest == (if first then [] else [Comma]) + [t] + rest
    ensures Text(Peek(x)) == (t.text, Lex(rest, None, first, NoSep, false))
  {
    if first {
      t, rest := FetchInverted(x);
      FetchValue(x, t, rest);
    } else {
      t, rest := SeparatorInverted(x);
      FetchPastSeparator(x, Comma, t, rest);
    }
  }

  lemma EntryInverted(x: Lex, first: bool) returns (key: string, t: Token, rest: seq<Token>)
    requires Ready(x, first) && !AtDelim(Peek(x), RBrace)
    requires !Text(Peek(x)).1.failed && !Peek(Want(Text(Peek(x)).1, WantColon)).failed
    ensures StartsValue(t)
    ensures x.rest == (if first then [] else [Comma]) + [Str(key), Colon, t] + rest
  {
    var t1, rest1 := KeyInverted(x, first);
    key := t1.text;
    var y := Want(Text(Peek(x)).1, WantColon);
    assert y == Lex(rest1, None, false, WantColon, false) && !Fetch(y).failed;
    hide Text, AtDelim, Ready, Peek, Fetch;
    ClosingNeedsComma(y);
    t, rest := SeparatorInverted(y);
    assert rest1 == [Colon, t] + rest;
  }

  /** After a key no bracket can close. */
  lemma ClosingNeedsComma(x: Lex)
    requires !x.failed && x.token.None? && x.want == WantColon && !x.first && !Fetch(x).failed
    ensures Fetch(x).token.value != RBrace && Fetch(x).token.value != RBracket
  {
    var y := x.(rest := x.rest[1..], want := NoSep);
    assert Fetch(x) == Fetch(y);
  }

  /** After a comma no bracket can close either. */
  lemma ClosingNotAfterComma(x: Lex)
    requires !x.failed && x.token.None? && x.want == WantComma && !x.first
    requires x.rest != [] && x.rest[0] == Comma && !Fetch(x).failed
    ensures Fetch(x).token.value != RBrace
  {
    var y := x.(rest := x.rest[1..], want := NoSep);
    assert Fetch(x) == Fetch(y);
  }

  lemma EndInverted(x: Lex, first: bool) returns (rest: seq<Token>)
    requires Ready(x, first) && !Peek(x).failed && AtDelim(Peek(x), RBrace)
    ensures x.rest == [RBrace] + rest && AtBrace(Peek(x), rest)
  {
    rest := x.rest[1..];
    assert x.rest[0] != Comma by {
      if x.rest[0] == Comma && !first { ClosingNotAfterComma(x); }
    }
  }

  // ---- flags ----

  lemma FlagsInverted(x: Lex, first: bool, m: map<string, bool>)
    returns (flags: seq<(string, bool)>, rest: seq<Token>)
    requires Ready(x, first) && !DecodeFlags(x, m).1.failed
    ensures x.rest == FlagTokens(flags, first) + [RBrace] + rest
    decreases |x.rest|
  {
    if AtDelim(Peek(x), RBrace) {
      rest := EndInverted(x, first);
      flags := [];
      assert x.rest == FlagTokens(flags, first) + [RBrace] + rest;
    } else {
      FlagEntryLives(x, m);
      var key, t, rest1 := EntryInverted(x, first);
      EntryStarts(x, first, key, t, rest1);
      hide Peek, Fetch;
      var z := Lex(rest1, None, false, WantComma, false);
      assert t.Bool? && DecodeFlags(x, m) == DecodeFlags(z, m[key := t.value]);
      var flags1: seq<(string, bool)>;
      flags1, rest := FlagsInverted(z, false, m[key := t.value]);
      flags := [(key, t.value)] + flags1;
      assert flags[1..] == flags1;
      FlagTokensCons(flags, first, rest);
    }
  }

  /** An error inside an entry is still there at the end. */
  lemma FlagEntryLives(x: Lex, m: map<string, bool>)
    requires !AtDelim(Peek(x), RBrace) && !DecodeFlags(x, m).1.failed
    ensures !Text(Peek(x)).1.failed && !Peek(Want(Text(Peek(x)).1, WantColon)).failed
    ensures Peek(Want(Text(Peek(x)).1, WantColon)).token.value.Bool?
  {
    var (key, y1) := Text(Peek(x));
    var (value, y2) := Truth(Want(y1, WantColon));
    assert DecodeFlags(x, m) == DecodeFlags(Want(y2, WantComma), m[key := value]);
    FailedFlags(Want(y2, WantComma), m[key := value]);
  }

  lemma FailedFlags(x: Lex, m: map<string, bool>)
    ensures x.failed ==> DecodeFlags(x, m).1.failed
  {
  }

  lemma FailedFields(x: Lex, m: Message)
    ensures x.failed ==> DecodeFields(x, m).1.failed
  {
  }

  // ---- values ----

  lemma {:induction false} GroupInverted(rest: seq<Token>, brace: bool, level: nat) returns (inner: seq<Token>)
    requires level > 0 && AfterClose(rest, brace, level).Some?
    ensures LevelAfter(inner, brace, level) == Some(1)
    ensures rest == inner + [Closing(brace)] + AfterClose(rest, brace, level).value
  {
    if Closes(rest[0], brace) && level == 1 {
      inner := [];
    } else {
      var level' := if Opens(rest[0], brace) then level + 1
                    else if Closes(rest[0], brace) then level - 1 else level;
      var inner' := GroupInverted(rest[1..], brace, level');
      inner := [rest[0]] + inner';
      assert inner[1..] == inner';
      assert rest == [rest[0]] + rest[1..];
    }
  }

  lemma IntegrationsInverted(x: Lex, rest: seq<Token>, t: Token)
    returns (flags: seq<(string, bool)>, rest': seq<Token>)
    requires x == Lex(rest, Some(t), t.LBrace? || t.LBracket?, NoSep, false)
    requires !DecodeIntegrations(x).1.failed
    ensures t == LBrace && rest == PrintFlags(flags) + [RBrace] + rest'
  {
    var y := Delim(x, LBrace);
    assert t == LBrace && Ready(y, true);
    FlagsPeeked(y, map[]);
    if AtDelim(Peek(y), RBrace) {
      rest' := EndInverted(y, true);
      flags := [];
    } else {
      flags, rest' := FlagsInverted(y, true, map[]);
    }
  }

  /** A value under a key the message does not have. */
  lemma UnknownInverted(x: Lex, key: string, rest: seq<Token>, t: Token)
    returns (f: Field, rest': seq<Token>)
    requires x == Lex(rest, Some(t), t.LBrace? || t.LBracket?, NoSep, false) && !Known(key)
    requires StartsValue(t) && t != Null && !SkipValue(x).failed
    ensures WellFormed(f) && !f.NullField? && Key(f) == key && FirstToken(f) == t
    ensures rest == PrintValue(f)[1..] + rest'
  {
    if t.LBrace? || t.LBracket? {
      var inner := GroupInverted(rest, t.LBrace?, 1);
      f, rest' := GroupField(key, t.LBrace?, inner), AfterClose(rest, t.LBrace?, 1).value;
    } else {
      f, rest' := TokenField(key, t), rest;
    }
  }

  lemma ValueInverted(x: Lex, key: string, rest: seq<Token>, t: Token, m: Message)
    returns (f: Field, rest': seq<Token>)
    requires x == Lex(rest, Some(t), t.LBrace? || t.LBracket?, NoSep, false)
    requires StartsValue(t) && t != Null && !DecodeValue(x, key, m).1.failed
    ensures WellFormed(f) && !f.NullField? && Key(f) == key && FirstToken(f) == t
    ensures rest == PrintValue(f)[1..] + rest'
  {
    if key == "appId" {
      f, rest' := AppField(t.text), rest;
    } else if key == "messageId" {
      f, rest' := IdField(t.text), rest;
    } else if key == "integrations" {
      var flags: seq<(string, bool)>;
      flags, rest' := IntegrationsInverted(x, rest, t);
      f := FlagsField(flags);
    } else {
      f, rest' := UnknownInverted(x, key, rest, t);
    }
  }

  // ---- fields ----

  lemma FieldsInverted(x: Lex, first: bool, m: Message) returns (fs: seq<Field>, rest: seq<Token>)
    requires Ready(x, first) && !DecodeFields(x, m).1.failed
    ensures AllWellFormed(fs) && x.rest == FieldTokens(fs, first) + [RBrace] + rest
    decreases |x.rest|
  {
    if AtDelim(Peek(x), RBrace) {
      rest := EndInverted(x, first);
      fs := [];
      assert x.rest == FieldTokens(fs, first) + [RBrace] + rest;
    } else {
      FieldEntryLives(x, m);
      var key, t, rest1 := EntryInverted(x, first);
      EntryStarts(x, first, key, t, rest1);
      var f: Field, rest2: seq<Token>, fs1: seq<Field>;
      f, rest2, fs1, rest := RestInverted(x, key, t, rest1, m);
      fs := [f] + fs1;
      assert fs[1..] == fs1;
      FieldTokensCons(fs, first, rest);
      assert rest1 == PrintValue(f)[1..] + rest2;
    }
  }

  lemma FieldEntryLives(x: Lex, m: Message)
    requires !AtDelim(Peek(x), RBrace) && !DecodeFields(x, m).1.failed
    ensures !Text(Peek(x)).1.failed && !Peek(Want(Text(Peek(x)).1, WantColon)).failed
  {
  }

  /** The value of one field, and the fields after it. */
  lemma RestInverted(x: Lex, key: string, t: Token, rest1: seq<Token>, m: Message)
    returns (f: Field, rest2: seq<Token>, fs: seq<Field>, rest: seq<Token>)
    requires !AtDelim(Peek(x), RBrace) && !DecodeFields(x, m).1.failed && StartsValue(t)
    requires Text(Peek(x)).0 == key && |rest1| < |x.rest|
    requires Peek(Want(Text(Peek(x)).1, WantColon)) == Lex(rest1, Some(t), t.LBrace? || t.LBracket?, NoSep, false)
    ensures WellFormed(f) && Key(f) == key && FirstToken(f) == t && rest1 == PrintValue(f)[1..] + rest2
    ensures AllWellFormed(fs) && rest2 == PrintMore(fs) + [RBrace] + rest
    decreases |x.rest|, 0
  {
    var y := Peek(Want(Text(Peek(x)).1, WantColon));
    if t == Null {
      f, rest2 := NullField(key), rest1;
      var z := Want(Skip(y), WantComma);
      fs, rest := FieldsInverted(z, false, m);
    } else {
      var (m', y') := DecodeValue(y, key, m);
      var z := Want(y', WantComma);
      FailedFields(z, m');
      f, rest2 := ValueInverted(y, key, rest1, t, m);
      ValueAccepted(f, y, m, rest2);
      fs, rest := FieldsInverted(z, false, m');
    }
  }

  /** Soundness: an accepted text is a bare null or a text of the grammar. */
  lemma DecodeInverted(data: seq<Token>) returns (fs: seq<Field>)
    requires Decode(data).Some? && data != [Null]
    ensures AllWellFormed(fs) && data == Print(fs)
  {
    var x := Start(data);
    var t, rest := FetchInverted(x);
    FetchValue(x, t, rest);
    assert t == LBrace;
    var y := Delim(Peek(x), LBrace);
    var tail: seq<Token>;
    fs, tail := FieldsInverted(y, true, BLANK);
    FieldsAccepted(y, true, fs, BLANK, tail);
    assert tail == [];
  }

  /** The decoder accepts exactly the bare null and the texts of the grammar, and yields exactly
      their meaning. */
  lemma Language(data: seq<Token>, m: Message)
    ensures Decode(data) == Some(m) <==>
            (data == [Null] && m == BLANK)
            || exists fs :: AllWellFormed(fs) && data == Print(fs) && m == Meaning(fs)
  {
    if data == [Null] {
      FetchValue(Start(data), Null, []);
      forall fs ensures data != Print(fs) {
        assert Print(fs)[0] == LBrace;
      }
    } else if Decode(data).Some? {
      var fs := DecodeInverted(data);
      DecodePrint(fs);
      forall gs | AllWellFormed(gs) && data == Print(gs) ensures Meaning(gs) == Meaning(fs) {
        DecodePrint(gs);
      }
    } else {
      forall fs | AllWellFormed(fs) ensures data != Print(fs) {
        DecodePrint(fs);
      }
    }
  }
}
