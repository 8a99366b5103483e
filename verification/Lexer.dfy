/** The token side of the JSON lexer the message codec runs on. */
module Lexer {
  import opened Wrappers

  /** One token of a JSON text (RFC 8259, section 2). `Junk` is text that starts no token. */
  datatype Token =
    | LBrace | RBrace | LBracket | RBracket | Colon | Comma
    | Str(text: string) | Num(digits: string) | Bool(value: bool) | Null | Junk

  /** The separator that has to come before the next token. */
  datatype Separator = NoSep | WantColon | WantComma

  /** What a lexer knows: the tokens not yet scanned, the scanned token if it is not consumed,
      whether nothing came yet inside the innermost bracket, the separator it waits for, and
      whether it met an error. An error is never taken back. */
  datatype Lex = Lex(rest: seq<Token>, token: Option<Token>, first: bool, want: Separator, failed: bool)

  function Start(data: seq<Token>): Lex {
    Lex(data, None, false, NoSep, false)
  }

  /** Work left: nothing after an error, otherwise the tokens left, scanned ones counting less. */
  function Left(x: Lex): nat {
    if x.failed then 0 else 1 + 2 * |x.rest| + if x.token.Some? then 1 else 0
  }

  function Fail(x: Lex): Lex {
    x.(failed := true)
  }

  /** FetchToken: pass the separator that is wanted, then take one token. */
  function Fetch(x: Lex): (y: Lex)
    requires x.token.None? && !x.failed
    ensures Left(y) < Left(x)
    ensures !y.failed ==> y.token.Some?
    decreases |x.rest|
  {
    if x.rest == [] then Fail(x)
    else
      var t, y := x.rest[0], x.(rest := x.rest[1..]);
      match t
      case Colon => if x.want == WantColon then Fetch(y.(want := NoSep)) else Fail(x)
      case Comma => if x.want == WantComma then Fetch(y.(want := NoSep)) else Fail(x)
      case LBrace => if x.want == NoSep then y.(token := Some(t), first := true) else Fail(x)
      case LBracket => if x.want == NoSep then y.(token := Some(t), first := true) else Fail(x)
      case RBrace => if x.first || x.want == WantComma then y.(token := Some(t), want := NoSep) else Fail(x)
      case RBracket => if x.first || x.want == WantComma then y.(token := Some(t), want := NoSep) else Fail(x)
      case Junk => Fail(x)
      case _ => if x.want == NoSep then y.(token := Some(t)) else Fail(x)
  }

  lemma Advance(data: seq<Token>, pos: nat)
    requires pos < |data|
    ensures data[pos..] != [] && data[pos..][0] == data[pos] && data[pos..][1..] == data[pos + 1..]
  {
  }

  predicate Passes(x: Lex, t: Token) {
    (t.Colon? && x.want == WantColon) || (t.Comma? && x.want == WantComma)
  }

  /** A scan passes the separator it wants, and fails at the end of the input. */
  lemma FetchUnfolds(x: Lex)
    requires x.token.None? && !x.failed
    ensures x.rest == [] ==> Fetch(x) == Fail(x)
    ensures x.rest != [] && Passes(x, x.rest[0]) ==> Fetch(x) == Fetch(x.(rest := x.rest[1..], want := NoSep))
  {
  }

  function Peek(x: Lex): (y: Lex)
    ensures Left(y) <= Left(x)
    ensures !y.failed ==> y.token.Some?
    ensures y.failed || y.token != None
    ensures x.failed ==> y == x
  {
    if x.token.None? && !x.failed then Fetch(x) else x
  }

  lemma PeekAgain(x: Lex)
    ensures Peek(Peek(x)) == Peek(x)
  {
  }

  function Consume(x: Lex): (y: Lex)
    ensures Left(y) <= Left(x)
    ensures !x.failed && x.token.Some? ==> Left(y) < Left(x)
  {
    x.(token := None)
  }

  /** Whether the next token is the given one; after an error every such test succeeds. */
  predicate AtDelim(x: Lex, t: Token) {
    x.failed || x.token == Some(t)
  }

  predicate AtNull(x: Lex) {
    !x.failed && x.token == Some(Null)
  }

  function Delim(x: Lex, t: Token): (y: Lex)
    ensures Left(y) <= Left(x)
  {
    var y := Peek(x);
    if AtDelim(y, t) then Consume(y) else Fail(Consume(y))
  }

  function Skip(x: Lex): (y: Lex)
    ensures Left(y) <= Left(x)
  {
    Consume(Peek(x))
  }

  function Text(x: Lex): (r: (string, Lex))
    ensures Left(r.1) <= Left(x)
    ensures Left(x) > 0 ==> Left(r.1) < Left(x)
  {
    var y := Peek(x);
    if y.failed || !y.token.value.Str? then ("", Fail(y)) else (y.token.value.text, Consume(y))
  }

  function Truth(x: Lex): (r: (bool, Lex))
    ensures Left(r.1) <= Left(x)
  {
    var y := Peek(x);
    if y.failed || !y.token.value.Bool? then (false, Fail(y)) else (y.token.value.value, Consume(y))
  }

  function Want(x: Lex, s: Separator): (y: Lex)
    ensures Left(y) == Left(x)
  {
    x.(want := s, first := false)
  }

  predicate Opens(t: Token, brace: bool) {
    t == if brace then LBrace else LBracket
  }

  predicate Closes(t: Token, brace: bool) {
    t == if brace then RBrace else RBracket
  }

  /** The tokens after the bracket that closes `level` open ones, counting brackets of that kind
      only; None when it never comes. */
  function AfterClose(rest: seq<Token>, brace: bool, level: nat): (r: Option<seq<Token>>)
    requires level > 0
    ensures r.Some? ==> |r.value| < |rest|
  {
    if rest == [] then None
    else if Opens(rest[0], brace) then AfterClose(rest[1..], brace, level + 1)
    else if Closes(rest[0], brace) then
      if level == 1 then Some(rest[1..]) else AfterClose(rest[1..], brace, level - 1)
    else AfterClose(rest[1..], brace, level)
  }

  /** The rest of a bracketed group whose opening bracket is consumed. */
  function SkipGroup(x: Lex, brace: bool): (y: Lex)
    ensures Left(y) <= Left(x)
  {
    match AfterClose(x.rest, brace, 1)
    case Some(rest) => x.(rest := rest)
    case None => Fail(x.(rest := []))
  }

  /** SkipRecursive: one token, or a bracket and everything up to the one that closes it. */
  function SkipValue(x: Lex): (y: Lex)
    ensures Left(y) <= Left(x)
  {
    var y := Peek(x);
    if y.failed || !(y.token.value.LBrace? || y.token.value.LBracket?) then Consume(y)
    else SkipGroup(Consume(y), y.token.value.LBrace?)
  }

  /** Consumed: nothing may be left of the input. */
  function AtEnd(x: Lex): (y: Lex)
    ensures Left(y) <= Left(x)
  {
    if !x.failed && x.rest != [] then Fail(x) else x
  }

  /** The lexer the decoder calls: a position in the input that only moves forward. */
  class TokenLexer {
    const data: seq<Token>
    var pos: nat
    var token: Option<Token>
    var firstElement: bool
    var wantSep: Separator
    var failed: bool

    ghost predicate Valid()
      reads this
    {
      pos <= |data|
    }

    ghost function State(): Lex
      reads this
      requires Valid()
    {
      Lex(data[pos..], token, firstElement, wantSep, failed)
    }

    constructor (data: seq<Token>)
      ensures Valid() && State() == Start(data) && this.data == data && pos == 0
    {
      this.data, pos, token := data, 0, None;
      firstElement, wantSep, failed := false, NoSep, false;
    }

    method FetchToken()
      requires Valid() && token.None? && !failed
      modifies this
      ensures Valid() && State() == Fetch(old(State()))
    {
      ghost var goal := Fetch(State());
      hide Fetch;
      while pos < |data|
        invariant Valid() && token.None? && !failed && Fetch(State()) == goal
        decreases |data| - pos
      {
        var t := data[pos];
        ghost var x := State();
        FetchUnfolds(x);
        Advance(data, pos);
        if (t.Colon? && wantSep == WantColon) || (t.Comma? && wantSep == WantComma) {
          pos, wantSep := pos + 1, NoSep;
          assert State() == x.(rest := x.rest[1..], want := NoSep);
        } else {
          TakeToken(t);
          return;
        }
      }
      FetchUnfolds(State());
      failed := true;
    }

    /** The cases of the scan that return: a token, or an error. */
    method TakeToken(t: Token)
      requires Valid() && token.None? && !failed && pos < |data| && data[pos] == t
      requires !(t.Colon? && wantSep == WantColon) && !(t.Comma? && wantSep == WantComma)
      modifies this
      ensures Valid() && State() == Fetch(old(State()))
    {
      match t
      case Colon => failed := true;
      case Comma => failed := true;
      case Junk => failed := true;
      case LBrace =>
        if wantSep != NoSep { failed := true; } else { pos, token, firstElement := pos + 1, Some(t), true; }
      case LBracket =>
        if wantSep != NoSep { failed := true; } else { pos, token, firstElement := pos + 1, Some(t), true; }
      case RBrace =>
        if !firstElement && wantSep != WantComma {
          failed := true;
        } else {
          pos, token, wantSep := pos + 1, Some(t), NoSep;
        }
      case RBracket =>
        if !firstElement && wantSep != WantComma {
          failed := true;
        } else {
          pos, token, wantSep := pos + 1, Some(t), NoSep;
        }
      case _ =>
        if wantSep != NoSep { failed := true; } else { pos, token := pos + 1, Some(t); }
    }

    method ScanToken()
      requires Valid()
      modifies this
      ensures Valid() && State() == Peek(old(State()))
    {
      if token.None? && !failed { FetchToken(); }
    }

    method ConsumeToken()
      requires Valid()
      modifies this
      ensures Valid() && State() == Consume(old(State()))
    {
      token := None;
    }

    method ReadDelim(t: Token)
      requires Valid()
      modifies this
      ensures Valid() && State() == Delim(old(State()), t)
    {
      ScanToken();
      if failed || token != Some(t) {
        ConsumeToken();
        failed := true;
      } else {
        ConsumeToken();
      }
    }

    method IsDelim(t: Token) returns (r: bool)
      requires Valid()
      modifies this
      ensures Valid() && State() == Peek(old(State())) && r == AtDelim(State(), t)
    {
      ScanToken();
      r := failed || token == Some(t);
    }

    method IsNull() returns (r: bool)
      requires Valid()
      modifies this
      ensures Valid() && State() == Peek(old(State())) && r == AtNull(State())
    {
      ScanToken();
      r := !failed && token == Some(Null);
    }

    method SkipToken()
      requires Valid()
      modifies this
      ensures Valid() && State() == Skip(old(State()))
    {
      ScanToken();
      ConsumeToken();
    }

    method ReadString() returns (s: string)
      requires Valid()
      modifies this
      ensures Valid() && (s, State()) == Text(old(State()))
    {
      ScanToken();
      if failed || !token.value.Str? {
        failed := true;
        return "";
      }
      s := token.value.text;
      ConsumeToken();
    }

    method ReadBool() returns (v: bool)
      requires Valid()
      modifies this
      ensures Valid() && (v, State()) == Truth(old(State()))
    {
      ScanToken();
      if failed || !token.value.Bool? {
        failed := true;
        return false;
      }
      v := token.value.value;
      ConsumeToken();
    }

    method SetWant(s: Separator)
      requires Valid()
      modifies this
      ensures Valid() && State() == Want(old(State()), s)
    {
      wantSep, firstElement := s, false;
    }

    method SkipRecursive()
      requires Valid()
      modifies this
      ensures Valid() && State() == SkipValue(old(State()))
    {
      ScanToken();
      if failed || !(token.value.LBrace? || token.value.LBracket?) {
        ConsumeToken();
        return;
      }
      var brace := token.value.LBrace?;
      ConsumeToken();
      SkipBrackets(brace);
    }

    method SkipBrackets(brace: bool)
      requires Valid()
      modifies this
      ensures Valid() && State() == SkipGroup(old(State()), brace)
    {
      var level := 1;
      ghost var y := State();
      while pos < |data|
        invariant Valid() && level > 0
        invariant State() == y.(rest := data[pos..])
        invariant AfterClose(data[pos..], brace, level) == AfterClose(y.rest, brace, 1)
        decreases |data| - pos
      {
        var t := data[pos];
        assert data[pos..][0] == t && data[pos..][1..] == data[pos + 1..];
        pos := pos + 1;
        if Opens(t, brace) {
          level := level + 1;
        } else if Closes(t, brace) {
          if level == 1 { return; }
          level := level - 1;
        }
      }
      failed := true;
    }

    method ReadEnd()
      requires Valid()
      modifies this
      ensures Valid() && State() == AtEnd(old(State()))
    {
      if !failed && pos < |data| { failed := true; }
    }
  }
}
