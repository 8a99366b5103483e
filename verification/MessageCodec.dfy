/** Decoding and encoding of the one record the router reads from a clickstream message. */
module MessageCodec {
  import opened Wrappers
  import opened Lexer

  /** Go tells a nil map from an empty one: None is nil. */
  datatype Message = Message(appId: string, messageId: string, integrations: Option<map<string, bool>>)

  const BLANK := Message("", "", None)

  // ---- decoding, as a function of the lexer's state ----

  /** The entries of a non-empty integrations object, into a fresh map. */
  function DecodeFlags(x: Lex, flags: map<string, bool>): (r: (map<string, bool>, Lex))
    ensures Left(r.1) <= Left(x)
    decreases Left(x)
  {
    var y := Peek(x);
    if AtDelim(y, RBrace) then (flags, y)
    else
      var (key, y1) := Text(y);
      var (value, y2) := Truth(Want(y1, WantColon));
      DecodeFlags(Want(y2, WantComma), flags[key := value])
  }

  function DecodeIntegrations(x: Lex): (r: (Option<map<string, bool>>, Lex))
    ensures Left(r.1) <= Left(x)
  {
    var y := Peek(Delim(x, LBrace));
    if AtDelim(y, RBrace) then (None, Delim(y, RBrace))
    else
      var (flags, z) := DecodeFlags(y, map[]);
      (Some(flags), Delim(z, RBrace))
  }

  function DecodeValue(x: Lex, key: string, m: Message): (r: (Message, Lex))
    ensures Left(r.1) <= Left(x)
  {
    if key == "appId" then
      var (s, y) := Text(x); (m.(appId := s), y)
    else if key == "messageId" then
      var (s, y) := Text(x); (m.(messageId := s), y)
    else if key == "integrations" then
      var (flags, y) := DecodeIntegrations(x); (m.(integrations := flags), y)
    else (m, SkipValue(x))
  }

  function DecodeFields(x: Lex, m: Message): (r: (Message, Lex))
    ensures Left(r.1) <= Left(x)
    decreases Left(x)
  {
    var y := Peek(x);
    if AtDelim(y, RBrace) then (m, y)
    else
      var (key, y1) := Text(y);
      var y2 := Peek(Want(y1, WantColon));
      if AtNull(y2) then DecodeFields(Want(Skip(y2), WantComma), m)
      else
        var (m', y3) := DecodeValue(y2, key, m);
        DecodeFields(Want(y3, WantComma), m')
  }

  /** UnmarshalJSON into a fresh Message; None when it reports an error. */
  function Decode(data: seq<Token>): Option<Message> {
    var x := Peek(Start(data));
    var (m, z) :=
      if AtNull(x) then (BLANK, Skip(AtEnd(x)))
      else
        var (m, y) := DecodeFields(Delim(x, LBrace), BLANK);
        (m, AtEnd(Delim(y, RBrace)));
    if z.failed then None else Some(m)
  }

  // ---- decoding, as the code does it ----

  method ReadFlags(lexer: TokenLexer) returns (flags: map<string, bool>)
    requires lexer.Valid()
    modifies lexer
    ensures lexer.Valid() && (flags, lexer.State()) == DecodeFlags(old(lexer.State()), map[])
  {
    flags := map[];
    ghost var goal := DecodeFlags(lexer.State(), flags);
    FlagsPeeked(lexer.State(), flags);
    hide Peek, Text, Truth, Want;
    var end := lexer.IsDelim(RBrace);
    while !end
      invariant lexer.Valid() && Peek(lexer.State()) == lexer.State()
      invariant end == AtDelim(lexer.State(), RBrace)
      invariant DecodeFlags(lexer.State(), flags) == goal
      decreases Left(lexer.State())
    {
      var key := lexer.ReadString();
      lexer.SetWant(WantColon);
      var value := lexer.ReadBool();
      flags := flags[key := value];
      lexer.SetWant(WantComma);
      FlagsPeeked(lexer.State(), flags);
      end := lexer.IsDelim(RBrace);
    }
  }

  lemma FlagsPeeked(x: Lex, flags: map<string, bool>)
    ensures Peek(Peek(x)) == Peek(x)
    ensures DecodeFlags(Peek(x), flags) == DecodeFlags(x, flags)
  {
    PeekAgain(x);
  }

  lemma FieldsPeeked(x: Lex, m: Message)
    ensures Peek(Peek(x)) == Peek(x)
    ensures DecodeFields(Peek(x), m) == DecodeFields(x, m)
  {
    PeekAgain(x);
  }

  /** The map is made before the first entry is assigned, so no entry goes into a nil map. */
  method ReadIntegrations(lexer: TokenLexer) returns (integrations: Option<map<string, bool>>)
    requires lexer.Valid()
    modifies lexer
    ensures lexer.Valid() && (integrations, lexer.State()) == DecodeIntegrations(old(lexer.State()))
  {
    lexer.ReadDelim(LBrace);
    var end := lexer.IsDelim(RBrace);
    if end {
      integrations := None;
    } else {
      var flags := ReadFlags(lexer);
      integrations := Some(flags);
    }
    lexer.ReadDelim(RBrace);
  }

  method ReadValue(lexer: TokenLexer, key: string, m: Message) returns (m': Message)
    requires lexer.Valid()
    modifies lexer
    ensures lexer.Valid() && (m', lexer.State()) == DecodeValue(old(lexer.State()), key, m)
  {
    if key == "appId" {
      var s := lexer.ReadString();
      m' := m.(appId := s);
    } else if key == "messageId" {
      var s := lexer.ReadString();
      m' := m.(messageId := s);
    } else if key == "integrations" {
      var flags := ReadIntegrations(lexer);
      m' := m.(integrations := flags);
    } else {
      lexer.SkipRecursive();
      m' := m;
    }
  }

  method ReadFields(lexer: TokenLexer, m0: Message) returns (m: Message)
    requires lexer.Valid()
    modifies lexer
    ensures lexer.Valid() && (m, lexer.State()) == DecodeFields(old(lexer.State()), m0)
  {
    m := m0;
    ghost var goal := DecodeFields(lexer.State(), m);
    FieldsPeeked(lexer.State(), m);
    hide Peek, Text, Want, Skip, DecodeValue;
    var end := lexer.IsDelim(RBrace);
    while !end
      invariant lexer.Valid() && Peek(lexer.State()) == lexer.State()
      invariant end == AtDelim(lexer.State(), RBrace)
      invariant DecodeFields(lexer.State(), m) == goal
      decreases Left(lexer.State())
    {
      var key := lexer.ReadString();
      lexer.SetWant(WantColon);
      var isNull := lexer.IsNull();
      if isNull {
        lexer.SkipToken();
      } else {
        m := ReadValue(lexer, key, m);
      }
      lexer.SetWant(WantComma);
      FieldsPeeked(lexer.State(), m);
      end := lexer.IsDelim(RBrace);
    }
  }

  method Unmarshal(data: seq<Token>) returns (result: Option<Message>)
    ensures result == Decode(data)
  {
    var lexer := new TokenLexer(data);
    var m := BLANK;
    var isNull := lexer.IsNull();
    if isNull {
      lexer.ReadEnd();
      lexer.SkipToken();
    } else {
      PeekAgain(Start(data));
      lexer.ReadDelim(LBrace);
      m := ReadFields(lexer, m);
      lexer.ReadDelim(RBrace);
      lexer.ReadEnd();
    }
    result := if lexer.failed then None else Some(m);
  }
}
