/** `doCompile`: the tokenizer, the parser and the code generator in turn;
    the first stage that throws ends the compilation. */
module Compiler {
  import opened Syntax
  import Lexer
  import LexerFacts
  import Parser
  import CodeGen
  import Semantics
  import Runtime

  /** `generateCode(parser(tokenizer(program)))`. */
  function Compile(program: string): Result<string>
  {
    match Lexer.Lex(program)
    case Err(e) => Err(e)
    case Ok(tokens) =>
      match Parser.ParseTree(tokens)
      case Err(e) => Err(e)
      case Ok(ast) => CodeGen.GenerateCode(ast)
  }

  /** `doCompile(program)`: the token array is handed to the parser, which
      empties it, and the tree to the generator. */
  method DoCompile(program: string) returns (r: Result<string>)
    ensures r == Compile(program)
  {
    var tokens := Lexer.Tokenize(program);
    if tokens.Err? {
      return Err(tokens.error);
    }
    var list := new Parser.TokenList(tokens.value);
    var ast := Parser.Parse(list);
    if ast.Err? {
      return Err(ast.error);
    }
    r := CodeGen.Generate(ast.value);
  }

  /** Which stage rejects a program, and why: the tokenizer on a word run
      with no keyword in it; else the parser when tokens follow the last
      `;`; else the generator when a statement is empty or lacks an operand
      of its `do` or `for`. */
  lemma CompileErrors(program: string)
    ensures (Compile(program).Err? && Compile(program).error.UnknownIdentifier?)
              <==> Lexer.Lex(program).Err?
    ensures (Compile(program) == Err(MissingSemicolon))
              <==> Lexer.Lex(program).Ok? && !EndsWithDelimiter(Lexer.Lex(program).value)
    ensures Compile(program).Ok? <==>
              && Lexer.Lex(program).Ok?
              && EndsWithDelimiter(Lexer.Lex(program).value)
              && StatementsShaped(Lexer.Lex(program).value)
  {
    var lexed := Lexer.Lex(program);
    LexerFacts.KeywordRule(program);
    if lexed.Ok? {
      var ts := lexed.value;
      Parser.StatementsSucceed(ts);
      Parser.StatementsError(ts);
      if Parser.Statements(ts).Ok? {
        var es := Parser.Statements(ts).value;
        CodeGen.CallsSucceed(es);
        CodeGen.CallsError(es);
      }
    }
  }

  predicate EndsWithDelimiter(ts: seq<Token>)
  {
    ts == [] || ts[|ts| - 1].kind == Punctuation
  }

  /** The statements the tokens split into are all well shaped. */
  predicate StatementsShaped(ts: seq<Token>)
  {
    Parser.Statements(ts).Ok? ==>
      var es := Parser.Statements(ts).value;
      forall i :: 0 <= i < |es| ==> CodeGen.WellShaped(es[i])
  }

  /** `write` without its `;` is rejected by the parser. */
  lemma WriteWithoutDelimiter()
    ensures Compile("write") == Err(MissingSemicolon)
  {
    LexerFacts.WriteAtEndOfInput(0);
    var ts := [Token(Keyword, "write")];
    assert Parser.FirstPunctuation(ts) == -1;
  }

  const Example: string := "for 2 +;write;"

  /** The tokens of `write;`, the end of the example. */
  lemma ExampleEnd()
    ensures Lexer.LexFrom(Example, 8, 1) == Ok([Token(Keyword, "write"), Semicolon])
  {
    var p := Example;
    assert p == ['f', 'o', 'r', ' ', '2', ' ', '+', ';', 'w', 'r', 'i', 't', 'e', ';'];
    Lexer.RunEndUnique(p, 8, Lexer.WordChars, 13);
    assert Lexer.LexFrom(p, 13, 1) == Ok([Semicolon]) by {
      assert Lexer.LexFrom(p, 14, 1) == Ok([]);
      assert [Semicolon] + [] == [Semicolon];
    }
    assert p[8..13] == "write";
    assert Lexer.ContainsKeyword(p[8..13]) by { assert "write" <= p[8..13]; }
    assert !Lexer.IsWhitespace(p[8]) && !Lexer.IsDigit(p[8]) && Lexer.IsWordChar(p[8]);
    assert [Token(Keyword, "write"), Semicolon] == [Token(Keyword, "write")] + [Semicolon];
  }

  /** The tokens of `+;write;`. */
  lemma ExampleMiddle()
    ensures Lexer.LexFrom(Example, 6, 1) == Ok([Token(Operation, "+"), Semicolon, Token(Keyword, "write"), Semicolon])
  {
    var p := Example;
    assert p == ['f', 'o', 'r', ' ', '2', ' ', '+', ';', 'w', 'r', 'i', 't', 'e', ';'];
    Lexer.RunEndUnique(p, 6, Lexer.OperatorChars, 7);
    var t8 := [Token(Keyword, "write"), Semicolon];
    var t7 := [Semicolon] + t8;
    ExampleEnd();
    assert Lexer.LexFrom(p, 7, 1) == Ok(t7);
    assert p[6..7] == "+";
    assert !Lexer.IsWhitespace(p[6]) && !Lexer.IsDigit(p[6]) && !Lexer.IsWordChar(p[6]) && Lexer.IsOperatorChar(p[6]);
    assert [Token(Operation, "+")] + t7 == [Token(Operation, "+"), Semicolon, Token(Keyword, "write"), Semicolon];
  }

  /** The tokens of `2 +;write;`. */
  lemma ExampleTail()
    ensures Lexer.LexFrom(Example, 4, 1)
              == Ok([Token(Number, "2"), Token(Operation, "+"), Semicolon, Token(Keyword, "write"), Semicolon])
  {
    var p := Example;
    assert p == ['f', 'o', 'r', ' ', '2', ' ', '+', ';', 'w', 'r', 'i', 't', 'e', ';'];
    Lexer.RunEndUnique(p, 4, Lexer.Digits, 5);
    var t6 := [Token(Operation, "+"), Semicolon, Token(Keyword, "write"), Semicolon];
    ExampleMiddle();
    assert p[4..5] == "2";
    assert !Lexer.IsWhitespace(p[4]) && Lexer.IsDigit(p[4]);
    assert Lexer.IsWhitespace(p[5]);
    assert [Token(Number, "2")] + t6
             == [Token(Number, "2"), Token(Operation, "+"), Semicolon, Token(Keyword, "write"), Semicolon];
  }

  /** The scan from the start reads `for` and goes on from the blank. */
  lemma ExampleHead()
    ensures Lexer.LexFrom(Example, 0, 1) == Prepend(Token(Keyword, "for"), Lexer.LexFrom(Example, 4, 1))
  {
    var p := Example;
    assert p == ['f', 'o', 'r', ' ', '2', ' ', '+', ';', 'w', 'r', 'i', 't', 'e', ';'];
    Lexer.RunEndUnique(p, 0, Lexer.WordChars, 3);
    assert p[0..3] == "for";
    assert Lexer.ContainsKeyword(p[0..3]) by { assert "for" <= p[0..3]; }
    assert !Lexer.IsWhitespace(p[0]) && !Lexer.IsDigit(p[0]) && Lexer.IsWordChar(p[0]);
    assert Lexer.IsWhitespace(p[3]) && p[3] != '\n';
  }

  /** The tokens of `for 2 +;write;`. */
  lemma ExampleTokens()
    ensures Lexer.Lex(Example) == Ok([Token(Keyword, "for"), Token(Number, "2"), Token(Operation, "+"),
                                      Semicolon, Token(Keyword, "write"), Semicolon])
  {
    ExampleHead();
    ExampleTail();
    var t4 := [Token(Number, "2"), Token(Operation, "+"), Semicolon, Token(Keyword, "write"), Semicolon];
    assert [Token(Keyword, "for")] + t4 == [Token(Keyword, "for"), Token(Number, "2"), Token(Operation, "+"),
                                            Semicolon, Token(Keyword, "write"), Semicolon];
  }

  /** The statements of `for 2 +;write;`. */
  lemma ExampleStatements(ts: seq<Token>)
    requires ts == [Token(Keyword, "for"), Token(Number, "2"), Token(Operation, "+"),
                    Semicolon, Token(Keyword, "write"), Semicolon]
    ensures Parser.Statements(ts) == Ok([Expression(ts[..3]), Expression(ts[4..5])])
  {
    assert Parser.FirstPunctuation(ts[5..]) == 0;
    assert ts[4..][1..] == ts[5..];
    assert Parser.FirstPunctuation(ts[4..]) == 1;
    assert ts[4..][..1] == ts[4..5];
    assert ts[4..][2..] == [];
    assert Parser.Statements(ts[4..][2..]) == Ok([]);
    assert [Expression(ts[4..5])] + [] == [Expression(ts[4..5])];
    assert Parser.Statements(ts[4..]) == Ok([Expression(ts[4..5])]);
    assert Parser.FirstPunctuation(ts[3..]) == 0;
    assert ts[2..][1..] == ts[3..];
    assert Parser.FirstPunctuation(ts[2..]) == 1;
    assert ts[1..][1..] == ts[2..];
    assert Parser.FirstPunctuation(ts[1..]) == 2;
    assert Parser.FirstPunctuation(ts) == 3;
    assert ts[3 + 1..] == ts[4..];
    assert [Expression(ts[..3])] + [Expression(ts[4..5])] == [Expression(ts[..3]), Expression(ts[4..5])];
  }

  /** The two statements of `for 2 +;write;`, translated. */
  lemma ExampleTranslations(ts: seq<Token>)
    requires ts == [Token(Keyword, "for"), Token(Number, "2"), Token(Operation, "+"),
                    Semicolon, Token(Keyword, "write"), Semicolon]
    ensures CodeGen.Translate(Expression(ts[..3])) == Ok(Some(CodeGen.Loop("2", "+")))
    ensures CodeGen.Translate(Expression(ts[4..5])) == Ok(Some(CodeGen.Write))
  {
    assert ts[..3] == [Token(Keyword, "for"), Token(Number, "2"), Token(Operation, "+")];
    assert "for" != "do";
    assert ts[4..5] == [Token(Keyword, "write")];
    assert "write" != "do" && "write" != "for";
  }

  /** `for 2 +;write;` compiles to a loop of two `+` and a `write`. */
  lemma ExampleCalls()
    ensures Compile(Example).Ok?
    ensures Lexer.Lex(Example).Ok? && Parser.Statements(Lexer.Lex(Example).value).Ok?
    ensures CodeGen.Calls(Parser.Statements(Lexer.Lex(Example).value).value) == Ok([CodeGen.Loop("2", "+"), CodeGen.Write])
  {
    ExampleTokens();
    var ts := Lexer.Lex(Example).value;
    ExampleStatements(ts);
    ExampleTranslations(ts);
    ExampleCallsOf(Expression(ts[..3]), Expression(ts[4..5]));
  }

  lemma ExampleCallsOf(e0: Expression, e1: Expression)
    requires CodeGen.Translate(e0) == Ok(Some(CodeGen.Loop("2", "+")))
    requires CodeGen.Translate(e1) == Ok(Some(CodeGen.Write))
    ensures CodeGen.Calls([e0, e1]) == Ok([CodeGen.Loop("2", "+"), CodeGen.Write])
  {
    assert [e0, e1][..1] == [e0];
    assert CodeGen.Calls([e0]) == Ok([CodeGen.Loop("2", "+")]) by {
      assert [e0][..0] == [];
      assert [] + [CodeGen.Loop("2", "+")] == [CodeGen.Loop("2", "+")];
    }
    assert [CodeGen.Loop("2", "+")] + [CodeGen.Write] == [CodeGen.Loop("2", "+"), CodeGen.Write];
  }

  /** Run, the `main` of `for 2 +;write;` adds 2 to cell 0 and steps to
      cell 1, so `write` prints cells 0 and 1 plus 64 ("B", "@") and a
      newline. */
  lemma ExampleOutput()
    ensures Semantics.Effects(Runtime.Fresh(), [CodeGen.Loop("2", "+"), CodeGen.Write])
              == Runtime.Machine(Runtime.Zeros()[0 := 2], 1, [66, 64, 10])
  {
    assert Semantics.DecimalValue("2") == 2 by { assert "2"[..0] == []; }
    var z := Runtime.Zeros();
    var m1 := Runtime.Machine(z[0 := 1], 0, []);
    var m2 := Runtime.Machine(z[0 := 2], 0, []);
    assert Semantics.Iterate(Runtime.Fresh(), "+", 1) == m1 by {
      assert "+"[..0] == [];
    }
    assert Semantics.Iterate(Runtime.Fresh(), "+", 2) == m2 by {
      assert "+"[..0] == [];
    }
    var m3 := Runtime.Machine(z[0 := 2], 1, []);
    assert Runtime.Printed(m3.cells, 1) == [66, 64, 10] by {
      assert Runtime.Codes(m3.cells, 2) == [66, 64];
    }
  }
}
