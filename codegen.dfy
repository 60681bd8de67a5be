/** The code generator: each statement becomes a fragment of C text, and
    the fragments, between a fixed preamble and epilogue, are joined with
    newlines into one C program. */
module CodeGen {
  import opened Syntax

  /** `BASE_CODE`: the C preamble with the buffer type and its routines,
      line by line. */
  const PreambleLines: seq<string> := [
      "#include <stdio.h>",
      "#include <string.h>",
      "#include <stdlib.h>",
      "",
      "#define MAX_BUFFER_SIZE 512",
      "",
      "typedef struct buffer",
      "{",
      "    int buffer[MAX_BUFFER_SIZE];",
      "    int pointer;",
      "} buffer_t;",
      "",
      "typedef char *string_t;",
      "",
      "buffer_t make_buffer()",
      "{",
      "    buffer_t buffer;",
      "",
      "    for (int i = 0; i < MAX_BUFFER_SIZE; i++)",
      "    {",
      "        buffer.buffer[i] = 0;",
      "    }",
      "",
      "    buffer.pointer = 0;",
      "    return buffer;",
      "}",
      "",
      "void clear_buffer(buffer_t *buffer)",
      "{",
      "    buffer->pointer = 0;",
      "",
      "    for (int i = 0; i < MAX_BUFFER_SIZE; i++)",
      "    {",
      "        buffer->buffer[i] = 0;",
      "    }",
      "}",
      "",
      "void write(buffer_t *buffer)",
      "{",
      "    for (int i = 0; i < buffer->pointer + 1; i++)",
      "    {",
      "        printf(\"%c\", buffer->buffer[i] + 64);",
      "    }",
      "",
      "    printf(\"\\n\");",
      "}",
      "",
      "void execute(buffer_t *buffer, string_t instructions)",
      "{",
      "    int instructions_length = strlen(instructions);",
      "",
      "    for (int i = 0; i < instructions_length; i++)",
      "    {",
      "        switch (instructions[i])",
      "        {",
      "        case '>':",
      "            buffer->pointer++;",
      "            break;",
      "        case '<':",
      "            buffer->pointer--;",
      "            break;",
      "        case '+':",
      "            buffer->buffer[buffer->pointer]++;",
      "            break;",
      "        case '-':",
      "            buffer->buffer[buffer->pointer]--;",
      "            break;",
      "        case '.':",
      "            write(buffer);",
      "            break;",
      "        case ',':",
      "            clear_buffer(buffer);",
      "        default:",
      "            break;",
      "        }",
      "    }",
      "}"
    ]

  const BaseCode: string := Join(PreambleLines) + "\n"

  const MainOpen: string := "int main(void) {"
  const MakeBuffer: string := "\tbuffer_t buffer = make_buffer();\n"
  const ReturnZero: string := "\treturn 0;"
  const MainClose: string := "}"

  /** The fragments before the statements' own. */
  function Header(): seq<string>
  {
    [BaseCode, MainOpen, MakeBuffer]
  }

  /** The fragments after the statements' own. */
  function Footer(): seq<string>
  {
    [ReturnZero, MainClose]
  }

  /** The C statement a recognised statement becomes. */
  datatype Call =
    | Execute(operation: string)              // `do <op>`
    | Loop(times: string, operation: string)  // `for <times> <op>`
    | Write                                   // `write`

  /** The statement word a call comes from. */
  function Word(c: Call): string
  {
    match c
    case Execute(_) => "do"
    case Loop(_, _) => "for"
    case Write => "write"
  }

  /** The token texts a call pastes into the C text, in order. */
  function Operands(c: Call): seq<string>
  {
    match c
    case Execute(op) => [op]
    case Loop(times, op) => [times, op]
    case Write => []
  }

  function Values(ts: seq<Token>): seq<string>
  {
    seq(|ts|, i requires 0 <= i < |ts| => ts[i].value)
  }

  /** The fragment a call pushes. */
  function Render(c: Call): string
  {
    match c
    case Execute(op) => "\texecute(&buffer, \"" + op + "\");"
    case Loop(times, op) =>
      "\tfor(int i = 0; i < " + times + "; i++) {\n\t\texecute(&buffer, \"" + op + "\");\n\t}\n\tbuffer.pointer++;\n"
    case Write => "\twrite(&buffer);"
  }

  /** A statement the generator can read without touching a missing token:
      it has a first token, and `do` and `for` have the operands they use. */
  predicate WellShaped(e: Expression)
  {
    && |e.body| >= 1
    && (e.body[0].value == "do" ==> |e.body| >= 2)
    && (e.body[0].value == "for" ==> |e.body| >= 3)
  }

  /** A statement that produces a fragment. */
  predicate Recognised(e: Expression)
  {
    |e.body| >= 1 && (e.body[0].value == "do" || e.body[0].value == "for" || e.body[0].value == "write")
  }

  /** What one statement contributes: a call, nothing, or the error of
      reading `.value` from a missing token. The call is the one named by
      the first token, with the next tokens as its operands; later tokens
      are ignored. */
  function Translate(e: Expression): (r: Result<Option<Call>>)
    ensures r.Ok? <==> WellShaped(e)
    ensures r.Ok? ==> (r.value.Some? <==> Recognised(e))
    ensures r.Ok? && r.value.Some? ==>
              var c := r.value.value;
              && Word(c) == e.body[0].value
              && |Operands(c)| < |e.body|
              && Operands(c) == Values(e.body[1..1 + |Operands(c)|])
  {
    var b := e.body;
    if |b| == 0 then Err(UndefinedTokenValue)
    else if b[0].value == "do" then
      if |b| < 2 then Err(UndefinedTokenValue) else Ok(Some(Execute(b[1].value)))
    else if b[0].value == "for" then
      if |b| < 3 then Err(UndefinedTokenValue) else Ok(Some(Loop(b[1].value, b[2].value)))
    else if b[0].value == "write" then Ok(Some(Write))
    else Ok(None)
  }

  /** The calls of the statements, in order, or the first error. */
  function Calls(es: seq<Expression>): Result<seq<Call>>
    decreases |es|
  {
    if es == [] then Ok([])
    else
      match Calls(es[..|es| - 1])
      case Err(e) => Err(e)
      case Ok(cs) =>
        match Translate(es[|es| - 1])
        case Err(e) => Err(e)
        case Ok(None) => Ok(cs)
        case Ok(Some(c)) => Ok(cs + [c])
  }

  function Lines(cs: seq<Call>): seq<string>
  {
    seq(|cs|, i requires 0 <= i < |cs| => Render(cs[i]))
  }

  /** The `code` array before the join. */
  function Fragments(ast: Program): Result<seq<string>>
  {
    match Calls(ast.body)
    case Err(e) => Err(e)
    case Ok(cs) => Ok(Header() + Lines(cs) + Footer())
  }

  /** `parts.join('\n')`. */
  function Join(parts: seq<string>): string
    decreases |parts|
  {
    if parts == [] then []
    else if |parts| == 1 then parts[0]
    else Join(parts[..|parts| - 1]) + "\n" + parts[|parts| - 1]
  }

  /** `generateCode(ast)` as a function of the tree. */
  function GenerateCode(ast: Program): Result<string>
  {
    match Fragments(ast)
    case Err(e) => Err(e)
    case Ok(fs) => Ok(Join(fs))
  }

  /** `generateCode(ast)`: pushes the preamble, one fragment per recognised
      statement and the epilogue, then joins them. */
  method Generate(ast: Program) returns (r: Result<string>)
    ensures r == GenerateCode(ast)
  {
    var expressions := ast.body;
    var code := Header();
    ghost var calls: seq<Call> := [];
    var i := 0;
    while i < |expressions|
      invariant 0 <= i <= |expressions|
      invariant Calls(expressions[..i]) == Ok(calls)
      invariant code == Header() + Lines(calls)
    {
      var next := Emit(code, expressions[i]);
      if next.Err? {
        CallsStep(expressions, i, calls);
        CallsErrorStays(expressions, i + 1);
        return Err(UndefinedTokenValue);
      }
      calls := Emitted(expressions, i, calls, Header(), code, next.value);
      code := next.value;
      i := i + 1;
    }
    assert expressions[..i] == expressions;
    code := code + Footer();
    r := Ok(Join(code));
  }

  /** The body of the generator's loop for one statement: push the
      fragment its first token asks for, if any; reading `.value` from a
      missing token is the error. */
  method Emit(code: seq<string>, expression: Expression) returns (r: Result<seq<string>>)
    ensures Translate(expression).Err? ==> r == Err(UndefinedTokenValue)
    ensures Translate(expression) == Ok(None) ==> r == Ok(code)
    ensures Translate(expression).Ok? && Translate(expression).value.Some? ==>
              r == Ok(code + [Render(Translate(expression).value.value)])
  {
    var body := expression.body;
    if |body| == 0 {
      return Err(UndefinedTokenValue);
    }
    var firstToken := body[0];
    var leftTokens := body[1..];
    var pushed := code;
    if firstToken.value == "do" {
      if |leftTokens| < 1 {
        return Err(UndefinedTokenValue);
      }
      var operation := leftTokens[0];
      pushed := pushed + [Render(Execute(operation.value))];
    }
    if firstToken.value == "for" {
      if |leftTokens| < 2 {
        return Err(UndefinedTokenValue);
      }
      var times, operation := leftTokens[0], leftTokens[1];
      pushed := pushed + [Render(Loop(times.value, operation.value))];
    }
    if firstToken.value == "write" {
      pushed := pushed + [Render(Write)];
    }
    r := Ok(pushed);
  }

  /** One more statement: the calls so far and what it contributes. */
  lemma CallsStep(es: seq<Expression>, i: nat, cs: seq<Call>)
    requires i < |es| && Calls(es[..i]) == Ok(cs)
    ensures Calls(es[..i + 1]) == match Translate(es[i])
                                  case Err(e) => Err(e)
                                  case Ok(None) => Ok(cs)
                                  case Ok(Some(c)) => Ok(cs + [c])
  {
    assert es[..i + 1][..i] == es[..i];
  }

  lemma LinesSnoc(cs: seq<Call>, c: Call)
    ensures Lines(cs + [c]) == Lines(cs) + [Render(c)]
  {
  }

  /** What the loop knows after `Emit` pushed `next` for statement `i`:
      the calls of one more statement, rendered after the header `h`. */
  lemma Emitted(es: seq<Expression>, i: nat, cs: seq<Call>, h: seq<string>, code: seq<string>, next: seq<string>)
    returns (cs': seq<Call>)
    requires i < |es| && Calls(es[..i]) == Ok(cs) && code == h + Lines(cs)
    requires Translate(es[i]).Ok?
    requires Translate(es[i]) == Ok(None) ==> next == code
    requires Translate(es[i]).value.Some? ==> next == code + [Render(Translate(es[i]).value.value)]
    ensures Calls(es[..i + 1]) == Ok(cs') && next == h + Lines(cs')
  {
    CallsStep(es, i, cs);
    match Translate(es[i]).value
    case None =>
      cs' := cs;
    case Some(c) =>
      LinesSnoc(cs, c);
      cs' := cs + [c];
  }

  /** Once a prefix of the statements fails, the whole list fails. */
  lemma CallsErrorStays(es: seq<Expression>, i: nat)
    requires i <= |es| && Calls(es[..i]) == Err(UndefinedTokenValue)
    ensures Calls(es) == Err(UndefinedTokenValue)
  {
    CallsAppend(es[..i], es[i..]);
    assert es[..i] + es[i..] == es;
  }

  /** The calls of two lists of statements one after the other. */
  function Both(r: Result<seq<Call>>, s: Result<seq<Call>>): Result<seq<Call>>
  {
    match r
    case Err(e) => Err(e)
    case Ok(cs) =>
      match s
      case Err(e) => Err(e)
      case Ok(ds) => Ok(cs + ds)
  }

  /** Statement order is kept: the calls of `a + b` are those of `a`
      followed by those of `b`. */
  lemma {:induction false} CallsAppend(a: seq<Expression>, b: seq<Expression>)
    ensures Calls(a + b) == Both(Calls(a), Calls(b))
    decreases |b|
  {
    if b == [] {
      assert a + b == a;
      if Calls(a).Ok? {
        assert Calls(a).value + [] == Calls(a).value;
      }
    } else {
      var b' := b[..|b| - 1];
      assert (a + b)[..|a + b| - 1] == a + b';
      assert (a + b)[|a + b| - 1] == b[|b| - 1];
      CallsAppend(a, b');
      if Calls(a).Ok? && Calls(b').Ok? {
        var cs, ds := Calls(a).value, Calls(b').value;
        match Translate(b[|b| - 1])
        case Ok(Some(c)) =>
          assert cs + ds + [c] == cs + (ds + [c]);
        case _ =>
      }
    }
  }

  /** Generation fails exactly when some statement is empty or lacks an
      operand its `do` or `for` reads. */
  lemma {:induction false} CallsSucceed(es: seq<Expression>)
    ensures Calls(es).Ok? <==> forall i :: 0 <= i < |es| ==> WellShaped(es[i])
    decreases |es|
  {
    if es != [] {
      var init := es[..|es| - 1];
      CallsSucceed(init);
      if Calls(es).Ok? {
        forall i | 0 <= i < |es| ensures WellShaped(es[i]) {
          if i < |es| - 1 {
            assert es[i] == init[i];
          }
        }
      }
      if forall i :: 0 <= i < |es| ==> WellShaped(es[i]) {
        assert forall i :: 0 <= i < |init| ==> WellShaped(init[i]) by {
          forall i | 0 <= i < |init| ensures WellShaped(init[i]) {
            assert init[i] == es[i];
          }
        }
      }
    }
  }

  /** The generator's one error is the read from a missing token. */
  lemma {:induction false} CallsError(es: seq<Expression>)
    ensures Calls(es).Err? ==> Calls(es).error == UndefinedTokenValue
    decreases |es|
  {
    if es != [] {
      CallsError(es[..|es| - 1]);
    }
  }

  /** The number of statements that produce a fragment. */
  function CountRecognised(es: seq<Expression>): nat
    decreases |es|
  {
    if es == [] then 0
    else CountRecognised(es[..|es| - 1]) + (if Recognised(es[|es| - 1]) then 1 else 0)
  }

  /** One call per recognised statement. */
  lemma {:induction false} CallsCount(es: seq<Expression>)
    requires Calls(es).Ok?
    ensures |Calls(es).value| == CountRecognised(es)
    decreases |es|
  {
    if es != [] {
      CallsCount(es[..|es| - 1]);
    }
  }

  /** A well-shaped statement that is not `do`, `for` or `write` adds no
      fragment, wherever it stands. */
  lemma Dropped(a: seq<Expression>, e: Expression, b: seq<Expression>)
    requires WellShaped(e) && !Recognised(e)
    ensures Calls(a + [e] + b) == Calls(a + b)
  {
    CallsAppend(a + [e], b);
    CallsAppend(a, [e]);
    CallsAppend(a, b);
    assert [e][..0] == [];
    if Calls(a).Ok? {
      assert Calls(a).value + [] == Calls(a).value;
    }
  }

  /** `join` puts exactly one newline between two non-empty groups. */
  lemma {:induction false} JoinAppend(a: seq<string>, b: seq<string>)
    requires a != [] && b != []
    ensures Join(a + b) == Join(a) + "\n" + Join(b)
    decreases |b|
  {
    if |b| == 1 {
      assert (a + b)[..|a + b| - 1] == a;
    } else {
      var b' := b[..|b| - 1];
      assert (a + b)[..|a + b| - 1] == a + b';
      JoinAppend(a, b');
    }
  }

  lemma JoinTwo(x: string, y: string)
    ensures Join([x, y]) == x + "\n" + y
  {
    assert [x, y][..1] == [x];
  }

  lemma JoinThree(x: string, y: string, z: string)
    ensures Join([x, y, z]) == x + "\n" + y + "\n" + z
  {
    assert [x, y, z][..2] == [x, y];
    JoinTwo(x, y);
  }

  /** Joining a three-part header, some lines and a two-part footer. */
  lemma JoinFramed(h1: string, h2: string, h3: string, ls: seq<string>, f1: string, f2: string)
    ensures Join([h1, h2, h3] + ls + [f1, f2])
              == h1 + "\n" + h2 + "\n" + h3 + "\n" + (if ls == [] then "" else Join(ls) + "\n") + f1 + "\n" + f2
  {
    var h, f := [h1, h2, h3], [f1, f2];
    JoinThree(h1, h2, h3);
    JoinTwo(f1, f2);
    if ls == [] {
      assert h + ls + f == h + f;
      JoinAppend(h, f);
    } else {
      JoinAppend(h, ls);
      JoinAppend(h + ls, f);
    }
  }

  /** The text is the preamble, the `main` header and the buffer set-up,
      then the statements' fragments in order, then `return 0;` and `}`,
      each separated by a newline. */
  lemma GenerateShape(ast: Program)
    requires GenerateCode(ast).Ok?
    ensures var cs := Calls(ast.body).value;
            GenerateCode(ast).value
              == BaseCode + "\n" + MainOpen + "\n" + MakeBuffer + "\n"
                 + (if cs == [] then "" else Join(Lines(cs)) + "\n")
                 + ReturnZero + "\n" + MainClose
  {
    JoinFramed(BaseCode, MainOpen, MakeBuffer, Lines(Calls(ast.body).value), ReturnZero, MainClose);
  }
}
