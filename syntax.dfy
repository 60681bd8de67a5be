/** The values passed between the stages of the compiler: tokens, the
    statement tree, and the errors any stage can raise. */
module Syntax {

  /** The `type` field of a token object. */
  datatype Kind = Punctuation | Number | Keyword | Operation

  /** A token carries only its kind and the text it was built from. */
  datatype Token = Token(kind: Kind, value: string)

  /** The one delimiter token the tokenizer ever produces. */
  const Semicolon: Token := Token(Punctuation, ";")

  /** A statement: the tokens between two delimiters (an `Expression` node). */
  datatype Expression = Expression(body: seq<Token>)

  /** The tree the parser builds: the statements in source order. */
  datatype Program = Program(body: seq<Expression>)

  /** What a compilation can throw. */
  datatype CompileError =
    | UnknownIdentifier(text: string, line: nat)  // tokenizer: a word run without a keyword
    | MissingSemicolon                            // parser: tokens left after the last `;`
    | UndefinedTokenValue                         // generator: `.value` read from a missing token

  datatype Result<T> = Ok(value: T) | Err(error: CompileError)

  datatype Option<T> = None | Some(value: T)

  /** `x` in front of the list a stage produced, or its error. */
  function Prepend<T>(x: T, r: Result<seq<T>>): Result<seq<T>>
  {
    match r
    case Ok(xs) => Ok([x] + xs)
    case Err(e) => Err(e)
  }

  /** What a loop has built so far, followed by what the rest of its input
      gives. */
  function Then<T>(done: seq<T>, r: Result<seq<T>>): Result<seq<T>>
  {
    match r
    case Ok(xs) => Ok(done + xs)
    case Err(e) => Err(e)
  }

  /** Moving one item from the rest onto what is built keeps the result. */
  lemma ThenPrepend<T>(done: seq<T>, x: T, r: Result<seq<T>>)
    ensures Then(done + [x], r) == Then(done, Prepend(x, r))
  {
    if r.Ok? {
      assert done + [x] + r.value == done + ([x] + r.value);
    }
  }

  /** Concatenation of the token texts, in order. */
  function Spelling(ts: seq<Token>): string
  {
    if ts == [] then [] else ts[0].value + Spelling(ts[1..])
  }
}
