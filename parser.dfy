/** The parser: the token list is cut at each `;` into statements. */
module Parser {
  import opened Syntax

  predicate NoPunctuation(ts: seq<Token>)
  {
    forall m :: 0 <= m < |ts| ==> ts[m].kind != Punctuation
  }

  /** `tokens.findIndex(token => token.type === 'punctuation')`: the first
      `;` token, or -1 when there is none. */
  function FirstPunctuation(ts: seq<Token>): (k: int)
    ensures -1 <= k < |ts|
    ensures k == -1 <==> NoPunctuation(ts)
    ensures k >= 0 ==> ts[k].kind == Punctuation && NoPunctuation(ts[..k])
  {
    if ts == [] then -1
    else if ts[0].kind == Punctuation then 0
    else
      var k := FirstPunctuation(ts[1..]);
      assert k >= 0 ==> ts[..k + 1] == [ts[0]] + ts[1..][..k];
      if k == -1 then -1 else k + 1
  }

  /** The statements of `ts`: the tokens before the first `;`, then the
      statements of what follows it; tokens left with no `;` are an error. */
  function Statements(ts: seq<Token>): Result<seq<Expression>>
    decreases |ts|
  {
    if ts == [] then Ok([])
    else
      var k := FirstPunctuation(ts);
      if k == -1 then Err(MissingSemicolon)
      else
        Prepend(Expression(ts[..k]), Statements(ts[k + 1..]))
  }

  /** `parser(tokens)` as a function of the token list. */
  function ParseTree(ts: seq<Token>): Result<Program>
  {
    match Statements(ts)
    case Ok(body) => Ok(Program(body))
    case Err(e) => Err(e)
  }

  /** `rest` is what is left of `input` once some statements, each with its
      `;`, have been taken off the front. */
  ghost predicate RestAfterDelimiter(input: seq<Token>, rest: seq<Token>)
  {
    var n := |input| - |rest|;
    && 0 <= n <= |input| && rest == input[n..]
    && (n > 0 ==> input[n - 1].kind == Punctuation)
  }

  /** The caller's token array, which the parser empties from the front. */
  class TokenList {
    var items: seq<Token>

    constructor (items: seq<Token>)
      ensures this.items == items
    {
      this.items := items;
    }
  }

  /** `parser(tokens)`: takes statements off the front of the caller's list
      (`tokens.splice(0, indexOfPunctuation + 1)`) until it is empty. On
      success the list is left empty; on the error, it holds the tokens
      after the last `;`. */
  method Parse(tokens: TokenList) returns (r: Result<Program>)
    modifies tokens
    ensures r == ParseTree(old(tokens.items))
    ensures r.Ok? ==> tokens.items == []
    ensures r.Err? ==> NoPunctuation(tokens.items) && tokens.items != []
    ensures RestAfterDelimiter(old(tokens.items), tokens.items)
  {
    ghost var input := tokens.items;
    var body: seq<Expression> := [];
    assert Then(body, Statements(input)) == Statements(input) by {
      if Statements(input).Ok? { assert body + Statements(input).value == Statements(input).value; }
    }
    while |tokens.items| > 0
      invariant Statements(input) == Then(body, Statements(tokens.items))
      invariant RestAfterDelimiter(input, tokens.items)
      decreases |tokens.items|
    {
      var items := tokens.items;
      var indexOfPunctuation := FirstPunctuation(items);
      if indexOfPunctuation == -1 {
        assert Statements(items) == Err(MissingSemicolon);
        assert ParseTree(input) == Err(MissingSemicolon);
        return Err(MissingSemicolon);
      }
      var slice := items[..indexOfPunctuation];
      Spliced(input, items, body, indexOfPunctuation);
      body := body + [Expression(slice)];
      tokens.items := items[indexOfPunctuation + 1..];
    }
    assert body + [] == body;
    assert ParseTree(input) == Ok(Program(body));
    r := Ok(Program(body));
  }

  /** One turn of the parser's loop keeps both invariants. */
  lemma Spliced(input: seq<Token>, items: seq<Token>, body: seq<Expression>, k: int)
    requires Statements(input) == Then(body, Statements(items)) && RestAfterDelimiter(input, items)
    requires items != [] && k == FirstPunctuation(items) && k != -1
    ensures Statements(input) == Then(body + [Expression(items[..k])], Statements(items[k + 1..]))
    ensures RestAfterDelimiter(input, items[k + 1..])
  {
    StatementsStep(items, k);
    ThenPrepend(body, Expression(items[..k]), Statements(items[k + 1..]));
    RestAfterStatement(input, items, k);
  }

  lemma RestAfterStatement(input: seq<Token>, items: seq<Token>, k: nat)
    requires RestAfterDelimiter(input, items)
    requires k < |items| && items[k].kind == Punctuation
    ensures RestAfterDelimiter(input, items[k + 1..])
  {
    var n := |input| - |items|;
    assert items[k + 1..] == input[n + k + 1..];
  }

  // ---------------------------------------------------------------------
  // Properties of the split.

  function CountPunctuation(ts: seq<Token>): nat
  {
    if ts == [] then 0 else (if ts[0].kind == Punctuation then 1 else 0) + CountPunctuation(ts[1..])
  }

  /** Each statement's tokens followed by a `;`, all in order. */
  function Flatten(es: seq<Expression>): seq<Token>
  {
    if es == [] then [] else es[0].body + [Semicolon] + Flatten(es[1..])
  }

  lemma {:induction false} CountSplit(ts: seq<Token>, k: nat)
    requires k < |ts| && ts[k].kind == Punctuation && NoPunctuation(ts[..k])
    ensures CountPunctuation(ts) == 1 + CountPunctuation(ts[k + 1..])
    decreases k
  {
    if k > 0 {
      assert ts[1..][..k - 1] == ts[1..k];
      assert ts[1..][k..] == ts[k + 1..];
      CountSplit(ts[1..], k - 1);
    } else {
      assert ts[1..] == ts[k + 1..];
    }
  }

  /** Parsing succeeds exactly when the list is empty or ends with a `;`. */
  lemma {:induction false} StatementsSucceed(ts: seq<Token>)
    ensures Statements(ts).Ok? <==> ts == [] || ts[|ts| - 1].kind == Punctuation
    decreases |ts|
  {
    if ts != [] {
      var k := FirstPunctuation(ts);
      if k == -1 {
        assert ts[|ts| - 1].kind != Punctuation;
      } else {
        var rest := ts[k + 1..];
        StatementsSucceed(rest);
        assert Statements(ts).Ok? == Statements(rest).Ok?;
        if rest != [] {
          assert rest[|rest| - 1] == ts[|ts| - 1];
        } else {
          assert k == |ts| - 1;
        }
      }
    }
  }

  /** The parser's one error is the missing `;`. */
  lemma {:induction false} StatementsError(ts: seq<Token>)
    ensures Statements(ts).Err? ==> Statements(ts).error == MissingSemicolon
    decreases |ts|
  {
    if ts != [] && FirstPunctuation(ts) != -1 {
      StatementsError(ts[FirstPunctuation(ts) + 1..]);
    }
  }

  /** On success there is one statement per `;`, and no statement holds a `;`. */
  lemma {:induction false} StatementsCount(ts: seq<Token>)
    requires Statements(ts).Ok?
    ensures |Statements(ts).value| == CountPunctuation(ts)
    ensures forall e :: e in Statements(ts).value ==> NoPunctuation(e.body)
    decreases |ts|
  {
    if ts != [] {
      var k := FirstPunctuation(ts);
      StatementsCount(ts[k + 1..]);
      CountSplit(ts, k);
    }
  }

  /** Every delimiter token reads ";", as the tokenizer makes them. */
  predicate PlainDelimiters(ts: seq<Token>)
  {
    forall m :: 0 <= m < |ts| && ts[m].kind == Punctuation ==> ts[m] == Semicolon
  }

  lemma PlainSuffix(ts: seq<Token>, n: nat)
    requires n <= |ts| && PlainDelimiters(ts)
    ensures PlainDelimiters(ts[n..])
  {
    forall m | 0 <= m < |ts[n..]| && ts[n..][m].kind == Punctuation
      ensures ts[n..][m] == Semicolon
    {
      assert ts[n..][m] == ts[n + m];
    }
  }

  /** One turn of the split. */
  lemma StatementsStep(ts: seq<Token>, k: int)
    requires ts != [] && k == FirstPunctuation(ts) && k != -1
    ensures Statements(ts) == Prepend(Expression(ts[..k]), Statements(ts[k + 1..]))
  {
  }

  /** Round trip: flattening the statements back, each followed by its
      `;`, gives the token list again. */
  lemma {:induction false} FlattenStatements(ts: seq<Token>)
    requires Statements(ts).Ok? && PlainDelimiters(ts)
    ensures Flatten(Statements(ts).value) == ts
    decreases |ts|
  {
    if ts != [] {
      var k := FirstPunctuation(ts);
      StatementsStep(ts, k);
      PlainSuffix(ts, k + 1);
      FlattenStatements(ts[k + 1..]);
      FlattenBack(ts, k, Statements(ts[k + 1..]).value);
    }
  }

  /** Putting one statement and its `;` back in front of the rest. */
  lemma FlattenBack(ts: seq<Token>, k: nat, rest: seq<Expression>)
    requires k < |ts| && ts[k] == Semicolon && Flatten(rest) == ts[k + 1..]
    ensures Flatten([Expression(ts[..k])] + rest) == ts
  {
    assert ([Expression(ts[..k])] + rest)[1..] == rest;
    assert ts == ts[..k] + [Semicolon] + ts[k + 1..];
  }

  /** The other direction: statements without `;` inside, flattened and
      parsed, come back unchanged. */
  lemma {:induction false} StatementsFlatten(es: seq<Expression>)
    requires forall e :: e in es ==> NoPunctuation(e.body)
    ensures Statements(Flatten(es)) == Ok(es)
    decreases |es|
  {
    if es != [] {
      assert es[0] in es;
      var ts := Flatten(es);
      var k := |es[0].body|;
      FlattenFront(es);
      StatementsStep(ts, k);
      forall e | e in es[1..] ensures NoPunctuation(e.body) {
        assert e in es;
      }
      StatementsFlatten(es[1..]);
      assert [es[0]] + es[1..] == es;
    }
  }

  /** The flattened list starts with the first statement's tokens and its
      `;`, which is the first `;` when the statement holds none. */
  lemma {:induction false} FlattenFront(es: seq<Expression>)
    requires es != [] && NoPunctuation(es[0].body)
    ensures var ts, k := Flatten(es), |es[0].body|;
            && k < |ts| && FirstPunctuation(ts) == k
            && ts[..k] == es[0].body && ts[k + 1..] == Flatten(es[1..])
  {
    var ts := Flatten(es);
    var b := es[0].body;
    assert ts[|b|] == Semicolon;
    assert ts[..|b|] == b;
    assert ts[|b| + 1..] == Flatten(es[1..]);
    assert FirstPunctuation(ts) == |b|;
  }

}
