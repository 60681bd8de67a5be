/** The tokenizer: one left-to-right scan of the program text that skips
    white space and unknown characters and groups the rest into `;`,
    number, keyword and operation tokens. */
module Lexer {
  import opened Syntax

  // ---------------------------------------------------------------------
  // Character classes of the tokenizer's regular expressions (JavaScript
  // regular expressions without the `u` flag).

  /** `/(\s|\n)/`: JavaScript's white-space and line-terminator characters. */
  predicate IsWhitespace(c: char)
  {
    c == ' ' || c == '\t' || c == '\n' || c == '\U{B}' || c == '\U{C}' || c == '\r'
    || c == '\U{A0}' || c == '\U{1680}' || ('\U{2000}' <= c <= '\U{200A}')
    || c == '\U{2028}' || c == '\U{2029}' || c == '\U{202F}' || c == '\U{205F}'
    || c == '\U{3000}' || c == '\U{FEFF}'
  }

  /** `/[\d]/` */
  predicate IsDigit(c: char)
  {
    '0' <= c <= '9'
  }

  /** `/[\w]/`: letters, digits and the underscore. */
  predicate IsWordChar(c: char)
  {
    'a' <= c <= 'z' || 'A' <= c <= 'Z' || IsDigit(c) || c == '_'
  }

  /** `/(>|<|\+|-|\.|,)/` */
  predicate IsOperatorChar(c: char)
  {
    c == '>' || c == '<' || c == '+' || c == '-' || c == '.' || c == ','
  }

  /** A character that ends up inside some token; all others are skipped. */
  predicate IsSignificant(c: char)
  {
    c == ';' || IsWordChar(c) || IsOperatorChar(c)
  }

  /** The three classes the tokenizer builds maximal runs over. */
  datatype RunClass = Digits | WordChars | OperatorChars

  predicate InRun(c: char, k: RunClass)
  {
    match k
    case Digits => IsDigit(c)
    case WordChars => IsWordChar(c)
    case OperatorChars => IsOperatorChar(c)
  }

  /** The run class a token of kind `k` is built from. */
  function RunOf(k: Kind): RunClass
    requires k != Punctuation
  {
    match k
    case Number => Digits
    case Keyword => WordChars
    case Operation => OperatorChars
  }

  /** `pat` occurs somewhere in `s`. */
  predicate Contains(s: string, pat: string)
  {
    pat <= s || (s != [] && Contains(s[1..], pat))
  }

  /** `RE_KEYWORDS.test(value)`: the text contains `write`, `for` or `do`
      anywhere, so `undo` and `format` pass as well. */
  predicate ContainsKeyword(w: string)
  {
    Contains(w, "write") || Contains(w, "for") || Contains(w, "do")
  }

  /** `pat` occurs in `s` at position `i`. */
  predicate OccursAt(s: string, pat: string, i: int)
  {
    0 <= i <= |s| - |pat| && s[i..i + |pat|] == pat
  }

  /** `Contains` is the substring test: some position holds the pattern. */
  lemma ContainsAt(s: string, pat: string)
    ensures Contains(s, pat) <==> exists i :: OccursAt(s, pat, i)
  {
    if Contains(s, pat) {
      var i := ContainsWitness(s, pat);
    }
    if exists i :: OccursAt(s, pat, i) {
      var i :| OccursAt(s, pat, i);
      OccursContains(s, pat, i);
    }
  }

  lemma {:induction false} ContainsWitness(s: string, pat: string) returns (i: nat)
    requires Contains(s, pat)
    ensures OccursAt(s, pat, i)
    decreases |s|
  {
    if pat <= s {
      i := 0;
      assert s[0..|pat|] == pat;
    } else {
      var j := ContainsWitness(s[1..], pat);
      i := j + 1;
      assert s[1..][j..j + |pat|] == s[i..i + |pat|];
    }
  }

  lemma {:induction false} OccursContains(s: string, pat: string, i: int)
    requires OccursAt(s, pat, i)
    ensures Contains(s, pat)
    decreases i
  {
    if i == 0 {
      assert s[..|pat|] == pat;
    } else {
      assert s[1..][i - 1..i - 1 + |pat|] == s[i..i + |pat|];
      OccursContains(s[1..], pat, i - 1);
    }
  }

  /** Number of line feeds in `s`. */
  function Newlines(s: string): nat
  {
    if s == [] then 0 else (if s[0] == '\n' then 1 else 0) + Newlines(s[1..])
  }

  // ---------------------------------------------------------------------
  // What JavaScript's `program[current]` and `re.test(char)` see.

  /** `program[i]`: a character, or `undefined` past the end. */
  function CharAt(p: string, i: nat): Option<char>
  {
    if i < |p| then Some(p[i]) else None
  }

  /** The text a regular expression's `test` is applied to: `undefined`
      is converted to the string "undefined". */
  function TextOf(c: Option<char>): string
  {
    match c
    case Some(ch) => [ch]
    case None => "undefined"
  }

  /** An unanchored one-class regular expression test: some character of
      the text is in the class. */
  predicate ClassTest(k: RunClass, s: string)
  {
    s != [] && (InRun(s[0], k) || ClassTest(k, s[1..]))
  }

  /** Testing a present character is testing its class; testing
      `undefined` succeeds for `\w` only. */
  lemma TestAt(k: RunClass, c: Option<char>)
    ensures c.Some? ==> (ClassTest(k, TextOf(c)) <==> InRun(c.value, k))
    ensures c.None? ==> (ClassTest(k, TextOf(c)) <==> k == WordChars)
  {
    if c.None? {
      TestUndefined(k);
    } else {
      assert TextOf(c)[1..] == [];
    }
  }

  lemma {:induction false} ClassTestNone(k: RunClass, s: string)
    requires forall i :: 0 <= i < |s| ==> !InRun(s[i], k)
    ensures !ClassTest(k, s)
    decreases |s|
  {
    if s != [] {
      ClassTestNone(k, s[1..]);
    }
  }

  /** "undefined" is all lower-case letters: it has a word character and
      no digit or operator character. */
  lemma TestUndefined(k: RunClass)
    ensures ClassTest(k, "undefined") <==> k == WordChars
  {
    var u := "undefined";
    if k != WordChars {
      assert forall i :: 0 <= i < |u| ==> 'a' <= u[i] <= 'z';
      ClassTestNone(k, u);
    }
  }

  // ---------------------------------------------------------------------
  // The tokenizer as a function of the input.

  /** Where the maximal run of class `k` starting at `i` ends. */
  function RunEnd(p: string, i: nat, k: RunClass): (j: nat)
    requires i <= |p|
    ensures i <= j <= |p|
    ensures forall m :: i <= m < j ==> InRun(p[m], k)
    ensures j == |p| || !InRun(p[j], k)
    decreases |p| - i
  {
    if i < |p| && InRun(p[i], k) then RunEnd(p, i + 1, k) else i
  }

  /** The run end is the only position with the properties above. */
  lemma RunEndUnique(p: string, i: nat, k: RunClass, j: nat)
    requires i <= j <= |p|
    requires forall m :: i <= m < j ==> InRun(p[m], k)
    requires j == |p| || !InRun(p[j], k)
    ensures j == RunEnd(p, i, k)
    decreases j - i
  {
    if i < j {
      RunEndUnique(p, i + 1, k, j);
    }
  }

  /** The scan from position `i` on line `row`. The identifier run ends at
      the end of the input (see `WordLoopAsWritten` for what the source
      does there). */
  function LexFrom(p: string, i: nat, row: nat): Result<seq<Token>>
    requires i <= |p|
    decreases |p| - i
  {
    if i == |p| then Ok([])
    else
      var c := p[i];
      if IsWhitespace(c) then LexFrom(p, i + 1, if c == '\n' then row + 1 else row)
      else if c == ';' then Prepend(Token(Punctuation, [c]), LexFrom(p, i + 1, row))
      else if IsDigit(c) then
        var j := RunEnd(p, i, Digits);
        Prepend(Token(Number, p[i..j]), LexFrom(p, j, row))
      else if IsWordChar(c) then
        var j := RunEnd(p, i, WordChars);
        if ContainsKeyword(p[i..j]) then Prepend(Token(Keyword, p[i..j]), LexFrom(p, j, row))
        else Err(UnknownIdentifier(p[i..j], row))
      else if IsOperatorChar(c) then
        var j := RunEnd(p, i, OperatorChars);
        Prepend(Token(Operation, p[i..j]), LexFrom(p, j, row))
      else LexFrom(p, i + 1, row)
  }

  /** `tokenizer(program)`: the scan from the start, on line 1. */
  function Lex(p: string): Result<seq<Token>>
  {
    LexFrom(p, 0, 1)
  }

  // ---------------------------------------------------------------------
  // The tokenizer as the source writes it: a cursor, a line counter and
  // three inner loops.

  /** One of the source's three inner loops: append `program[current]`
      while its class test holds. The source makes the test even past the
      end, where `undefined` fails the digit and operator tests but passes
      the word test (see `WordLoopAsWritten`); the `ch.Some?` guard stops
      the run at the end of the input, which for digits and operators
      changes nothing. */
  method ScanRun(program: string, start: nat, k: RunClass) returns (value: string, current: nat)
    requires start <= |program|
    ensures current == RunEnd(program, start, k)
    ensures value == program[start..current]
  {
    var ch;
    value, current, ch := "", start, CharAt(program, start);
    while ch.Some? && ClassTest(k, TextOf(ch))
      invariant start <= current <= |program| && ch == CharAt(program, current)
      invariant value == program[start..current]
      invariant forall m :: start <= m < current ==> InRun(program[m], k)
      decreases |program| - current
    {
      TestAt(k, ch);
      value := value + TextOf(ch);
      current := current + 1;
      ch := CharAt(program, current);
    }
    TestAt(k, ch);
    RunEndUnique(program, start, k, current);
  }

  method Tokenize(program: string) returns (r: Result<seq<Token>>)
    ensures r == Lex(program)
  {
    var tokens: seq<Token> := [];
    var current: nat := 0;
    var row: nat := 1;
    assert Then(tokens, Lex(program)) == Lex(program) by {
      if Lex(program).Ok? { assert tokens + Lex(program).value == Lex(program).value; }
    }
    while current < |program|
      invariant current <= |program|
      invariant Lex(program) == Then(tokens, LexFrom(program, current, row))
      decreases |program| - current
    {
      var c := program[current];
      if IsWhitespace(c) {
        current := current + 1;
        if c == '\n' {
          row := row + 1;
        }
      } else if c == ';' {
        ThenPrepend(tokens, Token(Punctuation, [c]), LexFrom(program, current + 1, row));
        tokens := tokens + [Token(Punctuation, [c])];
        current := current + 1;
      } else if IsDigit(c) {
        var value;
        value, current := ScanRun(program, current, Digits);
        ThenPrepend(tokens, Token(Number, value), LexFrom(program, current, row));
        tokens := tokens + [Token(Number, value)];
      } else if IsWordChar(c) {
        var value;
        value, current := ScanRun(program, current, WordChars);
        if ContainsKeyword(value) {
          ThenPrepend(tokens, Token(Keyword, value), LexFrom(program, current, row));
          tokens := tokens + [Token(Keyword, value)];
        } else {
          return Err(UnknownIdentifier(value, row));
        }
      } else if IsOperatorChar(c) {
        var value;
        value, current := ScanRun(program, current, OperatorChars);
        ThenPrepend(tokens, Token(Operation, value), LexFrom(program, current, row));
        tokens := tokens + [Token(Operation, value)];
      } else {
        current := current + 1;
      }
    }
    assert tokens + [] == tokens;
    r := Ok(tokens);
  }
}

/** What the tokenizer's result says about the input text. */
module LexerFacts {
  import opened Syntax
  import opened Lexer

  predicate AllIn(s: string, k: RunClass)
  {
    forall m :: 0 <= m < |s| ==> InRun(s[m], k)
  }

  /** A token as the scan builds it: `;` alone, or a non-empty run of its
      class; a keyword run starts with a non-digit (a digit starts a number)
      and contains one of the keywords. */
  predicate WellFormed(t: Token)
  {
    match t.kind
    case Punctuation => t.value == ";"
    case Number => t.value != [] && AllIn(t.value, Digits)
    case Keyword => t.value != [] && !IsDigit(t.value[0]) && AllIn(t.value, WordChars) && ContainsKeyword(t.value)
    case Operation => t.value != [] && AllIn(t.value, OperatorChars)
  }

  lemma {:induction false} LexWellFormed(p: string, i: nat, row: nat)
    requires i <= |p| && LexFrom(p, i, row).Ok?
    ensures forall t :: t in LexFrom(p, i, row).value ==> WellFormed(t)
    decreases |p| - i
  {
    if i < |p| {
      var c := p[i];
      if IsWhitespace(c) {
        LexWellFormed(p, i + 1, if c == '\n' then row + 1 else row);
      } else if c == ';' {
        LexWellFormed(p, i + 1, row);
      } else if IsDigit(c) {
        LexWellFormed(p, RunEnd(p, i, Digits), row);
      } else if IsWordChar(c) {
        LexWellFormed(p, RunEnd(p, i, WordChars), row);
      } else if IsOperatorChar(c) {
        LexWellFormed(p, RunEnd(p, i, OperatorChars), row);
      } else {
        LexWellFormed(p, i + 1, row);
      }
    }
  }

  /** The input with white space and unrecognised characters removed. */
  function Significant(s: string): string
  {
    if s == [] then [] else (if IsSignificant(s[0]) then [s[0]] else []) + Significant(s[1..])
  }

  lemma {:induction false} SignificantRun(p: string, i: nat, j: nat)
    requires i <= j <= |p|
    requires forall m :: i <= m < j ==> IsSignificant(p[m])
    ensures Significant(p[i..]) == p[i..j] + Significant(p[j..])
    decreases j - i
  {
    if i < j {
      SignificantRun(p, i + 1, j);
      assert p[i..][1..] == p[i + 1..];
      assert p[i..j] == [p[i]] + p[i + 1..j];
    }
  }

  lemma SignificantSkip(p: string, i: nat)
    requires i < |p| && !IsSignificant(p[i])
    ensures Significant(p[i..]) == Significant(p[i + 1..])
  {
    assert p[i..][1..] == p[i + 1..];
  }

  lemma SpellingPrepend(t: Token, ts: seq<Token>)
    ensures Spelling([t] + ts) == t.value + Spelling(ts)
  {
    assert ([t] + ts)[1..] == ts;
  }

  /** Round trip: the token texts, concatenated, give back the input
      without its white space and unrecognised characters. */
  lemma {:induction false} LexSpelling(p: string, i: nat, row: nat)
    requires i <= |p| && LexFrom(p, i, row).Ok?
    ensures Spelling(LexFrom(p, i, row).value) == Significant(p[i..])
    decreases |p| - i
  {
    if i < |p| {
      var c := p[i];
      var ts := LexFrom(p, i, row).value;
      if !IsSignificant(c) {
        SignificantSkip(p, i);
        LexSpelling(p, i + 1, if c == '\n' then row + 1 else row);
      } else {
        var j := if c == ';' then i + 1
                 else RunEnd(p, i, if IsDigit(c) then Digits else if IsWordChar(c) then WordChars else OperatorChars);
        LexSpelling(p, j, row);
        SignificantRun(p, i, j);
        SpellingPrepend(ts[0], LexFrom(p, j, row).value);
      }
    }
  }

  // ---------------------------------------------------------------------
  // Where the tokens lie in the input (maximal munch).

  /** Where each token of the scan from `i` starts. */
  ghost function Starts(p: string, i: nat): seq<nat>
    requires i <= |p|
    decreases |p| - i
  {
    if i == |p| then []
    else if !IsSignificant(p[i]) then Starts(p, i + 1)
    else if p[i] == ';' then [i] + Starts(p, i + 1)
    else
      var k := if IsDigit(p[i]) then Digits else if IsWordChar(p[i]) then WordChars else OperatorChars;
      [i] + Starts(p, RunEnd(p, i, k))
  }

  /** `t` is the text at `s`, and a run token cannot be extended to the
      right: the next character is not of its class. */
  ghost predicate Located(p: string, s: nat, t: Token)
  {
    s + |t.value| <= |p| && p[s..s + |t.value|] == t.value
    && (t.kind != Punctuation ==> s + |t.value| == |p| || !InRun(p[s + |t.value|], RunOf(t.kind)))
  }

  /** Everything in `p[a..b]` is white space or unrecognised. */
  ghost predicate Skipped(p: string, a: nat, b: nat)
  {
    a <= b <= |p| && forall m :: a <= m < b ==> !IsSignificant(p[m])
  }

  /** Tokens `ts` starting at `ss` lie in `p[i..]`: each is the text at
      its start and, for runs, cannot be extended to the right; only white
      space and unrecognised characters lie before, between and after them. */
  ghost predicate Laid(p: string, i: nat, ts: seq<Token>, ss: seq<nat>)
  {
    && |ss| == |ts|
    && (forall k :: 0 <= k < |ts| ==> i <= ss[k] && Located(p, ss[k], ts[k]))
    && (forall k :: 0 <= k < |ts| - 1 ==> Skipped(p, ss[k] + |ts[k].value|, ss[k + 1]))
    && Skipped(p, i, if ts == [] then |p| else ss[0])
    && (ts != [] ==> Skipped(p, ss[|ts| - 1] + |ts[|ts| - 1].value|, |p|))
  }

  lemma LaidSkip(p: string, i: nat, ts: seq<Token>, ss: seq<nat>)
    requires i < |p| && !IsSignificant(p[i]) && Laid(p, i + 1, ts, ss)
    ensures Laid(p, i, ts, ss)
  {
  }

  lemma LaidCons(p: string, i: nat, t: Token, ts: seq<Token>, ss: seq<nat>)
    requires Located(p, i, t) && Laid(p, i + |t.value|, ts, ss)
    ensures Laid(p, i, [t] + ts, [i] + ss)
  {
    LaidConsLocated(p, i, t, ts, ss);
    LaidConsSkipped(p, i, t, ts, ss);
  }

  lemma LaidConsLocated(p: string, i: nat, t: Token, ts: seq<Token>, ss: seq<nat>)
    requires Located(p, i, t) && Laid(p, i + |t.value|, ts, ss)
    ensures forall k :: 0 <= k < |ts| + 1 ==> i <= ([i] + ss)[k] && Located(p, ([i] + ss)[k], ([t] + ts)[k])
  {
    var ts0, ss0 := [t] + ts, [i] + ss;
    forall k | 0 < k < |ts0|
      ensures i <= ss0[k] && Located(p, ss0[k], ts0[k])
    {
      assert ts0[k] == ts[k - 1] && ss0[k] == ss[k - 1];
    }
  }

  lemma LaidConsSkipped(p: string, i: nat, t: Token, ts: seq<Token>, ss: seq<nat>)
    requires Located(p, i, t) && Laid(p, i + |t.value|, ts, ss)
    ensures forall k :: 0 <= k < |ts| ==> Skipped(p, ([i] + ss)[k] + |([t] + ts)[k].value|, ([i] + ss)[k + 1])
  {
    var ts0, ss0 := [t] + ts, [i] + ss;
    forall k | 0 < k < |ts0| - 1
      ensures Skipped(p, ss0[k] + |ts0[k].value|, ss0[k + 1])
    {
      assert ts0[k] == ts[k - 1] && ss0[k] == ss[k - 1] && ss0[k + 1] == ss[k];
    }
  }

  /** Maximal munch: each token is the text where it starts, every number,
      keyword and operation token is a maximal run of its class, and only
      white space and unrecognised characters lie between, before and after
      the tokens. */
  lemma {:induction false} LexPositions(p: string, i: nat, row: nat)
    requires i <= |p| && LexFrom(p, i, row).Ok?
    ensures Laid(p, i, LexFrom(p, i, row).value, Starts(p, i))
    decreases |p| - i, 1
  {
    if i < |p| {
      if !IsSignificant(p[i]) {
        LexPositionsSkip(p, i, row);
      } else {
        LexPositionsToken(p, i, row);
      }
    }
  }

  lemma {:induction false} LexPositionsSkip(p: string, i: nat, row: nat)
    requires i < |p| && !IsSignificant(p[i]) && LexFrom(p, i, row).Ok?
    ensures Laid(p, i, LexFrom(p, i, row).value, Starts(p, i))
    decreases |p| - i, 0
  {
    var row' := if p[i] == '\n' then row + 1 else row;
    assert LexFrom(p, i, row) == LexFrom(p, i + 1, row');
    LexPositions(p, i + 1, row');
    LaidSkip(p, i, LexFrom(p, i, row).value, Starts(p, i));
  }

  /** Where the token that starts at significant character `i` ends. */
  function TokenEnd(p: string, i: nat): (j: nat)
    requires i < |p| && IsSignificant(p[i])
    ensures i < j <= |p|
  {
    var c := p[i];
    if c == ';' then i + 1
    else RunEnd(p, i, if IsDigit(c) then Digits else if IsWordChar(c) then WordChars else OperatorChars)
  }

  /** The token that starts at significant character `i`. */
  function TokenAt(p: string, i: nat): Token
    requires i < |p| && IsSignificant(p[i])
  {
    var c := p[i];
    Token(if c == ';' then Punctuation else if IsDigit(c) then Number else if IsWordChar(c) then Keyword else Operation,
          p[i..TokenEnd(p, i)])
  }

  /** The character at `i` starts a token the scan emits, rather than a
      word run it rejects. */
  predicate Emits(p: string, i: nat)
    requires i < |p|
  {
    IsSignificant(p[i]) && (IsWordChar(p[i]) && !IsDigit(p[i]) ==> ContainsKeyword(p[i..TokenEnd(p, i)]))
  }

  /** A scan that succeeds emits the token at its own start. */
  lemma OkEmits(p: string, i: nat, row: nat)
    requires i < |p| && IsSignificant(p[i]) && LexFrom(p, i, row).Ok?
    ensures Emits(p, i)
  {
    var c := p[i];
    if IsWordChar(c) && !IsDigit(c) {
      assert c != ';' && !IsOperatorChar(c);
      assert TokenEnd(p, i) == RunEnd(p, i, WordChars);
    }
  }

  lemma TokenStep(p: string, i: nat, row: nat)
    requires i < |p| && Emits(p, i)
    ensures LexFrom(p, i, row) == Prepend(TokenAt(p, i), LexFrom(p, TokenEnd(p, i), row))
  {
    assert p[i] == ';' ==> p[i..i + 1] == [p[i]];
  }

  /** A successful scan at a significant character is its token followed by
      the successful scan from the token's end. */
  lemma TokenStepOk(p: string, i: nat, row: nat)
    requires i < |p| && IsSignificant(p[i]) && LexFrom(p, i, row).Ok?
    ensures LexFrom(p, TokenEnd(p, i), row).Ok?
    ensures LexFrom(p, i, row).value == [TokenAt(p, i)] + LexFrom(p, TokenEnd(p, i), row).value
  {
    OkEmits(p, i, row);
    TokenStep(p, i, row);
  }

  lemma StartsStep(p: string, i: nat)
    requires i < |p| && IsSignificant(p[i])
    ensures Starts(p, i) == [i] + Starts(p, TokenEnd(p, i))
  {
  }

  lemma TokenLocated(p: string, i: nat)
    requires i < |p| && IsSignificant(p[i])
    ensures Located(p, i, TokenAt(p, i))
  {
  }

  lemma {:induction false} LexPositionsToken(p: string, i: nat, row: nat)
    requires i < |p| && IsSignificant(p[i]) && LexFrom(p, i, row).Ok?
    ensures Laid(p, i, LexFrom(p, i, row).value, Starts(p, i))
    decreases |p| - i, 0
  {
    var j := TokenEnd(p, i);
    TokenStepOk(p, i, row);
    StartsStep(p, i);
    TokenLocated(p, i);
    LexPositions(p, j, row);
    LaidCons(p, i, TokenAt(p, i), LexFrom(p, j, row).value, Starts(p, j));
  }

  // ---------------------------------------------------------------------
  // The error case.

  lemma {:induction false} NewlinesAcross(p: string, i: nat, j: nat, k: nat)
    requires i <= j <= k <= |p|
    requires forall m :: i <= m < j ==> p[m] != '\n'
    ensures Newlines(p[i..k]) == Newlines(p[j..k])
    decreases j - i
  {
    if i < j {
      assert p[i..k][1..] == p[i + 1..k];
      NewlinesAcross(p, i + 1, j, k);
    }
  }

  /** The scan from `i` on line `row` stops at position `k` with error `e`:
      a word run starting with a non-digit that contains no keyword, on the
      line `row` plus the line feeds before it. */
  ghost predicate RejectedAt(p: string, i: nat, k: nat, row: nat, e: CompileError)
  {
    i <= k < |p| && IsWordChar(p[k]) && !IsDigit(p[k])
    && var w := p[k..RunEnd(p, k, WordChars)];
       !ContainsKeyword(w) && e == UnknownIdentifier(w, row + Newlines(p[i..k]))
  }

  lemma {:induction false} NewlinesSplit(p: string, i: nat, j: nat, k: nat)
    requires i <= j <= k <= |p|
    ensures Newlines(p[i..k]) == Newlines(p[i..j]) + Newlines(p[j..k])
    decreases j - i
  {
    if i < j {
      assert p[i..k][1..] == p[i + 1..k];
      assert p[i..j][1..] == p[i + 1..j];
      NewlinesSplit(p, i + 1, j, k);
    }
  }

  lemma RejectedShift(p: string, i: nat, j: nat, k: nat, row: nat, e: CompileError)
    requires i <= j <= |p| && RejectedAt(p, j, k, row + Newlines(p[i..j]), e)
    ensures RejectedAt(p, i, k, row, e)
  {
    NewlinesSplit(p, i, j, k);
  }

  /** Token starts lie in `p[i..]`. */
  lemma {:induction false} StartsBounds(p: string, i: nat)
    requires i <= |p|
    ensures forall k :: k in Starts(p, i) ==> i <= k < |p|
    decreases |p| - i
  {
    if i < |p| {
      if !IsSignificant(p[i]) {
        StartsBounds(p, i + 1);
      } else {
        StartsStep(p, i);
        StartsBounds(p, TokenEnd(p, i));
      }
    }
  }

  /** A scan that succeeds emits the token at every token start. */
  lemma {:induction false} OkAllEmit(p: string, i: nat, row: nat)
    requires i <= |p| && LexFrom(p, i, row).Ok?
    ensures forall k :: k in Starts(p, i) ==> k < |p| && Emits(p, k)
    decreases |p| - i
  {
    if i < |p| {
      if !IsSignificant(p[i]) {
        var row' := if p[i] == '\n' then row + 1 else row;
        assert LexFrom(p, i, row) == LexFrom(p, i + 1, row');
        OkAllEmit(p, i + 1, row');
      } else {
        OkEmits(p, i, row);
        TokenStep(p, i, row);
        StartsStep(p, i);
        OkAllEmit(p, TokenEnd(p, i), row);
      }
    }
  }

  /** `k` is the first token start of the scan from `i` whose token is not
      emitted. */
  ghost predicate FirstRejected(p: string, i: nat, k: nat)
  {
    && i <= k < |p| && k in Starts(p, i) && !Emits(p, k)
    && forall m :: m in Starts(p, i) && m < k ==> m < |p| && Emits(p, m)
  }

  /** The scan from `i` on line `row` reports error `e` at its first token
      start that is not emitted. */
  ghost predicate Reported(p: string, i: nat, row: nat, e: CompileError)
  {
    exists k: nat :: RejectedAt(p, i, k, row, e) && FirstRejected(p, i, k)
  }

  lemma ReportedAfterSkip(p: string, i: nat, row: nat, e: CompileError)
    requires i < |p| && !IsSignificant(p[i])
    requires Reported(p, i + 1, if p[i] == '\n' then row + 1 else row, e)
    ensures Reported(p, i, row, e)
  {
    var row' := if p[i] == '\n' then row + 1 else row;
    assert Newlines(p[i..i + 1]) == row' - row by {
      assert p[i..i + 1][1..] == [];
    }
    var k: nat :| RejectedAt(p, i + 1, k, row', e) && FirstRejected(p, i + 1, k);
    RejectedShift(p, i, i + 1, k, row, e);
    assert Starts(p, i) == Starts(p, i + 1);
    assert FirstRejected(p, i, k);
  }

  lemma ReportedAfterToken(p: string, i: nat, row: nat, e: CompileError)
    requires i < |p| && Emits(p, i) && Reported(p, TokenEnd(p, i), row, e)
    ensures Reported(p, i, row, e)
  {
    var j := TokenEnd(p, i);
    NewlinesAcross(p, i, j, j);
    var k: nat :| RejectedAt(p, j, k, row, e) && FirstRejected(p, j, k);
    RejectedShift(p, i, j, k, row, e);
    StartsStep(p, i);
    assert FirstRejected(p, i, k);
  }

  lemma ReportedHere(p: string, i: nat, row: nat)
    requires i < |p| && IsSignificant(p[i]) && !Emits(p, i)
    ensures Reported(p, i, row, UnknownIdentifier(p[i..RunEnd(p, i, WordChars)], row))
  {
    StartsStep(p, i);
    StartsBounds(p, i);
    assert RejectedAt(p, i, i, row, UnknownIdentifier(p[i..RunEnd(p, i, WordChars)], row));
    assert FirstRejected(p, i, i);
  }

  lemma SkipStep(p: string, i: nat, row: nat)
    requires i < |p| && !IsSignificant(p[i])
    ensures LexFrom(p, i, row) == LexFrom(p, i + 1, if p[i] == '\n' then row + 1 else row)
  {
  }

  lemma RejectStep(p: string, i: nat, row: nat)
    requires i < |p| && IsSignificant(p[i]) && !Emits(p, i)
    ensures LexFrom(p, i, row) == Err(UnknownIdentifier(p[i..RunEnd(p, i, WordChars)], row))
  {
  }

  /** A failing scan stops at its first token start whose word run holds no
      keyword, and reports that run with its line. */
  lemma {:induction false} LexErrorLocated(p: string, i: nat, row: nat, e: CompileError)
    requires i <= |p| && LexFrom(p, i, row) == Err(e)
    ensures Reported(p, i, row, e)
    decreases |p| - i
  {
    assert i < |p|;
    if !IsSignificant(p[i]) {
      var row' := if p[i] == '\n' then row + 1 else row;
      SkipStep(p, i, row);
      LexErrorLocated(p, i + 1, row', e);
      ReportedAfterSkip(p, i, row, e);
    } else if Emits(p, i) {
      TokenStep(p, i, row);
      LexErrorLocated(p, TokenEnd(p, i), row, e);
      ReportedAfterToken(p, i, row, e);
    } else {
      RejectStep(p, i, row);
      ReportedHere(p, i, row);
    }
  }

  /** The keyword rule, for the whole program. Tokenizing succeeds exactly
      when the token at every token start is emitted. When it fails, the
      error names the word run at the first token start that is not: a run
      that starts with a non-digit and contains no keyword, reported with
      its text and with 1 plus the number of line feeds before it. When it
      succeeds, every keyword token contains a keyword. */
  lemma KeywordRule(p: string)
    ensures Lex(p).Ok? <==> forall k :: k in Starts(p, 0) ==> k < |p| && Emits(p, k)
    ensures Lex(p).Err? ==>
              exists k: nat :: && FirstRejected(p, 0, k)
                               && IsWordChar(p[k]) && !IsDigit(p[k])
                               && !ContainsKeyword(p[k..RunEnd(p, k, WordChars)])
                               && Lex(p).error == UnknownIdentifier(p[k..RunEnd(p, k, WordChars)], 1 + Newlines(p[..k]))
    ensures Lex(p).Ok? ==> forall t :: t in Lex(p).value && t.kind == Keyword ==> ContainsKeyword(t.value)
  {
    if Lex(p).Err? {
      LexErrorLocated(p, 0, 1, Lex(p).error);
      var k: nat :| RejectedAt(p, 0, k, 1, Lex(p).error) && FirstRejected(p, 0, k);
      assert p[0..k] == p[..k];
    } else {
      OkAllEmit(p, 0, 1);
      LexWellFormed(p, 0, 1);
    }
  }

  // ---------------------------------------------------------------------
  // The identifier loop as the source writes it.

  /** The source's identifier loop from `current` with `value` so far:
      while `/[\w]/` accepts `program[current]`, append it and advance.
      Past the end that character is `undefined`, which the test reads as
      the word "undefined". `fuel` bounds the number of turns; `None` means
      the loop had not stopped within them. */
  function WordLoopAsWritten(p: string, current: nat, value: string, fuel: nat): Option<(nat, string)>
    decreases fuel
  {
    var ch := CharAt(p, current);
    if !ClassTest(WordChars, TextOf(ch)) then Some((current, value))
    else if fuel == 0 then None
    else WordLoopAsWritten(p, current + 1, value + TextOf(ch), fuel - 1)
  }

  /** A word run that reaches the end of the input never ends: whatever
      the number of turns allowed, the loop is still running. */
  lemma {:induction false} WordLoopAsWrittenNeverStops(p: string, current: nat, value: string, fuel: nat)
    requires forall m :: current <= m < |p| ==> IsWordChar(p[m])
    ensures WordLoopAsWritten(p, current, value, fuel) == None
    decreases fuel
  {
    TestAt(WordChars, CharAt(p, current));
    if fuel > 0 {
      WordLoopAsWrittenNeverStops(p, current + 1, value + TextOf(CharAt(p, current)), fuel - 1);
    }
  }

  /** When the run ends before the end of the input, the loop as written
      stops where the corrected one does, with the same text. */
  lemma {:induction false} WordLoopAsWrittenAgrees(p: string, current: nat, value: string, fuel: nat)
    requires current <= |p| && RunEnd(p, current, WordChars) < |p|
    requires fuel >= RunEnd(p, current, WordChars) - current
    ensures WordLoopAsWritten(p, current, value, fuel)
            == Some((RunEnd(p, current, WordChars), value + p[current..RunEnd(p, current, WordChars)]))
    decreases fuel
  {
    var ch := CharAt(p, current);
    TestAt(WordChars, ch);
    if IsWordChar(p[current]) {
      WordLoopAsWrittenAgrees(p, current + 1, value + [p[current]], fuel - 1);
      assert value + [p[current]] + p[current + 1..RunEnd(p, current, WordChars)]
             == value + p[current..RunEnd(p, current, WordChars)];
    } else {
      assert value + p[current..current] == value;
    }
  }

  /** `write` without its `;`: the source's identifier loop never stops,
      where the tokenizer was evidently meant to return the keyword (and the
      parser then to report the missing `;`). */
  lemma WriteAtEndOfInput(fuel: nat)
    ensures WordLoopAsWritten("write", 0, "", fuel) == None
    ensures Lex("write") == Ok([Token(Keyword, "write")])
  {
    WordLoopAsWrittenNeverStops("write", 0, "", fuel);
    var p := "write";
    assert RunEnd(p, 0, WordChars) == 5 by { RunEndUnique(p, 0, WordChars, 5); }
    assert p[0..5] == p;
    assert "write" <= p;
    assert ContainsKeyword(p[0..5]);
    assert LexFrom(p, 5, 1) == Ok([]);
    assert !IsWhitespace(p[0]) && p[0] != ';' && !IsDigit(p[0]) && IsWordChar(p[0]);
    assert LexFrom(p, 0, 1) == Prepend(Token(Keyword, p[0..5]), LexFrom(p, 5, 1));
    assert [Token(Keyword, p)] + [] == [Token(Keyword, p)];
  }
}
