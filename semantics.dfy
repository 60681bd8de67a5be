/** What the `main` function of a generated program does to the buffer:
    each call acts on the buffer machine, and the whole body acts as one
    `execute` of an instruction string read off the calls. */
module Semantics {
  import opened Runtime
  import opened CodeGen
  import Lexer

  predicate AllDigits(t: string)
  {
    forall i :: 0 <= i < |t| ==> Lexer.IsDigit(t[i])
  }

  /** The value of a decimal numeral. */
  function DecimalValue(t: string): nat
    requires AllDigits(t)
    decreases |t|
  {
    if t == [] then 0 else 10 * DecimalValue(t[..|t| - 1]) + (t[|t| - 1] - '0') as nat
  }

  /** A loop count C reads as the decimal number it spells: digits, no
      leading zero (which would make it octal), and within `int`. */
  predicate IsCount(t: string)
  {
    && |t| > 0 && AllDigits(t)
    && (t[0] == '0' ==> |t| == 1)
    && DecimalValue(t) <= IntMax
  }

  /** Calls whose loop counts all read as decimal numbers. */
  predicate Counted(cs: seq<Call>)
  {
    forall i :: 0 <= i < |cs| ==> (cs[i].Loop? ==> IsCount(cs[i].times))
  }

  /** `for(int i = 0; i < n; i++) { execute(&buffer, op); }`. */
  function Iterate(m: Machine, op: string, n: nat): Machine
  {
    if n == 0 then m else Run(Iterate(m, op, n - 1), op)
  }

  /** What one emitted call does. */
  function Effect(m: Machine, c: Call): Machine
    requires c.Loop? ==> IsCount(c.times)
  {
    match c
    case Execute(op) => Run(m, op)
    case Loop(times, op) => Step(Iterate(m, op, DecimalValue(times)), '>')  // then `buffer.pointer++`
    case Write => Step(m, '.')  // `write(&buffer)` prints as `.` does
  }

  /** The statements of `main` in order. */
  function Effects(m: Machine, cs: seq<Call>): Machine
    requires Counted(cs)
    decreases |cs|
  {
    if cs == [] then m else Effect(Effects(m, cs[..|cs| - 1]), cs[|cs| - 1])
  }

  /** `n` copies of `s`. */
  function Repeat(s: string, n: nat): string
  {
    if n == 0 then [] else Repeat(s, n - 1) + s
  }

  /** The instructions one call amounts to. */
  function Instructions(c: Call): string
    requires c.Loop? ==> IsCount(c.times)
  {
    match c
    case Execute(op) => op
    case Loop(times, op) => Repeat(op, DecimalValue(times)) + ">"
    case Write => "."
  }

  /** The instructions of the whole `main`, in order. */
  function Lower(cs: seq<Call>): string
    requires Counted(cs)
    decreases |cs|
  {
    if cs == [] then [] else Lower(cs[..|cs| - 1]) + Instructions(cs[|cs| - 1])
  }

  /** A C loop of `n` rounds is one `execute` of `n` copies. */
  lemma {:induction false} IterateRepeat(m: Machine, op: string, n: nat)
    ensures Iterate(m, op, n) == Run(m, Repeat(op, n))
    decreases n
  {
    if n > 0 {
      IterateRepeat(m, op, n - 1);
      RunAppend(m, Repeat(op, n - 1), op);
    }
  }

  lemma StepIsRun(m: Machine, c: char)
    ensures Step(m, c) == Run(m, [c])
  {
    assert [c][..0] == [];
  }

  /** One call acts as `execute` of its instructions: `do` as its operand,
      `for` as its operand repeated and then one `>`, `write` as `.`. */
  lemma EffectIsRun(m: Machine, c: Call)
    requires c.Loop? ==> IsCount(c.times)
    ensures Effect(m, c) == Run(m, Instructions(c))
  {
    match c
    case Execute(op) =>
    case Loop(times, op) =>
      var n := DecimalValue(times);
      IterateRepeat(m, op, n);
      RunAppend(m, Repeat(op, n), ">");
      StepIsRun(Run(m, Repeat(op, n)), '>');
    case Write =>
      StepIsRun(m, '.');
  }

  /** The body of `main` acts as one `execute` of the lowered instructions. */
  lemma {:induction false} EffectsAreRun(m: Machine, cs: seq<Call>)
    requires Counted(cs)
    ensures Effects(m, cs) == Run(m, Lower(cs))
    decreases |cs|
  {
    if cs != [] {
      var init := cs[..|cs| - 1];
      assert Counted(init) by {
        forall i | 0 <= i < |init| ensures init[i].Loop? ==> IsCount(init[i].times) {
          assert init[i] == cs[i];
        }
      }
      EffectsAreRun(m, init);
      EffectIsRun(Effects(m, init), cs[|cs| - 1]);
      RunAppend(m, Lower(init), Instructions(cs[|cs| - 1]));
    }
  }

  /** A `for` with count `0` does nothing but the one pointer advance. */
  lemma ZeroRounds(m: Machine, op: string)
    requires m.Machine? && m.pointer < IntMax
    ensures Effect(m, Loop("0", op)) == Machine(m.cells, m.pointer + 1, m.out)
  {
    assert DecimalValue("0") == 0 by {
      assert "0"[..0] == [];
    }
  }
}
