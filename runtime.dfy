/** The buffer machine that every generated C program carries in its
    preamble: a `buffer_t` of 512 `int` cells and an `int` pointer, with
    the routines `make_buffer`, `clear_buffer`, `write` and `execute`. */
module Runtime {

  const MaxBufferSize: nat := 512
  const IntMin: int := -0x8000_0000
  const IntMax: int := 0x7FFF_FFFF
  /** `write` prints each cell plus this offset as a character. */
  const Offset: int := 64
  /** The code of the `\n` that ends each `write`. */
  const NewlineCode: int := 10

  predicate IsInt(x: int)
  {
    IntMin <= x <= IntMax
  }

  /** A `buffer_t` with the character codes printed so far, or `Faulted`
      once the program has done something C leaves undefined: touched a
      cell outside the array or overflowed an `int`. */
  datatype Machine = Machine(cells: seq<int>, pointer: int, out: seq<int>) | Faulted

  /** A state a C `buffer_t` can be in. */
  ghost predicate Valid(m: Machine)
  {
    m.Machine? ==>
      && |m.cells| == MaxBufferSize
      && (forall i :: 0 <= i < |m.cells| ==> IsInt(m.cells[i]))
      && IsInt(m.pointer)
  }

  function Zeros(): seq<int>
  {
    seq(MaxBufferSize, _ => 0)
  }

  /** What `make_buffer` returns, before anything is printed. */
  function Fresh(): Machine
  {
    Machine(Zeros(), 0, [])
  }

  /** The codes of cells `0..n-1`, each plus `Offset`. */
  function Codes(cells: seq<int>, n: nat): seq<int>
    requires n <= |cells|
  {
    seq(n, i requires 0 <= i < n => cells[i] + Offset)
  }

  /** What `write` prints: cells `0..pointer`, each plus 64, then a newline
      (only the newline when the pointer is negative). */
  function Printed(cells: seq<int>, pointer: int): seq<int>
    requires pointer < |cells|
  {
    Codes(cells, if pointer < 0 then 0 else pointer + 1) + [NewlineCode]
  }

  /** `write` is defined: the cells it reads are in the array and adding
      64 to them does not overflow. */
  predicate CanWrite(cells: seq<int>, pointer: int)
  {
    pointer < |cells| && forall i :: 0 <= i <= pointer ==> cells[i] <= IntMax - Offset
  }

  /** One turn of `execute`'s `switch`. */
  function Step(m: Machine, c: char): Machine
  {
    match m
    case Faulted => Faulted
    case Machine(cells, p, out) =>
      if c == '>' then
        if p < IntMax then Machine(cells, p + 1, out) else Faulted
      else if c == '<' then
        if p > IntMin then Machine(cells, p - 1, out) else Faulted
      else if c == '+' then
        if 0 <= p < |cells| && cells[p] < IntMax then Machine(cells[p := cells[p] + 1], p, out) else Faulted
      else if c == '-' then
        if 0 <= p < |cells| && cells[p] > IntMin then Machine(cells[p := cells[p] - 1], p, out) else Faulted
      else if c == '.' then
        if CanWrite(cells, p) then Machine(cells, p, out + Printed(cells, p)) else Faulted
      else if c == ',' then
        Machine(Zeros(), 0, out)  // `clear_buffer`, then the `default` case: nothing more
      else m
  }

  /** `execute(&buffer, s)`: the characters of `s` in turn. */
  function Run(m: Machine, s: string): Machine
    decreases |s|
  {
    if s == [] then m else Step(Run(m, s[..|s| - 1]), s[|s| - 1])
  }

  // ---------------------------------------------------------------------
  // Properties of `execute`.

  lemma {:induction false} RunFaulted(s: string)
    ensures Run(Faulted, s) == Faulted
    decreases |s|
  {
    if s != [] {
      RunFaulted(s[..|s| - 1]);
    }
  }

  /** `execute(s + t)` is `execute(s)` followed by `execute(t)`. */
  lemma {:induction false} RunAppend(m: Machine, s: string, t: string)
    ensures Run(m, s + t) == Run(Run(m, s), t)
    decreases |t|
  {
    if t == [] {
      assert s + t == s;
    } else {
      assert (s + t)[..|s + t| - 1] == s + t[..|t| - 1];
      RunAppend(m, s, t[..|t| - 1]);
    }
  }

  /** A run that does not fault does not fault on any prefix. */
  lemma PrefixDefined(m: Machine, s: string, i: nat)
    requires i <= |s| && Run(m, s) != Faulted
    ensures Run(m, s[..i]) != Faulted
  {
    assert s == s[..i] + s[i..];
    RunAppend(m, s[..i], s[i..]);
    if Run(m, s[..i]) == Faulted {
      RunFaulted(s[i..]);
    }
  }

  lemma StepValid(m: Machine, c: char)
    requires Valid(m)
    ensures Valid(Step(m, c))
  {
  }

  /** A step does not depend on what was printed before it. */
  lemma StepOutput(cells: seq<int>, p: int, out: seq<int>, c: char)
    ensures var r, r0 := Step(Machine(cells, p, out), c), Step(Machine(cells, p, []), c);
            (r == Faulted <==> r0 == Faulted)
            && (r0 != Faulted ==> r == Machine(r0.cells, r0.pointer, out + r0.out))
  {
  }

  /** `execute` keeps the buffer a valid `buffer_t`. */
  lemma {:induction false} RunValid(m: Machine, s: string)
    requires Valid(m)
    ensures Valid(Run(m, s))
    decreases |s|
  {
    if s != [] {
      RunValid(m, s[..|s| - 1]);
      StepValid(Run(m, s[..|s| - 1]), s[|s| - 1]);
    }
  }

  /** What was printed before does not influence a run, which only adds
      to the output. */
  lemma {:induction false} RunOutput(cells: seq<int>, p: int, out: seq<int>, s: string)
    ensures var r, r0 := Run(Machine(cells, p, out), s), Run(Machine(cells, p, []), s);
            (r == Faulted <==> r0 == Faulted)
            && (r0 != Faulted ==> r == Machine(r0.cells, r0.pointer, out + r0.out))
    decreases |s|
  {
    if s != [] {
      var init, c := s[..|s| - 1], s[|s| - 1];
      RunOutput(cells, p, out, init);
      var r0 := Run(Machine(cells, p, []), init);
      if r0 != Faulted {
        StepOutput(r0.cells, r0.pointer, out + r0.out, c);
        StepOutput(r0.cells, r0.pointer, r0.out, c);
        var x := Step(Machine(r0.cells, r0.pointer, []), c);
        if x != Faulted {
          assert out + r0.out + x.out == out + (r0.out + x.out);
        }
      }
    }
  }

  /** `execute` only adds to what has been printed. */
  lemma {:induction false} OutputGrows(m: Machine, s: string)
    requires Run(m, s) != Faulted
    ensures m.Machine? && m.out <= Run(m, s).out
    decreases |s|
  {
    if s == [] {
    } else {
      PrefixDefined(m, s, |s| - 1);
      OutputGrows(m, s[..|s| - 1]);
    }
  }

  predicate IsMove(c: char)
  {
    c == '>' || c == '<'
  }

  /** Number of `c` in `s`. */
  function Count(s: string, c: char): nat
    decreases |s|
  {
    if s == [] then 0 else Count(s[..|s| - 1], c) + (if s[|s| - 1] == c then 1 else 0)
  }

  /** `>` and `<` move only the pointer, one cell each. */
  lemma {:induction false} MovesOnlyMovePointer(m: Machine, s: string)
    requires m.Machine? && Run(m, s) != Faulted
    requires forall i :: 0 <= i < |s| ==> IsMove(s[i])
    ensures Run(m, s) == Machine(m.cells, m.pointer + Count(s, '>') - Count(s, '<'), m.out)
    decreases |s|
  {
    if s != [] {
      PrefixDefined(m, s, |s| - 1);
      MovesOnlyMovePointer(m, s[..|s| - 1]);
    }
  }

  /** Characters other than the six operators do nothing. */
  function Operators(s: string): string
    decreases |s|
  {
    if s == [] then []
    else
      var c := s[|s| - 1];
      Operators(s[..|s| - 1]) + (if c in ">.<+-," then [c] else [])
  }

  lemma {:induction false} OthersDoNothing(m: Machine, s: string)
    ensures Run(m, s) == Run(m, Operators(s))
    decreases |s|
  {
    if s != [] {
      var c := s[|s| - 1];
      OthersDoNothing(m, s[..|s| - 1]);
      RunAppend(m, Operators(s[..|s| - 1]), if c in ">.<+-," then [c] else []);
      if c in ">.<+-," {
        assert Run(Run(m, Operators(s[..|s| - 1])), [c]) == Step(Run(m, Operators(s[..|s| - 1])), c) by {
          assert [c][..0] == [];
        }
      }
    }
  }

  /** After a `,` the buffer no longer depends on what came before: two
      runs that end with `,` followed by the same `t` reach the same cells
      and pointer. */
  lemma ResetForgets(m: Machine, s: string, m': Machine, s': string, t: string)
    requires Run(m, s + [','] + t) != Faulted && Run(m', s' + [','] + t) != Faulted
    ensures Run(m, s + [','] + t).cells == Run(m', s' + [','] + t).cells
    ensures Run(m, s + [','] + t).pointer == Run(m', s' + [','] + t).pointer
  {
    ResetThen(m, s, t);
    ResetThen(m', s', t);
  }

  lemma ResetThen(m: Machine, s: string, t: string)
    requires Run(m, s + [','] + t) != Faulted
    ensures Run(m, s + [','] + t) != Faulted
    ensures Run(Fresh(), t) != Faulted
    ensures Run(m, s + [','] + t).cells == Run(Fresh(), t).cells
    ensures Run(m, s + [','] + t).pointer == Run(Fresh(), t).pointer
  {
    RunAppend(m, s + [','], t);
    assert (s + [','])[..|s|] == s;
    var before := Run(m, s);
    if before == Faulted {
      RunFaulted(t);
    } else {
      RunOutput(Zeros(), 0, before.out, t);
    }
  }

  // ---------------------------------------------------------------------
  // The C routines, on a `buffer_t` updated in place.

  class Buffer {
    var buffer: array<int>
    var pointer: int

    ghost predicate Valid()
      reads this, buffer
    {
      && buffer.Length == MaxBufferSize
      && (forall i :: 0 <= i < buffer.Length ==> IsInt(buffer[i]))
      && IsInt(pointer)
    }

    /** The buffer as a machine that has printed nothing yet. */
    function State(): Machine
      reads this, buffer
    {
      Machine(buffer[..], pointer, [])
    }

    /** `make_buffer()`: every cell 0, the pointer 0. */
    constructor ()
      ensures Valid() && fresh(buffer) && State() == Fresh()
    {
      var cells := new int[MaxBufferSize];
      var i := 0;
      while i < MaxBufferSize
        invariant 0 <= i <= MaxBufferSize
        invariant forall j :: 0 <= j < i ==> cells[j] == 0
      {
        cells[i] := 0;
        i := i + 1;
      }
      assert cells[..] == Zeros();
      buffer := cells;
      pointer := 0;
    }

    /** `clear_buffer(&buffer)`: the pointer and every cell back to 0. */
    method Clear()
      requires Valid()
      modifies this`pointer, buffer
      ensures Valid() && State() == Fresh()
    {
      var i := 0;
      while i < MaxBufferSize
        invariant 0 <= i <= MaxBufferSize
        invariant forall j :: 0 <= j < i ==> buffer[j] == 0
      {
        buffer[i] := 0;
        i := i + 1;
      }
      pointer := 0;
      assert buffer[..] == Zeros();
    }

    /** `write(&buffer)`: the codes of cells `0..pointer`, each plus 64,
        then a newline; the buffer is not changed. */
    method Write() returns (printed: seq<int>)
      requires Valid() && CanWrite(buffer[..], pointer)
      ensures printed == Printed(buffer[..], pointer)
    {
      printed := [];
      var i := 0;
      while i < pointer + 1
        invariant 0 <= i <= (if pointer < 0 then 0 else pointer + 1)
        invariant printed == Codes(buffer[..], i)
      {
        assert Codes(buffer[..], i + 1) == Codes(buffer[..], i) + [buffer[i] + Offset];
        printed := printed + [buffer[i] + Offset];
        i := i + 1;
      }
      printed := printed + [NewlineCode];
    }

    /** `execute(&buffer, instructions)`, for a run C defines: the buffer
        and the printed codes are those of `Run`. */
    method Execute(instructions: string) returns (printed: seq<int>)
      requires Valid() && Run(State(), instructions) != Faulted
      modifies this`pointer, buffer
      ensures Valid()
      ensures Run(old(State()), instructions) == Machine(buffer[..], pointer, printed)
    {
      ghost var start := State();
      printed := [];
      var i := 0;
      while i < |instructions|
        invariant 0 <= i <= |instructions|
        invariant Valid()
        invariant Run(start, instructions[..i]) == Machine(buffer[..], pointer, printed)
      {
        PrefixDefined(start, instructions, i + 1);
        assert instructions[..i + 1][..i] == instructions[..i];
        StepOutput(buffer[..], pointer, printed, instructions[i]);
        var p := Apply(instructions[i]);
        printed := printed + p;
        i := i + 1;
      }
      assert instructions[..i] == instructions;
    }

    /** One turn of `execute`'s `switch`, returning what it prints. */
    method Apply(c: char) returns (printed: seq<int>)
      requires Valid() && Step(State(), c) != Faulted
      modifies this`pointer, buffer
      ensures Valid()
      ensures Step(old(State()), c) == Machine(buffer[..], pointer, printed)
    {
      printed := [];
      if c == '>' {
        pointer := pointer + 1;
      } else if c == '<' {
        pointer := pointer - 1;
      } else if c == '+' {
        buffer[pointer] := buffer[pointer] + 1;
      } else if c == '-' {
        buffer[pointer] := buffer[pointer] - 1;
      } else if c == '.' {
        printed := Write();
      } else if c == ',' {
        Clear();
      }
    }
  }
}
