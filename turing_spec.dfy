/**
 * The single-tape deterministic Turing machine of BuK/TuringMachine.py as
 * values: the tape as a sequence of cell symbols with the index of the head
 * cell, one step of the machine, a fuel-bounded run, the whole simulation
 * with its error cases, and the two renderings of the tape. The imperative
 * simulator in module Simulator is proved to compute exactly these values.
 */
module TuringSpec {
  import opened Wrappers
  import opened Decimal

  type State = nat

  /** A tape symbol: a Python string (an input character, or a token of a transition line). */
  type Symbol = string

  /** What the move token of a transition does: "L" and "R" move the head, any other token keeps it. */
  datatype Move = Left | Right | Stay

  /** The two comparisons of the simulation loop against 'L' and 'R', applied to a move token. */
  function MoveOf(token: string): (d: Move)
    ensures d == Left <==> token == "L"
    ensures d == Right <==> token == "R"
  {
    if token == "L" then Left else if token == "R" then Right else Stay
  }

  /** The symbol of every cell the tape grows by. */
  const Blank: Symbol := "B"

  /** The right-hand side of a transition: next state, written symbol, move. */
  datatype Rule = Rule(next: State, write: Symbol, move: Move)

  type Transitions = map<(State, Symbol), Rule>

  /** What the description file defines. */
  datatype Machine = Machine(
    stateNum: int,
    inputAlphabet: string,
    tapeAlphabet: string,
    initial: State,
    final: State,
    transitions: Transitions)

  /** The machine's `configuration` tuple; the symbol is None before the first simulation. */
  datatype Configuration = Configuration(state: State, symbol: Option<Symbol>)

  /** The whole tape from left to right and the position of the head cell in it. */
  datatype Tape = Tape(symbols: seq<Symbol>, head: nat) {
    predicate Valid() {
      head < |symbols|
    }

    function Read(): Symbol
      requires Valid()
    {
      symbols[head]
    }
  }

  /** The symbols of a tape glued together from left to right. */
  function Concat(ss: seq<Symbol>): string {
    if ss == [] then "" else Concat(ss[..|ss| - 1]) + ss[|ss| - 1]
  }

  /** One more symbol at the right end of a slice adds it at the end of the concatenation. */
  lemma ConcatExtend(ss: seq<Symbol>, lo: nat, hi: nat)
    requires lo < hi <= |ss|
    ensures Concat(ss[lo..hi]) == Concat(ss[lo..hi - 1]) + ss[hi - 1]
  {
    assert ss[lo..hi][..hi - 1 - lo] == ss[lo..hi - 1];
  }

  lemma {:induction false} ConcatAppend(a: seq<Symbol>, b: seq<Symbol>)
    ensures Concat(a + b) == Concat(a) + Concat(b)
    decreases |b|
  {
    if b != [] {
      assert (a + b)[..|a + b| - 1] == a + b[..|b| - 1];
      ConcatAppend(a, b[..|b| - 1]);
    } else {
      assert a + b == a;
    }
  }

  /**
   * The cells `_init_band` makes for the input, one per character in input
   * order: each holds its character, and together they read back as the input.
   */
  function InputCells(input: string): (r: seq<Symbol>)
    ensures |r| == |input|
    ensures forall i :: 0 <= i < |input| ==> r[i] == [input[i]]
    ensures Concat(r) == input
    decreases |input|
  {
    if input == [] then []
    else
      var n := |input| - 1;
      var r := InputCells(input[..n]) + [[input[n]]];
      assert r[..n] == InputCells(input[..n]);
      assert input[..n] + [input[n]] == input;
      r
  }

  /** The tape `_init_band` builds: a blank, one cell per input character, a blank; the head on cell 1. */
  function InitTape(input: string): Tape {
    Tape([Blank] + InputCells(input) + [Blank], 1)
  }

  /**
   * After initialisation the tape reads "B" + input + "B", and the head is on
   * the first input symbol, or on the trailing blank when the input is empty.
   */
  lemma InitTapeReads(input: string)
    ensures InitTape(input).Valid()
    ensures Concat(InitTape(input).symbols) == "B" + input + "B"
    ensures InitTape(input).Read() == if input == [] then Blank else [input[0]]
  {
    ConcatAppend([Blank] + InputCells(input), [Blank]);
    ConcatAppend([Blank], InputCells(input));
    assert Concat([Blank]) == Blank by {
      assert [Blank][..0] == [];
    }
  }

  /** 1 when moving left off the left end prepends a blank (every old cell shifts right by one), else 0. */
  function Shift(t: Tape, move: Move): nat {
    if move == Left && t.head == 0 then 1 else 0
  }

  /** The head movement of one step, growing the tape by a blank when the head walks off an end. */
  function MoveHead(t: Tape, move: Move): (r: Tape)
    requires t.Valid()
    ensures r.Valid()
    ensures |r.symbols| == |t.symbols| + (if r.symbols == t.symbols then 0 else 1)
  {
    if move == Left then
      if t.head == 0 then Tape([Blank] + t.symbols, 0) else Tape(t.symbols, t.head - 1)
    else if move == Right then
      if t.head == |t.symbols| - 1 then Tape(t.symbols + [Blank], t.head + 1)
      else Tape(t.symbols, t.head + 1)
    else t
  }

  /**
   * Moving keeps every old cell (shifted right by one when a blank was put in
   * front), adds at most one blank and only at the end the head walked off,
   * and moves the head left on Left, right on Right and not at all otherwise.
   */
  lemma MoveHeadEffect(t: Tape, move: Move)
    requires t.Valid()
    ensures var r := MoveHead(t, move);
      var shift := Shift(t, move);
      |t.symbols| + shift <= |r.symbols| <= |t.symbols| + 1 &&
      (forall i :: 0 <= i < |t.symbols| ==> r.symbols[i + shift] == t.symbols[i]) &&
      (|r.symbols| == |t.symbols| + 1 ==>
         (move == Left && t.head == 0 && r.symbols[0] == Blank) ||
         (move == Right && t.head == |t.symbols| - 1 && r.symbols[|t.symbols|] == Blank)) &&
      (move == Left ==> r.head + 1 == t.head + shift) &&
      (move == Right ==> r.head == t.head + 1) &&
      (move == Stay ==> r == t)
  {
    var r := MoveHead(t, move);
    if move == Left && t.head == 0 {
      assert r.symbols == [Blank] + t.symbols;
    } else if move == Right && t.head == |t.symbols| - 1 {
      assert r.symbols == t.symbols + [Blank];
    } else {
      assert r.symbols == t.symbols;
    }
  }

  /**
   * One pass of the simulation loop: look the configuration up (None is the
   * KeyError of a missing entry), write the rule's symbol into the head cell,
   * then move.
   */
  function Step(transitions: Transitions, q: State, t: Tape): (r: Option<(State, Tape)>)
    requires t.Valid()
    ensures r.None? <==> (q, t.Read()) !in transitions
    ensures r.Some? ==> r.value.0 == transitions[(q, t.Read())].next && r.value.1.Valid()
  {
    if (q, t.Read()) !in transitions then None
    else
      var rule := transitions[(q, t.Read())];
      Some((rule.next, MoveHead(Tape(t.symbols[t.head := rule.write], t.head), rule.move)))
  }

  /**
   * A step writes the rule's symbol into the head cell, changes no other
   * cell (up to the shift of a blank put in front), and grows the tape by at
   * most one blank cell, in front on Left and at the end on Right.
   */
  lemma StepEffect(transitions: Transitions, q: State, t: Tape)
    requires t.Valid() && (q, t.Read()) in transitions
    ensures var rule := transitions[(q, t.Read())];
      var shift := Shift(t, rule.move);
      var t' := Step(transitions, q, t).value.1;
      |t.symbols| + shift <= |t'.symbols| <= |t.symbols| + 1 &&
      (|t'.symbols| == |t.symbols| + 1 ==>
         (rule.move == Left && shift == 1 && t'.symbols[0] == Blank) ||
         (rule.move == Right && t'.symbols[|t.symbols|] == Blank)) &&
      t'.symbols[t.head + shift] == rule.write &&
      (forall i :: 0 <= i < |t.symbols| && i != t.head ==> t'.symbols[i + shift] == t.symbols[i]) &&
      (rule.move == Left ==> t'.head + 1 == t.head + shift) &&
      (rule.move == Right ==> t'.head == t.head + 1) &&
      (rule.move == Stay ==> t'.head == t.head)
  {
    var rule := transitions[(q, t.Read())];
    var w := t.symbols[t.head := rule.write];
    var t' := Step(transitions, q, t).value.1;
    assert t' == MoveHead(Tape(w, t.head), rule.move);
    if rule.move == Left && t.head == 0 {
      assert t'.symbols == [Blank] + w;
    } else if rule.move == Right && t.head == |t.symbols| - 1 {
      assert t'.symbols == w + [Blank];
    } else {
      assert t'.symbols == w;
    }
  }

  datatype Outcome = Halted | Stuck | OutOfFuel

  /** Where a run ends: how, in which state, with which tape. */
  datatype RunResult = RunResult(outcome: Outcome, state: State, tape: Tape)

  /**
   * The simulation loop, run for at most `fuel` steps: it stops exactly when
   * the state is the final state, and gets Stuck when no transition applies.
   */
  function Run(m: Machine, q: State, t: Tape, fuel: nat): (r: RunResult)
    requires t.Valid()
    ensures r.tape.Valid()
    ensures r.outcome == Halted <==> r.state == m.final
    ensures r.outcome == Stuck ==> (r.state, r.tape.Read()) !in m.transitions
    ensures |t.symbols| <= |r.tape.symbols|
    decreases fuel
  {
    if q == m.final then RunResult(Halted, q, t)
    else if fuel == 0 then RunResult(OutOfFuel, q, t)
    else
      var s := Step(m.transitions, q, t);
      if s.None? then RunResult(Stuck, q, t) else Run(m, s.value.0, s.value.1, fuel - 1)
  }

  /** More fuel changes nothing once a run has ended without running out. */
  lemma {:induction false} RunMoreFuel(m: Machine, q: State, t: Tape, fuel: nat, more: nat)
    requires t.Valid() && fuel <= more
    requires Run(m, q, t, fuel).outcome != OutOfFuel
    ensures Run(m, q, t, more) == Run(m, q, t, fuel)
    decreases fuel
  {
    if q != m.final && fuel > 0 {
      var s := Step(m.transitions, q, t);
      if s.Some? {
        RunMoreFuel(m, s.value.0, s.value.1, fuel - 1, more - 1);
      }
    }
  }

  /** A run that starts in the final state applies no transition, whatever the fuel. */
  lemma {:induction false} RunFromFinal(m: Machine, t: Tape, fuel: nat)
    requires t.Valid()
    ensures Run(m, m.final, t, fuel) == RunResult(Halted, m.final, t)
  {
  }

  /** Every character of the input is in the input alphabet. */
  predicate InAlphabet(input: string, alphabet: string) {
    forall i :: 0 <= i < |input| ==> input[i] in alphabet
  }

  datatype SimError =
    | InvalidInput                               // ValueError("Invalid input")
    | EmptyInput                                 // IndexError of input[0]
    | NoTransition(state: State, symbol: Symbol) // KeyError of the configuration
    | FuelExhausted                              // the bound of this model, not of the source

  /** What `simulate` returns or raises, and the configuration and tape it leaves behind. */
  datatype SimResult = SimResult(result: Result<string, SimError>, config: Configuration, tape: Tape)

  /**
   * `simulate(input)`, given the configuration before the call: build the
   * tape, reject the input, then run from the initial state and render the
   * tape on halting.
   */
  function Simulate(m: Machine, before: Configuration, input: string, fuel: nat): (r: SimResult)
    ensures r.tape.Valid()
    ensures r.result.Success? ==> r.config.state == m.final
  {
    var t := InitTape(input);
    if !InAlphabet(input, m.inputAlphabet) then SimResult(Failure(InvalidInput), before, t)
    else if input == [] then SimResult(Failure(EmptyInput), before, t)
    else
      var run := Run(m, m.initial, t, fuel);
      var config := Configuration(run.state, Some(run.tape.Read()));
      match run.outcome
      case Halted => SimResult(Success(BandStr(run.state, run.tape)), config, run.tape)
      case Stuck => SimResult(Failure(NoTransition(run.state, run.tape.Read())), config, run.tape)
      case OutOfFuel => SimResult(Failure(FuelExhausted), config, run.tape)
  }

  /**
   * The input check comes before any transition: an input with a character
   * outside the input alphabet raises ValueError, leaves the configuration
   * as it was and the tape as initialised; an empty valid input raises the
   * IndexError of input[0]; other inputs get past both checks.
   */
  lemma SimulateChecksInput(m: Machine, before: Configuration, input: string, fuel: nat)
    ensures var r := Simulate(m, before, input, fuel);
      (r.result == Failure(InvalidInput) <==> exists i :: 0 <= i < |input| && input[i] !in m.inputAlphabet) &&
      (r.result == Failure(EmptyInput) <==> input == []) &&
      (r.result.Failure? && r.result.error in {InvalidInput, EmptyInput} ==>
         r.config == before && r.tape == InitTape(input))
  {
  }

  /** A machine whose initial state is final halts on a valid input with the tape as initialised. */
  lemma SimulateInitialFinal(m: Machine, before: Configuration, input: string, fuel: nat)
    requires m.initial == m.final && InAlphabet(input, m.inputAlphabet) && input != []
    ensures Simulate(m, before, input, fuel) ==
      SimResult(Success(BandStr(m.final, InitTape(input))),
                Configuration(m.final, Some([input[0]])), InitTape(input))
  {
    InitTapeReads(input);
    RunFromFinal(m, InitTape(input), fuel);
  }

  /** A missing (state, symbol) entry is what makes the simulation raise KeyError, and it is the configuration's. */
  lemma SimulateStuck(m: Machine, before: Configuration, input: string, fuel: nat, q: State, a: Symbol)
    requires Simulate(m, before, input, fuel).result == Failure(NoTransition(q, a))
    ensures (q, a) !in m.transitions && q != m.final
    ensures Simulate(m, before, input, fuel).config == Configuration(q, Some(a))
  {
  }

  /** The state marker `band_str` puts before the head cell. */
  function Marker(q: State): string {
    "[" + NatToString(q) + "]"
  }

  /** `Band.__str__`: every cell's symbol from the left end to the right end. */
  function BandString(t: Tape): string {
    Concat(t.symbols)
  }

  /** `band_str`: the whole tape between "..." and "...", with the state marker just before the head cell. */
  function BandStr(q: State, t: Tape): string
    requires t.Valid()
  {
    "..." + Concat(t.symbols[..t.head]) + Marker(q) + Concat(t.symbols[t.head..]) + "..."
  }

  /** `output`: the symbols from the head cell to the right end. */
  function Output(t: Tape): string
    requires t.Valid()
  {
    Concat(t.symbols[t.head..])
  }

  /**
   * `band_str` with its dots and its state marker cut out is `Band.__str__`;
   * the marker sits where the cells left of the head end, and what follows
   * it is `output` and the closing dots.
   */
  lemma BandStrStripped(q: State, t: Tape)
    requires t.Valid()
    ensures var s := BandStr(q, t);
      var k := |Concat(t.symbols[..t.head])|;
      var n := |Marker(q)|;
      3 + k + n + 3 <= |s| &&
      s[..3] == "..." && s[|s| - 3..] == "..." &&
      s[3 + k..3 + k + n] == Marker(q) &&
      s[3..3 + k] + s[3 + k + n..|s| - 3] == BandString(t) &&
      s[3 + k + n..] == Output(t) + "..."
  {
    var s := BandStr(q, t);
    var left, right := Concat(t.symbols[..t.head]), Concat(t.symbols[t.head..]);
    assert t.symbols[..t.head] + t.symbols[t.head..] == t.symbols;
    ConcatAppend(t.symbols[..t.head], t.symbols[t.head..]);
    var k, n := |left|, |Marker(q)|;
    assert s == "..." + left + Marker(q) + right + "...";
    assert s[3..3 + k] == left;
    assert s[3 + k + n..|s| - 3] == right;
  }

  /** `output` drops exactly the cells left of the head: the tape is those cells followed by the output. */
  lemma OutputIsSuffix(t: Tape)
    requires t.Valid()
    ensures BandString(t) == Concat(t.symbols[..t.head]) + Output(t)
    ensures |Output(t)| <= |BandString(t)|
  {
    assert t.symbols[..t.head] + t.symbols[t.head..] == t.symbols;
    ConcatAppend(t.symbols[..t.head], t.symbols[t.head..]);
  }
}
