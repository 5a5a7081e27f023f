/**
 * The `TuringMachine` class of BuK/TuringMachine.py: it holds the machine
 * read from a description, the current configuration and the head cell of
 * the linked tape, and runs the simulation loop in place. Each method is
 * proved to leave the object in the state the value model of module
 * TuringSpec prescribes.
 */
module Simulator {
  import opened Wrappers
  import opened TuringSpec
  import opened TransitionFile
  import opened Band

  class TuringMachine {
    const stateNum: int
    const inputAlphabet: string
    const tapeAlphabet: string
    const blankSymbol: Symbol
    const initialState: State
    const finalState: State
    const transitions: Transitions

    var configuration: Configuration
    /** The head cell; null until the first simulation builds a tape. */
    var band: Cell?

    /** The tape's cells from left to right, their symbols, and the index of the head cell. */
    ghost var cells: seq<Cell>
    ghost var symbols: seq<Symbol>
    ghost var head: nat

    ghost predicate Valid()
      reads this, cells
    {
      blankSymbol == Blank &&
      if band == null then cells == [] && symbols == [] && head == 0
      else Linked(cells) && Holds(cells, symbols) && head < |cells| && cells[head] == band
    }

    /** The machine the description defines. */
    function Spec(): Machine {
      Machine(stateNum, inputAlphabet, tapeAlphabet, initialState, finalState, transitions)
    }

    /** The tape as a value. */
    ghost function Tape(): TuringSpec.Tape
      reads this
    {
      TuringSpec.Tape(symbols, head)
    }

    constructor (stateNum: int, inputAlphabet: string, tapeAlphabet: string,
                 initialState: State, finalState: State, transitions: Transitions)
      ensures Valid() && band == null
      ensures Spec() == Machine(stateNum, inputAlphabet, tapeAlphabet, initialState, finalState, transitions)
      ensures configuration == Configuration(initialState, None)
    {
      this.stateNum := stateNum;
      this.inputAlphabet := inputAlphabet;
      this.tapeAlphabet := tapeAlphabet;
      this.blankSymbol := Blank;
      this.initialState := initialState;
      this.finalState := finalState;
      this.transitions := transitions;
      this.configuration := Configuration(initialState, None);
      this.band := null;
      this.cells, this.symbols, this.head := [], [], 0;
    }

    /**
     * `__init__` after the file is open: the number of states, the two
     * alphabet lines (stripped), the initial and final state as read from the
     * header, then the transition lines. A line that raises makes loading fail.
     */
    static method Load(stateNum: int, inputAlphabetLine: string, tapeAlphabetLine: string,
                       initialState: State, finalState: State, lines: seq<string>)
      returns (r: Result<TuringMachine, LineFailure>)
      ensures r.Failure? <==> ParseTransitions(lines).Failure?
      ensures r.Failure? ==> r.error == ParseTransitions(lines).error
      ensures r.Success? ==>
        fresh(r.value) && r.value.Valid() && r.value.band == null &&
        r.value.configuration == Configuration(initialState, None) &&
        r.value.Spec() == Machine(stateNum, Strip(inputAlphabetLine), Strip(tapeAlphabetLine),
                                  initialState, finalState, ParseTransitions(lines).value)
    {
      var transitions := ReadTransitions(lines);
      if transitions.Failure? {
        return Failure(transitions.error);
      }
      var m := new TuringMachine(stateNum, Strip(inputAlphabetLine), Strip(tapeAlphabetLine),
                                 initialState, finalState, transitions.value);
      return Success(m);
    }

    /**
     * `_init_band`: a fresh tape reading "B" + input + "B" with the head on
     * the cell after the leading blank; the configuration is left alone.
     */
    method InitBand(input: string)
      requires Valid()
      modifies this
      ensures Valid() && band != null
      ensures Tape() == InitTape(input)
      ensures configuration == old(configuration)
      ensures forall i :: 0 <= i < |cells| ==> fresh(cells[i])
    {
      var first, cs := BuildBand(input);
      assert first.next == cs[1] by {
        assert cs[0].next == if 0 == |cs| - 1 then null else cs[1];
      }
      band := first.next;
      cells, symbols, head := cs, InitTape(input).symbols, 1;
    }

    /**
     * The loop of `_init_band`: a leading blank cell, one cell per input
     * character appended behind the last one, and a trailing blank cell.
     */
    static method BuildBand(input: string) returns (first: Cell, ghost cs: seq<Cell>)
      ensures |cs| == |input| + 2 && cs[0] == first
      ensures Linked(cs) && Holds(cs, InitTape(input).symbols)
      ensures forall j :: 0 <= j < |cs| ==> fresh(cs[j])
    {
      first := new Cell(null, null, Blank);
      var temp := first;
      cs := [first];
      ghost var target := InitTape(input).symbols;
      for i := 0 to |input|
        invariant |cs| == i + 1 && cs[0] == first && cs[i] == temp && temp.next == null
        invariant Linked(cs) && Holds(cs, target[..i + 1])
        invariant forall j :: 0 <= j < |cs| ==> fresh(cs[j])
      {
        assert target[..i + 1] + [[input[i]]] == target[..i + 2];
        temp := Append(cs, target[..i + 1], temp, [input[i]]);
        cs := cs + [temp];
      }
      assert target[..|input| + 1] + [Blank] == target;
      var last := Append(cs, target[..|input| + 1], temp, Blank);
      cs := cs + [last];
    }

    /**
     * One cell of `_init_band`: a new cell holding the symbol, linked back to
     * the last cell of the chain (`Band(temp, None, symbol)`), becomes its
     * successor (`temp.next = cell`).
     */
    static method Append(ghost cs: seq<Cell>, ghost symbols: seq<Symbol>, last: Cell, symbol: Symbol)
      returns (c: Cell)
      requires |cs| >= 1 && Linked(cs) && Holds(cs, symbols) && last == cs[|cs| - 1]
      modifies last`next
      ensures fresh(c) && c.next == null
      ensures Linked(cs + [c]) && Holds(cs + [c], symbols + [symbol])
    {
      c := new Cell(last, null, symbol);
      last.next := c;
      forall i | 0 <= i < |cs| - 1
        ensures cs[i].next == cs[i + 1]
      {
        assert old(cs[i].next) == cs[i + 1];
      }
      LinkedSnoc(cs, c);
      HoldsSnoc(cs, symbols, c);
    }

    /**
     * One pass of the simulation loop once the rule is found: write its
     * symbol into the head cell, move left on Left and right on Right (a new
     * blank cell when the head walks off the tape), and take the next state
     * with the symbol under the new head as the configuration.
     */
    method ApplyRule(rule: Rule)
      requires Valid() && band != null
      modifies this, band
      ensures Valid() && band != null
      ensures Tape() == MoveHead(TuringSpec.Tape(old(symbols)[old(head) := rule.write], old(head)), rule.move)
      ensures configuration == Configuration(rule.next, Some(symbols[head]))
      ensures forall i :: 0 <= i < |cells| ==> cells[i] in old(cells) || fresh(cells[i])
    {
      Write(cells, symbols, head, band, rule.write);
      symbols := symbols[head := rule.write];
      if rule.move == Left {
        MoveBandLeft();
      } else if rule.move == Right {
        MoveBandRight();
      }
      var s := band.GetSymbol();
      configuration := Configuration(rule.next, Some(s));
    }

    /** `self.band = self.band.get_prev()`. */
    method MoveBandLeft()
      requires Valid() && band != null
      modifies this, band`prev
      ensures Valid() && band != null
      ensures Tape() == MoveHead(old(Tape()), Left)
      ensures configuration == old(configuration)
      ensures forall i :: 0 <= i < |cells| ==> cells[i] in old(cells) || fresh(cells[i])
    {
      var p;
      p, cells, symbols, head := MoveLeft(cells, symbols, head, band);
      band := p;
    }

    /** `self.band = self.band.get_next()`. */
    method MoveBandRight()
      requires Valid() && band != null
      modifies this, band`next
      ensures Valid() && band != null
      ensures Tape() == MoveHead(old(Tape()), Right)
      ensures configuration == old(configuration)
      ensures forall i :: 0 <= i < |cells| ==> cells[i] in old(cells) || fresh(cells[i])
    {
      var n;
      n, cells, symbols := MoveRight(cells, symbols, head, band);
      head := head + 1;
      band := n;
    }

    /**
     * `simulate(input)`, for at most `fuel` steps: build the tape, reject an
     * input with a character outside the input alphabet (ValueError) or an
     * empty one (the IndexError of input[0]), then apply transitions until the
     * final state, raising KeyError for a missing one; on halting, return
     * `band_str()`.
     */
    method Simulate(input: string, fuel: nat) returns (r: Result<string, SimError>)
      requires Valid()
      modifies this
      ensures Valid() && band != null
      ensures var sim := TuringSpec.Simulate(Spec(), old(configuration), input, fuel);
        r == sim.result && configuration == sim.config && Tape() == sim.tape
    {
      InitBand(input);
      for i := 0 to |input|
        invariant forall j :: 0 <= j < i ==> input[j] in inputAlphabet
      {
        if input[i] !in inputAlphabet {
          return Failure(InvalidInput);
        }
      }
      if input == [] {
        return Failure(EmptyInput);
      }
      configuration := Configuration(initialState, Some([input[0]]));
      InitTapeReads(input);
      var outcome := Execute(fuel);
      if outcome == OutOfFuel {
        return Failure(FuelExhausted);
      } else if outcome == Stuck {
        return Failure(NoTransition(configuration.state, configuration.symbol.value));
      }
      var s := BandStr();
      return Success(s);
    }

    /**
     * The `while` loop of `simulate`, for at most `fuel` steps: look up the
     * rule for the current configuration and apply it, until the final state.
     * It ends where the value model's run ends, in the same configuration and
     * on the same tape.
     */
    method Execute(fuel: nat) returns (outcome: Outcome)
      requires Valid() && band != null && configuration.symbol == Some(symbols[head])
      modifies this, cells
      ensures Valid() && band != null
      ensures var run := Run(Spec(), old(configuration.state), old(Tape()), fuel);
        outcome == run.outcome && Tape() == run.tape &&
        configuration == Configuration(run.state, Some(run.tape.Read()))
    {
      ghost var q0, t0 := configuration.state, Tape();
      var steps: nat := 0;
      while configuration.state != finalState
        invariant Valid() && band != null
        invariant steps <= fuel
        invariant configuration.symbol == Some(symbols[head])
        invariant Run(Spec(), configuration.state, Tape(), fuel - steps) == Run(Spec(), q0, t0, fuel)
        invariant forall i :: 0 <= i < |cells| ==> cells[i] in old(cells) || fresh(cells[i])
        decreases fuel - steps
      {
        if steps == fuel {
          return OutOfFuel;
        }
        var key := (configuration.state, configuration.symbol.value);
        ghost var t := Tape();
        assert t.Read() == key.1;
        if key !in transitions {
          return Stuck;
        }
        var rule := transitions[key];
        assert Step(transitions, key.0, t) ==
          Some((rule.next, MoveHead(TuringSpec.Tape(t.symbols[t.head := rule.write], t.head), rule.move)));
        ApplyRule(rule);
        steps := steps + 1;
      }
      return Halted;
    }

    /**
     * `band_str`: "..." + every symbol from the left end to the right end +
     * "...", with "[state]" just before the head cell.
     */
    method BandStr() returns (s: string)
      requires Valid() && band != null
      ensures s == TuringSpec.BandStr(configuration.state, Tape())
    {
      var temp: Cell := band;
      var index := 0;
      ghost var k := head;
      while temp.prev != null
        invariant 0 <= k < |cells| && temp == cells[k] && index == head - k
        decreases k
      {
        LinksAt(cells, k);
        index := index + 1;
        temp := temp.prev;
        k := k - 1;
      }
      LinksAt(cells, k);
      var body := MarkedSymbols(cells, symbols, head, temp, index, configuration.state);
      s := "..." + body + "...";
    }

    /**
     * The second loop of `band_str`: from the left end cell, every symbol up
     * to the right end, with "[state]" in front of the cell `index` places to
     * the right of the start.
     */
    static method MarkedSymbols(ghost cells: seq<Cell>, ghost symbols: seq<Symbol>, ghost head: nat,
                                first: Cell, index: int, state: State) returns (s: string)
      requires Linked(cells) && Holds(cells, symbols) && head < |cells| && cells[0] == first && index == head
      ensures s == Concat(symbols[..head]) + Marker(state) + Concat(symbols[head..])
    {
      var temp: Cell? := first;
      var i := index;
      ghost var k := 0;
      ghost var left := Concat(symbols[..head]) + Marker(state);
      s := "";
      while temp != null
        invariant 0 <= k <= |cells| && temp == (if k < |cells| then cells[k] else null) && i == head - k
        invariant k <= head ==> s == Concat(symbols[..k])
        invariant head < k ==> s == left + Concat(symbols[head..k])
        decreases |cells| - k
      {
        LinksAt(cells, k);
        if i == 0 {
          s := s + "[" + Decimal.NatToString(state) + "]";
          assert s == left;
        }
        assert temp.symbol == symbols[k];
        s := s + temp.symbol;
        if k < head {
          ConcatExtend(symbols[..k + 1], 0, k + 1);
          assert symbols[..k + 1][0..k + 1] == symbols[..k + 1] && symbols[..k + 1][0..k] == symbols[..k];
        } else {
          ConcatExtend(symbols, head, k + 1);
          if k == head {
            assert symbols[head..k] == [];
          }
          assert s == left + Concat(symbols[head..k + 1]);
        }
        temp := temp.next;
        i := i - 1;
        k := k + 1;
      }
      assert symbols[head..k] == symbols[head..];
    }

    /** `output`: the symbols from the head cell to the right end of the tape. */
    method Output() returns (s: string)
      requires Valid() && band != null
      ensures s == TuringSpec.Output(Tape())
    {
      s := "";
      var temp: Cell? := band;
      ghost var k := head;
      while temp != null
        invariant head <= k <= |cells| && temp == (if k < |cells| then cells[k] else null)
        invariant s == Concat(symbols[head..k])
        decreases |cells| - k
      {
        LinksAt(cells, k);
        assert symbols[head..k + 1][..k - head] == symbols[head..k];
        s := s + temp.symbol;
        temp := temp.next;
        k := k + 1;
      }
      assert symbols[head..k] == symbols[head..];
    }

    /** `Band.__str__` called on the head cell: the whole tape. */
    method BandString() returns (s: string)
      requires Valid() && band != null
      ensures s == TuringSpec.BandString(Tape())
    {
      s := band.ToString(cells, symbols, head);
    }
  }
}
