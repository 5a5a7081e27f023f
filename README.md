# A verified model of the BuK Turing machine simulator

BuK/TuringMachine.py simulates a single-tape deterministic Turing machine.

- **The tape (`Band`)** is a doubly linked list of cells. It grows by a blank `'B'` cell whenever the head asks for a neighbour that is not there yet.
- **The machine (`TuringMachine`)** reads its description from a file: the number of states, the input alphabet, the tape alphabet, the initial state, the final state, then transition lines `q a p b D`. Lines starting with `#` are comments.
- **Simulation:** `simulate(input)` builds the tape `B input B`, checks the input against the input alphabet, and applies transitions until the final state. It then returns the tape rendered by `band_str`. `output` renders the tape from the head cell to the right end.

The project keeps the imperative shape of the source:

- `Band` becomes the class `Band.Cell`, whose methods update `prev`, `next` and `symbol` in place.
- `TuringMachine` becomes the class `Simulator.TuringMachine`, whose `band` field points into a chain of cells. Ghost fields record the chain (`cells`), its symbols and the head's index. Every method is proved against the value model in module `TuringSpec`: a tape as a sequence of symbols with a head index, one step, a fuel-bounded run, the whole simulation with its exceptions, and the two renderings.
- Reading the transition section (`TransitionFile`) models Python's `str.strip`, `str.split(' ')`, `int` on decimal digits, and the order in which the assignment `transitions[(int(f[0]), f[1])] = (int(f[2]), f[3], f[4])` raises.

Files:

- `wrappers.dfy`: Option and Result.
- `decimal.dfy`: `int()` on decimal digits and `str()` of a state.
- `turing_spec.dfy`: the value model and its properties.
- `transition_file.dfy`: the transition lines.
- `band.dfy`: the tape cells and chain lemmas.
- `simulator.dfy`: the `TuringMachine` class.

Python's exceptions are values. A transition line yields `LineError` (`IndexError` or `ValueError`). `simulate` yields `SimError`: `InvalidInput` is the `ValueError`, `EmptyInput` the `IndexError` of `input[0]`, and `NoTransition` the `KeyError` of a missing configuration.

## Model

| member | source | states |
|---|---|---|
| Band.Cell.constructor | BuK/TuringMachine.py:15-18 | a new cell holds the given neighbours and symbol |
| Band.Cell.GetNext | BuK/TuringMachine.py:30-33 | an existing right neighbour is returned unchanged; a missing one becomes a fresh blank cell linked back to this one; only this cell's `next` field changes |
| Band.Cell.GetPrev | BuK/TuringMachine.py:35-38 | an existing left neighbour is returned unchanged; a missing one becomes a fresh blank cell linked forward to this one; only this cell's `prev` field changes |
| Band.Cell.GetSymbol | BuK/TuringMachine.py:40-41 | returns the cell's symbol and changes nothing |
| Band.Cell.SetSymbol | BuK/TuringMachine.py:43-44 | only this cell's symbol changes, to the given one |
| Band.Cell.ToString | BuK/TuringMachine.py:20-28 | called on any cell of a chain, returns the concatenation of all the chain's symbols from the left end to the right end |
| Band.Write | BuK/TuringMachine.py:96 | writing into the head cell keeps the chain linked and changes exactly the symbol at the head's index |
| Band.MoveLeft | BuK/TuringMachine.py:97-98 | `get_prev` on the cell at index h: the chain stays linked; when h is 0 a blank cell is prepended and becomes the head, otherwise the head index drops by one |
| Band.MoveRight | BuK/TuringMachine.py:99-100 | `get_next` on the cell at index h: the chain stays linked; when h is last a blank cell is appended, and the head is the cell at h + 1 |
| Band.LinkedSnoc | BuK/TuringMachine.py:79-81 | linking a new cell behind the last cell of a chain gives a chain |
| Band.LinkedCons | BuK/TuringMachine.py:37 | linking a new cell in front of the first cell of a chain gives a chain |
| Decimal.ParseNat | BuK/TuringMachine.py:70 | `int()` succeeds exactly on non-empty strings of decimal digits |
| Decimal.NatToString | BuK/TuringMachine.py:114 | `str(state)` is a non-empty digit string that starts with `0` only when it is `"0"`, so together with `int(str(n)) == n` it is the one decimal spelling of the state |
| Decimal.ParseNatToString | BuK/TuringMachine.py:70 | `int(str(n)) == n` for every state n |
| TransitionFile.SkipLeft | BuK/TuringMachine.py:69 | the index of the first non-whitespace character; everything before it is whitespace |
| TransitionFile.SkipRight | BuK/TuringMachine.py:69 | the end of a slice with its trailing whitespace dropped; everything after it is whitespace |
| TransitionFile.Strip | BuK/TuringMachine.py:69 | `strip()` gives the slice of its input left after cutting whitespace only, from both ends; the slice neither starts nor ends with whitespace |
| TransitionFile.StripIdempotent | BuK/TuringMachine.py:69 | stripping twice is stripping once |
| TransitionFile.Split | BuK/TuringMachine.py:69 | `split(' ')` yields at least one piece, and no piece contains the separator |
| TransitionFile.JoinSplit | BuK/TuringMachine.py:69 | joining the pieces of a split with the separator gives back the string |
| TransitionFile.SplitJoin | BuK/TuringMachine.py:69 | splitting a join of separator-free pieces gives back the pieces, empty ones included |
| TransitionFile.ParseLine | BuK/TuringMachine.py:67-70 | an empty line raises IndexError at `line[0]`; a line adds nothing and raises nothing exactly when it starts with `#`; a stored entry has at least five fields, with fields 0 and 2 read as numbers and field 4 as the move; on any other line, ValueError exactly when there are at least three fields and field 2, or with five fields field 0, is not a number, and IndexError exactly when there are fewer than three fields, or fewer than five with a numeric field 2 |
| TransitionFile.BadTargetBeforeShortLine | BuK/TuringMachine.py:70 | `1 a x` raises ValueError, not IndexError, because `int(line[2])` is evaluated first |
| TransitionFile.ShortLineIndexError | BuK/TuringMachine.py:70 | `1 a 2 b` raises IndexError at `line[4]` |
| TransitionFile.BadSourceValueError | BuK/TuringMachine.py:70 | `x a 2 b R` raises ValueError at `int(line[0])` |
| TransitionFile.ParseFormatLine | BuK/TuringMachine.py:69-70 | a line written as `q a p b D` plus newline is read back as `(q, a) -> (p, b, D)` |
| TransitionFile.Collect | BuK/TuringMachine.py:66-70 | a failure names one of the lines |
| TransitionFile.FailureSticks | BuK/TuringMachine.py:66-70 | once a prefix of the lines raises, the whole reading raises the same way |
| TransitionFile.CollectSucceeds | BuK/TuringMachine.py:66-70 | reading succeeds if and only if no line raises |
| TransitionFile.FirstBadLineFails | BuK/TuringMachine.py:66-70 | reading fails at the first line that raises, with that line's exception |
| TransitionFile.FailureIsFirstBadLine | BuK/TuringMachine.py:66-70 | a failure names a line that raises, and every earlier line was read without raising |
| TransitionFile.UndefinedKeyAbsent | BuK/TuringMachine.py:70 | a key that no line defines has no transition |
| TransitionFile.LastLineWins | BuK/TuringMachine.py:70 | a key gets the rule of the last line that defines it; later lines overwrite earlier ones |
| TransitionFile.ReadTransitions | BuK/TuringMachine.py:65-70 | the loop over the lines computes exactly the table, or the first failing line, that reading defines |
| TuringSpec.MoveOf | BuK/TuringMachine.py:97-100 | the move token moves left if and only if it is `'L'`, right if and only if it is `'R'`, and otherwise stays |
| TuringSpec.InputCells | BuK/TuringMachine.py:78-80 | one cell per input character, in order, and together the cells read back as the input |
| TuringSpec.ConcatAppend | BuK/TuringMachine.py:20-28 | reading two stretches of tape in a row reads their concatenation |
| TuringSpec.InitTapeReads | BuK/TuringMachine.py:75-82 | after `_init_band(input)` the tape reads `'B' + input + 'B'`, and the head is on the first input symbol, or on the trailing blank when the input is empty |
| TuringSpec.MoveHead | BuK/TuringMachine.py:97-100 | moving keeps the head on the tape, and the tape grows by at most one cell |
| TuringSpec.MoveHeadEffect | BuK/TuringMachine.py:97-100 | moving keeps every old cell, shifted right by one only when a blank is prepended; a blank is added only at the end the head walked off; the head moves left on L, right on R, and not at all otherwise |
| TuringSpec.Step | BuK/TuringMachine.py:95-101 | a step fails (KeyError) if and only if the configuration has no transition; otherwise the next state is the rule's |
| TuringSpec.StepEffect | BuK/TuringMachine.py:95-101 | a step writes the rule's symbol into the head cell, changes no other cell, grows the tape by at most one blank cell (in front on L, at the end on R), and moves the head as the move token says |
| TuringSpec.Run | BuK/TuringMachine.py:93-101 | a run halts if and only if it ends in the final state; it gets stuck only on a missing transition; the tape never shrinks |
| TuringSpec.RunMoreFuel | BuK/TuringMachine.py:93-101 | a run that halted or got stuck ends the same with more fuel |
| TuringSpec.RunFromFinal | BuK/TuringMachine.py:93 | starting in the final state, no transition is applied |
| TuringSpec.Simulate | BuK/TuringMachine.py:87-103 | a returned string means the machine is in the final state |
| TuringSpec.SimulateChecksInput | BuK/TuringMachine.py:88-92 | ValueError if and only if some input character is outside the input alphabet; IndexError if and only if the valid input is empty; both happen before any transition, leaving the old configuration and the initial tape |
| TuringSpec.SimulateInitialFinal | BuK/TuringMachine.py:92-103 | when the initial state is final, no transition is applied and the initial tape is rendered |
| TuringSpec.SimulateStuck | BuK/TuringMachine.py:93-95 | a KeyError is raised only in a non-final state whose configuration has no transition, and it names that configuration |
| TuringSpec.BandStrStripped | BuK/TuringMachine.py:105-118 | `band_str` opens and closes with `...` and has `[state]` right after the cells left of the head; with the dots and the marker cut out it is `Band.__str__`; after the marker come `output` and the closing dots |
| TuringSpec.OutputIsSuffix | BuK/TuringMachine.py:120-126 | the whole tape is the cells left of the head followed by `output`, so `output` omits exactly those cells |
| TuringSpec.ConcatExtend | BuK/TuringMachine.py:112-117 | one more cell at the right adds its symbol at the end of the rendering |
| Simulator.TuringMachine.constructor | BuK/TuringMachine.py:53-72 | a loaded machine has the description's values and configuration `(initial, None)`, and no tape yet |
| Simulator.TuringMachine.Load | BuK/TuringMachine.py:53-72 | loading fails if and only if a transition line raises, and with that line's failure; otherwise the machine has the stripped alphabets and the table that reading defines |
| Simulator.TuringMachine.InitBand | BuK/TuringMachine.py:75-82 | `_init_band` leaves the tape `InitTape(input)` in fresh cells, with the configuration untouched |
| Simulator.TuringMachine.BuildBand | BuK/TuringMachine.py:76-81 | the loop builds a linked chain of fresh cells holding `B`, the input characters and `B` |
| Simulator.TuringMachine.Append | BuK/TuringMachine.py:79-81 | a fresh cell linked behind the last one extends the chain by its symbol |
| Simulator.TuringMachine.ApplyRule | BuK/TuringMachine.py:96-101 | the tape becomes the written-then-moved tape, and the configuration becomes the rule's next state with the symbol under the new head |
| Simulator.TuringMachine.MoveBandLeft | BuK/TuringMachine.py:97-98 | the tape moves its head left, exactly as `MoveHead` does |
| Simulator.TuringMachine.MoveBandRight | BuK/TuringMachine.py:99-100 | the tape moves its head right, exactly as `MoveHead` does |
| Simulator.TuringMachine.Execute | BuK/TuringMachine.py:93-101 | the loop ends where the fuel-bounded run ends, in the same configuration and on the same tape |
| Simulator.TuringMachine.Simulate | BuK/TuringMachine.py:87-103 | `simulate` returns or raises what the value model's simulation does, and leaves its configuration and its tape |
| Simulator.TuringMachine.BandStr | BuK/TuringMachine.py:105-118 | the two walks along the links return exactly `TuringSpec.BandStr` of the current state and tape |
| Simulator.TuringMachine.MarkedSymbols | BuK/TuringMachine.py:112-117 | from the left end, every symbol to the right end, with `[state]` before the head cell |
| Simulator.TuringMachine.Output | BuK/TuringMachine.py:120-126 | the walk along the links returns the symbols from the head cell to the right end |
| Simulator.TuringMachine.BandString | BuK/TuringMachine.py:20-28 | `str(self.band)` is the whole tape |

## Left out

- Opening the file and its `FileNotFoundError` (BuK/TuringMachine.py:49-51) are not modelled: `Load` takes the header values and the transition lines as already read.
- The header lines (BuK/TuringMachine.py:53, 61, 63) are taken as already converted by `int`. Their conversion errors and negative states are not modelled; states are natural numbers.
- Decimal.ParseNat: `int` on a transition line accepts only non-empty ASCII decimal digits. Python also accepts a sign, underscores between digits, surrounding whitespace and non-ASCII digits; such lines are `ValueError` in the model.
- The `print` calls of `simulate` (BuK/TuringMachine.py:94, 102) are console output only.
- `Transitions.__str__` and `TuringMachine.__str__` (BuK/TuringMachine.py:7-11, 84-85) depend on Python's `repr` of tuples and are not modelled.
- Simulator.TuringMachine.Simulate: it takes a step bound `fuel` and reports `FuelExhausted` when it is used up. The source loops forever on a machine that never halts, and that case is not modelled.
- Simulator.TuringMachine.BandStr: it requires a tape. Before the first `simulate` the source raises `AttributeError`, because `band` does not exist yet; that error is not modelled.
- Simulator.TuringMachine.Output: it requires a tape. Before the first `simulate` the source raises `AttributeError`, because `band` does not exist yet; that error is not modelled.
- Simulator.TuringMachine.BandString: it requires a tape. `str(self.band)` before the first `simulate` raises `AttributeError`, because `band` does not exist yet; that error is not modelled.
- The move token is classified as Left, Right or Stay when the line is read, instead of being compared with `'L'` and `'R'` at each step. `MoveOf` states that the two give the same moves.
- `state_num` and `tape_alphabet` are kept but never used, as in the source.
