# busy-beaver-machine in Dafny

A model of bb_machine, a small Turing-machine interpreter written in Rust, with
proofs about it. It has four parts, each in its own module:

- `Machine` (machine.dfy) is the generic engine of `src/lib.rs`. It is a class
  with the fields `steps`, `head`, `tape` and `currentState`, and it is driven
  by a user rule. Each `Step` pads the tape, so the head stands on a real cell
  with a real cell to its left:
  - a blank is put in front when the head is on cell 0, and the head follows it;
  - a blank is appended when the head is one past the end.

  `Step` then calls the rule once and counts the step. `Run` steps until the
  state is a halting one. Both methods are proved against the value-level
  functions `Pad`, `Next` and `Iterate`.
- `TableDriven` (table_driven.dfy) is the self-contained machine of
  `src/main.rs`. Its step pads the tape in the same way, then looks up
  (state, symbol) in a four-entry table. It then:
  - writes the entry's symbol at the pre-move head;
  - moves one cell;
  - enters the entry's state.

  A missing entry (reached only in state Halt) is where the Rust `unwrap`
  panics. From an empty tape the machine halts after exactly 6 steps, with
  the tape `0 1 0 1 1`. The model proves this for the machine's own `Run`.
- `TwoStateTwoColor` (two_state_two_color.dfy) is the example
  `examples/2-state-2-color.rs`. Its transition closure is `Rule`, which is
  plugged into the generic engine. The module proves two things:
  - on every padded context the rule does what the table of `src/main.rs`
    prescribes, so both machines go through the same contexts;
  - the example's `main` halts after 6 steps.

  The module also runs the two derives on the example's enum declarations.
- `Derive` (derive.dfy) is the validation done by the `State` and `Color`
  derive macros of `derive/src/lib.rs`, on a list of variants with their
  `#[halt]`/`#[default]` flags. It states which panic each input raises,
  with the order in which the checks fire. It also states what the
  generated `is_halt` and `Default` return.

The canonical 2-state busy beaver leaves four ONEs on the tape. The table in
`src/main.rs` makes its (B, ONE) entry write ZERO, and its doc comment says
the same. The model follows the code, so the machine it describes leaves
three ONEs.

## Model

| member | source | states |
|---|---|---|
| Machine.LocalIsWellBehaved | src/lib.rs:45-66 | a local rule (one defined on every padded context that keeps the tape's length, changes only the cell under the head and moves the head by at most one cell) leaves the head on the tape or one past its end, so it meets what the engine needs whatever the halting states are |
| Machine.Pad | src/lib.rs:46-56 | padding keeps the state, and if `head <= len` beforehand then afterwards `1 <= head < len`, so both `tape[head]` and `head - 1` are valid for the rule |
| Machine.PadOnlyAddsBlanks | src/lib.rs:46-56 | the padded tape is an optional blank, the old tape, then an optional blank; its length grows by 0, 1 or 2; a front blank moves the head by one; the cell under the head keeps its value, or is blank when newly created |
| Machine.PadKeepsLogicalTape | src/lib.rs:46-56 | seen as a bi-infinite tape, padding changes no logical cell and does not move the logical head |
| Machine.Next | src/lib.rs:45-66 | one step on values (pad, then the rule) from a state that is not halting, with a well-behaved rule, leaves the head on the tape or one past its end unless it enters a halting state |
| Machine.Iterate | src/lib.rs:39-43 | `n` rounds of `run`'s loop, with no step taken once a halting state is reached, keep the machine admissible: halting, or with the head on the tape or one past its end |
| Machine.LocalRuleTapeGrows | src/lib.rs:46-64 | under a local rule the tape never shrinks, and it grows by at most two cells per step |
| Machine.TuringMachine.constructor | src/lib.rs:29-37 | `new` stores the given tape, sets head and steps to 0 and the state to the alphabet's default |
| Machine.TuringMachine.Step | src/lib.rs:45-66 | called, as `run` does, only from a state that is not halting: steps grows by exactly 1 whatever the rule does; the new context is the rule applied to the padded context; the invariant (halting, or `head <= len`) is kept |
| Machine.TuringMachine.Run | src/lib.rs:39-43 | the number of steps taken is `RunLength` of the old context and the budget, the new context is the iterate of the old one by that many steps, the invariant is kept, and the result is true exactly when the final state is halting |
| Machine.FirstHaltFromMeaning | src/lib.rs:39-43 | searching from step `k` for the first halting context ends between `k` and the budget, passes no halting context on the way, and ends short of the budget only at a halting context |
| Machine.RunLengthMeaning | src/lib.rs:39-43 | a run takes at most the budget of steps, no context before its last is halting, it stops short of the budget only in a halting state, and from a halting state it takes no step |
| Machine.TuringMachine.Tape | src/lib.rs:68-70 | returns the current tape and changes nothing |
| Machine.TuringMachine.TotalSteps | src/lib.rs:72-74 | returns the step count and changes nothing |
| TableDriven.FromEntries | src/main.rs:43-53 | the table built by inserting the entries in order; what it holds is stated by FromEntriesKeys and FromEntriesLastWins |
| TableDriven.FromEntriesKeys | src/main.rs:43-53 | the table built from a list of entries has exactly the keys of those entries |
| TableDriven.FromEntriesLastWins | src/main.rs:43-53 | in the table built from a list of entries, a key maps to the value of its last entry |
| TableDriven.TransitionFunctions | src/main.rs:133-163 | the four entries of `transition_functions`, in order; TransitionTableEntries states the table they build |
| TableDriven.TransitionTableEntries | src/main.rs:133-163 | the table `new` builds from `transition_functions` has one entry for each of (A or B, ZERO or ONE) with the listed effects, and none for Halt |
| TableDriven.Get | src/main.rs:37-41 | `get` returns Some exactly when the pair is in the table, and then its entry |
| TableDriven.GetFailsOnlyForHalt | src/main.rs:144-161 | on the machine's table, `get` fails exactly when the state is Halt, whatever the symbol |
| TableDriven.Move | src/main.rs:115-118 | a move changes the head by exactly one cell, to the right exactly for RIGHT; a LEFT move needs the head off cell 0, so it does not underflow |
| TableDriven.Apply | src/main.rs:110-121 | after padding, a step succeeds exactly when (state, symbol under the head) has an entry, and it leaves the head on the tape or one past its end |
| TableDriven.ApplyEffect | src/main.rs:111-121 | a successful step writes the entry's symbol at the pre-move head, changes no other cell, keeps the length, enters the entry's state and moves the head by one cell in the entry's direction |
| TableDriven.TableStep | src/main.rs:97-123 | one full step (padding, then the lookup and its effect) keeps the head on the tape or one past its end |
| TableDriven.TableIterate | src/main.rs:91-95 | every context reached keeps the head on the tape or one past its end |
| TableDriven.SomeOnlyWhileRunning | src/main.rs:91-113 | a context reached after `n` steps of the machine's table means none of the `n` earlier contexts was halted: Halt has no entry, so stepping from it fails |
| TableDriven.CountOnes | src/main.rs:125-127 | the count is the number of ONE cells of the tape (their multiplicity), and at most its length |
| TableDriven.TuringMachine.constructor | src/main.rs:81-89 | `new` stores the given tape, sets head and steps to 0 and the state to A, and builds the table from `transition_functions` |
| TableDriven.TuringMachine.Step | src/main.rs:97-123 | the step succeeds exactly when the value-level step does, and then the new context is that step's result and steps grows by 1; success implies the state was not Halt; on the `unwrap` failure the machine is left as padding made it, with steps unchanged |
| TableDriven.TuringMachine.Run | src/main.rs:91-95 | the new context is the one reached by iterating the table step for the steps taken, no earlier context was halted, the result is true exactly when the state is Halt, and a false result means the whole budget was used |
| TableDriven.TuringMachine.CountNonZeros | src/main.rs:125-127 | the number of ONE cells of the current tape |
| TableDriven.TuringMachine.TotalSteps | src/main.rs:129-131 | returns the step count and changes nothing |
| TableDriven.TraceSteps | src/main.rs:144-161 | from an empty tape, each of the first six table steps leads from one listed context to the next |
| TableDriven.BusyBeaverTrace | src/main.rs:166-168 | the `k`-th context from an empty tape is the listed one, for `k <= 6`, and its state is Halt exactly for `k == 6` |
| TableDriven.TraceHaltsAtSix | src/main.rs:144-161 | of the seven listed contexts only the last is halted |
| TableDriven.HaltedAtSix | src/main.rs:166-168 | six steps from an empty tape the machine is no longer running |
| TableDriven.HaltsOnlyAtSix | src/main.rs:166-171 | a halted context within six steps of the empty tape is the sixth one; its tape is `0 1 0 1 1`, which holds three ONEs |
| TableDriven.FinalTapeOnes | src/main.rs:125-127 | the halting tape holds three ONEs |
| TableDriven.EmptyTapeRun | src/main.rs:91-95 | a run from the empty tape with a budget of at least six steps, which stopped at Halt or at the end of the budget and was running before, took exactly six steps, ended in Halt and left three ONEs |
| TableDriven.RunFromEmptyTape | src/main.rs:166-172 | `main`: the machine halts, `total_steps` is 6 and `count_non_zeros` is 3 |
| TwoStateTwoColor.Alphabet | examples/2-state-2-color.rs:19-26 | the `State` impl the derive generates: default A, and `is_halt` true only for Halt; StateVariantsWellFormed and ArmsMatchAlphabet tie it to the derive |
| TwoStateTwoColor.Blank | examples/2-state-2-color.rs:28-33 | the `Color` default ZERO, which the engine pads with; SymbolVariantsWellFormed ties it to the derive |
| TwoStateTwoColor.Rule | examples/2-state-2-color.rs:38-69 | the closure, case by case on (state, symbol under the head); it is defined on padded contexts, where `tape[head]` exists and `head - 1` does not underflow; RuleIsLocal and RuleMatchesTable state what it does |
| TwoStateTwoColor.RuleIsLocal | examples/2-state-2-color.rs:38-69 | the closure changes only the cell under the head and moves the head by at most one cell, so under the engine's padding the head stays in range and `head -= 1` never underflows |
| TwoStateTwoColor.RuleIsWellBehaved | examples/2-state-2-color.rs:38-69 | the closure can be handed to the engine: it is defined on every padded context and leaves the head on the tape or one past its end |
| TwoStateTwoColor.LiftPad | src/main.rs:98-108 | the padding of the table machine and that of the engine agree |
| TwoStateTwoColor.RuleMatchesTable | examples/2-state-2-color.rs:42-67 | on a padded context not in Halt, the closure does what the table entry of src/main.rs for (state, symbol) does; in Halt the table has no entry and the closure changes nothing |
| TwoStateTwoColor.LiftStep | examples/2-state-2-color.rs:38-69 | one engine step with the closure is one table step of src/main.rs |
| TwoStateTwoColor.EngineMatchesTable | examples/2-state-2-color.rs:35-72 | from any context, until the engine meets Halt, running the closure on the engine and running the table machine pass through the same contexts |
| TwoStateTwoColor.EngineTrace | examples/2-state-2-color.rs:35-72 | from an empty tape the engine's `k`-th context is the table machine's, for `k <= 6`; the state is Halt first at step 6, where the tape is `0 1 0 1 1` |
| TwoStateTwoColor.EngineHaltsAtSix | examples/2-state-2-color.rs:35-72 | from an empty tape the engine is in Halt at step `k <= 6` exactly when `k` is 6, and then the tape is `0 1 0 1 1` |
| TwoStateTwoColor.ExampleRun | examples/2-state-2-color.rs:35-72 | a run of the engine with the closure from an empty tape and a budget of at least six steps takes six steps, ends in a halting state and leaves the tape `0 1 0 1 1` |
| TwoStateTwoColor.TraceStep | examples/2-state-2-color.rs:38-69 | an engine context matching one listed table context steps to one matching the next |
| TwoStateTwoColor.HaltingTape | examples/2-state-2-color.rs:61-65 | a context matching the last listed table context has the tape `0 1 0 1 1` |
| TwoStateTwoColor.RunExample | examples/2-state-2-color.rs:35-74 | `main`: the engine built on an empty tape with the closure halts for any budget of six steps or more, `total_steps` is 6 and the tape is `0 1 0 1 1` |
| TwoStateTwoColor.StateVariantsWellFormed | examples/2-state-2-color.rs:19-26 | the State enum has distinct variant names, a `#[halt]` variant, no variant marked both, and A as its one `#[default]` |
| TwoStateTwoColor.SymbolVariantsWellFormed | examples/2-state-2-color.rs:28-33 | the Symbol enum has one `#[default]` variant, ZERO |
| TwoStateTwoColor.ArmsMatchAlphabet | examples/2-state-2-color.rs:19-26 | the `is_halt` arms generated for the State enum answer, for every state, whether it is in the halting set given to the engine |
| TwoStateTwoColor.DeriveAlphabets | examples/2-state-2-color.rs:19-33 | both derives accept the example's enums; `Default` is A for State and ZERO for Symbol, and the generated `is_halt` agrees with the alphabet given to the engine on every state, true only for Halt |
| Derive.OnlyDefault | derive/src/lib.rs:43-47 | a list with one `#[default]` has no other default-marked variant |
| Derive.CleanStep | derive/src/lib.rs:32-47 | scanning one more variant raises no panic exactly when the scan so far raised none and the variant is neither marked both halt and default nor a second default |
| Derive.FirstOffence | derive/src/lib.rs:19-49 | the loop stops at the first offending variant; that variant's halt marking decides whether the panic is "both halt and default" or "only one default" |
| Derive.CleanDoesNotStop | derive/src/lib.rs:19-49 | a list with no variant marked both halt and default and at most one default raises neither panic of the loop |
| Derive.FirstUnclean | derive/src/lib.rs:19-49 | a list the loop does not pass has a first offending variant, met after a prefix the loop passes |
| Derive.StopsIffUnclean | derive/src/lib.rs:19-49 | the loop panics exactly on lists with a variant marked both halt and default or with two defaults, and never for both reasons at once |
| Derive.StopsAt | derive/src/lib.rs:32-46 | a scan that meets an offending variant after a clean prefix raises the panic that variant calls for: "both halt and default" when it is marked halt, "only one default" otherwise |
| Derive.ScanCompletes | derive/src/lib.rs:51-63 | a scan that passes the whole list then fails on a missing halt, then on a missing default, and otherwise yields the arms and the default found |
| Derive.FirstDefault | derive/src/lib.rs:43-47 | the first default-marked variant exists exactly when the default count is not zero, and it is a default-marked variant of the list |
| Derive.ArmsOf | derive/src/lib.rs:36-41 | one `is_halt` arm per variant, in declaration order, with its halt flag; ArmsDecideHalt states what the generated match returns |
| Derive.StateOutcomeCases | derive/src/lib.rs:7-92 | non-enums are rejected; otherwise: "both halt and default" exactly when such a variant comes first; "only one default" exactly when a second default comes first; "no halt" exactly when the loop passes and no variant is halt; "no default" exactly when the loop passes, some variant is halt and none is default; success exactly for the well-formed lists, and then one arm per variant in order with its halt flag, and the default is the unique default-marked variant |
| Derive.DeriveState | derive/src/lib.rs:7-92 | the loop's result is `StateOutcome`, the outcome stated case by case in the order of the checks, whose meaning `StateOutcomeCases` gives |
| Derive.ColorOutcomeCases | derive/src/lib.rs:95-145 | non-enums are rejected; a second default exactly when there are two or more defaults, no default exactly when there are none, success exactly when there is one, and the default is that variant; halt markings play no part |
| Derive.DeriveColor | derive/src/lib.rs:95-145 | the loop's result is `ColorOutcome`, whose meaning `ColorOutcomeCases` gives |
| Derive.EvalArms | derive/src/lib.rs:59-63 | the generated `match` has no arm for a name exactly when no arm names it |
| Derive.ArmsDecideHalt | derive/src/lib.rs:82-86 | with one arm per variant in order and distinct variant names, the generated `is_halt` on a variant returns exactly its `#[halt]` flag |

## Left out

- Printing in both `main` functions, and the unused `rand` import, are left out. They are I/O.
- Machine.TuringMachine.Run: the source loops until the state halts and may never return. The model takes a step budget `fuel` and reports whether it halted.
- TableDriven.TuringMachine.Run: budgeted in the same way.
- TableDriven.TuringMachine.Step: the `unwrap` panic on a missing entry becomes the result `false`. The machine is then left with the padded tape instead of aborting the process.
- Machine.TuringMachine.Step: requires the rule to be well behaved, and Machine.TuringMachine.Run does too. The rule must be defined on every padded context whose state is not halting, and must leave the head at most one cell past the end unless it enters a halting state. The source accepts any closure. Two kinds are left out. The first is a closure that is not defined on such a context; in the source it panics inside the closure. The second is a closure that leaves the head more than one cell past the end without entering a halting state. The next `step` then hands it an unpadded context, and whether that panics depends on what the closure reads.
- TwoStateTwoColor.RunExample: the example's `main` runs without a bound. The model takes any budget of at least six steps; TableDriven.RunFromEmptyTape uses a budget of 100.
- The traits `State` and `Color` are not declared as such. The engine takes their implementations as values: `StateAlphabet` holds `S::default()` and, as the set of states for which it is true, `is_halt`; `blank` is `C::default()`, and `PartialEq`/`Eq` are Dafny equality, so the state type must support it.
- The `Box<dyn FnMut>` closure and the `&mut` references of `Ctx` are replaced. The rule is a function from the context value to the new context. State captured by a closure and mutated between calls is not modelled.
- `usize` overflow of `steps` and `head` is not modelled. Both are unbounded naturals.
- `HashMap` hashing is not modelled. The table is a Dafny `map`, built by `FromEntries` with later entries replacing earlier ones.
- The derive macros' token handling is not modelled. That covers `parse_macro_input!`, `quote!`, `TokenStream` and attribute detection with `is_ident`. Each variant is reduced to its name and two flags. The generated code is reduced to its `is_halt` arms and the name `Default` returns. Panic messages become `DeriveError` values.
- Detecting non-termination of an arbitrary rule is not modelled. Halting is proved only for the concrete 2-state machine.
