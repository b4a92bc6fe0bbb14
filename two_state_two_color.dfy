/**
 * examples/2-state-2-color.rs: the 2-state 2-color busy beaver written as a
 * rule for the generic engine, with its two alphabets declared through the
 * derive macros.
 */
module TwoStateTwoColor {
  import opened Wrappers
  import opened Machine
  import TableDriven
  import Derive

  datatype State = A | B | Halt

  datatype Symbol = ZERO | ONE

  /** The variants of `State` as the `State` derive sees them. */
  function StateVariants(): seq<Derive.Variant>
  {
    [ Derive.Variant("A", false, true),
      Derive.Variant("B", false, false),
      Derive.Variant("Halt", true, false) ]
  }

  /** The variants of `Symbol` as the `Color` derive sees them. */
  function SymbolVariants(): seq<Derive.Variant>
  {
    [ Derive.Variant("ZERO", false, true),
      Derive.Variant("ONE", false, false) ]
  }

  function StateName(s: State): string
  {
    match s
    case A => "A"
    case B => "B"
    case Halt => "Halt"
  }

  function SymbolName(x: Symbol): string
  {
    match x
    case ZERO => "ZERO"
    case ONE => "ONE"
  }

  /** The `State` implementation the engine is given: default A, and only
      Halt halts. */
  function Alphabet(): StateAlphabet<State>
  {
    StateAlphabet(A, iset{Halt})
  }

  /** The `Color` default, the engine's blank. */
  const Blank: Symbol := ZERO

  /** The transition closure. The engine has padded the tape, so the cell
      under the head exists and `head - 1` does not underflow. */
  function Rule(c: Ctx<State, Symbol>): Ctx<State, Symbol>
    requires OnPaddedTape(c)
  {
    match (c.state, c.tape[c.head])
    case (A, ZERO) => Ctx(c.head + 1, B, c.tape[c.head := ONE])
    case (A, ONE) => Ctx(c.head - 1, B, c.tape[c.head := ONE])
    case (B, ZERO) => Ctx(c.head - 1, A, c.tape[c.head := ONE])
    case (B, ONE) => Ctx(c.head - 1, Halt, c.tape[c.head := ZERO])
    case (Halt, _) => c
  }

  /** The rule only rewrites the cell under the head and moves the head by
      at most one cell, so the engine can run it. */
  lemma RuleIsLocal()
    ensures Local(Rule)
  {
  }

  /** Hence the engine can run the rule. */
  lemma RuleIsWellBehaved()
    ensures WellBehaved(Rule, Alphabet().halting)
  {
    RuleIsLocal();
    LocalIsWellBehaved(Rule, Alphabet().halting);
  }

  /** The states and symbols of this file, seen as those of src/main.rs. */
  function LiftState(s: State): TableDriven.State
  {
    match s
    case A => TableDriven.A
    case B => TableDriven.B
    case Halt => TableDriven.Halt
  }

  function LiftSymbol(x: Symbol): TableDriven.Symbol
  {
    match x
    case ZERO => TableDriven.ZERO
    case ONE => TableDriven.ONE
  }

  function LiftTape(t: seq<Symbol>): (u: seq<TableDriven.Symbol>)
    ensures |u| == |t| && forall i :: 0 <= i < |t| ==> u[i] == LiftSymbol(t[i])
  {
    seq(|t|, i requires 0 <= i < |t| => LiftSymbol(t[i]))
  }

  function Lift(c: Ctx<State, Symbol>): Ctx<TableDriven.State, TableDriven.Symbol>
  {
    Ctx(c.head, LiftState(c.state), LiftTape(c.tape))
  }

  /** Lifting a tape commutes with concatenation. */
  lemma LiftConcat(t: seq<Symbol>, u: seq<Symbol>)
    ensures LiftTape(t + u) == LiftTape(t) + LiftTape(u)
  {
    forall i | 0 <= i < |t| + |u|
      ensures LiftTape(t + u)[i] == (LiftTape(t) + LiftTape(u))[i]
    {
      if i < |t| {
        assert (t + u)[i] == t[i];
      } else {
        assert (t + u)[i] == u[i - |t|];
      }
    }
  }

  /** Both machines pad in the same way. */
  lemma LiftPad(c: Ctx<State, Symbol>)
    ensures Lift(Pad(c, Blank)) == Pad(Lift(c), TableDriven.ZERO)
  {
    var front: seq<Symbol> := if c.head == 0 then [Blank] else [];
    var back: seq<Symbol> := if c.head + |front| == |front + c.tape| then [Blank] else [];
    assert Pad(c, Blank).tape == front + c.tape + back;
    assert LiftTape([Blank]) == [TableDriven.ZERO];
    LiftConcat(front, c.tape);
    LiftConcat(front + c.tape, back);
    assert Pad(Lift(c), TableDriven.ZERO).tape == LiftTape(front) + LiftTape(c.tape) + LiftTape(back);
  }

  /** On every padded context that is not halted, the rule does exactly what
      the transition table of src/main.rs prescribes; on Halt the table has
      no entry and the rule changes nothing. */
  lemma RuleMatchesTable(p: Ctx<State, Symbol>)
    requires OnPaddedTape(p)
    ensures p.state != Halt ==> TableDriven.Apply(TableDriven.BusyBeaverTable, Lift(p)) == Some(Lift(Rule(p)))
    ensures p.state == Halt ==> TableDriven.Apply(TableDriven.BusyBeaverTable, Lift(p)).None? && Rule(p) == p
  {
    var q := Lift(p);
    var r := TableDriven.Apply(TableDriven.BusyBeaverTable, q);
    if p.state != Halt {
      TableDriven.GetFailsOnlyForHalt(q.state, q.tape[q.head]);
      TableDriven.ApplyEffect(TableDriven.BusyBeaverTable, q);
      var d := Lift(Rule(p));
      assert r.value.head == d.head && r.value.state == d.state;
      assert r.value.tape == d.tape;
    }
  }

  /** One engine step of this rule is one step of the table machine. */
  lemma LiftStep(c: Ctx<State, Symbol>)
    requires c.head <= |c.tape| && c.state != Halt
    ensures WellBehaved(Rule, Alphabet().halting)
    ensures TableDriven.TableStep(TableDriven.BusyBeaverTable, Lift(c)) == Some(Lift(Next(Rule, Blank, Alphabet().halting, c)))
  {
    RuleIsWellBehaved();
    LiftPad(c);
    RuleMatchesTable(Pad(c, Blank));
  }

  /** As long as the engine has not met Halt, running this rule on the
      engine and running the table machine of src/main.rs go through the
      same contexts. */
  lemma {:induction false} EngineMatchesTable(c: Ctx<State, Symbol>, n: nat)
    requires c.head <= |c.tape|
    requires WellBehaved(Rule, Alphabet().halting)
    requires forall k :: 0 <= k < n ==> Iterate(Rule, Blank, Alphabet().halting, c, k).state != Halt
    ensures TableDriven.TableIterate(TableDriven.BusyBeaverTable, Lift(c), n) == Some(Lift(Iterate(Rule, Blank, Alphabet().halting, c, n)))
  {
    if n > 0 {
      EngineMatchesTable(c, n - 1);
      var d := Iterate(Rule, Blank, Alphabet().halting, c, n - 1);
      assert d.state != Halt;
      assert Iterate(Rule, Blank, Alphabet().halting, c, n) == Next(Rule, Blank, Alphabet().halting, d);
      LiftStep(d);
    }
  }

  /** The start of the example's run: an empty tape, head 0, state A. */
  function Start(): Ctx<State, Symbol>
  {
    Ctx(0, Alphabet().initial, [])
  }

  /** From the empty tape `c` the engine's `k`-th context is the table
      machine's, for the first six steps. */
  lemma {:induction false} EngineTrace(c: Ctx<State, Symbol>, k: nat)
    // The constant is a parameter fixed here, not written in the body, so that
    // the verifier does not unfold the definitions on a literal argument.
    requires c == Start() && k <= 6
    ensures WellBehaved(Rule, Alphabet().halting)
    ensures Lift(Iterate(Rule, Blank, Alphabet().halting, c, k)) == TableDriven.Trace(k)
  {
    RuleIsWellBehaved();
    if k == 0 {
      assert Lift(c).tape == [];
    } else {
      EngineTrace(c, k - 1);
      IterateTraceStep(c, k);
    }
  }

  /** If the `k-1`-th engine context from `c` lifts to the `k-1`-th table
      context, the `k`-th lifts to the `k`-th. */
  lemma IterateTraceStep(c: Ctx<State, Symbol>, k: nat)
    requires 1 <= k <= 6 && c.head <= |c.tape| && WellBehaved(Rule, Alphabet().halting)
    requires Lift(Iterate(Rule, Blank, Alphabet().halting, c, k - 1)) == TableDriven.Trace(k - 1)
    ensures Lift(Iterate(Rule, Blank, Alphabet().halting, c, k)) == TableDriven.Trace(k)
  {
    TableDriven.TraceHaltsAtSix(k - 1);
    var d := Iterate(Rule, Blank, Alphabet().halting, c, k - 1);
    assert d.state != Halt;
    assert Iterate(Rule, Blank, Alphabet().halting, c, k) == Next(Rule, Blank, Alphabet().halting, d);
    TraceStep(d, k);
  }

  /** From the empty tape `c` the engine meets Halt first at step 6, with
      the tape 0 1 0 1 1. */
  lemma EngineHaltsAtSix(c: Ctx<State, Symbol>, k: nat)
    // The constant is a parameter fixed here, not written in the body, so that
    // the verifier does not unfold the definitions on a literal argument.
    requires c == Start() && k <= 6
    ensures WellBehaved(Rule, Alphabet().halting)
    ensures Iterate(Rule, Blank, Alphabet().halting, c, k).state == Halt <==> k == 6
    ensures k == 6 ==> Iterate(Rule, Blank, Alphabet().halting, c, k).tape == [ZERO, ONE, ZERO, ONE, ONE]
  {
    EngineTrace(c, k);
    TableDriven.TraceHaltsAtSix(k);
    if k == 6 {
      HaltingTape(Iterate(Rule, Blank, Alphabet().halting, c, k));
    }
  }

  /** A run of the engine from the empty tape `c` with a budget of at least
      six steps takes six steps and leaves the tape 0 1 0 1 1. */
  lemma ExampleRun(rule: Ctx<State, Symbol> --> Ctx<State, Symbol>, alphabet: StateAlphabet<State>, blank: Symbol,
                    c: Ctx<State, Symbol>, n: nat, fuel: nat, tape: seq<Symbol>)
    // The constant is a parameter fixed here, not written in the body, so that
    // the verifier does not unfold the definitions on a literal argument.
    requires rule == Rule && alphabet == Alphabet() && blank == Blank && WellBehaved(rule, alphabet.halting)
    requires c == Start() && 6 <= fuel
    requires n == RunLength(rule, blank, alphabet.halting, c, fuel)
    requires tape == Iterate(rule, blank, alphabet.halting, c, n).tape
    ensures n == 6 && Iterate(rule, blank, alphabet.halting, c, n).state in alphabet.halting
    ensures tape == [ZERO, ONE, ZERO, ONE, ONE]
  {
    RunLengthMeaning(rule, blank, alphabet.halting, c, fuel);
    EngineHaltsAtSix(c, 6);
    assert n <= 6;
    EngineHaltsAtSix(c, n);
  }

  /** An engine context that lifts to the `k-1`-th table context steps to
      one that lifts to the `k`-th. */
  lemma TraceStep(d: Ctx<State, Symbol>, k: nat)
    requires 1 <= k <= 6 && d.head <= |d.tape|
    requires Lift(d) == TableDriven.Trace(k - 1) && d.state != Halt
    ensures WellBehaved(Rule, Alphabet().halting)
    ensures Lift(Next(Rule, Blank, Alphabet().halting, d)) == TableDriven.Trace(k)
  {
    LiftStep(d);
    TableDriven.TraceSteps();
    assert TableDriven.TableStep(TableDriven.BusyBeaverTable, TableDriven.Trace(k - 1)) == Some(TableDriven.Trace(k));
  }

  /** The context that lifts to the last table context has the tape
      0 1 0 1 1. */
  lemma HaltingTape(d: Ctx<State, Symbol>)
    requires Lift(d) == TableDriven.Trace(6)
    ensures d.tape == [ZERO, ONE, ZERO, ONE, ONE]
  {
    var t := TableDriven.Trace(6).tape;
    assert t == [TableDriven.ZERO, TableDriven.ONE, TableDriven.ZERO, TableDriven.ONE, TableDriven.ONE];
    assert |d.tape| == 5;
    assert forall i :: 0 <= i < 5 ==> LiftSymbol(d.tape[i]) == t[i];
  }

  /** `main`: builds the engine on an empty tape with this rule, runs it
      and reports the step count. With any step budget of six or more it
      halts after 6 steps. */
  method RunExample(fuel: nat) returns (halted: bool, totalSteps: nat, tape: seq<Symbol>)
    requires 6 <= fuel
    ensures halted && totalSteps == 6
    ensures tape == [ZERO, ONE, ZERO, ONE, ONE]
  {
    RuleIsWellBehaved();
    var m := new TuringMachine<State, Symbol>([], Rule, Alphabet(), Blank);
    ghost var start := m.Context();
    assert start == Start();
    halted := m.Run(fuel);
    ExampleRun(m.rule, m.alphabet, m.blank, start, m.steps, fuel, m.tape);
    totalSteps := m.TotalSteps();
    tape := m.Tape();
  }

  /** The State enum of the example is one `derive_state` accepts; its
      names are distinct and its #[default] variant is A. */
  lemma StateVariantsWellFormed(vs: seq<Derive.Variant>)
    // The constant is a parameter fixed here, not written in the body, so that
    // the verifier does not unfold the definitions on a literal argument.
    requires vs == StateVariants()
    ensures Derive.WellFormedStates(vs) && Derive.DistinctNames(vs)
    ensures Derive.FirstDefault(vs) == Some(StateName(A))
  {
    assert vs[..2][..1] == vs[..1];
    assert vs[..1][..0] == [];
  }

  /** The Symbol enum of the example has one #[default] variant, ZERO. */
  lemma SymbolVariantsWellFormed(ws: seq<Derive.Variant>)
    // The constant is a parameter fixed here, not written in the body, so that
    // the verifier does not unfold the definitions on a literal argument.
    requires ws == SymbolVariants()
    ensures Derive.CountDefaults(ws) == 1
    ensures Derive.FirstDefault(ws) == Some(SymbolName(ZERO))
  {
    assert ws[..1][..0] == [];
  }

  /** The `is_halt` generated for the State enum agrees with the halting
      set the engine is given, on every state. */
  lemma ArmsMatchAlphabet(vs: seq<Derive.Variant>, arms: seq<Derive.Arm>)
    // The constant is a parameter fixed here, not written in the body, so that
    // the verifier does not unfold the definitions on a literal argument.
    requires vs == StateVariants() && arms == Derive.ArmsOf(vs)
    ensures forall s :: Derive.EvalArms(arms, StateName(s)) == Some(s in Alphabet().halting)
  {
    StateVariantsWellFormed(vs);
    forall s
      ensures Derive.EvalArms(arms, StateName(s)) == Some(s in Alphabet().halting)
    {
      var i := match s case A => 0 case B => 1 case Halt => 2;
      Derive.ArmsDecideHalt(vs, arms, i);
    }
  }

  /** The derives accept both enums of the example; `Default` is A for State
      and ZERO for Symbol, and the generated `is_halt` agrees with the
      alphabet the engine is given on every state. */
  method DeriveAlphabets() returns (states: Result<Derive.StateImpl, Derive.DeriveError>, colors: Result<Derive.ColorImpl, Derive.DeriveError>)
    ensures states.Success? && colors.Success?
    ensures states.value.default == StateName(Alphabet().initial)
    ensures forall s :: Derive.EvalArms(states.value.isHaltArms, StateName(s)) == Some(s in Alphabet().halting)
    ensures colors.value.default == SymbolName(Blank)
  {
    var vs := StateVariants();
    StateVariantsWellFormed(vs);
    var input := Derive.DeriveInput("State", Derive.Enum(vs));
    states := Derive.DeriveState(input);
    Derive.StateOutcomeCases(input);
    ArmsMatchAlphabet(vs, states.value.isHaltArms);
    var ws := SymbolVariants();
    SymbolVariantsWellFormed(ws);
    var colorInput := Derive.DeriveInput("Symbol", Derive.Enum(ws));
    colors := Derive.DeriveColor(colorInput);
  }
}
