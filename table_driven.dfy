/**
 * The self-contained machine of src/main.rs: the 2-state 2-color busy
 * beaver, driven by a lookup table from (state, symbol) to what to write,
 * where to move and which state to enter.
 */
module TableDriven {
  import opened Wrappers
  import opened Machine

  /** `#[default]` marks A. */
  datatype State = A | B | Halt

  /** `#[default]` marks ZERO, the blank. */
  datatype Symbol = ZERO | ONE

  datatype Direction = LEFT | RIGHT

  datatype TransitionFx = TransitionFx(write: Symbol, newState: State, direction: Direction)

  /** `TransitionFxTable`: a `HashMap` from (state, symbol) to its effect. */
  type Table = map<(State, Symbol), TransitionFx>

  type Entry = ((State, Symbol), TransitionFx)

  /** The four table entries of `transition_functions`, in order. */
  function TransitionFunctions(): seq<Entry>
  {
    [ ((A, ZERO), TransitionFx(ONE, B, RIGHT)),
      ((A, ONE), TransitionFx(ONE, B, LEFT)),
      ((B, ZERO), TransitionFx(ONE, A, LEFT)),
      ((B, ONE), TransitionFx(ZERO, Halt, LEFT)) ]
  }

  /** `HashMap::from_iter`: the entries inserted in order, so that a later
      entry for a key replaces an earlier one. */
  function FromEntries(entries: seq<Entry>): Table
  {
    if |entries| == 0 then map[]
    else
      var last := entries[|entries| - 1];
      FromEntries(entries[..|entries| - 1])[last.0 := last.1]
  }

  /** The table built from entries holds exactly their keys. */
  lemma {:induction false} FromEntriesKeys(entries: seq<Entry>)
    ensures forall key :: key in FromEntries(entries) <==> exists i :: 0 <= i < |entries| && entries[i].0 == key
  {
    if |entries| > 0 {
      var init := entries[..|entries| - 1];
      FromEntriesKeys(init);
      forall key
        ensures key in FromEntries(entries) <==> exists i :: 0 <= i < |entries| && entries[i].0 == key
      {
        if exists i :: 0 <= i < |init| && init[i].0 == key {
          var i :| 0 <= i < |init| && init[i].0 == key;
          assert entries[i].0 == key;
        }
      }
    }
  }

  /** Each key of the entries maps to the value of its last entry. */
  lemma {:induction false} FromEntriesLastWins(entries: seq<Entry>, i: nat)
    requires i < |entries|
    requires forall j :: i < j < |entries| ==> entries[j].0 != entries[i].0
    ensures entries[i].0 in FromEntries(entries)
    ensures FromEntries(entries)[entries[i].0] == entries[i].1
  {
    var n := |entries| - 1;
    if i < n {
      var init := entries[..n];
      FromEntriesLastWins(init, i);
      assert entries[n].0 != entries[i].0;
    }
  }

  /** The table `new` builds from `transition_functions`, written out: one
      entry for each pair of A or B with ZERO or ONE, and none for Halt. */
  const BusyBeaverTable: Table := map[
    (A, ZERO) := TransitionFx(ONE, B, RIGHT),
    (A, ONE) := TransitionFx(ONE, B, LEFT),
    (B, ZERO) := TransitionFx(ONE, A, LEFT),
    (B, ONE) := TransitionFx(ZERO, Halt, LEFT)]

  /** Building the table from the four entries gives `BusyBeaverTable`. */
  lemma TransitionTableEntries()
    ensures FromEntries(TransitionFunctions()) == BusyBeaverTable
  {
    var e := TransitionFunctions();
    assert e[..1][..0] == [];
    assert e[..2][..1] == e[..1] && e[..3][..2] == e[..2] && e[..3] == e[..4][..3] && e[..4] == e;
    assert FromEntries(e[..1]) == map[e[0].0 := e[0].1];
    assert FromEntries(e[..2]) == FromEntries(e[..1])[e[1].0 := e[1].1];
    assert FromEntries(e[..3]) == FromEntries(e[..2])[e[2].0 := e[2].1];
    assert FromEntries(e) == FromEntries(e[..3])[e[3].0 := e[3].1];
  }

  /** `TransitionFxTable::get`: the effect for (state, symbol), if any. */
  function Get(t: Table, state: State, symbol: Symbol): (r: Option<TransitionFx>)
    ensures r.Some? <==> (state, symbol) in t
    ensures r.Some? ==> r.value == t[(state, symbol)]
  {
    if (state, symbol) in t then Some(t[(state, symbol)]) else None
  }

  /** `get` on the machine's table fails exactly for the Halt state. */
  lemma GetFailsOnlyForHalt(state: State, symbol: Symbol)
    ensures Get(BusyBeaverTable, state, symbol).None? <==> state == Halt
  {
  }

  /** The head after a move; a LEFT move needs the head off cell 0, which is
      what rules out the `usize` underflow of `head -= 1`. */
  function Move(head: nat, direction: Direction): (h: nat)
    requires direction == LEFT ==> head >= 1
    ensures h == head - 1 || h == head + 1
    ensures h == head + 1 <==> direction == RIGHT
  {
    match direction
    case LEFT => head - 1
    case RIGHT => head + 1
  }

  /** The part of `step` after padding: look up the effect, write it at the
      head, move and change state; None when `unwrap` would panic. */
  function Apply(t: Table, p: Ctx<State, Symbol>): (r: Option<Ctx<State, Symbol>>)
    requires OnPaddedTape(p)
    ensures r.Some? <==> (p.state, p.tape[p.head]) in t
    ensures r.Some? ==> r.value.head <= |r.value.tape|
  {
    match Get(t, p.state, p.tape[p.head])
    case None => None
    case Some(fx) => Some(Ctx(Move(p.head, fx.direction), fx.newState, p.tape[p.head := fx.write]))
  }

  /** A successful step writes the entry's symbol at the pre-move head,
      changes no other cell, enters the entry's state and moves the head
      by exactly one cell in the entry's direction. */
  lemma ApplyEffect(t: Table, p: Ctx<State, Symbol>)
    requires OnPaddedTape(p) && (p.state, p.tape[p.head]) in t
    ensures var fx := t[(p.state, p.tape[p.head])];
      var d := Apply(t, p).value;
      && d.state == fx.newState
      && |d.tape| == |p.tape|
      && d.tape[p.head] == fx.write
      && (forall i :: 0 <= i < |p.tape| && i != p.head ==> d.tape[i] == p.tape[i])
      && (d.head == p.head + 1 <==> fx.direction == RIGHT)
      && (d.head == p.head - 1 <==> fx.direction == LEFT)
  {
  }

  /** One `step` on values: the engine's padding, then `Apply`. */
  function TableStep(t: Table, c: Ctx<State, Symbol>): (r: Option<Ctx<State, Symbol>>)
    requires c.head <= |c.tape|
    ensures r.Some? ==> r.value.head <= |r.value.tape|
  {
    Apply(t, Pad(c, ZERO))
  }

  /** The context after `n` steps from `c`, or None if a lookup fails. */
  function TableIterate(t: Table, c: Ctx<State, Symbol>, n: nat): (r: Option<Ctx<State, Symbol>>)
    requires c.head <= |c.tape|
    ensures r.Some? ==> r.value.head <= |r.value.tape|
  {
    if n == 0 then Some(c)
    else
      match TableIterate(t, c, n - 1)
      case None => None
      case Some(d) => TableStep(t, d)
  }

  /** True when the `k`-th context from `c` exists and is not halted. */
  predicate RunningAt(t: Table, c: Ctx<State, Symbol>, k: nat)
    requires c.head <= |c.tape|
  {
    match TableIterate(t, c, k)
    case Some(d) => d.state != Halt
    case None => false
  }

  /** Halt has no table entry, so a run that got `n` steps far was not
      halted at any earlier step. */
  lemma {:induction false} SomeOnlyWhileRunning(c: Ctx<State, Symbol>, n: nat)
    requires c.head <= |c.tape|
    requires TableIterate(BusyBeaverTable, c, n).Some?
    ensures forall k :: 0 <= k < n ==> RunningAt(BusyBeaverTable, c, k)
  {
    if n > 0 {
      var d := TableIterate(BusyBeaverTable, c, n - 1);
      assert d.Some?;
      SomeOnlyWhileRunning(c, n - 1);
      var p := Pad(d.value, ZERO);
      GetFailsOnlyForHalt(p.state, p.tape[p.head]);
      assert RunningAt(BusyBeaverTable, c, n - 1);
    }
  }

  /** The number of ONE cells in a tape, as `count_non_zeros` counts them. */
  function CountOnes(s: seq<Symbol>): (n: nat)
    ensures n == multiset(s)[ONE]
    ensures n <= |s|
  {
    if |s| == 0 then 0
    else
      assert s == [s[0]] + s[1..];
      (if s[0] == ONE then 1 else 0) + CountOnes(s[1..])
  }

  class TuringMachine {
    var head: nat
    var tape: seq<Symbol>
    var currentState: State
    const transitions: Table
    var steps: nat

    ghost predicate Valid()
      reads this
    {
      head <= |tape| && transitions == BusyBeaverTable
    }

    ghost function Context(): Ctx<State, Symbol>
      reads this
    {
      Ctx(head, currentState, tape)
    }

    constructor (tape: seq<Symbol>)
      ensures Valid()
      ensures this.tape == tape && head == 0 && steps == 0 && currentState == A
    {
      this.tape := tape;
      head := 0;
      steps := 0;
      currentState := A;
      transitions := FromEntries(TransitionFunctions());
      TransitionTableEntries();
    }

    /** Pads the tape, then writes, moves and changes state by the table
        entry for the cell under the head. `ok` is false where `unwrap`
        panics; the machine is then left as padding made it. */
    method Step() returns (ok: bool)
      requires Valid()
      modifies this
      ensures Valid()
      ensures ok <==> TableStep(transitions, old(Context())).Some?
      ensures ok ==> old(currentState) != Halt
      ensures ok ==> Context() == TableStep(transitions, old(Context())).value && steps == old(steps) + 1
      ensures !ok ==> Context() == Pad(old(Context()), ZERO) && steps == old(steps)
    {
      var h, t := head, tape;
      if h == 0 {
        t := [ZERO] + t;
        if |t| != 0 {
          h := h + 1;
        }
      }
      if h == |t| {
        t := t + [ZERO];
      }
      assert Ctx(h, currentState, t) == Pad(old(Context()), ZERO);
      var fx := Get(transitions, currentState, t[h]);
      if fx.None? {
        head, tape := h, t;
        return false;
      }
      GetFailsOnlyForHalt(currentState, t[h]);
      var at := h;
      match fx.value.direction {
        case LEFT => h := h - 1;
        case RIGHT => h := h + 1;
      }
      t := t[at := fx.value.write];
      head, tape, currentState := h, t, fx.value.newState;
      steps := steps + 1;
      ok := true;
    }

    /** Steps while the state is not Halt, for at most `fuel` steps; the
        lookup never fails on the way. */
    method Run(fuel: nat) returns (halted: bool)
      requires Valid()
      modifies this
      ensures Valid()
      ensures old(steps) <= steps <= old(steps) + fuel
      ensures TableIterate(transitions, old(Context()), steps - old(steps)) == Some(Context())
      ensures forall k :: 0 <= k < steps - old(steps) ==> RunningAt(transitions, old(Context()), k)
      ensures halted <==> currentState == Halt
      ensures !halted ==> steps == old(steps) + fuel
    {
      ghost var start := Context();
      var taken: nat := 0;
      while currentState != Halt && taken < fuel
        invariant Valid()
        invariant taken <= fuel && steps == old(steps) + taken
        invariant start == old(Context()) && start.head <= |start.tape|
        invariant TableIterate(transitions, start, taken) == Some(Context())
      {
        GetFailsOnlyForHalt(currentState, Pad(Context(), ZERO).tape[Pad(Context(), ZERO).head]);
        var ok := Step();
        assert ok;
        taken := taken + 1;
      }
      halted := currentState == Halt;
      SomeOnlyWhileRunning(start, taken);
    }

    /** `count_non_zeros`: how many cells hold ONE. */
    function CountNonZeros(): (n: nat)
      reads this
      ensures n == multiset(tape)[ONE]
    {
      CountOnes(tape)
    }

    function TotalSteps(): (n: nat)
      reads this
      ensures n == steps
    {
      steps
    }
  }

  /** The seven contexts the machine passes through from an empty tape. */
  function Trace(k: nat): Ctx<State, Symbol>
    requires k <= 6
  {
    [ Ctx(0, A, []),
      Ctx(2, B, [ZERO, ONE]),
      Ctx(1, A, [ZERO, ONE, ONE]),
      Ctx(0, B, [ZERO, ONE, ONE]),
      Ctx(0, A, [ZERO, ONE, ONE, ONE]),
      Ctx(2, B, [ZERO, ONE, ONE, ONE, ONE]),
      Ctx(1, Halt, [ZERO, ONE, ZERO, ONE, ONE]) ][k]
  }

  /** `r` is the successful step result `d`, field by field. */
  predicate Yields(r: Option<Ctx<State, Symbol>>, d: Ctx<State, Symbol>)
  {
    r.Some? && r.value.head == d.head && r.value.state == d.state && r.value.tape == d.tape
  }

  /** Each step of `Trace` is one table step. */
  lemma TraceSteps()
    ensures forall k :: 1 <= k <= 6 ==> TableStep(BusyBeaverTable, Trace(k - 1)) == Some(Trace(k))
  {
    assert Yields(TableStep(BusyBeaverTable, Trace(0)), Trace(1));
    assert Yields(TableStep(BusyBeaverTable, Trace(1)), Trace(2));
    assert Yields(TableStep(BusyBeaverTable, Trace(2)), Trace(3));
    assert Yields(TableStep(BusyBeaverTable, Trace(3)), Trace(4));
    assert Yields(TableStep(BusyBeaverTable, Trace(4)), Trace(5));
    assert Yields(TableStep(BusyBeaverTable, Trace(5)), Trace(6));
  }

  /** From the empty tape `c` the machine goes through `Trace` and halts at
      the sixth step, and at no earlier one. */
  lemma {:induction false} BusyBeaverTrace(c: Ctx<State, Symbol>, k: nat)
    // The constant is a parameter fixed here, not written in the body, so that
    // the verifier does not unfold the definitions on a literal argument.
    requires c == Ctx(0, A, []) && k <= 6
    ensures TableIterate(BusyBeaverTable, c, k) == Some(Trace(k))
    ensures Trace(k).state == Halt <==> k == 6
  {
    TraceHaltsAtSix(k);
    if k > 0 {
      BusyBeaverTrace(c, k - 1);
      TraceSteps();
    }
  }

  /** Of the seven contexts only the last is halted. */
  lemma TraceHaltsAtSix(k: nat)
    requires k <= 6
    ensures Trace(k).state == Halt <==> k == 6
  {
  }

  /** Six steps from the empty tape `c` the machine is no longer running: it
      has halted. */
  lemma HaltedAtSix(c: Ctx<State, Symbol>)
    // The constant is a parameter fixed here, not written in the body, so that
    // the verifier does not unfold the definitions on a literal argument.
    requires c == Ctx(0, A, [])
    ensures !RunningAt(BusyBeaverTable, c, 6)
  {
    BusyBeaverTrace(c, 6);
  }

  /** A halted context within six steps of the empty tape `c` is the sixth
      one, whose tape holds three ONEs. */
  lemma HaltsOnlyAtSix(c: Ctx<State, Symbol>, n: nat)
    // The constant is a parameter fixed here, not written in the body, so that
    // the verifier does not unfold the definitions on a literal argument.
    requires c == Ctx(0, A, []) && n <= 6
    requires TableIterate(BusyBeaverTable, c, n).Some?
    requires TableIterate(BusyBeaverTable, c, n).value.state == Halt
    ensures n == 6
    ensures TableIterate(BusyBeaverTable, c, n).value.tape == [ZERO, ONE, ZERO, ONE, ONE]
    ensures CountOnes(TableIterate(BusyBeaverTable, c, n).value.tape) == 3
  {
    BusyBeaverTrace(c, n);
    FinalTapeOnes();
  }

  /** A run from the empty tape `c` that stopped because it halted or
      because a budget of at least six steps ran out took six steps and left
      three ONEs. */
  lemma EmptyTapeRun(c: Ctx<State, Symbol>, n: nat, d: Ctx<State, Symbol>, fuel: nat)
    // The constant is a parameter fixed here, not written in the body, so that
    // the verifier does not unfold the definitions on a literal argument.
    requires c == Ctx(0, A, []) && 6 <= fuel
    requires TableIterate(BusyBeaverTable, c, n) == Some(d)
    requires forall k :: 0 <= k < n ==> RunningAt(BusyBeaverTable, c, k)
    requires d.state == Halt || n == fuel
    ensures n == 6 && d.state == Halt && CountOnes(d.tape) == 3
  {
    HaltedAtSix(c);
    assert n <= 6;
    HaltsOnlyAtSix(c, n);
  }

  /** The final tape holds three ONEs, not four: the (B, ONE) entry writes
      ZERO. */
  lemma FinalTapeOnes()
    ensures CountOnes([ZERO, ONE, ZERO, ONE, ONE]) == 3
  {
    assert [ZERO, ONE, ZERO, ONE, ONE][1..] == [ONE, ZERO, ONE, ONE];
  }

  /** What `main` does before printing: run from an empty tape and report
      the step count and the number of ONEs. */
  method RunFromEmptyTape() returns (halted: bool, steps: nat, nonZeros: nat)
    ensures halted && steps == 6 && nonZeros == 3
  {
    var m := new TuringMachine([]);
    ghost var start := m.Context();
    assert start == Ctx(0, A, []);
    halted := m.Run(100);
    EmptyTapeRun(start, m.steps, m.Context(), 100);
    steps := m.TotalSteps();
    nonZeros := m.CountNonZeros();
  }
}
