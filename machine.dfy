/**
 * The generic engine of src/lib.rs: a Turing machine over any state
 * alphabet S and tape-symbol alphabet C, driven by a user rule that is
 * called once per step with the head, the state and the tape.
 */
module Machine {

  /** What the rule receives for one step and hands back: the Rust `Ctx`
      with its three `&mut` references replaced by values. */
  datatype Ctx<S, C> = Ctx(head: nat, state: S, tape: seq<C>)

  /** The `State` trait: `S::default()` is `initial`, and `is_halt` holds
      exactly for the states in `halting`. */
  datatype StateAlphabet<!S(==)> = StateAlphabet(initial: S, halting: iset<S>)

  /** The head is on a real cell and a real cell lies on its left: what
      padding guarantees to the rule, so that both `tape[head]` and
      `head - 1` are defined. */
  predicate OnPaddedTape<S, C>(c: Ctx<S, C>)
  {
    1 <= c.head < |c.tape|
  }

  /** A context the engine can step from if it must: either its state is
      a halting one, so `run` never steps from it, or its head is on the
      tape or one cell past its end, so padding puts it on a real cell. */
  predicate Admissible<S(!new), C>(c: Ctx<S, C>, halting: iset<S>)
  {
    c.state in halting || c.head <= |c.tape|
  }

  /** What the engine needs of a rule: it is defined on every padded context
      in a state that is not halting (the only ones `run` hands it), and it
      leaves an admissible context. */
  ghost predicate WellBehaved<S(!new), C(!new)>(rule: Ctx<S, C> --> Ctx<S, C>, halting: iset<S>)
  {
    forall c :: OnPaddedTape(c) && c.state !in halting ==>
      rule.requires(c) && Admissible(rule(c), halting)
  }

  /** A rule that keeps the tape's length, changes no cell but the one under
      the head and moves the head by at most one cell. */
  ghost predicate Local<S(!new), C(!new)>(rule: Ctx<S, C> --> Ctx<S, C>)
  {
    forall c :: OnPaddedTape(c) ==>
      && rule.requires(c)
      && |rule(c).tape| == |c.tape|
      && (forall i :: 0 <= i < |c.tape| && i != c.head ==> rule(c).tape[i] == c.tape[i])
      && c.head - 1 <= rule(c).head <= c.head + 1
  }

  /** A local rule is defined on every padded context by definition, and
      since it moves the head by at most one cell and keeps the tape's
      length it preserves `head <= |tape|`, so the engine can keep calling
      it whatever the halting states are. */
  lemma LocalIsWellBehaved<S(!new), C(!new)>(rule: Ctx<S, C> --> Ctx<S, C>, halting: iset<S>)
    requires Local(rule)
    ensures WellBehaved(rule, halting)
  {
  }

  /** The padding `step` does before calling the rule: a blank is inserted in
      front when the head is on cell 0 (and the head follows it), and a blank
      is appended when the head is one past the end. */
  function Pad<S, C>(c: Ctx<S, C>, blank: C): (p: Ctx<S, C>)
    ensures p.state == c.state
    ensures c.head <= |c.tape| ==> OnPaddedTape(p)
  {
    var front := if c.head == 0 then [blank] else [];
    var head := c.head + |front|;
    var back := if head == |front + c.tape| then [blank] else [];
    Ctx(head, c.state, front + c.tape + back)
  }

  /** The cell at logical position `pos` of a bi-infinite tape stored as
      `tape`, whose cell 0 sits at logical position `-origin`; every cell
      outside the stored part is blank. */
  function Cell<C>(tape: seq<C>, origin: int, pos: int, blank: C): C
  {
    if 0 <= pos + origin < |tape| then tape[pos + origin] else blank
  }

  /** Padding only adds blanks: the padded tape is an optional blank, the old
      tape, and an optional blank, and a front blank moves the head along. */
  lemma PadOnlyAddsBlanks<S, C>(c: Ctx<S, C>, blank: C)
    ensures var p := Pad(c, blank);
      var shift := if c.head == 0 then 1 else 0;
      && p.head == c.head + shift
      && shift + |c.tape| <= |p.tape| <= shift + |c.tape| + 1
      && p.tape[shift..shift + |c.tape|] == c.tape
      && (forall i :: 0 <= i < shift ==> p.tape[i] == blank)
      && (forall i :: shift + |c.tape| <= i < |p.tape| ==> p.tape[i] == blank)
      && (c.head < |c.tape| ==> p.tape[p.head] == c.tape[c.head])
      && (c.head == |c.tape| ==> p.tape[p.head] == blank)
  {
    var p := Pad(c, blank);
    if c.head == 0 && |c.tape| == 0 {
      assert p.tape == [blank, blank];
    } else if c.head == 0 {
      assert p.tape == [blank] + c.tape;
      assert p.tape[1..1 + |c.tape|] == c.tape;
    } else if c.head == |c.tape| {
      assert p.tape == c.tape + [blank];
      assert p.tape[..|c.tape|] == c.tape;
    } else {
      assert p.tape == c.tape;
    }
  }

  /** Seen as a bi-infinite tape, padding changes nothing: with the origin
      moved past a front blank, every logical cell and the logical head
      position are what they were. */
  lemma PadKeepsLogicalTape<S, C>(c: Ctx<S, C>, blank: C, origin: int, pos: int)
    ensures var shift := if c.head == 0 then 1 else 0;
      && Cell(Pad(c, blank).tape, origin + shift, pos, blank) == Cell(c.tape, origin, pos, blank)
      && Pad(c, blank).head - (origin + shift) == c.head - origin
  {
    var shift := if c.head == 0 then 1 else 0;
    var front: seq<C> := if c.head == 0 then [blank] else [];
    var back: seq<C> := if c.head + shift == |front + c.tape| then [blank] else [];
    assert Pad(c, blank).tape == front + c.tape + back;
    CellAfterPadding(front, c.tape, back, blank, origin, pos);
  }

  /** Surrounding a stored tape with blanks, and moving the origin past the
      front ones, leaves every logical cell as it was. */
  lemma CellAfterPadding<C>(front: seq<C>, tape: seq<C>, back: seq<C>, blank: C, origin: int, pos: int)
    requires forall i :: 0 <= i < |front| ==> front[i] == blank
    requires forall i :: 0 <= i < |back| ==> back[i] == blank
    ensures Cell(front + tape + back, origin + |front|, pos, blank) == Cell(tape, origin, pos, blank)
  {
    var k := pos + origin;
    var all := front + tape + back;
    if 0 <= k < |tape| {
      assert all[k + |front|] == tape[k];
    } else if 0 <= k + |front| < |all| {
      if k < 0 {
        assert all[k + |front|] == front[k + |front|];
      } else {
        assert all[k + |front|] == back[k - |tape|];
      }
    }
  }

  /** One engine step on values from a state that is not halting: pad,
      then call the rule once. */
  function Next<S(!new), C(!new)>(rule: Ctx<S, C> --> Ctx<S, C>, blank: C, halting: iset<S>, c: Ctx<S, C>): (d: Ctx<S, C>)
    requires WellBehaved(rule, halting) && c.head <= |c.tape| && c.state !in halting
    ensures Admissible(d, halting)
  {
    rule(Pad(c, blank))
  }

  /** The context after `n` iterations of `run`'s loop from `c`: an engine
      step from each state that is not halting, and no step once a halting
      state is reached. */
  function Iterate<S(!new), C(!new)>(rule: Ctx<S, C> --> Ctx<S, C>, blank: C, halting: iset<S>, c: Ctx<S, C>, n: nat): (d: Ctx<S, C>)
    requires WellBehaved(rule, halting) && Admissible(c, halting)
    ensures Admissible(d, halting)
  {
    if n == 0 then c
    else
      var e := Iterate(rule, blank, halting, c, n - 1);
      if e.state in halting then e else Next(rule, blank, halting, e)
  }

  /** The number of the first context from `c`, counting from `k`, whose
      state is a halting one, or `fuel` when none before `fuel` is. */
  ghost function FirstHaltFrom<S(!new), C(!new)>(rule: Ctx<S, C> --> Ctx<S, C>, blank: C, halting: iset<S>, c: Ctx<S, C>, k: nat, fuel: nat): nat
    requires WellBehaved(rule, halting) && Admissible(c, halting)
    decreases fuel - k
  {
    if fuel <= k then fuel
    else if Iterate(rule, blank, halting, c, k).state in halting then k
    else FirstHaltFrom(rule, blank, halting, c, k + 1, fuel)
  }

  /** How many steps a run with `fuel` takes from `c`: it stops at the first
      halting state, or when the fuel is used up. */
  ghost function RunLength<S(!new), C(!new)>(rule: Ctx<S, C> --> Ctx<S, C>, blank: C, halting: iset<S>, c: Ctx<S, C>, fuel: nat): nat
    requires WellBehaved(rule, halting) && Admissible(c, halting)
  {
    FirstHaltFrom(rule, blank, halting, c, 0, fuel)
  }

  /** The search from `k` ends at or after `k`, meets no halting state on
      the way, and ends short of `fuel` only on a halting state. */
  lemma {:induction false} FirstHaltFromMeaning<S(!new), C(!new)>(rule: Ctx<S, C> --> Ctx<S, C>, blank: C, halting: iset<S>, c: Ctx<S, C>, k: nat, fuel: nat)
    requires WellBehaved(rule, halting) && Admissible(c, halting) && k <= fuel
    ensures var n := FirstHaltFrom(rule, blank, halting, c, k, fuel);
      && k <= n <= fuel
      && (forall j :: k <= j < n ==> Iterate(rule, blank, halting, c, j).state !in halting)
      && (n < fuel ==> Iterate(rule, blank, halting, c, n).state in halting)
    decreases fuel - k
  {
    if k < fuel && Iterate(rule, blank, halting, c, k).state !in halting {
      FirstHaltFromMeaning(rule, blank, halting, c, k + 1, fuel);
    }
  }

  /** A run takes at most `fuel` steps, passes no halting state before its
      last context, stops early only in a halting state, and takes no step
      at all from a halting state. */
  lemma RunLengthMeaning<S(!new), C(!new)>(rule: Ctx<S, C> --> Ctx<S, C>, blank: C, halting: iset<S>, c: Ctx<S, C>, fuel: nat)
    requires WellBehaved(rule, halting) && Admissible(c, halting)
    ensures var n := RunLength(rule, blank, halting, c, fuel);
      && n <= fuel
      && (forall k :: 0 <= k < n ==> Iterate(rule, blank, halting, c, k).state !in halting)
      && (Iterate(rule, blank, halting, c, n).state in halting || n == fuel)
      && (c.state in halting ==> n == 0)
  {
    FirstHaltFromMeaning(rule, blank, halting, c, 0, fuel);
  }

  /** Under a local rule the stored tape never shrinks: each step adds 0, 1
      or 2 blanks and the rule keeps the length. */
  lemma {:induction false} LocalRuleTapeGrows<S(!new), C(!new)>(rule: Ctx<S, C> --> Ctx<S, C>, blank: C, halting: iset<S>, c: Ctx<S, C>, n: nat)
    requires Local(rule) && c.head <= |c.tape|
    ensures WellBehaved(rule, halting)
    ensures |c.tape| <= |Iterate(rule, blank, halting, c, n).tape| <= |c.tape| + 2 * n
  {
    LocalIsWellBehaved(rule, halting);
    if n > 0 {
      LocalRuleTapeGrows(rule, blank, halting, c, n - 1);
      var d := Iterate(rule, blank, halting, c, n - 1);
      if d.state !in halting {
        var p := Pad(d, blank);
        assert |d.tape| <= |p.tape| <= |d.tape| + 2;
        assert OnPaddedTape(p);
        assert |Iterate(rule, blank, halting, c, n).tape| == |rule(p).tape| == |p.tape|;
      }
    }
  }

  /** The machine of src/lib.rs. The trait implementations it is generic
      over (`S::default`, `S::is_halt`, `C::default`) are passed in as
      `alphabet` and `blank`. */
  class TuringMachine<S(==,!new), C(!new)> {
    var steps: nat
    var head: nat
    var tape: seq<C>
    var currentState: S
    const rule: Ctx<S, C> --> Ctx<S, C>
    const alphabet: StateAlphabet<S>
    const blank: C

    /** The machine's invariant: the head is on the tape or one past its
        end, unless the machine is in a halting state. */
    ghost predicate Valid()
      reads this
    {
      Admissible(Context(), alphabet.halting)
    }

    /** The part of the machine that the rule sees. */
    ghost function Context(): Ctx<S, C>
      reads this
    {
      Ctx(head, currentState, tape)
    }

    constructor (tape: seq<C>, rule: Ctx<S, C> --> Ctx<S, C>, alphabet: StateAlphabet<S>, blank: C)
      ensures Valid()
      ensures this.tape == tape && head == 0 && steps == 0 && currentState == alphabet.initial
      ensures this.rule == rule && this.alphabet == alphabet && this.blank == blank
    {
      this.tape := tape;
      head := 0;
      steps := 0;
      this.rule := rule;
      this.alphabet := alphabet;
      this.blank := blank;
      currentState := alphabet.initial;
    }

    /** Pads the tape, calls the rule exactly once and counts the step.
        `run` calls it only from a state that is not halting. */
    method Step()
      requires Valid() && WellBehaved(rule, alphabet.halting) && currentState !in alphabet.halting
      modifies this
      ensures Valid()
      ensures steps == old(steps) + 1
      ensures Context() == Next(rule, blank, alphabet.halting, old(Context()))
    {
      var h, t := head, tape;
      if h == 0 {
        t := [blank] + t;
        if |t| != 0 {
          h := h + 1;
        }
      }
      if h == |t| {
        t := t + [blank];
      }
      assert Ctx(h, currentState, t) == Pad(old(Context()), blank);
      var next := rule(Ctx(h, currentState, t));
      head, currentState, tape := next.head, next.state, next.tape;
      steps := steps + 1;
    }

    /** Steps until the state is a halting one, or until `fuel` steps have
        been taken. The result tells whether the machine halted. */
    method Run(fuel: nat) returns (halted: bool)
      requires Valid() && WellBehaved(rule, alphabet.halting)
      modifies this
      ensures Valid()
      ensures steps == old(steps) + RunLength(rule, blank, alphabet.halting, old(Context()), fuel)
      ensures Context() == Iterate(rule, blank, alphabet.halting, old(Context()), steps - old(steps))
      ensures halted <==> currentState in alphabet.halting
    {
      ghost var start := Context();
      var taken: nat := 0;
      while currentState !in alphabet.halting && taken < fuel
        invariant Valid()
        invariant taken <= fuel && steps == old(steps) + taken
        invariant Context() == Iterate(rule, blank, alphabet.halting, start, taken)
        invariant RunLength(rule, blank, alphabet.halting, start, fuel) == FirstHaltFrom(rule, blank, alphabet.halting, start, taken, fuel)
      {
        Step();
        taken := taken + 1;
      }
      halted := currentState in alphabet.halting;
    }

    /** The current tape, unchanged. */
    function Tape(): (t: seq<C>)
      reads this
      ensures t == tape
    {
      tape
    }

    /** The number of steps taken so far, unchanged. */
    function TotalSteps(): (n: nat)
      reads this
      ensures n == steps
    {
      steps
    }
  }
}
