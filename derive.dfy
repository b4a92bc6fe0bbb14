/**
 * The alphabet validation done by the `State` and `Color` derive macros of
 * derive/src/lib.rs. The macro input is reduced to the enum's name and its
 * variants, each with the flags its `#[halt]` and `#[default]` attributes
 * set; the generated code is reduced to the `is_halt` match arms and the
 * variant `Default::default` returns.
 */
module Derive {
  import opened Wrappers

  /** One enum variant: its identifier and which marker attributes it has. */
  datatype Variant = Variant(name: string, isHalt: bool, isDefault: bool)

  /** The shape of the item the derive is attached to. */
  datatype Data = Enum(variants: seq<Variant>) | Struct | Union

  datatype DeriveInput = DeriveInput(ident: string, data: Data)

  /** The panics the derives raise, one per message. */
  datatype DeriveError =
    | HaltAndDefault    // a variant marked both #[halt] and #[default]
    | MultipleDefaults  // a second variant marked #[default]
    | NoHalt            // no variant marked #[halt]
    | NoDefault         // no variant marked #[default]
    | NotAnEnum         // the derive is attached to a struct or a union

  /** One generated arm `Self::name => isHalt` of `is_halt`. */
  datatype Arm = Arm(variant: string, isHalt: bool)

  /** What `derive_state` generates for the type `forType`. */
  datatype StateImpl = StateImpl(forType: string, isHaltArms: seq<Arm>, default: string)

  /** What `derive_color` generates for the type `forType`. */
  datatype ColorImpl = ColorImpl(forType: string, default: string)

  /** The number of variants marked #[default]. */
  function CountDefaults(vs: seq<Variant>): (n: nat)
    ensures n <= |vs|
  {
    if |vs| == 0 then 0
    else CountDefaults(vs[..|vs| - 1]) + (if vs[|vs| - 1].isDefault then 1 else 0)
  }

  /** Some variant is marked #[halt]. */
  predicate HasHalt(vs: seq<Variant>)
  {
    exists i :: 0 <= i < |vs| && vs[i].isHalt
  }

  /** No variant of `vs` makes `derive_state` panic inside its loop: none is
      marked both #[halt] and #[default], and at most one is #[default]. */
  predicate Clean(vs: seq<Variant>)
  {
    && (forall i :: 0 <= i < |vs| ==> !(vs[i].isHalt && vs[i].isDefault))
    && CountDefaults(vs) <= 1
  }

  /** The variant list `derive_state` accepts. */
  predicate WellFormedStates(vs: seq<Variant>)
  {
    && (forall i :: 0 <= i < |vs| ==> !(vs[i].isHalt && vs[i].isDefault))
    && CountDefaults(vs) == 1
    && HasHalt(vs)
  }

  /** `v`, met after the variants `seen`, makes the loop panic. */
  predicate Offence(seen: seq<Variant>, v: Variant)
  {
    v.isDefault && (v.isHalt || CountDefaults(seen) >= 1)
  }

  /** A default count grows by one exactly at the default-marked variants. */
  lemma CountStep(vs: seq<Variant>, i: nat)
    requires i < |vs|
    ensures CountDefaults(vs[..i + 1]) == CountDefaults(vs[..i]) + (if vs[i].isDefault then 1 else 0)
  {
    assert vs[..i + 1][..i] == vs[..i];
  }

  /** The default count of a prefix never exceeds that of a longer prefix. */
  lemma {:induction false} CountPrefix(vs: seq<Variant>, i: nat, j: nat)
    requires i <= j <= |vs|
    ensures CountDefaults(vs[..i]) <= CountDefaults(vs[..j])
  {
    if i < j {
      CountPrefix(vs, i, j - 1);
      CountStep(vs, j - 1);
    }
  }

  /** A list with one default has no default but that one. */
  lemma {:induction false} OnlyDefault(vs: seq<Variant>, i: nat)
    requires i < |vs| && vs[i].isDefault && CountDefaults(vs) == 1
    ensures forall j :: 0 <= j < |vs| && vs[j].isDefault ==> j == i
  {
    assert vs[..|vs|] == vs;
    forall j | 0 <= j < |vs| && vs[j].isDefault
      ensures j == i
    {
      if j != i {
        var lo, hi := if i < j then i else j, if i < j then j else i;
        CountStep(vs, lo);
        CountPrefix(vs, 0, lo);
        CountPrefix(vs, lo + 1, hi);
        CountStep(vs, hi);
        CountPrefix(vs, hi + 1, |vs|);
        assert false;
      }
    }
  }

  /** A prefix is clean exactly when the prefix before it is clean and
      its last variant is not an offence. */
  lemma CleanStep(vs: seq<Variant>, i: nat)
    requires i < |vs|
    ensures Clean(vs[..i + 1]) <==> Clean(vs[..i]) && !Offence(vs[..i], vs[i])
  {
    CountStep(vs, i);
    assert vs[..i + 1][i] == vs[i];
    assert forall j :: 0 <= j < i ==> vs[..i + 1][j] == vs[..i][j];
  }

  /** A prefix has a #[halt] variant exactly when the prefix before it has
      one or its last variant is marked #[halt]. */
  lemma HaltStep(vs: seq<Variant>, i: nat)
    requires i < |vs|
    ensures HasHalt(vs[..i + 1]) <==> HasHalt(vs[..i]) || vs[i].isHalt
  {
    assert vs[..i + 1][i] == vs[i];
    assert forall j :: 0 <= j < i ==> vs[..i + 1][j] == vs[..i][j];
  }

  /** Every prefix of a clean prefix is clean. */
  lemma CleanPrefix(vs: seq<Variant>, i: nat, j: nat)
    requires i <= j <= |vs| && Clean(vs[..j])
    ensures Clean(vs[..i])
  {
    CountPrefix(vs, i, j);
    assert forall k :: 0 <= k < i ==> vs[..i][k] == vs[..j][k];
  }

  /** `derive_state` stops at a variant marked both #[halt] and #[default]
      met while no panic has yet been raised. */
  predicate StopsAtHaltAndDefault(vs: seq<Variant>)
  {
    exists i :: 0 <= i < |vs| && Clean(vs[..i]) && vs[i].isHalt && vs[i].isDefault
  }

  /** `derive_state` stops at a second #[default] variant (not marked
      #[halt]) met while no panic has yet been raised. */
  predicate StopsAtSecondDefault(vs: seq<Variant>)
  {
    exists i :: 0 <= i < |vs| && Clean(vs[..i]) && !vs[i].isHalt && vs[i].isDefault && CountDefaults(vs[..i]) >= 1
  }

  /** The scan stops at the first offence: once variant `i` offends after a
      clean prefix, its kind decides which panic is raised, and the whole
      list is not clean. */
  lemma FirstOffence(vs: seq<Variant>, i: nat)
    requires i < |vs| && Clean(vs[..i]) && Offence(vs[..i], vs[i])
    ensures StopsAtHaltAndDefault(vs) <==> vs[i].isHalt
    ensures StopsAtSecondDefault(vs) <==> !vs[i].isHalt
    ensures !Clean(vs)
  {
    CleanStep(vs, i);
    forall j | 0 <= j < |vs| && j != i && Clean(vs[..j])
      ensures !Offence(vs[..j], vs[j])
    {
      if j < i {
        CleanPrefix(vs, j + 1, i);
        CleanStep(vs, j);
      } else {
        CleanPrefix(vs, i + 1, j);
      }
    }
    if Clean(vs) {
      assert vs[..|vs|] == vs;
      CleanPrefix(vs, i + 1, |vs|);
    }
  }

  /** A clean list raises neither panic of the loop. */
  lemma CleanDoesNotStop(vs: seq<Variant>)
    requires Clean(vs)
    ensures !StopsAtHaltAndDefault(vs) && !StopsAtSecondDefault(vs)
  {
    assert vs[..|vs|] == vs;
    forall j | 0 <= j < |vs| && Clean(vs[..j])
      ensures !Offence(vs[..j], vs[j])
    {
      CleanPrefix(vs, j + 1, |vs|);
      CleanStep(vs, j);
    }
  }

  /** A prefix of a non-clean list that is clean is followed by an offence:
      some variant offends after a clean prefix. */
  lemma {:induction false} FirstUnclean(vs: seq<Variant>, j: nat)
    requires j <= |vs| && !Clean(vs[..j])
    ensures exists i :: 0 <= i < j && Clean(vs[..i]) && Offence(vs[..i], vs[i])
  {
    assert vs[..0] == [];
    CleanStep(vs, j - 1);
    if !Clean(vs[..j - 1]) {
      FirstUnclean(vs, j - 1);
    }
  }

  /** The loop of `derive_state` panics exactly on lists that are not clean,
      and never for both reasons at once. */
  lemma StopsIffUnclean(vs: seq<Variant>)
    ensures StopsAtHaltAndDefault(vs) || StopsAtSecondDefault(vs) <==> !Clean(vs)
    ensures !(StopsAtHaltAndDefault(vs) && StopsAtSecondDefault(vs))
  {
    if Clean(vs) {
      CleanDoesNotStop(vs);
    } else {
      assert vs[..|vs|] == vs;
      FirstUnclean(vs, |vs|);
      var i :| 0 <= i < |vs| && Clean(vs[..i]) && Offence(vs[..i], vs[i]);
      FirstOffence(vs, i);
    }
  }

  /** The name of the first variant marked #[default], if there is one. */
  function FirstDefault(vs: seq<Variant>): (r: Option<string>)
    ensures r.None? <==> CountDefaults(vs) == 0
    ensures r.Some? ==> exists i :: 0 <= i < |vs| && vs[i].isDefault && vs[i].name == r.value
  {
    if |vs| == 0 then None
    else
      var init := vs[..|vs| - 1];
      assert forall i :: 0 <= i < |init| ==> init[i] == vs[i];
      if FirstDefault(init).Some? then FirstDefault(init)
      else if vs[|vs| - 1].isDefault then Some(vs[|vs| - 1].name)
      else None
  }

  /** The first default of a prefix one variant longer. */
  lemma FirstDefaultStep(vs: seq<Variant>, i: nat)
    requires i < |vs|
    ensures FirstDefault(vs[..i + 1]) ==
      if FirstDefault(vs[..i]).Some? then FirstDefault(vs[..i])
      else if vs[i].isDefault then Some(vs[i].name) else None
  {
    assert vs[..i + 1][..i] == vs[..i];
  }

  /** One `is_halt` arm per variant, in declaration order. */
  function ArmsOf(vs: seq<Variant>): seq<Arm>
  {
    seq(|vs|, i requires 0 <= i < |vs| => Arm(vs[i].name, vs[i].isHalt))
  }

  /** The arms of a prefix one variant longer. */
  lemma ArmsStep(vs: seq<Variant>, i: nat)
    requires i < |vs|
    ensures ArmsOf(vs[..i + 1]) == ArmsOf(vs[..i]) + [Arm(vs[i].name, vs[i].isHalt)]
  {
  }

  /** What `derive_state` produces, case by case in the order its checks
      come: not an enum, a panic inside the loop, no #[halt] variant, no
      #[default] variant, and otherwise the generated impl. */
  function StateOutcome(input: DeriveInput): Result<StateImpl, DeriveError>
  {
    if !input.data.Enum? then Failure(NotAnEnum)
    else
      var vs := input.data.variants;
      if StopsAtHaltAndDefault(vs) then Failure(HaltAndDefault)
      else if StopsAtSecondDefault(vs) then Failure(MultipleDefaults)
      else if !HasHalt(vs) then Failure(NoHalt)
      else if FirstDefault(vs).None? then Failure(NoDefault)
      else Success(StateImpl(input.ident, ArmsOf(vs), FirstDefault(vs).value))
  }

  /** Each outcome of `derive_state` in terms of the variant list alone:
      which lists raise which panic, that it accepts exactly the
      well-formed lists, and what the accepted impl contains. */
  lemma StateOutcomeCases(input: DeriveInput)
    ensures StateOutcome(input) == Failure(NotAnEnum) <==> !input.data.Enum?
    ensures input.data.Enum? ==> var vs, r := input.data.variants, StateOutcome(input);
      && (r == Failure(HaltAndDefault) <==> StopsAtHaltAndDefault(vs))
      && (r == Failure(MultipleDefaults) <==> StopsAtSecondDefault(vs))
      && (r == Failure(NoHalt) <==> Clean(vs) && !HasHalt(vs))
      && (r == Failure(NoDefault) <==> Clean(vs) && HasHalt(vs) && CountDefaults(vs) == 0)
      && (r.Success? <==> WellFormedStates(vs))
    ensures StateOutcome(input).Success? ==> var vs, impl := input.data.variants, StateOutcome(input).value;
      && impl.forType == input.ident
      && |impl.isHaltArms| == |vs|
      && (forall i :: 0 <= i < |vs| ==> impl.isHaltArms[i] == Arm(vs[i].name, vs[i].isHalt))
      && (exists i :: 0 <= i < |vs| && vs[i].isDefault && vs[i].name == impl.default)
      && (forall i :: 0 <= i < |vs| && vs[i].isDefault ==> vs[i].name == impl.default)
  {
    if input.data.Enum? {
      var vs := input.data.variants;
      StopsIffUnclean(vs);
      if FirstDefault(vs).Some? && CountDefaults(vs) == 1 {
        var d :| 0 <= d < |vs| && vs[d].isDefault && vs[d].name == FirstDefault(vs).value;
        OnlyDefault(vs, d);
      }
    }
  }

  /** A `derive_state` scan that meets an offence after a clean prefix
      panics there, with the panic the offending variant calls for. */
  lemma StopsAt(input: DeriveInput, i: nat)
    requires input.data.Enum? && i < |input.data.variants|
    requires Clean(input.data.variants[..i]) && Offence(input.data.variants[..i], input.data.variants[i])
    ensures StateOutcome(input) ==
      if input.data.variants[i].isHalt then Failure(HaltAndDefault) else Failure(MultipleDefaults)
  {
    FirstOffence(input.data.variants, i);
  }

  /** A `derive_state` scan that gets through the whole list ends with the
      #[halt] and #[default] checks. */
  lemma ScanCompletes(input: DeriveInput, hasHalt: bool, defaultVariant: Option<string>, arms: seq<Arm>)
    requires input.data.Enum? && Clean(input.data.variants)
    requires hasHalt <==> HasHalt(input.data.variants)
    requires defaultVariant == FirstDefault(input.data.variants)
    requires arms == ArmsOf(input.data.variants)
    ensures StateOutcome(input) ==
      if !hasHalt then Failure(NoHalt)
      else if defaultVariant.None? then Failure(NoDefault)
      else Success(StateImpl(input.ident, arms, defaultVariant.value))
  {
    CleanDoesNotStop(input.data.variants);
  }

  /** `derive_state`: scans the variants in order, panicking at the first
      variant marked both #[halt] and #[default] or at a second #[default],
      then requires a #[halt] variant and then a #[default] one. */
  method DeriveState(input: DeriveInput) returns (r: Result<StateImpl, DeriveError>)
    ensures r == StateOutcome(input)
  {
    if !input.data.Enum? {
      return Failure(NotAnEnum);
    }
    var vs := input.data.variants;
    var defaultVariant: Option<string> := None;
    var arms: seq<Arm> := [];
    var hasHalt := false;
    for i := 0 to |vs|
      invariant Clean(vs[..i])
      invariant hasHalt <==> HasHalt(vs[..i])
      invariant defaultVariant == FirstDefault(vs[..i])
      invariant arms == ArmsOf(vs[..i])
    {
      var v := vs[i];
      CleanStep(vs, i);
      HaltStep(vs, i);
      FirstDefaultStep(vs, i);
      ArmsStep(vs, i);
      if v.isHalt && v.isDefault {
        StopsAt(input, i);
        return Failure(HaltAndDefault);
      }
      if v.isHalt {
        hasHalt := true;
      }
      arms := arms + [Arm(v.name, v.isHalt)];
      if v.isDefault {
        if defaultVariant.Some? {
          StopsAt(input, i);
          return Failure(MultipleDefaults);
        }
        defaultVariant := Some(v.name);
      }
    }
    assert vs[..|vs|] == vs;
    ScanCompletes(input, hasHalt, defaultVariant, arms);
    if !hasHalt {
      return Failure(NoHalt);
    }
    if defaultVariant.None? {
      return Failure(NoDefault);
    }
    r := Success(StateImpl(input.ident, arms, defaultVariant.value));
  }

  /** What `derive_color` produces: not an enum, a second #[default]
      variant, no #[default] variant, and otherwise the generated impl. */
  function ColorOutcome(input: DeriveInput): Result<ColorImpl, DeriveError>
  {
    if !input.data.Enum? then Failure(NotAnEnum)
    else
      var vs := input.data.variants;
      if CountDefaults(vs) >= 2 then Failure(MultipleDefaults)
      else if FirstDefault(vs).None? then Failure(NoDefault)
      else Success(ColorImpl(input.ident, FirstDefault(vs).value))
  }

  /** Each outcome of `derive_color` in terms of the number of #[default]
      variants, and the accepted impl defaults to the one such variant. */
  lemma ColorOutcomeCases(input: DeriveInput)
    ensures ColorOutcome(input) == Failure(NotAnEnum) <==> !input.data.Enum?
    ensures input.data.Enum? ==> var vs, r := input.data.variants, ColorOutcome(input);
      && (r == Failure(MultipleDefaults) <==> CountDefaults(vs) >= 2)
      && (r == Failure(NoDefault) <==> CountDefaults(vs) == 0)
      && (r.Success? <==> CountDefaults(vs) == 1)
    ensures ColorOutcome(input).Success? ==> var vs, impl := input.data.variants, ColorOutcome(input).value;
      && impl.forType == input.ident
      && (exists i :: 0 <= i < |vs| && vs[i].isDefault && vs[i].name == impl.default)
      && (forall i :: 0 <= i < |vs| && vs[i].isDefault ==> vs[i].name == impl.default)
  {
    if input.data.Enum? {
      var vs := input.data.variants;
      if FirstDefault(vs).Some? && CountDefaults(vs) == 1 {
        var d :| 0 <= d < |vs| && vs[d].isDefault && vs[d].name == FirstDefault(vs).value;
        OnlyDefault(vs, d);
      }
    }
  }

  /** `derive_color`: requires exactly one #[default] variant, panicking at
      the second one met; #[halt] markers play no part. */
  method DeriveColor(input: DeriveInput) returns (r: Result<ColorImpl, DeriveError>)
    ensures r == ColorOutcome(input)
  {
    if !input.data.Enum? {
      return Failure(NotAnEnum);
    }
    var vs := input.data.variants;
    var defaultVariant: Option<string> := None;
    for i := 0 to |vs|
      invariant CountDefaults(vs[..i]) <= 1
      invariant defaultVariant == FirstDefault(vs[..i])
    {
      CountStep(vs, i);
      FirstDefaultStep(vs, i);
      if vs[i].isDefault {
        if defaultVariant.Some? {
          CountPrefix(vs, i + 1, |vs|);
          assert vs[..|vs|] == vs;
          return Failure(MultipleDefaults);
        }
        defaultVariant := Some(vs[i].name);
      }
    }
    assert vs[..|vs|] == vs;
    if defaultVariant.None? {
      return Failure(NoDefault);
    }
    r := Success(ColorImpl(input.ident, defaultVariant.value));
  }

  /** The generated `is_halt` on the variant called `name`: the first arm for
      that variant decides, as in a Rust `match`; None when no arm matches. */
  function EvalArms(arms: seq<Arm>, name: string): (r: Option<bool>)
    ensures r.None? <==> forall i :: 0 <= i < |arms| ==> arms[i].variant != name
  {
    if |arms| == 0 then None
    else if arms[0].variant == name then Some(arms[0].isHalt)
    else EvalArms(arms[1..], name)
  }

  /** Variants of one enum have pairwise distinct names. */
  predicate DistinctNames(vs: seq<Variant>)
  {
    forall i, j :: 0 <= i < j < |vs| ==> vs[i].name != vs[j].name
  }

  /** With one arm per variant in order, `is_halt` on a variant returns its
      #[halt] flag. */
  lemma {:induction false} ArmsDecideHalt(vs: seq<Variant>, arms: seq<Arm>, i: nat)
    requires DistinctNames(vs) && i < |vs|
    requires |arms| == |vs| && forall j :: 0 <= j < |vs| ==> arms[j] == Arm(vs[j].name, vs[j].isHalt)
    ensures EvalArms(arms, vs[i].name) == Some(vs[i].isHalt)
  {
    if i > 0 {
      assert arms[0].variant == vs[0].name != vs[i].name;
      assert forall j :: 0 <= j < |vs| - 1 ==> arms[1..][j] == Arm(vs[1..][j].name, vs[1..][j].isHalt);
      ArmsDecideHalt(vs[1..], arms[1..], i - 1);
    }
  }
}
