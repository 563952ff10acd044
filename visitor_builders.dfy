/** The validation builders of `CommandLine` (`RadioValidationBuilder`,
    `GroupedValidationBuilder`, `BasicValidationBuilder`): the option names a visit
    tells them, the nested builders attached to them, and `validate(seenOptions)`,
    which enforces a group's or a radio's cardinality over the set of options given. */
module VisitorBuilders {
  import opened Wrappers
  import opened Text
  import opened Context

  /** A validation builder: the option names it was told about, and the positions in the
      builder list of the builders of its nested groups. A radio keeps one set of names
      (`oneOf`), the others keep the required and the optional ones apart. */
  datatype VBuilder =
    | BasicVB(required: seq<string>, optional: seq<string>, subs: seq<nat>)
    | RadioVB(isRequired: bool, oneOf: seq<string>, subs: seq<nat>)
    | GroupedVB(isRequired: bool, required: seq<string>, optional: seq<string>, subs: seq<nat>)

  predicate Distinct(s: seq<string>) {
    forall j, k :: 0 <= j < k < |s| ==> s[j] != s[k]
  }

  /** `LinkedHashSet.add(n)`: appended unless already there. */
  function AddName(s: seq<string>, n: string): (r: seq<string>)
    ensures Distinct(s) ==> Distinct(r)
    ensures forall m :: m in r <==> m in s || m == n
    ensures s <= r
  {
    if n in s then s else s + [n]
  }

  /** `addRequired(name)`: a radio does not tell required names from optional ones. */
  function AddRequired(b: VBuilder, n: string): (b': VBuilder)
    ensures b'.subs == b.subs && BuilderRequired(b') == BuilderRequired(b)
    ensures b'.BasicVB? == b.BasicVB? && b'.RadioVB? == b.RadioVB?
    ensures b.RadioVB? ==> b'.oneOf == AddName(b.oneOf, n)
    ensures !b.RadioVB? ==> b'.required == AddName(b.required, n) && b'.optional == b.optional
  {
    match b
    case BasicVB(r, o, s) => BasicVB(AddName(r, n), o, s)
    case RadioVB(q, one, s) => RadioVB(q, AddName(one, n), s)
    case GroupedVB(q, r, o, s) => GroupedVB(q, AddName(r, n), o, s)
  }

  /** `addOptional(name)`. */
  function AddOptional(b: VBuilder, n: string): (b': VBuilder)
    ensures b'.subs == b.subs && BuilderRequired(b') == BuilderRequired(b)
    ensures b'.BasicVB? == b.BasicVB? && b'.RadioVB? == b.RadioVB?
    ensures b.RadioVB? ==> b'.oneOf == AddName(b.oneOf, n)
    ensures !b.RadioVB? ==> b'.optional == AddName(b.optional, n) && b'.required == b.required
  {
    match b
    case BasicVB(r, o, s) => BasicVB(r, AddName(o, n), s)
    case RadioVB(q, one, s) => RadioVB(q, AddName(one, n), s)
    case GroupedVB(q, r, o, s) => GroupedVB(q, r, AddName(o, n), s)
  }

  /** `addGroup(sub)`. */
  function AddGroup(b: VBuilder, i: nat): (b': VBuilder)
    ensures b' == b.(subs := b.subs + [i])
  {
    b.(subs := b.subs + [i])
  }

  /** `isRequired()`: always true for the basic builder. */
  function BuilderRequired(b: VBuilder): bool {
    if b.BasicVB? then true else b.isRequired
  }

  predicate NamesDistinct(b: VBuilder) {
    if b.RadioVB? then Distinct(b.oneOf) else Distinct(b.required) && Distinct(b.optional)
  }


  // ------------------------------------------------------------------ validate

  /** Every builder's nested builders come after it in the builder list. */
  predicate SubsAfter(bs: seq<VBuilder>) {
    forall i, k :: 0 <= i < |bs| && 0 <= k < |bs[i].subs| ==> i < bs[i].subs[k] < |bs|
  }

  /** The names that were given, in order: the first loop of the radio's `validate`. */
  function SeenNames(names: seq<string>, seen: set<string>): (r: seq<string>)
    ensures forall n :: n in r <==> n in names && n in seen
  {
    if |names| == 0 then []
    else
      var last := names[|names| - 1];
      assert names == names[..|names| - 1] + [last];
      SeenNames(names[..|names| - 1], seen) + (if last in seen then [last] else [])
  }

  /** The names that were not given, in order: the first loop of the grouped `validate`. */
  function MissingNames(names: seq<string>, seen: set<string>): (r: seq<string>)
    ensures forall n :: n in r <==> n in names && n !in seen
  {
    if |names| == 0 then []
    else
      var last := names[|names| - 1];
      assert names == names[..|names| - 1] + [last];
      MissingNames(names[..|names| - 1], seen) + (if last !in seen then [last] else [])
  }

  /** A `ValidationError` thrown by the engine itself: a message and no cause. */
  predicate IsEngineError(e: Exn) {
    e.CliValidation? && e.kind == ValidationErrorKind && e.message.Some? && e.cause.None?
  }

  const RadioSawMany := "must choose at only 1 radio option but saw : "
  const RadioSawNone := "must choose radio option of either : "
  const GroupedMissing := "required options must be present :"

  /** `validate(seenOptions)` of builder `i`: whether it counts as chosen, or the
      `ValidationError` it throws. `name(k)` stands for builder `k`'s `toString()`. */
  function Validate(bs: seq<VBuilder>, i: nat, seen: set<string>, name: nat -> string): (r: Result<bool, Exn>)
    requires SubsAfter(bs) && i < |bs|
    ensures r.Err? ==> IsEngineError(r.error)
    decreases |bs| - i, 1
  {
    match bs[i]
    case BasicVB(_, _, _) => Ok(true)
    case RadioVB(q, oneOf, subs) =>
      (match Chosen(bs, i, subs, seen, name)
       case Err(e) => Err(e)
       case Ok(picked) => RadioVerdict(q, oneOf, SeenNames(oneOf, seen) + picked))
    case GroupedVB(q, req, _, subs) =>
      match Unmet(bs, i, subs, seen, name)
      case Err(e) => Err(e)
      case Ok(failed) => GroupedVerdict(q, req, MissingNames(req, seen) + failed)
  }

  /** The end of the radio's `validate`, given what it saw. */
  function RadioVerdict(q: bool, oneOf: seq<string>, saw: seq<string>): (r: Result<bool, Exn>)
    ensures r.Err? <==> |saw| > 1 || (q && saw == [])
    ensures r.Err? ==> IsEngineError(r.error)
    ensures r.Ok? ==> (r.value <==> |saw| == 1)
  {
    if |saw| > 1 then Err(WithMessage(ValidationErrorKind, RadioSawMany + ListToString(saw)))
    else if |saw| == 0 && q then Err(WithMessage(ValidationErrorKind, RadioSawNone + ListToString(oneOf)))
    else Ok(|saw| == 1)
  }

  /** The end of the grouped `validate`, given what it found missing. */
  function GroupedVerdict(q: bool, req: seq<string>, missing: seq<string>): (r: Result<bool, Exn>)
    ensures r.Err? <==> missing != [] && (q || |missing| != |req|)
    ensures r.Err? ==> IsEngineError(r.error)
    ensures r == Ok(true) <==> q && missing == []
  {
    if |missing| > 0 && (q || |missing| != |req|) then
      Err(WithMessage(ValidationErrorKind, GroupedMissing + ListToString(missing)))
    else Ok(q && |missing| == 0)
  }

  /** The radio's loop over its nested builders `ks`: the labels of those whose
      `validate` returned true, in order; the first exception ends the loop. */
  function Chosen(bs: seq<VBuilder>, i: nat, ks: seq<nat>, seen: set<string>, name: nat -> string): (r: Result<seq<string>, Exn>)
    requires SubsAfter(bs) && i < |bs|
    requires forall k :: 0 <= k < |ks| ==> i < ks[k] < |bs|
    ensures r.Err? ==> IsEngineError(r.error)
    ensures r.Ok? ==> |r.value| <= |ks|
    decreases |bs| - i, 0, |ks|
  {
    if |ks| == 0 then Ok([])
    else
      match Chosen(bs, i, ks[..|ks| - 1], seen, name)
      case Err(e) => Err(e)
      case Ok(p) =>
        var k := ks[|ks| - 1];
        match Validate(bs, k, seen, name)
        case Err(e) => Err(e)
        case Ok(b) => Ok(p + if b then [name(k)] else [])
  }

  /** The grouped builder's loop over its nested builders `ks`: the labels of the
      required ones whose `validate` returned false, in order; the optional ones are
      not validated; the first exception ends the loop. */
  function Unmet(bs: seq<VBuilder>, i: nat, ks: seq<nat>, seen: set<string>, name: nat -> string): (r: Result<seq<string>, Exn>)
    requires SubsAfter(bs) && i < |bs|
    requires forall k :: 0 <= k < |ks| ==> i < ks[k] < |bs|
    ensures r.Err? ==> IsEngineError(r.error)
    ensures r.Ok? ==> |r.value| <= |ks|
    decreases |bs| - i, 0, |ks|
  {
    if |ks| == 0 then Ok([])
    else
      match Unmet(bs, i, ks[..|ks| - 1], seen, name)
      case Err(e) => Err(e)
      case Ok(p) =>
        var k := ks[|ks| - 1];
        if !BuilderRequired(bs[k]) then Ok(p)
        else
          match Validate(bs, k, seen, name)
          case Err(e) => Err(e)
          case Ok(b) => Ok(p + if b then [] else [name(k)])
  }

  /** The loop of `parse` over the builder list: builders `0 .. n-1` validated in order;
      the first exception ends it. */
  function ValidateAll(bs: seq<VBuilder>, n: nat, seen: set<string>, name: nat -> string): (r: Outcome<Exn>)
    requires SubsAfter(bs) && n <= |bs|
    ensures r == Pass ==> forall i :: 0 <= i < n ==> Validate(bs, i, seen, name).Ok?
    ensures r.Fail? ==> exists i :: (0 <= i < n && Validate(bs, i, seen, name) == Err(r.error) &&
              forall j :: 0 <= j < i ==> Validate(bs, j, seen, name).Ok?)
  {
    if n == 0 then Pass
    else
      match ValidateAll(bs, n - 1, seen, name)
      case Fail(e) => Fail(e)
      case Pass =>
        match Validate(bs, n - 1, seen, name)
        case Err(e) => assert Validate(bs, n - 1, seen, name) == Err(e); Fail(e)
        case Ok(_) => Pass
  }

  /** `parse`'s loop passes exactly when every builder returns normally. */
  lemma {:induction false} ValidateAllPass(bs: seq<VBuilder>, n: nat, seen: set<string>, name: nat -> string)
    requires SubsAfter(bs) && n <= |bs|
    requires forall i :: 0 <= i < n ==> Validate(bs, i, seen, name).Ok?
    ensures ValidateAll(bs, n, seen, name) == Pass
  {
    if n > 0 {
      ValidateAllPass(bs, n - 1, seen, name);
    }
  }

  /** Once a builder has thrown, `parse`'s loop validates no further builder. */
  lemma {:induction false} ValidateAllStops(bs: seq<VBuilder>, n: nat, m: nat, seen: set<string>, name: nat -> string)
    requires SubsAfter(bs) && n <= m <= |bs| && ValidateAll(bs, n, seen, name).Fail?
    ensures ValidateAll(bs, m, seen, name) == ValidateAll(bs, n, seen, name)
    decreases m - n
  {
    if n < m {
      ValidateAllStops(bs, n, m - 1, seen, name);
    }
  }

  // -------------------------------------------------------- what validate means

  /** Some of `names` were given. */
  predicate SomeSeen(names: seq<string>, seen: set<string>) {
    exists n :: n in names && n in seen
  }

  /** Some of `names` were not given. */
  predicate SomeMissing(names: seq<string>, seen: set<string>) {
    exists n :: n in names && n !in seen
  }

  /** Two different names of `names` were given. */
  predicate TwoSeen(names: seq<string>, seen: set<string>) {
    exists a, b :: a != b && a in names && b in names && a in seen && b in seen
  }

  /** Every name is either given or missing. */
  lemma {:induction false} SeenMissingCount(names: seq<string>, seen: set<string>)
    ensures |SeenNames(names, seen)| + |MissingNames(names, seen)| == |names|
  {
    if |names| > 0 {
      SeenMissingCount(names[..|names| - 1], seen);
    }
  }

  /** The names given of a list of different names are different. */
  lemma {:induction false} SeenNamesDistinct(names: seq<string>, seen: set<string>)
    requires Distinct(names)
    ensures Distinct(SeenNames(names, seen))
  {
    if |names| > 0 {
      var init := names[..|names| - 1];
      assert Distinct(init) by {
        forall j, k | 0 <= j < k < |init| ensures init[j] != init[k] {
          assert init[j] == names[j] && init[k] == names[k];
        }
      }
      SeenNamesDistinct(init, seen);
      var last := names[|names| - 1];
      assert last !in init by {
        forall j | 0 <= j < |init| ensures init[j] != last {
          assert init[j] == names[j];
        }
      }
    }
  }

  /** Of a list of different names, more than one is given exactly when two different
      ones are. */
  lemma ManySeen(names: seq<string>, seen: set<string>)
    requires Distinct(names)
    ensures |SeenNames(names, seen)| > 1 <==> TwoSeen(names, seen)
    ensures |SeenNames(names, seen)| == 0 <==> !SomeSeen(names, seen)
  {
    var saw := SeenNames(names, seen);
    SeenNamesDistinct(names, seen);
    if |saw| > 1 {
      assert saw[0] != saw[1] && saw[0] in saw && saw[1] in saw;
    }
    if TwoSeen(names, seen) {
      var a, b :| a != b && a in names && b in names && a in seen && b in seen;
      assert a in saw && b in saw;
    }
    if |saw| > 0 {
      assert saw[0] in saw;
    }
  }

  /** A radio with no nested groups, whose names are different (`oneOf` is a
      `LinkedHashSet`), throws exactly when two of its names were given, or when none
      was and it is required; otherwise it counts as chosen exactly when one of its
      names was given. */
  lemma RadioOfNames(bs: seq<VBuilder>, i: nat, seen: set<string>, name: nat -> string)
    requires SubsAfter(bs) && i < |bs| && bs[i].RadioVB? && bs[i].subs == [] && Distinct(bs[i].oneOf)
    ensures var r := Validate(bs, i, seen, name); var one := bs[i].oneOf;
      && (r.Err? <==> TwoSeen(one, seen) || (bs[i].isRequired && !SomeSeen(one, seen)))
      && (r.Ok? ==> (r.value <==> SomeSeen(one, seen)))
  {
    var one := bs[i].oneOf;
    ManySeen(one, seen);
    assert SeenNames(one, seen) + [] == SeenNames(one, seen);
  }

  /** A required builder that returns normally counts as chosen: a required radio or
      group that is not satisfied throws instead of returning false. */
  lemma RequiredChosen(bs: seq<VBuilder>, i: nat, seen: set<string>, name: nat -> string)
    requires SubsAfter(bs) && i < |bs| && BuilderRequired(bs[i])
    ensures Validate(bs, i, seen, name).Ok? ==> Validate(bs, i, seen, name).value
  {
  }

  /** So the grouped builder's loop over its nested builders never finds one missing. */
  lemma {:induction false} UnmetNothing(bs: seq<VBuilder>, i: nat, ks: seq<nat>, seen: set<string>, name: nat -> string)
    requires SubsAfter(bs) && i < |bs|
    requires forall k :: 0 <= k < |ks| ==> i < ks[k] < |bs|
    ensures Unmet(bs, i, ks, seen, name).Ok? ==> Unmet(bs, i, ks, seen, name).value == []
  {
    if |ks| > 0 {
      UnmetNothing(bs, i, ks[..|ks| - 1], seen, name);
      if BuilderRequired(bs[ks[|ks| - 1]]) {
        RequiredChosen(bs, ks[|ks| - 1], seen, name);
      }
    }
  }

  /** A grouped builder whose nested builders all return normally throws exactly when
      some of its required names are missing and it is required or another of its
      required names was given (an optional group is all or nothing); otherwise it
      counts as chosen exactly when it is required and has all its required names. */
  lemma GroupedOfNames(bs: seq<VBuilder>, i: nat, seen: set<string>, name: nat -> string)
    requires SubsAfter(bs) && i < |bs| && bs[i].GroupedVB?
    ensures var r := Validate(bs, i, seen, name); var u := Unmet(bs, i, bs[i].subs, seen, name);
      var req := bs[i].required;
      && (u.Err? ==> r == Err(u.error))
      && (u.Ok? ==> (r.Err? <==> SomeMissing(req, seen) && (bs[i].isRequired || SomeSeen(req, seen))))
      && (u.Ok? && r.Ok? ==> (r.value <==> bs[i].isRequired && !SomeMissing(req, seen)))
  {
    var req := bs[i].required;
    UnmetNothing(bs, i, bs[i].subs, seen, name);
    SeenMissingCount(req, seen);
    var m := MissingNames(req, seen);
    assert m + [] == m;
    if |m| > 0 {
      assert m[0] in m;
    }
    var s := SeenNames(req, seen);
    if |s| > 0 {
      assert s[0] in s;
    }
  }

  /** The basic builder always returns true. */
  lemma BasicChosen(bs: seq<VBuilder>, i: nat, seen: set<string>, name: nat -> string)
    requires SubsAfter(bs) && i < |bs| && bs[i].BasicVB?
    ensures Validate(bs, i, seen, name) == Ok(true) && BuilderRequired(bs[i])
  {
  }

  // ------------------------------------------------------- validate, loop by loop

  /** `validate(seenOptions)` as the builders run it, each kind of builder by its own
      method. */
  method ValidateLoop(bs: seq<VBuilder>, i: nat, seen: set<string>, name: nat -> string) returns (r: Result<bool, Exn>)
    requires SubsAfter(bs) && i < |bs|
    ensures r == Validate(bs, i, seen, name)
    decreases |bs| - i, 1
  {
    if bs[i].BasicVB? {
      r := Ok(true);
    } else if bs[i].RadioVB? {
      r := RadioLoop(bs, i, seen, name);
    } else {
      r := GroupedLoop(bs, i, seen, name);
    }
  }

  /** The radio's `validate`: a loop over its names, a loop over its nested builders,
      then the verdict. */
  method RadioLoop(bs: seq<VBuilder>, i: nat, seen: set<string>, name: nat -> string) returns (r: Result<bool, Exn>)
    requires SubsAfter(bs) && i < |bs| && bs[i].RadioVB?
    ensures r == Validate(bs, i, seen, name)
    decreases |bs| - i, 0
  {
    var q, oneOf, subs := bs[i].isRequired, bs[i].oneOf, bs[i].subs;
    var saw := SeenLoop(oneOf, seen);
    var picked := [];
    for k := 0 to |subs|
      invariant Chosen(bs, i, subs[..k], seen, name) == Ok(picked)
    {
      var v := ValidateLoop(bs, subs[k], seen, name);
      ChosenStep(bs, i, subs, k, seen, name, picked);
      if v.Err? {
        ChosenStops(bs, i, subs, k + 1, seen, name);
        return Err(v.error);
      }
      if v.value {
        picked := picked + [name(subs[k])];
      }
    }
    assert subs[..|subs|] == subs;
    saw := saw + picked;
    if |saw| > 1 {
      return Err(WithMessage(ValidationErrorKind, RadioSawMany + ListToString(saw)));
    }
    if |saw| == 0 && q {
      return Err(WithMessage(ValidationErrorKind, RadioSawNone + ListToString(oneOf)));
    }
    r := Ok(|saw| == 1);
  }

  /** The grouped builder's `validate`: a loop over its required names, a loop over its
      required nested builders, then the verdict. */
  method GroupedLoop(bs: seq<VBuilder>, i: nat, seen: set<string>, name: nat -> string) returns (r: Result<bool, Exn>)
    requires SubsAfter(bs) && i < |bs| && bs[i].GroupedVB?
    ensures r == Validate(bs, i, seen, name)
    decreases |bs| - i, 0
  {
    var q, req, subs := bs[i].isRequired, bs[i].required, bs[i].subs;
    var missing := MissingLoop(req, seen);
    var failed := [];
    for k := 0 to |subs|
      invariant Unmet(bs, i, subs[..k], seen, name) == Ok(failed)
    {
      UnmetStep(bs, i, subs, k, seen, name, failed);
      if BuilderRequired(bs[subs[k]]) {
        var v := ValidateLoop(bs, subs[k], seen, name);
        if v.Err? {
          UnmetStops(bs, i, subs, k + 1, seen, name);
          return Err(v.error);
        }
        if !v.value {
          failed := failed + [name(subs[k])];
        }
      }
    }
    assert subs[..|subs|] == subs;
    missing := missing + failed;
    if |missing| > 0 && (q || |missing| != |req|) {
      return Err(WithMessage(ValidationErrorKind, GroupedMissing + ListToString(missing)));
    }
    r := Ok(q && |missing| == 0);
  }

  /** The loop collecting the names that were given. */
  method SeenLoop(names: seq<string>, seen: set<string>) returns (saw: seq<string>)
    ensures saw == SeenNames(names, seen)
  {
    saw := [];
    for k := 0 to |names|
      invariant saw == SeenNames(names[..k], seen)
    {
      assert names[..k + 1][..k] == names[..k];
      if names[k] in seen {
        saw := saw + [names[k]];
      }
    }
    assert names[..|names|] == names;
  }

  /** The loop collecting the names that were not given. */
  method MissingLoop(names: seq<string>, seen: set<string>) returns (missing: seq<string>)
    ensures missing == MissingNames(names, seen)
  {
    missing := [];
    for k := 0 to |names|
      invariant missing == MissingNames(names[..k], seen)
    {
      assert names[..k + 1][..k] == names[..k];
      if names[k] !in seen {
        missing := missing + [names[k]];
      }
    }
    assert names[..|names|] == names;
  }

  /** One more turn of the radio's loop over its nested builders. */
  lemma ChosenStep(bs: seq<VBuilder>, i: nat, ks: seq<nat>, k: nat, seen: set<string>, name: nat -> string, p: seq<string>)
    requires SubsAfter(bs) && i < |bs| && (forall j :: 0 <= j < |ks| ==> i < ks[j] < |bs|)
    requires k < |ks| && Chosen(bs, i, ks[..k], seen, name) == Ok(p)
    ensures var v := Validate(bs, ks[k], seen, name); var c := Chosen(bs, i, ks[..k + 1], seen, name);
      && (v.Err? ==> c == Err(v.error))
      && (v == Ok(true) ==> c == Ok(p + [name(ks[k])]))
      && (v == Ok(false) ==> c == Ok(p))
  {
    assert ks[..k + 1][..k] == ks[..k] && ks[..k + 1][k] == ks[k];
    assert p + [] == p;
  }

  /** One more turn of the grouped builder's loop over its nested builders. */
  lemma UnmetStep(bs: seq<VBuilder>, i: nat, ks: seq<nat>, k: nat, seen: set<string>, name: nat -> string, p: seq<string>)
    requires SubsAfter(bs) && i < |bs| && (forall j :: 0 <= j < |ks| ==> i < ks[j] < |bs|)
    requires k < |ks| && Unmet(bs, i, ks[..k], seen, name) == Ok(p)
    ensures var v := Validate(bs, ks[k], seen, name); var u := Unmet(bs, i, ks[..k + 1], seen, name);
      && (!BuilderRequired(bs[ks[k]]) ==> u == Ok(p))
      && (BuilderRequired(bs[ks[k]]) && v.Err? ==> u == Err(v.error))
      && (BuilderRequired(bs[ks[k]]) && v == Ok(true) ==> u == Ok(p))
      && (BuilderRequired(bs[ks[k]]) && v == Ok(false) ==> u == Ok(p + [name(ks[k])]))
  {
    assert ks[..k + 1][..k] == ks[..k] && ks[..k + 1][k] == ks[k];
    assert p + [] == p;
  }

  /** Once the radio's loop over its nested builders has thrown, the rest is skipped. */
  lemma {:induction false} ChosenStops(bs: seq<VBuilder>, i: nat, ks: seq<nat>, k: nat, seen: set<string>, name: nat -> string)
    requires SubsAfter(bs) && i < |bs| && (forall j :: 0 <= j < |ks| ==> i < ks[j] < |bs|)
    requires k <= |ks| && Chosen(bs, i, ks[..k], seen, name).Err?
    ensures Chosen(bs, i, ks, seen, name) == Chosen(bs, i, ks[..k], seen, name)
    decreases |ks| - k
  {
    if k < |ks| {
      assert ks[..k + 1][..k] == ks[..k];
      ChosenStops(bs, i, ks, k + 1, seen, name);
    } else {
      assert ks[..k] == ks;
    }
  }

  /** Once the grouped builder's loop over its nested builders has thrown, the rest is
      skipped. */
  lemma {:induction false} UnmetStops(bs: seq<VBuilder>, i: nat, ks: seq<nat>, k: nat, seen: set<string>, name: nat -> string)
    requires SubsAfter(bs) && i < |bs| && (forall j :: 0 <= j < |ks| ==> i < ks[j] < |bs|)
    requires k <= |ks| && Unmet(bs, i, ks[..k], seen, name).Err?
    ensures Unmet(bs, i, ks, seen, name) == Unmet(bs, i, ks[..k], seen, name)
    decreases |ks| - k
  {
    if k < |ks| {
      assert ks[..k + 1][..k] == ks[..k];
      UnmetStops(bs, i, ks, k + 1, seen, name);
    } else {
      assert ks[..k] == ks;
    }
  }
}
