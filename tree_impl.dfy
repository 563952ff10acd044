/** The loops the runtime nodes run over their children, as methods proved equal to the
    queries of `CliNodes`: the partition done by the group's constructor, `isPresent`,
    `getMissing`, `getSeenList`, `generateUsage`, `validate`, `fireConsumerIfNeeded`,
    and `addTo`, which appends every leaf's Apache option to the option table. */
module CliNodeLoops {
  import opened Wrappers
  import opened Text
  import opened Context
  import opened Options
  import opened CliNodes

  // ------------------------------------------------------------ list lemmas

  /** The last step of a filter: the filter of the first children, with the last child
      added when it is selected. */
  lemma FilterSnoc(cs: seq<Node>, sel: Sel)
    requires |cs| > 0
    ensures var g := Filter(cs, sel); var fs := Filter(cs[..|cs| - 1], sel);
      if Selected(cs[|cs| - 1], sel) then |g| > 0 && g[..|g| - 1] == fs && g[|g| - 1] == cs[|cs| - 1]
      else g == fs
  {
  }

  /** Some child is selected exactly when the filter keeps one. */
  lemma {:induction false} FilterSelected(cs: seq<Node>, sel: Sel)
    ensures AnySelected(cs, sel) <==> |Filter(cs, sel)| > 0
  {
    if |cs| > 0 {
      var init := cs[..|cs| - 1];
      FilterSelected(init, sel);
      assert forall i :: 0 <= i < |init| ==> init[i] == cs[i];
      if Selected(cs[|cs| - 1], sel) {
        assert AnySelected(cs, sel);
      } else {
        assert AnySelected(cs, sel) ==> AnySelected(init, sel);
      }
    }
  }

  /** Presence over the selected children is presence over the filtered list. */
  lemma {:induction false} FilterPresence(cs: seq<Node>, sel: Sel, cli: Cli)
    ensures AnyPresent(cs, sel, cli) == AnyPresent(Filter(cs, sel), Every, cli)
    ensures AllPresent(cs, sel, cli) == AllPresent(Filter(cs, sel), Every, cli)
  {
    if |cs| > 0 {
      FilterPresence(cs[..|cs| - 1], sel, cli);
      FilterSnoc(cs, sel);
    }
  }

  /** The missing markers of the selected children are those of the filtered list. */
  lemma {:induction false} FilterMissing(cs: seq<Node>, sel: Sel, cli: Cli)
    ensures MissingParts(cs, sel, cli) == MissingParts(Filter(cs, sel), Every, cli)
  {
    if |cs| > 0 {
      FilterMissing(cs[..|cs| - 1], sel, cli);
      FilterSnoc(cs, sel);
    }
  }

  /** The usages of the selected children are those of the filtered list. */
  lemma {:induction false} FilterUsage(cs: seq<Node>, sel: Sel)
    ensures UsageParts(cs, sel) == UsageParts(Filter(cs, sel), Every)
  {
    if |cs| > 0 {
      FilterUsage(cs[..|cs| - 1], sel);
      FilterSnoc(cs, sel);
    }
  }

  /** Validating the selected children is validating the filtered list. */
  lemma {:induction false} FilterValidate(cs: seq<Node>, sel: Sel, cli: Cli)
    ensures ValidateAll(cs, sel, cli) == ValidateAll(Filter(cs, sel), Every, cli)
  {
    if |cs| > 0 {
      FilterValidate(cs[..|cs| - 1], sel, cli);
      FilterSnoc(cs, sel);
    }
  }

  /** At most one rule is the first broken one. */
  lemma FirstBrokenUnique(vs: seq<Validator>, cli: Cli, i: int, k: int)
    requires FirstBroken(vs, cli, i) && FirstBroken(vs, cli, k)
    ensures i == k
  {
  }

  /** Once the validation of a prefix has thrown, the whole list throws the same. */
  lemma {:induction false} ValidateAllStops(xs: seq<Node>, k: nat, cli: Cli)
    requires k <= |xs| && ValidateAll(xs[..k], Every, cli).Fail?
    ensures ValidateAll(xs, Every, cli) == ValidateAll(xs[..k], Every, cli)
    decreases |xs| - k
  {
    if k < |xs| {
      assert xs[..k + 1][..k] == xs[..k];
      ValidateAllStops(xs, k + 1, cli);
    } else {
      assert xs[..k] == xs;
    }
  }

  /** Once firing a prefix has thrown, firing the whole list ends the same way. */
  lemma {:induction false} FireAllStops(xs: seq<Node>, k: nat, cli: Cli)
    requires k <= |xs| && FireAll(xs[..k], cli).error.Some?
    ensures FireAll(xs, cli) == FireAll(xs[..k], cli)
    decreases |xs| - k
  {
    if k < |xs| {
      assert xs[..k + 1][..k] == xs[..k];
      FireAllStops(xs, k + 1, cli);
    } else {
      assert xs[..k] == xs;
    }
  }

  lemma LeafOptionsAppend(a: seq<Node>, b: seq<Node>)
    requires forall i :: 0 <= i < |a| ==> a[i].Leaf?
    requires forall i :: 0 <= i < |b| ==> b[i].Leaf?
    ensures LeafOptions(a + b) == LeafOptions(a) + LeafOptions(b)
  {
    var l, r := LeafOptions(a + b), LeafOptions(a) + LeafOptions(b);
    forall i | 0 <= i < |l| ensures l[i] == r[i] {
      if i >= |a| {
        assert (a + b)[i] == b[i - |a|];
      }
    }
  }

  // ---------------------------------------------------------------- methods

  /** The `GroupedOptionCliOption` constructor's loop: each child goes to
      `requiredOptions` or `optionalOptions` by its flag, in order. */
  method PartitionChoices(cs: seq<Node>) returns (req: seq<Node>, opt: seq<Node>)
    ensures req == Filter(cs, RequiredOnly) && opt == Filter(cs, OptionalOnly)
  {
    req, opt := [], [];
    for i := 0 to |cs|
      invariant req == Filter(cs[..i], RequiredOnly) && opt == Filter(cs[..i], OptionalOnly)
    {
      assert cs[..i + 1][..i] == cs[..i];
      if cs[i].isRequired {
        req := req + [cs[i]];
      } else {
        opt := opt + [cs[i]];
      }
    }
    assert cs[..|cs|] == cs;
  }

  /** `isPresent`. */
  method IsPresentM(n: Node, cli: Cli) returns (b: bool)
    ensures b == IsPresent(n, cli)
    decreases n, 2
  {
    match n
    case Leaf(o, _, _) =>
      b := o.opt in cli.present;
    case Group(_, _, _) =>
      b := GroupPresentM(n, cli);
    case Radio(_, _, _) =>
      b := AnyChoicePresentM(n, cli);
    case AtLeastOne(_, _, _) =>
      b := AnyChoicePresentM(n, cli);
  }

  /** The group's `isPresent`: with required children, all of them must be present;
      without, some optional child. */
  method GroupPresentM(n: Node, cli: Cli) returns (b: bool)
    requires n.Group?
    ensures b == IsPresent(n, cli)
    decreases n, 1
  {
    var req, opt := PartitionChoices(n.choices);
    FilterSelected(n.choices, RequiredOnly);
    FilterPresence(n.choices, RequiredOnly, cli);
    FilterPresence(n.choices, OptionalOnly, cli);
    var seen := CountPresentM(n, req, cli);
    if |req| > 0 {
      return seen == |req|;
    }
    b := AnyPresentM(n, opt, cli);
  }

  /** The group's first loop: counts present required children, giving up at the first
      absent one. */
  method CountPresentM(n: Node, xs: seq<Node>, cli: Cli) returns (seen: nat)
    requires !n.Leaf? && forall i :: 0 <= i < |xs| ==> xs[i] in n.choices
    ensures seen <= |xs|
    ensures seen == |xs| <==> AllPresent(xs, Every, cli)
    decreases n, 0
  {
    seen := 0;
    for i := 0 to |xs|
      invariant seen == i
      invariant forall j :: 0 <= j < i ==> IsPresent(xs[j], cli)
    {
      assert xs[i] in n.choices;
      var p := IsPresentM(xs[i], cli);
      if !p {
        return;
      }
      seen := seen + 1;
    }
  }

  /** Some child of the list is present. */
  method AnyPresentM(n: Node, xs: seq<Node>, cli: Cli) returns (b: bool)
    requires !n.Leaf? && forall i :: 0 <= i < |xs| ==> xs[i] in n.choices
    ensures b == AnyPresent(xs, Every, cli)
    decreases n, 0
  {
    for i := 0 to |xs|
      invariant forall j :: 0 <= j < i ==> !IsPresent(xs[j], cli)
    {
      assert xs[i] in n.choices;
      var p := IsPresentM(xs[i], cli);
      if p {
        return true;
      }
    }
    return false;
  }

  /** The radio's and the at-least-one node's `isPresent`: some child is present. */
  method AnyChoicePresentM(n: Node, cli: Cli) returns (b: bool)
    requires n.Radio? || n.AtLeastOne?
    ensures b == IsPresent(n, cli)
    decreases n, 1
  {
    b := AnyPresentM(n, n.choices, cli);
  }

  /** The loop collecting the markers of the children that report something missing. */
  method MissingPartsM(n: Node, xs: seq<Node>, cli: Cli) returns (missing: seq<string>)
    requires !n.Leaf? && forall i :: 0 <= i < |xs| ==> xs[i] in n.choices
    ensures missing == MissingParts(xs, Every, cli)
    decreases n, 0
  {
    missing := [];
    for i := 0 to |xs|
      invariant missing == MissingParts(xs[..i], Every, cli)
    {
      assert xs[..i + 1][..i] == xs[..i];
      assert xs[i] in n.choices;
      var m := GetMissingM(xs[i], cli);
      if m.Some? {
        missing := missing + [m.value];
      }
    }
    assert xs[..|xs|] == xs;
  }

  /** `getMissing`. */
  method GetMissingM(n: Node, cli: Cli) returns (r: Option<string>)
    ensures r == GetMissing(n, cli)
    decreases n, 1
  {
    match n
    case Leaf(o, _, _) =>
      r := if o.opt in cli.present then None else Some("-" + o.opt);
    case Group(_, cs, _) =>
      var req, opt := PartitionChoices(cs);
      FilterMissing(cs, RequiredOnly, cli);
      var missing := MissingPartsM(n, req, cli);
      r := if missing == [] then None else Some(Wrap("( ", missing, " ", " )"));
    case Radio(_, cs, _) =>
      var present := AnyChoicePresentM(n, cli);
      if present {
        r := None;
      } else {
        var missing := MissingPartsM(n, cs, cli);
        r := Some(Wrap("[ ", missing, " | ", " ]"));
      }
    case AtLeastOne(_, cs, _) =>
      var present := AnyChoicePresentM(n, cli);
      if present {
        r := None;
      } else {
        var missing := MissingPartsM(n, cs, cli);
        r := Some(Wrap("[ ", missing, " | ", " ]"));
      }
  }

  /** `getSeenList`. */
  method SeenListM(n: Node, cli: Cli) returns (r: seq<string>)
    ensures r == SeenList(n, cli)
    decreases n
  {
    if n.Leaf? {
      r := if n.option.opt in cli.present then [n.option.opt] else [];
    } else {
      var cs := n.choices;
      r := [];
      for i := 0 to |cs|
        invariant r == SeenParts(cs[..i], cli)
      {
        SeenPartsSnoc(cs, i, cli);
        var seen := SeenListM(cs[i], cli);
        if seen != [] {
          r := r + [Wrap("(", seen, ",", ")")];
        }
      }
      assert cs[..|cs|] == cs;
    }
  }

  lemma SeenPartsSnoc(cs: seq<Node>, i: nat, cli: Cli)
    requires i < |cs|
    ensures var seen := SeenList(cs[i], cli);
      SeenParts(cs[..i + 1], cli) == SeenParts(cs[..i], cli) + (if seen != [] then [Wrap("(", seen, ",", ")")] else [])
  {
    assert cs[..i + 1][..i] == cs[..i];
  }

  /** The loop collecting the forced usages of the children that have one, each put
      between `"[ "` and `" ]"` when `bracket` holds. */
  method UsagePartsM(n: Node, xs: seq<Node>, bracket: bool) returns (list: seq<string>)
    requires !n.Leaf? && forall i :: 0 <= i < |xs| ==> xs[i] in n.choices
    ensures list == if bracket then Bracketed(UsageParts(xs, Every)) else UsageParts(xs, Every)
    decreases n, 0
  {
    list := [];
    for i := 0 to |xs|
      invariant list == Shown(UsageParts(xs[..i], Every), bracket)
    {
      assert xs[i] in n.choices;
      var u := GenerateUsageM(xs[i], true);
      UsageSnoc(xs, i, bracket);
      if u.Some? {
        list := list + [if bracket then "[ " + u.value + " ]" else u.value];
      }
    }
    assert xs[..|xs|] == xs;
  }

  function Shown(us: seq<string>, bracket: bool): seq<string> {
    if bracket then Bracketed(us) else us
  }

  lemma UsageSnoc(xs: seq<Node>, i: nat, bracket: bool)
    requires i < |xs|
    ensures var u := GenerateUsage(xs[i], true);
      Shown(UsageParts(xs[..i + 1], Every), bracket) ==
        Shown(UsageParts(xs[..i], Every), bracket) + (if u.Some? then [if bracket then "[ " + u.value + " ]" else u.value] else [])
  {
    assert xs[..i + 1][..i] == xs[..i];
    var u := GenerateUsage(xs[i], true);
    if u.Some? && bracket {
      var a := UsageParts(xs[..i], Every);
      assert UsageParts(xs[..i + 1], Every) == a + [u.value];
      assert Bracketed(a + [u.value]) == Bracketed(a) + ["[ " + u.value + " ]"];
    }
  }

  /** `generateUsage(force)`. */
  method GenerateUsageM(n: Node, force: bool) returns (r: Option<string>)
    ensures r == GenerateUsage(n, force)
    decreases n, 1
  {
    if !force && !n.isRequired {
      return None;
    }
    match n
    case Leaf(o, _, _) =>
      r := Some("-" + o.opt + (if o.argName.None? then "" else " <" + o.argName.value + ">"));
    case Group(_, cs, _) =>
      var req, opt := PartitionChoices(cs);
      FilterUsage(cs, RequiredOnly);
      FilterUsage(cs, OptionalOnly);
      var list := UsagePartsM(n, req, false);
      var requiredGroup := Join(list, " , ");
      var optList := UsagePartsM(n, opt, true);
      var optionalGroup := Join(optList, " , ");
      if requiredGroup == "" && optionalGroup == "" {
        r := None;
      } else if requiredGroup == "" {
        r := Some("(" + optionalGroup + " )");
      } else if optionalGroup == "" {
        r := Some("(" + requiredGroup + " )");
      } else {
        r := Some("(" + requiredGroup + " " + optionalGroup + " )");
      }
    case Radio(_, cs, _) =>
      var list := UsagePartsM(n, cs, false);
      r := if list == [] then None else Some(Wrap("[ ", list, " | ", " ]"));
    case AtLeastOne(_, cs, _) =>
      var list := UsagePartsM(n, cs, false);
      r := if list == [] then None else Some(Wrap("[", list, " | ", "]"));
  }

  /** The loop running the validation rules in order (`v.validate(cli)` for each). */
  method RunValidatorsM(vs: seq<Validator>, cli: Cli) returns (r: Outcome<Exn>)
    ensures r == RunValidators(vs, cli)
  {
    for i := 0 to |vs|
      invariant forall j :: 0 <= j < i ==> vs[j].rule(cli)
    {
      if !vs[i].rule(cli) {
        assert FirstBroken(vs, cli, i);
        forall k | FirstBroken(vs, cli, k) ensures k == i {
          FirstBrokenUnique(vs, cli, i, k);
        }
        return Fail(WithMessage(CliValidationKind, vs[i].message(cli)));
      }
    }
    return Pass;
  }

  /** The loop validating children in order, stopping at the first that throws. */
  method ValidateChildrenM(n: Node, xs: seq<Node>, cli: Cli) returns (r: Outcome<Exn>)
    requires !n.Leaf? && forall i :: 0 <= i < |xs| ==> xs[i] in n.choices
    ensures r == ValidateAll(xs, Every, cli)
    decreases n, 0
  {
    for i := 0 to |xs|
      invariant ValidateAll(xs[..i], Every, cli) == Pass
    {
      assert xs[..i + 1][..i] == xs[..i];
      assert xs[i] in n.choices;
      var v := ValidateM(xs[i], cli);
      if v.Fail? {
        ValidateAllStops(xs, i + 1, cli);
        return v;
      }
    }
    assert xs[..|xs|] == xs;
    return Pass;
  }

  /** `validate(cli)`. */
  method ValidateM(n: Node, cli: Cli) returns (r: Outcome<Exn>)
    ensures r == Validate(n, cli)
    decreases n, 1
  {
    match n
    case Leaf(o, _, _) =>
      if o.required && o.opt !in cli.present {
        return Fail(WithMessage(ValidationErrorKind, o.opt + " is required"));
      }
      return Pass;
    case Group(isRequired, cs, vs) =>
      var req, opt := PartitionChoices(cs);
      FilterMissing(cs, RequiredOnly, cli);
      FilterValidate(cs, RequiredOnly, cli);
      FilterValidate(cs, OptionalOnly, cli);
      var missing := MissingPartsM(n, req, cli);
      if missing != [] && isRequired {
        return Fail(WithMessage(CliValidationKind, GroupMissingPrefix + Wrap("( ", missing, ",", " )")));
      }
      r := ValidateChildrenM(n, req, cli);
      if r.Fail? {
        return;
      }
      r := ValidateChildrenM(n, opt, cli);
      if r.Fail? {
        return;
      }
      r := RunValidatorsM(vs, cli);
    case Radio(isRequired, cs, vs) =>
      var seen := SeenListM(n, cli);
      if |seen| > 1 {
        return Fail(WithMessage(CliValidationKind, RadioTooManyPrefix + ListToString(seen)));
      }
      if isRequired && |seen| == 0 {
        return Fail(WithMessage(CliValidationKind, RadioNoneSelected));
      }
      r := ValidateChildrenM(n, cs, cli);
      if r.Fail? {
        return;
      }
      r := RunValidatorsM(vs, cli);
    case AtLeastOne(isRequired, cs, vs) =>
      var seen := SeenListM(n, cli);
      if isRequired && |seen| == 0 {
        return Fail(WithMessage(CliValidationKind, AtLeastOneNoneSelected));
      }
      r := ValidateChildrenM(n, cs, cli);
      if r.Fail? {
        return;
      }
      r := RunValidatorsM(vs, cli);
  }

  /** `fireConsumerIfNeeded(cli)`: the calls made and the exception that stopped them. */
  method FireM(n: Node, cli: Cli) returns (r: FireResult)
    ensures r == Fire(n, cli)
    decreases n
  {
    if n.Leaf? {
      if n.option.opt in cli.present {
        var value := cli.OptionValue(n.option.opt);
        var outcome := n.consumer(value);
        r := FireResult([Call(n.option.opt, value)], if outcome.Pass? then None else Some(outcome.error));
      } else {
        r := FireResult([], None);
      }
    } else {
      var cs := n.choices;
      var calls := [];
      for i := 0 to |cs|
        invariant FireAll(cs[..i], cli) == FireResult(calls, None)
      {
        assert cs[..i + 1][..i] == cs[..i];
        var last := FireM(cs[i], cli);
        calls := calls + last.calls;
        if last.error.Some? {
          FireAllStops(cs, i + 1, cli);
          return FireResult(calls, last.error);
        }
      }
      assert cs[..|cs|] == cs;
      r := FireResult(calls, None);
    }
  }

  /** `addTo(spec, force)`: every leaf, in order, gets its parser-level flag from the
      override it receives and is appended to the table; the result is the node with
      the flags as `addTo` leaves them. */
  method AddTo(n: Node, spec: OptionTable, force: Option<bool>) returns (n': Node)
    modifies spec
    ensures n' == Registered(n, force)
    ensures spec.entries == old(spec.entries) + Table(n')
    decreases n
  {
    match n
    case Leaf(o, c, req) =>
      n' := if force.Some? then Leaf(o.(required := force.value), c, req) else n;
      spec.AddOption(n'.option);
      assert Leaves(n') == [n'];
    case Group(req, cs, vs) =>
      var rs := AddAll(n, spec, force.GetOr(req));
      n' := Group(req, rs, vs);
    case Radio(req, cs, vs) =>
      var rs := AddAll(n, spec, false);
      n' := Radio(req, rs, vs);
    case AtLeastOne(req, cs, vs) =>
      var rs := AddAll(n, spec, false);
      n' := AtLeastOne(req, rs, vs);
  }

  /** The composite's loop: child `c` is added with override `c.isRequired && f`. */
  method AddAll(n: Node, spec: OptionTable, f: bool) returns (rs: seq<Node>)
    requires !n.Leaf?
    modifies spec
    ensures rs == RegisterAll(n.choices, f)
    ensures spec.entries == old(spec.entries) + LeafOptions(LeavesAll(rs))
    decreases n, 0
  {
    var cs := n.choices;
    ghost var e0 := spec.entries;
    rs := [];
    for i := 0 to |cs|
      invariant rs == RegisterAll(cs[..i], f)
      invariant spec.entries == e0 + Tables(rs)
    {
      var c := cs[i];
      var rc := AddTo(c, spec, Some(c.isRequired && f));
      RegisterSnoc(cs, i, f, rs, rc, e0);
      rs := rs + [rc];
    }
    AddAllDone(cs, f, rs);
  }

  lemma AddAllDone(cs: seq<Node>, f: bool, rs: seq<Node>)
    requires rs == RegisterAll(cs[..|cs|], f)
    ensures rs == RegisterAll(cs, f) && Tables(rs) == LeafOptions(LeavesAll(rs))
  {
    assert cs[..|cs|] == cs;
    TablesLeaves(rs);
  }

  lemma RegisterSnoc(cs: seq<Node>, i: nat, f: bool, rs: seq<Node>, rc: Node, e0: seq<ApacheOption>)
    requires i < |cs| && rs == RegisterAll(cs[..i], f) && rc == Registered(cs[i], Some(cs[i].isRequired && f))
    ensures rs + [rc] == RegisterAll(cs[..i + 1], f)
    ensures e0 + Tables(rs + [rc]) == e0 + Tables(rs) + Table(rc)
  {
    assert cs[..i + 1][..i] == cs[..i];
    TablesSnoc(rs, rc);
  }

  lemma TablesSnoc(rs: seq<Node>, rc: Node)
    ensures Tables(rs + [rc]) == Tables(rs) + Table(rc)
  {
    assert (rs + [rc])[..|rs|] == rs;
  }

  /** The tables of some nodes, one after the other. */
  ghost function Tables(rs: seq<Node>): seq<ApacheOption> {
    if |rs| == 0 then [] else Tables(rs[..|rs| - 1]) + Table(rs[|rs| - 1])
  }

  lemma {:induction false} TablesLeaves(rs: seq<Node>)
    ensures Tables(rs) == LeafOptions(LeavesAll(rs))
  {
    if |rs| > 0 {
      TablesLeaves(rs[..|rs| - 1]);
      LeafOptionsAppend(LeavesAll(rs[..|rs| - 1]), Leaves(rs[|rs| - 1]));
    }
  }
}
