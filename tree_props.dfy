/** Properties of the `cli` option tree: what each query means, how registration
    changes a tree, when validation passes, and which consumers firing calls. */
module CliNodeProps {
  import opened Wrappers
  import opened Text
  import opened Context
  import opened Options
  import opened CliNodes

  // ------------------------------------------------------------------ leaves

  /** A leaf reports itself missing exactly when it is absent, as `"-" + opt`. */
  lemma LeafMissing(n: Node, cli: Cli)
    requires n.Leaf?
    ensures GetMissing(n, cli).None? <==> n.option.opt in cli.present
    ensures n.option.opt !in cli.present ==> GetMissing(n, cli) == Some("-" + n.option.opt)
  {
  }

  /** A leaf fails validation exactly when its parser-level flag is set and it is absent;
      the semantic flag plays no part. */
  lemma LeafValidate(n: Node, cli: Cli)
    requires n.Leaf?
    ensures Validate(n, cli).Fail? <==> n.option.required && n.option.opt !in cli.present
    ensures Validate(n, cli).Fail? ==>
      Validate(n, cli).error == WithMessage(ValidationErrorKind, n.option.opt + " is required")
  {
  }

  /** A leaf's seen list is its name when present and empty otherwise; firing calls its
      consumer once, with the option's value, exactly when it is present. */
  lemma LeafSeenAndFire(n: Node, cli: Cli)
    requires n.Leaf?
    ensures SeenList(n, cli) == if n.option.opt in cli.present then [n.option.opt] else []
    ensures Fire(n, cli).calls == if n.option.opt in cli.present then [Call(n.option.opt, cli.OptionValue(n.option.opt))] else []
    ensures Fire(n, cli).error.Some? <==> n.option.opt in cli.present && n.consumer(cli.OptionValue(n.option.opt)).Fail?
  {
  }

  /** A leaf's usage is empty unless forced or required; otherwise `-opt`, then
      ` <argName>` exactly when it has an argument name. */
  lemma LeafUsage(n: Node, force: bool)
    requires n.Leaf?
    ensures GenerateUsage(n, force).None? <==> !force && !n.isRequired
    ensures GenerateUsage(n, force).Some? && n.option.argName.None? ==>
      GenerateUsage(n, force).value == "-" + n.option.opt
    ensures GenerateUsage(n, force).Some? && n.option.argName.Some? ==>
      GenerateUsage(n, force).value == "-" + n.option.opt + " <" + n.option.argName.value + ">"
  {
  }

  /** Registering a leaf sets its parser-level flag to the override when there is one,
      keeps it otherwise, and registers exactly that option. */
  lemma LeafRegistration(n: Node, force: Option<bool>)
    requires n.Leaf?
    ensures Registered(n, force).Leaf? && Registered(n, force).isRequired == n.isRequired
    ensures Registered(n, force).option.required == force.GetOr(n.option.required)
    ensures Registered(n, force).option == n.option.(required := Registered(n, force).option.required)
    ensures Table(Registered(n, force)) == [Registered(n, force).option]
  {
  }

  // --------------------------------------------------------------- partition

  /** The partition puts every child in exactly one of the two lists. */
  lemma {:induction false} PartitionCovers(cs: seq<Node>)
    ensures |Filter(cs, RequiredOnly)| + |Filter(cs, OptionalOnly)| == |cs|
    ensures multiset(Filter(cs, RequiredOnly)) + multiset(Filter(cs, OptionalOnly)) == multiset(cs)
  {
    if |cs| > 0 {
      var init, c := cs[..|cs| - 1], cs[|cs| - 1];
      PartitionCovers(init);
      PartitionSnoc(cs);
    }
  }

  /** One more child lands in exactly one of the two lists. */
  lemma PartitionSnoc(cs: seq<Node>)
    requires |cs| > 0
    ensures var init, c := cs[..|cs| - 1], cs[|cs| - 1];
      && multiset(cs) == multiset(init) + multiset{c}
      && (c.isRequired ==> Filter(cs, RequiredOnly) == Filter(init, RequiredOnly) + [c] &&
                           Filter(cs, OptionalOnly) == Filter(init, OptionalOnly))
      && (!c.isRequired ==> Filter(cs, RequiredOnly) == Filter(init, RequiredOnly) &&
                            Filter(cs, OptionalOnly) == Filter(init, OptionalOnly) + [c])
  {
    assert cs == cs[..|cs| - 1] + [cs[|cs| - 1]];
  }

  // ----------------------------------------------------------------- presence

  /** A group with required children is present when all of them are; a group without
      any is present when some optional child is. */
  lemma GroupPresence(n: Node, cli: Cli)
    requires n.Group?
    ensures AnySelected(n.choices, RequiredOnly) ==>
      (IsPresent(n, cli) <==> forall i :: 0 <= i < |n.choices| && n.choices[i].isRequired ==> IsPresent(n.choices[i], cli))
    ensures !AnySelected(n.choices, RequiredOnly) ==>
      (IsPresent(n, cli) <==> exists i :: 0 <= i < |n.choices| && !n.choices[i].isRequired && IsPresent(n.choices[i], cli))
  {
  }

  /** A radio or at-least-one node is present when some child is. */
  lemma OneOfPresence(n: Node, cli: Cli)
    requires n.Radio? || n.AtLeastOne?
    ensures IsPresent(n, cli) <==> exists i :: 0 <= i < |n.choices| && IsPresent(n.choices[i], cli)
  {
  }

  /** Some leaf of the tree is given on the command line. */
  predicate SomeLeafPresent(n: Node, cli: Cli) {
    exists k :: 0 <= k < |Leaves(n)| && Leaves(n)[k].option.opt in cli.present
  }

  /** Some leaf among several trees is given on the command line. */
  predicate SomeLeafPresentAll(cs: seq<Node>, cli: Cli) {
    exists k :: 0 <= k < |LeavesAll(cs)| && LeavesAll(cs)[k].option.opt in cli.present
  }

  /** A node's seen list is non-empty exactly when some leaf below it is present. */
  lemma {:induction false} SeenIffLeafPresent(n: Node, cli: Cli)
    ensures SeenList(n, cli) != [] <==> SomeLeafPresent(n, cli)
    decreases n, 1
  {
    match n
    case Leaf(_, _, _) =>
      assert Leaves(n) == [n];
      assert SomeLeafPresent(n, cli) ==> Leaves(n)[0].option.opt in cli.present;
      if n.option.opt in cli.present {
        assert Leaves(n)[0].option.opt in cli.present;
      }
    case Group(_, cs, _) =>
      assert Leaves(n) == LeavesAll(cs);
      SeenPartsIffLeafPresent(cs, cli);
    case Radio(_, cs, _) =>
      assert Leaves(n) == LeavesAll(cs);
      SeenPartsIffLeafPresent(cs, cli);
    case AtLeastOne(_, cs, _) =>
      assert Leaves(n) == LeavesAll(cs);
      SeenPartsIffLeafPresent(cs, cli);
  }

  lemma {:induction false} SeenPartsIffLeafPresent(cs: seq<Node>, cli: Cli)
    ensures SeenParts(cs, cli) != [] <==> SomeLeafPresentAll(cs, cli)
    decreases cs, 0
  {
    if |cs| > 0 {
      var init, c := cs[..|cs| - 1], cs[|cs| - 1];
      SeenPartsIffLeafPresent(init, cli);
      SeenIffLeafPresent(c, cli);
      var a: seq<Node>, b: seq<Node> := LeavesAll(init), Leaves(c);
      assert LeavesAll(cs) == a + b;
      if SomeLeafPresentAll(cs, cli) {
        var k :| 0 <= k < |a + b| && (a + b)[k].option.opt in cli.present;
        if k < |a| {
          assert a[k] == (a + b)[k];
        } else {
          assert b[k - |a|] == (a + b)[k];
        }
      }
      if SomeLeafPresentAll(init, cli) {
        var k :| 0 <= k < |a| && a[k].option.opt in cli.present;
        assert (a + b)[k] == a[k];
      }
      if SomeLeafPresent(c, cli) {
        var k :| 0 <= k < |b| && b[k].option.opt in cli.present;
        assert (a + b)[|a| + k] == b[k];
      }
    }
  }

  /** At most one child has a non-empty seen list. */
  predicate AtMostOneSeen(cs: seq<Node>, cli: Cli) {
    forall i, j :: 0 <= i < j < |cs| && SeenList(cs[i], cli) != [] ==> SeenList(cs[j], cli) == []
  }

  /** The radio's seen list has at most one entry exactly when at most one child saw an
      option. */
  lemma {:induction false} SeenPartsAtMostOne(cs: seq<Node>, cli: Cli)
    ensures |SeenParts(cs, cli)| <= 1 <==> AtMostOneSeen(cs, cli)
  {
    if |cs| > 0 {
      var init := cs[..|cs| - 1];
      SeenPartsAtMostOne(init, cli);
      assert forall i :: 0 <= i < |init| ==> init[i] == cs[i];
      if SeenList(cs[|cs| - 1], cli) != [] && SeenParts(init, cli) != [] {
        var i :| 0 <= i < |init| && SeenList(init[i], cli) != [];
        assert !AtMostOneSeen(cs, cli) by {
          assert SeenList(cs[i], cli) != [] && SeenList(cs[|cs| - 1], cli) != [];
        }
      }
    }
  }

  // ------------------------------------------------------------------ missing

  /** Every group in the tree has at least one required child. */
  predicate GroupsHaveRequired(n: Node)
    decreases n, 1
  {
    (n.Group? ==> AnySelected(n.choices, RequiredOnly))
    && (!n.Leaf? ==> forall i :: 0 <= i < |n.choices| ==> GroupsHaveRequired(n.choices[i]))
  }

  /** In a tree whose every group has a required child, a node reports nothing missing
      exactly when it is present. */
  lemma {:induction false} MissingIffAbsent(n: Node, cli: Cli)
    requires GroupsHaveRequired(n)
    ensures GetMissing(n, cli).None? <==> IsPresent(n, cli)
    decreases n
  {
    match n
    case Leaf(_, _, _) =>
    case Group(_, cs, _) =>
      forall i | 0 <= i < |cs| && cs[i].isRequired
        ensures GetMissing(cs[i], cli).None? <==> IsPresent(cs[i], cli)
      {
        MissingIffAbsent(cs[i], cli);
      }
    case Radio(_, _, _) =>
    case AtLeastOne(_, _, _) =>
  }

  /** A group without required children never reports anything missing, present or not. */
  lemma OptionalGroupNeverMissing(n: Node, cli: Cli)
    requires n.Group? && !AnySelected(n.choices, RequiredOnly)
    ensures GetMissing(n, cli).None?
  {
  }

  /** A group reports nothing missing exactly when none of its required children does;
      otherwise the markers are joined by " " inside "( " and " )". */
  lemma GroupMissing(n: Node, cli: Cli)
    requires n.Group?
    ensures GetMissing(n, cli).None? <==>
      forall i :: 0 <= i < |n.choices| && n.choices[i].isRequired ==> GetMissing(n.choices[i], cli).None?
    ensures GetMissing(n, cli).Some? ==>
      GetMissing(n, cli).value == "( " + Join(MissingParts(n.choices, RequiredOnly, cli), " ") + " )"
  {
  }

  /** A radio or at-least-one node reports nothing missing exactly when it is present. */
  lemma OneOfMissing(n: Node, cli: Cli)
    requires n.Radio? || n.AtLeastOne?
    ensures GetMissing(n, cli).None? <==> IsPresent(n, cli)
    ensures GetMissing(n, cli).Some? ==>
      GetMissing(n, cli).value == "[ " + Join(MissingParts(n.choices, Every, cli), " | ") + " ]"
  {
  }

  // ----------------------------------------------------------------- validate

  /** Every validation rule holds of the command line. */
  predicate RulesHold(vs: seq<Validator>, cli: Cli) {
    forall i :: 0 <= i < |vs| ==> vs[i].rule(cli)
  }

  /** When a command line satisfies a tree, stated without the seen and missing lists:
      a leaf whose parser-level flag is set is given; a required group lacks none of
      its required children; no two children of a radio have an option given, and a
      required radio or at-least-one node has a child with an option given; every child
      is satisfied and every rule of the node holds. */
  ghost predicate Sound(n: Node, cli: Cli)
    decreases n, 1
  {
    match n
    case Leaf(o, _, _) => o.required ==> o.opt in cli.present
    case Group(isRequired, cs, vs) =>
      (isRequired ==> forall i :: 0 <= i < |cs| && cs[i].isRequired ==> GetMissing(cs[i], cli).None?)
      && (forall i :: 0 <= i < |cs| ==> Sound(cs[i], cli))
      && RulesHold(vs, cli)
    case Radio(isRequired, cs, vs) =>
      (forall i, j :: 0 <= i < j < |cs| && SomeLeafPresent(cs[i], cli) ==> !SomeLeafPresent(cs[j], cli))
      && (isRequired ==> exists i :: 0 <= i < |cs| && SomeLeafPresent(cs[i], cli))
      && (forall i :: 0 <= i < |cs| ==> Sound(cs[i], cli))
      && RulesHold(vs, cli)
    case AtLeastOne(isRequired, cs, vs) =>
      (isRequired ==> exists i :: 0 <= i < |cs| && SomeLeafPresent(cs[i], cli))
      && (forall i :: 0 <= i < |cs| ==> Sound(cs[i], cli))
      && RulesHold(vs, cli)
  }

  /** `validate` returns normally exactly when the command line satisfies the tree. */
  lemma {:induction false} ValidatePassIffSound(n: Node, cli: Cli)
    ensures Validate(n, cli) == Pass <==> Sound(n, cli)
    decreases n, 2
  {
    match n
    case Leaf(_, _, _) =>
    case Group(_, _, _) => GroupPassIffSound(n, cli);
    case Radio(_, _, _) => RadioPassIffSound(n, cli);
    case AtLeastOne(_, _, _) => AtLeastOnePassIffSound(n, cli);
  }

  lemma {:induction false} GroupPassIffSound(n: Node, cli: Cli)
    requires n.Group?
    ensures Validate(n, cli) == Pass <==> Sound(n, cli)
    decreases n, 1
  {
    ChildrenPassIffSound(n, cli);
  }

  /** The seen-list checks of a radio, restated over the children that have an option given. */
  lemma SeenCounts(cs: seq<Node>, cli: Cli)
    ensures |SeenParts(cs, cli)| <= 1 <==>
      forall i, j :: 0 <= i < j < |cs| && SomeLeafPresent(cs[i], cli) ==> !SomeLeafPresent(cs[j], cli)
    ensures |SeenParts(cs, cli)| == 0 <==> !exists i :: 0 <= i < |cs| && SomeLeafPresent(cs[i], cli)
  {
    SeenPartsAtMostOne(cs, cli);
    forall i | 0 <= i < |cs| ensures SeenList(cs[i], cli) != [] <==> SomeLeafPresent(cs[i], cli) {
      SeenIffLeafPresent(cs[i], cli);
    }
  }

  lemma {:induction false} RadioPassIffSound(n: Node, cli: Cli)
    requires n.Radio?
    ensures Validate(n, cli) == Pass <==> Sound(n, cli)
    decreases n, 1
  {
    ChildrenPassIffSound(n, cli);
    SeenCounts(n.choices, cli);
  }

  lemma {:induction false} AtLeastOnePassIffSound(n: Node, cli: Cli)
    requires n.AtLeastOne?
    ensures Validate(n, cli) == Pass <==> Sound(n, cli)
    decreases n, 1
  {
    ChildrenPassIffSound(n, cli);
    SeenCounts(n.choices, cli);
  }

  /** Validating all children in the order the node uses passes exactly when every child
      is satisfied. */
  lemma {:induction false} ChildrenPassIffSound(n: Node, cli: Cli)
    requires !n.Leaf?
    ensures n.Group? ==>
      ((ValidateAll(n.choices, RequiredOnly, cli).Then(ValidateAll(n.choices, OptionalOnly, cli)) == Pass)
       <==> forall i :: 0 <= i < |n.choices| ==> Sound(n.choices[i], cli))
    ensures ValidateAll(n.choices, Every, cli) == Pass <==> forall i :: 0 <= i < |n.choices| ==> Sound(n.choices[i], cli)
    decreases n, 0
  {
    forall i | 0 <= i < |n.choices| ensures Validate(n.choices[i], cli) == Pass <==> Sound(n.choices[i], cli) {
      ValidatePassIffSound(n.choices[i], cli);
    }
  }

  /** A radio with options given under two of its children fails, whatever its flag. */
  lemma RadioRejectsTwo(n: Node, cli: Cli, i: nat, j: nat)
    requires n.Radio? && i < j < |n.choices|
    requires SomeLeafPresent(n.choices[i], cli) && SomeLeafPresent(n.choices[j], cli)
    ensures Validate(n, cli).Fail?
    ensures Validate(n, cli).error.message.Some?
    ensures RadioTooManyPrefix <= Validate(n, cli).error.message.value
  {
    SeenIffLeafPresent(n.choices[i], cli);
    SeenIffLeafPresent(n.choices[j], cli);
    SeenPartsAtMostOne(n.choices, cli);
  }

  /** A required radio or at-least-one node with no option given under any child fails. */
  lemma RequiredOneOfRejectsNone(n: Node, cli: Cli)
    requires (n.Radio? || n.AtLeastOne?) && n.isRequired
    requires forall i :: 0 <= i < |n.choices| ==> !SomeLeafPresent(n.choices[i], cli)
    ensures Validate(n, cli) == Fail(WithMessage(CliValidationKind,
      if n.Radio? then RadioNoneSelected
      else AtLeastOneNoneSelected))
  {
    SeenCounts(n.choices, cli);
  }

  /** An at-least-one node has no upper bound: when its flag is off or some child has an
      option given, its own check passes and only its children and rules decide. */
  lemma AtLeastOneNoUpperBound(n: Node, cli: Cli)
    requires n.AtLeastOne?
    requires !n.isRequired || exists i :: 0 <= i < |n.choices| && SomeLeafPresent(n.choices[i], cli)
    ensures Validate(n, cli) == ValidateAll(n.choices, Every, cli).Then(RunValidators(n.validators, cli))
  {
    SeenCounts(n.choices, cli);
  }

  /** A required group that lacks a required child fails before any child is validated. */
  lemma GroupRejectsMissing(n: Node, cli: Cli, i: nat)
    requires n.Group? && n.isRequired && i < |n.choices| && n.choices[i].isRequired
    requires GetMissing(n.choices[i], cli).Some?
    ensures Validate(n, cli) == Fail(WithMessage(CliValidationKind,
      GroupMissingPrefix + Wrap("( ", MissingParts(n.choices, RequiredOnly, cli), ",", " )")))
  {
  }

  // -------------------------------------------------------------------- usage

  /** A usage text, when there is one, is never empty. */
  lemma UsageNonEmpty(n: Node, force: bool)
    ensures GenerateUsage(n, force).Some? ==> GenerateUsage(n, force).value != ""
  {
  }

  lemma {:induction false} UsagePartsNonEmpty(cs: seq<Node>, sel: Sel)
    ensures forall k :: 0 <= k < |UsageParts(cs, sel)| ==> UsageParts(cs, sel)[k] != ""
  {
    if |cs| > 0 {
      UsagePartsNonEmpty(cs[..|cs| - 1], sel);
      UsageNonEmpty(cs[|cs| - 1], true);
    }
  }

  /** A forced or required group's usage: empty exactly when no child has a forced
      usage; otherwise `"(" + req + " )"`, `"(" + opt + " )"` or `"(" + req + " " + opt + " )"`
      where `req` joins the required children's usages and `opt` the optional ones',
      each shown as `"[ x ]"`, by " , ". */
  lemma GroupUsage(n: Node, force: bool)
    requires n.Group? && (force || n.isRequired)
    ensures GenerateUsage(n, force).None? <==>
      forall i :: 0 <= i < |n.choices| ==> GenerateUsage(n.choices[i], true).None?
    ensures
      var req, opt := UsageParts(n.choices, RequiredOnly), Bracketed(UsageParts(n.choices, OptionalOnly));
      GenerateUsage(n, force) ==
        if req == [] && opt == [] then None
        else if req == [] then Some("(" + Join(opt, " , ") + " )")
        else if opt == [] then Some("(" + Join(req, " , ") + " )")
        else Some("(" + Join(req, " , ") + " " + Join(opt, " , ") + " )")
  {
    var req, opt := UsageParts(n.choices, RequiredOnly), Bracketed(UsageParts(n.choices, OptionalOnly));
    UsagePartsNonEmpty(n.choices, RequiredOnly);
    JoinEmptyIffNoParts(req, " , ");
    JoinEmptyIffNoParts(opt, " , ");
  }

  /** A radio's usage is empty unless forced or required, and when no child has a forced
      usage; otherwise the usages joined by " | " inside "[ " and " ]" (inside "[" and "]"
      for an at-least-one node). */
  lemma OneOfUsage(n: Node, force: bool)
    requires n.Radio? || n.AtLeastOne?
    ensures GenerateUsage(n, force).None? <==>
      (!force && !n.isRequired) || forall i :: 0 <= i < |n.choices| ==> GenerateUsage(n.choices[i], true).None?
    ensures GenerateUsage(n, force).Some? && n.Radio? ==>
      GenerateUsage(n, force).value == "[ " + Join(UsageParts(n.choices, Every), " | ") + " ]"
    ensures GenerateUsage(n, force).Some? && n.AtLeastOne? ==>
      GenerateUsage(n, force).value == "[" + Join(UsageParts(n.choices, Every), " | ") + "]"
  {
  }

  // --------------------------------------------------------------------- fire

  /** The calls firing makes when no consumer throws: one per present leaf, in order,
      with the option's value. */
  function PresentCalls(ls: seq<Node>, cli: Cli): seq<Call> {
    if |ls| == 0 then []
    else
      var l := ls[|ls| - 1];
      PresentCalls(ls[..|ls| - 1], cli)
        + (if l.Leaf? && l.option.opt in cli.present then [Call(l.option.opt, cli.OptionValue(l.option.opt))] else [])
  }

  /** Every present leaf's consumer accepts its value. */
  predicate ConsumersAccept(ls: seq<Node>, cli: Cli) {
    forall i :: 0 <= i < |ls| && ls[i].Leaf? && ls[i].option.opt in cli.present ==>
      ls[i].consumer(cli.OptionValue(ls[i].option.opt)) == Pass
  }

  lemma {:induction false} PresentCallsAppend(a: seq<Node>, b: seq<Node>, cli: Cli)
    ensures PresentCalls(a + b, cli) == PresentCalls(a, cli) + PresentCalls(b, cli)
    decreases |b|
  {
    if |b| > 0 {
      var b' := b[..|b| - 1];
      assert (a + b)[..|a + b| - 1] == a + b';
      PresentCallsAppend(a, b', cli);
    } else {
      assert a + b == a;
    }
  }

  /** Firing calls the present leaves' consumers in tree order: the calls made are a
      prefix of that order, all of it when nothing throws, and nothing throws when every
      present leaf's consumer accepts its value. */
  lemma {:induction false} FireTrace(n: Node, cli: Cli)
    ensures Fire(n, cli).calls <= PresentCalls(Leaves(n), cli)
    ensures Fire(n, cli).error.None? ==> Fire(n, cli).calls == PresentCalls(Leaves(n), cli)
    ensures ConsumersAccept(Leaves(n), cli) ==> Fire(n, cli).error.None?
    decreases n, 1
  {
    match n
    case Leaf(_, _, _) =>
      assert Leaves(n) == [n];
      assert PresentCalls(Leaves(n), cli) == PresentCalls([], cli) + Fire(n, cli).calls;
    case Group(_, cs, _) => FireAllTrace(cs, cli);
    case Radio(_, cs, _) => FireAllTrace(cs, cli);
    case AtLeastOne(_, cs, _) => FireAllTrace(cs, cli);
  }

  lemma {:induction false} FireAllTrace(cs: seq<Node>, cli: Cli)
    ensures FireAll(cs, cli).calls <= PresentCalls(LeavesAll(cs), cli)
    ensures FireAll(cs, cli).error.None? ==> FireAll(cs, cli).calls == PresentCalls(LeavesAll(cs), cli)
    ensures ConsumersAccept(LeavesAll(cs), cli) ==> FireAll(cs, cli).error.None?
    decreases cs, 0
  {
    if |cs| > 0 {
      var init, c := cs[..|cs| - 1], cs[|cs| - 1];
      FireAllTrace(init, cli);
      FireTrace(c, cli);
      var a, b := LeavesAll(init), Leaves(c);
      PresentCallsAppend(a, b, cli);
      assert LeavesAll(cs) == a + b;
      var fi, fc := FireAll(init, cli), Fire(c, cli);
      if fi.error.Some? {
        PrefixOfAppend(fi.calls, PresentCalls(a, cli), PresentCalls(b, cli));
      } else {
        AppendPrefix(fi.calls, fc.calls, PresentCalls(b, cli));
      }
      if ConsumersAccept(a + b, cli) {
        ConsumersAcceptSplit(a, b, cli);
      }
    }
  }

  lemma PrefixOfAppend(x: seq<Call>, y: seq<Call>, z: seq<Call>)
    requires x <= y
    ensures x <= y + z
  {
    assert forall i :: 0 <= i < |x| ==> (y + z)[i] == y[i];
  }

  lemma AppendPrefix(x: seq<Call>, y: seq<Call>, z: seq<Call>)
    requires y <= z
    ensures x + y <= x + z
  {
    assert forall i :: |x| <= i < |x + y| ==> (x + y)[i] == y[i - |x|] == z[i - |x|] == (x + z)[i];
  }

  lemma ConsumersAcceptSplit(a: seq<Node>, b: seq<Node>, cli: Cli)
    requires ConsumersAccept(a + b, cli)
    ensures ConsumersAccept(a, cli) && ConsumersAccept(b, cli)
  {
    forall i | 0 <= i < |a| ensures a[i] == (a + b)[i] { }
    forall i | 0 <= i < |b| ensures b[i] == (a + b)[|a| + i] { }
  }

  // ------------------------------------------------------------- registration

  /** Child `i` of a registered list is that child registered with
      `child.isRequired && f`. */
  lemma {:induction false} RegisterAllAt(cs: seq<Node>, f: bool, i: nat)
    requires i < |cs|
    ensures RegisterAll(cs, f)[i] == Registered(cs[i], Some(cs[i].isRequired && f))
  {
    if i < |cs| - 1 {
      RegisterAllAt(cs[..|cs| - 1], f, i);
    }
  }

  /** Registration changes only parser-level flags: the semantic flag and every query
      other than `validate` give the same answers before and after. */
  lemma {:induction false} RegisteredKeepsQueries(n: Node, force: Option<bool>, cli: Cli)
    ensures Registered(n, force).isRequired == n.isRequired
    ensures IsPresent(Registered(n, force), cli) == IsPresent(n, cli)
    ensures GetMissing(Registered(n, force), cli) == GetMissing(n, cli)
    ensures SeenList(Registered(n, force), cli) == SeenList(n, cli)
    ensures forall b :: GenerateUsage(Registered(n, force), b) == GenerateUsage(n, b)
    ensures Fire(Registered(n, force), cli) == Fire(n, cli)
    decreases n, 1
  {
    if !n.Leaf? {
      var f := if n.Group? then force.GetOr(n.isRequired) else false;
      RegisterAllKeepsQueries(n.choices, f, cli);
      CompositeKeepsQueries(n, Registered(n, force), f, cli);
    }
  }

  /** A composite node whose children were replaced by their registered versions. */
  lemma CompositeKeepsQueries(n: Node, r: Node, f: bool, cli: Cli)
    requires !n.Leaf?
    requires r.Group? == n.Group? && r.Radio? == n.Radio? && r.AtLeastOne? == n.AtLeastOne?
    requires r.isRequired == n.isRequired
    requires forall sel :: AnySelected(r.choices, sel) == AnySelected(n.choices, sel)
    requires forall sel :: AnyPresent(r.choices, sel, cli) == AnyPresent(n.choices, sel, cli)
    requires forall sel :: AllPresent(r.choices, sel, cli) == AllPresent(n.choices, sel, cli)
    requires forall sel :: MissingParts(r.choices, sel, cli) == MissingParts(n.choices, sel, cli)
    requires forall sel :: UsageParts(r.choices, sel) == UsageParts(n.choices, sel)
    requires SeenParts(r.choices, cli) == SeenParts(n.choices, cli)
    requires FireAll(r.choices, cli) == FireAll(n.choices, cli)
    ensures r.isRequired == n.isRequired
    ensures IsPresent(r, cli) == IsPresent(n, cli)
    ensures GetMissing(r, cli) == GetMissing(n, cli)
    ensures SeenList(r, cli) == SeenList(n, cli)
    ensures forall b :: GenerateUsage(r, b) == GenerateUsage(n, b)
    ensures Fire(r, cli) == Fire(n, cli)
  {
    CompositeKeepsPresence(n, r, cli);
    CompositeKeepsUsage(n, r);
  }

  lemma CompositeKeepsPresence(n: Node, r: Node, cli: Cli)
    requires !n.Leaf?
    requires r.Group? == n.Group? && r.Radio? == n.Radio? && r.AtLeastOne? == n.AtLeastOne?
    requires AnySelected(r.choices, RequiredOnly) == AnySelected(n.choices, RequiredOnly)
    requires AllPresent(r.choices, RequiredOnly, cli) == AllPresent(n.choices, RequiredOnly, cli)
    requires AnyPresent(r.choices, OptionalOnly, cli) == AnyPresent(n.choices, OptionalOnly, cli)
    requires AnyPresent(r.choices, Every, cli) == AnyPresent(n.choices, Every, cli)
    requires MissingParts(r.choices, RequiredOnly, cli) == MissingParts(n.choices, RequiredOnly, cli)
    requires MissingParts(r.choices, Every, cli) == MissingParts(n.choices, Every, cli)
    ensures IsPresent(r, cli) == IsPresent(n, cli)
    ensures GetMissing(r, cli) == GetMissing(n, cli)
  {
  }

  lemma CompositeKeepsUsage(n: Node, r: Node)
    requires !n.Leaf?
    requires r.Group? == n.Group? && r.Radio? == n.Radio? && r.AtLeastOne? == n.AtLeastOne?
    requires r.isRequired == n.isRequired
    requires UsageParts(r.choices, RequiredOnly) == UsageParts(n.choices, RequiredOnly)
    requires UsageParts(r.choices, OptionalOnly) == UsageParts(n.choices, OptionalOnly)
    requires UsageParts(r.choices, Every) == UsageParts(n.choices, Every)
    ensures forall b :: GenerateUsage(r, b) == GenerateUsage(n, b)
  {
  }

  lemma {:induction false} RegisterAllKeepsQueries(cs: seq<Node>, f: bool, cli: Cli)
    ensures forall sel :: AnySelected(RegisterAll(cs, f), sel) == AnySelected(cs, sel)
    ensures forall sel :: AnyPresent(RegisterAll(cs, f), sel, cli) == AnyPresent(cs, sel, cli)
    ensures forall sel :: AllPresent(RegisterAll(cs, f), sel, cli) == AllPresent(cs, sel, cli)
    ensures forall sel :: MissingParts(RegisterAll(cs, f), sel, cli) == MissingParts(cs, sel, cli)
    ensures forall sel :: UsageParts(RegisterAll(cs, f), sel) == UsageParts(cs, sel)
    ensures SeenParts(RegisterAll(cs, f), cli) == SeenParts(cs, cli)
    ensures FireAll(RegisterAll(cs, f), cli) == FireAll(cs, cli)
    decreases cs, 0
  {
    if |cs| > 0 {
      var init, c := cs[..|cs| - 1], cs[|cs| - 1];
      var rs := RegisterAll(cs, f);
      var rc := Registered(c, Some(c.isRequired && f));
      assert rs[..|rs| - 1] == RegisterAll(init, f);
      assert rs[|rs| - 1] == rc;
      RegisterAllKeepsQueries(init, f, cli);
      RegisteredKeepsQueries(c, Some(c.isRequired && f), cli);
      RegisterAllKeepsFlags(cs, f);
      forall sel
        ensures AnyPresent(rs, sel, cli) == AnyPresent(cs, sel, cli)
        ensures AllPresent(rs, sel, cli) == AllPresent(cs, sel, cli)
        ensures MissingParts(rs, sel, cli) == MissingParts(cs, sel, cli)
        ensures UsageParts(rs, sel) == UsageParts(cs, sel)
      {
        KeepsSnoc(cs, rs, sel, cli);
      }
      KeepsSnoc(cs, rs, Every, cli);
    }
  }

  /** Lists whose last children, and whose other children as lists, give the same
      answers, give the same answers: one lemma per query. */
  lemma KeepsSnoc(cs: seq<Node>, rs: seq<Node>, sel: Sel, cli: Cli)
    requires |cs| > 0 && |rs| == |cs|
    requires var c, r := cs[|cs| - 1], rs[|rs| - 1];
      && r.isRequired == c.isRequired && IsPresent(r, cli) == IsPresent(c, cli)
      && GetMissing(r, cli) == GetMissing(c, cli) && GenerateUsage(r, true) == GenerateUsage(c, true)
      && SeenList(r, cli) == SeenList(c, cli) && Fire(r, cli) == Fire(c, cli)
    requires var ci, ri := cs[..|cs| - 1], rs[..|rs| - 1];
      && AnyPresent(ri, sel, cli) == AnyPresent(ci, sel, cli) && AllPresent(ri, sel, cli) == AllPresent(ci, sel, cli)
      && MissingParts(ri, sel, cli) == MissingParts(ci, sel, cli) && UsageParts(ri, sel) == UsageParts(ci, sel)
      && SeenParts(ri, cli) == SeenParts(ci, cli) && FireAll(ri, cli) == FireAll(ci, cli)
    ensures AnyPresent(rs, sel, cli) == AnyPresent(cs, sel, cli) && AllPresent(rs, sel, cli) == AllPresent(cs, sel, cli)
    ensures MissingParts(rs, sel, cli) == MissingParts(cs, sel, cli) && UsageParts(rs, sel) == UsageParts(cs, sel)
    ensures SeenParts(rs, cli) == SeenParts(cs, cli) && FireAll(rs, cli) == FireAll(cs, cli)
  {
    AnyPresentSnoc(cs, rs, sel, cli);
    AllPresentSnoc(cs, rs, sel, cli);
    MissingSnocKeeps(cs, rs, sel, cli);
    UsageSnocKeeps(cs, rs, sel);
    SeenSnocKeeps(cs, rs, cli);
    FireSnocKeeps(cs, rs, cli);
  }

  lemma AnyPresentSnoc(cs: seq<Node>, rs: seq<Node>, sel: Sel, cli: Cli)
    requires |cs| > 0 && |rs| == |cs| && rs[|rs| - 1].isRequired == cs[|cs| - 1].isRequired
    requires IsPresent(rs[|rs| - 1], cli) == IsPresent(cs[|cs| - 1], cli)
    requires AnyPresent(rs[..|rs| - 1], sel, cli) == AnyPresent(cs[..|cs| - 1], sel, cli)
    ensures AnyPresent(rs, sel, cli) == AnyPresent(cs, sel, cli)
  {
  }

  lemma AllPresentSnoc(cs: seq<Node>, rs: seq<Node>, sel: Sel, cli: Cli)
    requires |cs| > 0 && |rs| == |cs| && rs[|rs| - 1].isRequired == cs[|cs| - 1].isRequired
    requires IsPresent(rs[|rs| - 1], cli) == IsPresent(cs[|cs| - 1], cli)
    requires AllPresent(rs[..|rs| - 1], sel, cli) == AllPresent(cs[..|cs| - 1], sel, cli)
    ensures AllPresent(rs, sel, cli) == AllPresent(cs, sel, cli)
  {
  }

  lemma MissingSnocKeeps(cs: seq<Node>, rs: seq<Node>, sel: Sel, cli: Cli)
    requires |cs| > 0 && |rs| == |cs| && rs[|rs| - 1].isRequired == cs[|cs| - 1].isRequired
    requires GetMissing(rs[|rs| - 1], cli) == GetMissing(cs[|cs| - 1], cli)
    requires MissingParts(rs[..|rs| - 1], sel, cli) == MissingParts(cs[..|cs| - 1], sel, cli)
    ensures MissingParts(rs, sel, cli) == MissingParts(cs, sel, cli)
  {
  }

  lemma UsageSnocKeeps(cs: seq<Node>, rs: seq<Node>, sel: Sel)
    requires |cs| > 0 && |rs| == |cs| && rs[|rs| - 1].isRequired == cs[|cs| - 1].isRequired
    requires GenerateUsage(rs[|rs| - 1], true) == GenerateUsage(cs[|cs| - 1], true)
    requires UsageParts(rs[..|rs| - 1], sel) == UsageParts(cs[..|cs| - 1], sel)
    ensures UsageParts(rs, sel) == UsageParts(cs, sel)
  {
  }

  lemma SeenSnocKeeps(cs: seq<Node>, rs: seq<Node>, cli: Cli)
    requires |cs| > 0 && |rs| == |cs| && rs[|rs| - 1].isRequired == cs[|cs| - 1].isRequired
    requires SeenList(rs[|rs| - 1], cli) == SeenList(cs[|cs| - 1], cli)
    requires SeenParts(rs[..|rs| - 1], cli) == SeenParts(cs[..|cs| - 1], cli)
    ensures SeenParts(rs, cli) == SeenParts(cs, cli)
  {
  }

  lemma FireSnocKeeps(cs: seq<Node>, rs: seq<Node>, cli: Cli)
    requires |cs| > 0 && |rs| == |cs| && rs[|rs| - 1].isRequired == cs[|cs| - 1].isRequired
    requires Fire(rs[|rs| - 1], cli) == Fire(cs[|cs| - 1], cli)
    requires FireAll(rs[..|rs| - 1], cli) == FireAll(cs[..|cs| - 1], cli)
    ensures FireAll(rs, cli) == FireAll(cs, cli)
  {
  }

  /** Registration keeps every child's semantic flag, so it selects the same children. */
  lemma RegisterAllKeepsFlags(cs: seq<Node>, f: bool)
    ensures forall i :: 0 <= i < |cs| ==> RegisterAll(cs, f)[i].isRequired == cs[i].isRequired
    ensures forall sel :: AnySelected(RegisterAll(cs, f), sel) == AnySelected(cs, sel)
  {
    var rs := RegisterAll(cs, f);
    forall i | 0 <= i < |cs| ensures rs[i].isRequired == cs[i].isRequired {
      RegisterAllAt(cs, f, i);
    }
  }

  /** `b` lists the same leaves as `a`, with the same semantic flags, except perhaps for
      their parser-level flags (consumers are functions and cannot be compared here;
      `RegisteredKeepsQueries` shows firing is unchanged). */
  predicate Relabels(a: seq<Node>, b: seq<Node>) {
    |a| == |b| &&
    forall i :: 0 <= i < |a| ==>
      a[i].Leaf? && b[i].Leaf? && b[i].isRequired == a[i].isRequired &&
      b[i].option == a[i].option.(required := b[i].option.required)
  }

  /** No leaf of `a` is required at parser level. */
  predicate AllCleared(a: seq<Node>) {
    forall i :: 0 <= i < |a| ==> a[i].Leaf? && !a[i].option.required
  }

  lemma RelabelsAppend(a1: seq<Node>, b1: seq<Node>, a2: seq<Node>, b2: seq<Node>)
    requires Relabels(a1, b1) && Relabels(a2, b2)
    ensures Relabels(a1 + a2, b1 + b2)
  {
    forall i | |a1| <= i < |a1| + |a2|
      ensures (a1 + a2)[i] == a2[i - |a1|] && (b1 + b2)[i] == b2[i - |a1|]
    {
    }
  }

  lemma AllClearedAppend(a: seq<Node>, b: seq<Node>)
    requires AllCleared(a) && AllCleared(b)
    ensures AllCleared(a + b)
  {
    forall i | |a| <= i < |a| + |b| ensures (a + b)[i] == b[i - |a|] { }
  }

  /** Registration keeps the leaves and their order and touches only their parser-level
      flags; with override `false`, and always below a radio or an at-least-one node,
      every leaf ends up not required. */
  lemma {:induction false} LeavesRegistered(n: Node, force: Option<bool>)
    ensures Relabels(Leaves(n), Leaves(Registered(n, force)))
    ensures force == Some(false) || n.Radio? || n.AtLeastOne? ==> AllCleared(Leaves(Registered(n, force)))
    decreases n, 1
  {
    if !n.Leaf? {
      var f := if n.Group? then force.GetOr(n.isRequired) else false;
      LeavesRegisterAll(n.choices, f);
    }
  }

  lemma {:induction false} LeavesRegisterAll(cs: seq<Node>, f: bool)
    ensures Relabels(LeavesAll(cs), LeavesAll(RegisterAll(cs, f)))
    ensures !f ==> AllCleared(LeavesAll(RegisterAll(cs, f)))
    decreases cs, 0
  {
    if |cs| > 0 {
      var init, c := cs[..|cs| - 1], cs[|cs| - 1];
      var rs := RegisterAll(cs, f);
      var rc := Registered(c, Some(c.isRequired && f));
      assert rs[..|rs| - 1] == RegisterAll(init, f);
      assert rs[|rs| - 1] == rc;
      assert LeavesAll(rs) == LeavesAll(RegisterAll(init, f)) + Leaves(rc);
      LeavesRegisterAll(init, f);
      LeavesRegistered(c, Some(c.isRequired && f));
      RelabelsAppend(LeavesAll(init), LeavesAll(RegisterAll(init, f)), Leaves(c), Leaves(rc));
      if !f {
        AllClearedAppend(LeavesAll(RegisterAll(init, f)), Leaves(rc));
      }
    }
  }

  /** What `addTo` puts in the table: the same options in the same order, with only the
      required flag changed; the override `false`, and any radio or at-least-one node,
      registers nothing as parser-required. */
  lemma TableRegistered(n: Node, force: Option<bool>)
    ensures |Table(Registered(n, force))| == |Table(n)|
    ensures forall i :: 0 <= i < |Table(n)| ==>
      Table(Registered(n, force))[i] == Table(n)[i].(required := Table(Registered(n, force))[i].required)
    ensures force == Some(false) || n.Radio? || n.AtLeastOne? ==>
      forall i :: 0 <= i < |Table(n)| ==> !Table(Registered(n, force))[i].required
  {
    LeavesRegistered(n, force);
  }
}
