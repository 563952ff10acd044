/** The runtime option tree of the `cli` package, as built by the option builders:
    the leaf `BasicCliOption.InternalBasicCliOption`, the all-required group
    `GroupedOption.GroupedOptionCliOption`, the exactly-one-of
    `RadioCliOption.RadioInternalCliOption` and the at-least-one-of
    `AtLeastOneOfOption.AtLeastOneOfInternalCliOption`, with the queries every node
    answers about a parsed command line. The loops the Java code runs over a node's
    children are the list functions below (and the methods of `CliNodeLoops`). */
module CliNodes {
  import opened Wrappers
  import opened Text
  import opened Context
  import opened Options

  /** A built option node. A leaf carries its Apache option, whose `required` field is
      the parser-level flag that registration may overwrite, and its semantic
      `isRequired` flag from the builder. A composite node carries its semantic flag,
      its children in declaration order and its validation rules. */
  datatype Node =
    | Leaf(option: ApacheOption, consumer: Consumer, isRequired: bool)
    | Group(isRequired: bool, choices: seq<Node>, validators: seq<Validator>)
    | Radio(isRequired: bool, choices: seq<Node>, validators: seq<Validator>)
    | AtLeastOne(isRequired: bool, choices: seq<Node>, validators: seq<Validator>)

  /** Which children a loop runs over: all of them, or one half of a group's partition. */
  datatype Sel = Every | RequiredOnly | OptionalOnly

  predicate Selected(c: Node, sel: Sel) {
    match sel
    case Every => true
    case RequiredOnly => c.isRequired
    case OptionalOnly => !c.isRequired
  }

  /** The selected children in their original order: `requiredOptions` and
      `optionalOptions` of a group are `Filter(choices, RequiredOnly)` and
      `Filter(choices, OptionalOnly)`. */
  function Filter(cs: seq<Node>, sel: Sel): (r: seq<Node>)
    ensures |r| <= |cs|
    ensures forall i :: 0 <= i < |r| ==> r[i] in cs && Selected(r[i], sel)
  {
    if |cs| == 0 then []
    else
      var init := Filter(cs[..|cs| - 1], sel);
      assert forall c :: c in cs[..|cs| - 1] ==> c in cs;
      init + (if Selected(cs[|cs| - 1], sel) then [cs[|cs| - 1]] else [])
  }

  // ---------------------------------------------------------------- isPresent

  /** `isPresent(cli)`. */
  function IsPresent(n: Node, cli: Cli): bool
    decreases n, 1
  {
    match n
    case Leaf(o, _, _) => cli.HasOption(o.opt)
    case Group(_, cs, _) =>
      if AnySelected(cs, RequiredOnly) then AllPresent(cs, RequiredOnly, cli)
      else AnyPresent(cs, OptionalOnly, cli)
    case Radio(_, cs, _) => AnyPresent(cs, Every, cli)
    case AtLeastOne(_, cs, _) => AnyPresent(cs, Every, cli)
  }

  /** Some child is selected (`!requiredOptions.isEmpty()` for `RequiredOnly`). */
  predicate AnySelected(cs: seq<Node>, sel: Sel) {
    exists i :: 0 <= i < |cs| && Selected(cs[i], sel)
  }

  /** Some selected child is present. */
  function AnyPresent(cs: seq<Node>, sel: Sel, cli: Cli): (b: bool)
    ensures b <==> exists i :: 0 <= i < |cs| && Selected(cs[i], sel) && IsPresent(cs[i], cli)
    decreases cs, 0
  {
    if |cs| == 0 then false
    else
      var init := AnyPresent(cs[..|cs| - 1], sel, cli);
      assert forall i :: 0 <= i < |cs| - 1 ==> cs[..|cs| - 1][i] == cs[i];
      init || (Selected(cs[|cs| - 1], sel) && IsPresent(cs[|cs| - 1], cli))
  }

  /** Every selected child is present. */
  function AllPresent(cs: seq<Node>, sel: Sel, cli: Cli): (b: bool)
    ensures b <==> forall i :: 0 <= i < |cs| && Selected(cs[i], sel) ==> IsPresent(cs[i], cli)
    decreases cs, 0
  {
    if |cs| == 0 then true
    else
      var init := AllPresent(cs[..|cs| - 1], sel, cli);
      assert forall i :: 0 <= i < |cs| - 1 ==> cs[..|cs| - 1][i] == cs[i];
      init && (Selected(cs[|cs| - 1], sel) ==> IsPresent(cs[|cs| - 1], cli))
  }

  // --------------------------------------------------------------- getMissing

  /** `getMissing(cli)`: a marker for what is missing, or empty. */
  function GetMissing(n: Node, cli: Cli): Option<string>
    decreases n, 1
  {
    match n
    case Leaf(o, _, _) => if IsPresent(n, cli) then None else Some("-" + o.opt)
    case Group(_, cs, _) =>
      var missing := MissingParts(cs, RequiredOnly, cli);
      if missing == [] then None else Some(Wrap("( ", missing, " ", " )"))
    case Radio(_, cs, _) =>
      if IsPresent(n, cli) then None else Some(Wrap("[ ", MissingParts(cs, Every, cli), " | ", " ]"))
    case AtLeastOne(_, cs, _) =>
      if IsPresent(n, cli) then None else Some(Wrap("[ ", MissingParts(cs, Every, cli), " | ", " ]"))
  }

  /** The markers of the selected children that report something missing, in order. */
  function MissingParts(cs: seq<Node>, sel: Sel, cli: Cli): (r: seq<string>)
    ensures r == [] <==> forall i :: 0 <= i < |cs| && Selected(cs[i], sel) ==> GetMissing(cs[i], cli).None?
    decreases cs, 0
  {
    if |cs| == 0 then []
    else
      var c := cs[|cs| - 1];
      var m := GetMissing(c, cli);
      var init := MissingParts(cs[..|cs| - 1], sel, cli);
      assert forall i :: 0 <= i < |cs| - 1 ==> cs[..|cs| - 1][i] == cs[i];
      init + (if Selected(c, sel) && m.Some? then [m.value] else [])
  }

  // -------------------------------------------------------------- getSeenList

  /** `getSeenList(cli)`: the names seen, one parenthesised entry per child that saw some. */
  function SeenList(n: Node, cli: Cli): seq<string>
    decreases n, 1
  {
    match n
    case Leaf(o, _, _) => if IsPresent(n, cli) then [o.opt] else []
    case Group(_, cs, _) => SeenParts(cs, cli)
    case Radio(_, cs, _) => SeenParts(cs, cli)
    case AtLeastOne(_, cs, _) => SeenParts(cs, cli)
  }

  /** One entry `"(" + joined + ")"` per child whose seen list is not empty. */
  function SeenParts(cs: seq<Node>, cli: Cli): (r: seq<string>)
    ensures r == [] <==> forall i :: 0 <= i < |cs| ==> SeenList(cs[i], cli) == []
    decreases cs, 0
  {
    if |cs| == 0 then []
    else
      var seen := SeenList(cs[|cs| - 1], cli);
      var init := SeenParts(cs[..|cs| - 1], cli);
      assert forall i :: 0 <= i < |cs| - 1 ==> cs[..|cs| - 1][i] == cs[i];
      init + (if seen != [] then [Wrap("(", seen, ",", ")")] else [])
  }

  // ------------------------------------------------------------ generateUsage

  /** `generateUsage(force)`: the usage text of the node, or empty. */
  function GenerateUsage(n: Node, force: bool): Option<string>
    decreases n, 1
  {
    if !force && !n.isRequired then None
    else
      match n
      case Leaf(o, _, _) =>
        Some("-" + o.opt + (match o.argName case None => "" case Some(a) => " <" + a + ">"))
      case Group(_, cs, _) =>
        var requiredGroup := Join(UsageParts(cs, RequiredOnly), " , ");
        var optionalGroup := Join(Bracketed(UsageParts(cs, OptionalOnly)), " , ");
        if requiredGroup == "" && optionalGroup == "" then None
        else if requiredGroup == "" then Some("(" + optionalGroup + " )")
        else if optionalGroup == "" then Some("(" + requiredGroup + " )")
        else Some("(" + requiredGroup + " " + optionalGroup + " )")
      case Radio(_, cs, _) =>
        var list := UsageParts(cs, Every);
        if list == [] then None else Some(Wrap("[ ", list, " | ", " ]"))
      case AtLeastOne(_, cs, _) =>
        var list := UsageParts(cs, Every);
        if list == [] then None else Some(Wrap("[", list, " | ", "]"))
  }

  /** The forced usages (`generateUsage(true)`) of the selected children that have one. */
  function UsageParts(cs: seq<Node>, sel: Sel): (r: seq<string>)
    ensures r == [] <==> forall i :: 0 <= i < |cs| && Selected(cs[i], sel) ==> GenerateUsage(cs[i], true).None?
    decreases cs, 0
  {
    if |cs| == 0 then []
    else
      var c := cs[|cs| - 1];
      var u := GenerateUsage(c, true);
      var init := UsageParts(cs[..|cs| - 1], sel);
      assert forall i :: 0 <= i < |cs| - 1 ==> cs[..|cs| - 1][i] == cs[i];
      init + (if Selected(c, sel) && u.Some? then [u.value] else [])
  }

  /** Each usage of an optional child shown as `"[ " + u + " ]"`. */
  function Bracketed(us: seq<string>): (r: seq<string>)
    ensures |r| == |us|
    ensures forall i :: 0 <= i < |us| ==> r[i] == "[ " + us[i] + " ]"
  {
    seq(|us|, i requires 0 <= i < |us| => "[ " + us[i] + " ]")
  }

  // ----------------------------------------------------------------- validate

  /** The messages of the composite nodes' cardinality checks. */
  const GroupMissingPrefix: string := "required group was not found require "
  const RadioTooManyPrefix: string := "Radio option must only select at most 1 choice but found "
  const RadioNoneSelected: string := "Radio option was required but did not find selected option choice"
  const AtLeastOneNoneSelected: string := "AtLeastOneOf option was required but did not find selected option choice"

  /** `validate(cli)`: returns normally, or throws the first violation found. */
  function Validate(n: Node, cli: Cli): (r: Outcome<Exn>)
    ensures r.Fail? ==> IsCliValidation(r.error)
    decreases n, 1
  {
    match n
    case Leaf(o, _, _) =>
      if o.required && !IsPresent(n, cli) then Fail(WithMessage(ValidationErrorKind, o.opt + " is required"))
      else Pass
    case Group(isRequired, cs, vs) =>
      var missing := MissingParts(cs, RequiredOnly, cli);
      if missing != [] && isRequired then
        Fail(WithMessage(CliValidationKind, GroupMissingPrefix + Wrap("( ", missing, ",", " )")))
      else
        ValidateAll(cs, RequiredOnly, cli).Then(ValidateAll(cs, OptionalOnly, cli)).Then(RunValidators(vs, cli))
    case Radio(isRequired, cs, vs) =>
      var seen := SeenParts(cs, cli);
      if |seen| > 1 then
        Fail(WithMessage(CliValidationKind, RadioTooManyPrefix + ListToString(seen)))
      else if isRequired && |seen| == 0 then
        Fail(WithMessage(CliValidationKind, RadioNoneSelected))
      else
        ValidateAll(cs, Every, cli).Then(RunValidators(vs, cli))
    case AtLeastOne(isRequired, cs, vs) =>
      var seen := SeenParts(cs, cli);
      if isRequired && |seen| == 0 then
        Fail(WithMessage(CliValidationKind, AtLeastOneNoneSelected))
      else
        ValidateAll(cs, Every, cli).Then(RunValidators(vs, cli))
  }

  /** Validates the selected children in order, stopping at the first that throws. */
  function ValidateAll(cs: seq<Node>, sel: Sel, cli: Cli): (r: Outcome<Exn>)
    ensures r == Pass <==> forall i :: 0 <= i < |cs| && Selected(cs[i], sel) ==> Validate(cs[i], cli) == Pass
    ensures r.Fail? ==> IsCliValidation(r.error)
    decreases cs, 0
  {
    if |cs| == 0 then Pass
    else
      var c := cs[|cs| - 1];
      var init := ValidateAll(cs[..|cs| - 1], sel, cli);
      assert forall i :: 0 <= i < |cs| - 1 ==> cs[..|cs| - 1][i] == cs[i];
      init.Then(if Selected(c, sel) then Validate(c, cli) else Pass)
  }

  // ---------------------------------------------------------- fireConsumerIfNeeded

  /** `fireConsumerIfNeeded(cli)`: the consumer of every present leaf, in tree order,
      until one throws. */
  function Fire(n: Node, cli: Cli): (r: FireResult)
    ensures r.error.Some? ==> r.calls != []
    decreases n, 1
  {
    match n
    case Leaf(o, consumer, _) =>
      if IsPresent(n, cli) then
        var value := cli.OptionValue(o.opt);
        FireResult([Call(o.opt, value)], match consumer(value) case Pass => None case Fail(e) => Some(e))
      else FireResult([], None)
    case Group(_, cs, _) => FireAll(cs, cli)
    case Radio(_, cs, _) => FireAll(cs, cli)
    case AtLeastOne(_, cs, _) => FireAll(cs, cli)
  }

  /** Fires the children in order; an exception stops the loop. */
  function FireAll(cs: seq<Node>, cli: Cli): (r: FireResult)
    ensures r.error.Some? ==> r.calls != []
    decreases cs, 0
  {
    if |cs| == 0 then FireResult([], None)
    else
      var init := FireAll(cs[..|cs| - 1], cli);
      if init.error.Some? then init
      else
        var last := Fire(cs[|cs| - 1], cli);
        FireResult(init.calls + last.calls, last.error)
  }

  // -------------------------------------------------------------------- addTo

  /** The node after `addTo(spec, force)`: a leaf's parser-level flag becomes the
      override when there is one; a group passes `child.isRequired() && f` to each
      child, `f` being the override or else its own flag; a radio and an at-least-one
      node pass `false`. */
  function Registered(n: Node, force: Option<bool>): Node
    decreases n, 1
  {
    match n
    case Leaf(o, c, r) => if force.Some? then Leaf(o.(required := force.value), c, r) else n
    case Group(r, cs, vs) => Group(r, RegisterAll(cs, force.GetOr(r)), vs)
    case Radio(r, cs, vs) => Radio(r, RegisterAll(cs, false), vs)
    case AtLeastOne(r, cs, vs) => AtLeastOne(r, RegisterAll(cs, false), vs)
  }

  /** Each child registered with override `child.isRequired && f`. */
  function RegisterAll(cs: seq<Node>, f: bool): (r: seq<Node>)
    ensures |r| == |cs|
    decreases cs, 0
  {
    if |cs| == 0 then []
    else
      var c := cs[|cs| - 1];
      RegisterAll(cs[..|cs| - 1], f) + [Registered(c, Some(c.isRequired && f))]
  }

  /** The leaves of a tree, left to right. */
  function Leaves(n: Node): (r: seq<Node>)
    ensures forall i :: 0 <= i < |r| ==> r[i].Leaf?
    decreases n, 1
  {
    match n
    case Leaf(_, _, _) => [n]
    case Group(_, cs, _) => LeavesAll(cs)
    case Radio(_, cs, _) => LeavesAll(cs)
    case AtLeastOne(_, cs, _) => LeavesAll(cs)
  }

  function LeavesAll(cs: seq<Node>): (r: seq<Node>)
    ensures forall i :: 0 <= i < |r| ==> r[i].Leaf?
    decreases cs, 0
  {
    if |cs| == 0 then [] else LeavesAll(cs[..|cs| - 1]) + Leaves(cs[|cs| - 1])
  }

  /** The Apache options of some leaves, in order: what `addTo` puts in the table. */
  function LeafOptions(ls: seq<Node>): (r: seq<ApacheOption>)
    requires forall i :: 0 <= i < |ls| ==> ls[i].Leaf?
    ensures |r| == |ls|
    ensures forall i :: 0 <= i < |ls| ==> r[i] == ls[i].option
  {
    seq(|ls|, i requires 0 <= i < |ls| && ls[i].Leaf? => ls[i].option)
  }

  /** The options a node registers, in order. */
  function Table(n: Node): seq<ApacheOption> {
    LeafOptions(Leaves(n))
  }
}
