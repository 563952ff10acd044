/** The older `cli2` snapshot of the option tree. Its leaf, group and radio nodes answer
    `isPresent`, `getMissing`, `getSeenList`, `fireConsumerIfNeeded` and `addTo`
    exactly as the `cli` nodes do (the functions of `CliNodes`), but `validate` differs:
    a group validates only its required children, a radio only counts its choices, every
    failure is a `ValidationError`, and no node carries validation rules. The leaf
    builder uses its argument name as both short and long name. */
module Cli2 {
  import opened Wrappers
  import opened Text
  import opened Context
  import opened Options
  import opened Setters
  import opened CliNodes
  import opened CliNodeProps
  import opened CliNodeLoops
  import opened CliBuilders

  // ------------------------------------------------------------------ trees

  /** The trees `cli2` builds: leaves, groups and radios, with no validation rules. */
  predicate Cli2Tree(n: Node)
    decreases n, 1
  {
    match n
    case Leaf(_, _, _) => true
    case Group(_, cs, vs) => vs == [] && Cli2TreeAll(cs)
    case Radio(_, cs, vs) => vs == [] && Cli2TreeAll(cs)
    case AtLeastOne(_, _, _) => false
  }

  predicate Cli2TreeAll(cs: seq<Node>)
    decreases cs, 0
  {
    forall i :: 0 <= i < |cs| ==> Cli2Tree(cs[i])
  }

  // --------------------------------------------------------------- validate

  /** `validate(cli)` of the `cli2` nodes. A leaf fails when its parser-level flag is set
      and it is absent; a required group fails when a required child is missing, and
      otherwise validates its required children in order; a radio fails when more than
      one choice is seen, or when it is required and none is; it validates nothing
      below it. (`cli2` has no at-least-one node.) */
  function Validate2(n: Node, cli: Cli): Outcome<Exn>
    decreases n, 1
  {
    match n
    case Leaf(o, _, _) =>
      if o.required && !IsPresent(n, cli) then Fail(WithMessage(ValidationErrorKind, o.opt + " is required"))
      else Pass
    case Group(isRequired, cs, _) =>
      var missing := MissingParts(cs, RequiredOnly, cli);
      if missing != [] && isRequired then
        Fail(WithMessage(ValidationErrorKind, GroupMissingPrefix + Wrap("( ", missing, ",", " )")))
      else
        ValidateAll2(cs, RequiredOnly, cli)
    case Radio(isRequired, cs, _) =>
      var seen := SeenParts(cs, cli);
      if |seen| > 1 then
        Fail(WithMessage(ValidationErrorKind, RadioTooManyPrefix + ListToString(seen)))
      else if isRequired && |seen| == 0 then
        Fail(WithMessage(ValidationErrorKind, RadioNoneSelected))
      else
        Pass
    case AtLeastOne(_, _, _) => Pass
  }

  /** Validates the selected children in order, stopping at the first that throws. */
  function ValidateAll2(cs: seq<Node>, sel: Sel, cli: Cli): (r: Outcome<Exn>)
    ensures r == Pass <==> forall i :: 0 <= i < |cs| && Selected(cs[i], sel) ==> Validate2(cs[i], cli) == Pass
    decreases cs, 0
  {
    if |cs| == 0 then Pass
    else
      var c := cs[|cs| - 1];
      var init := ValidateAll2(cs[..|cs| - 1], sel, cli);
      assert forall i :: 0 <= i < |cs| - 1 ==> cs[..|cs| - 1][i] == cs[i];
      init.Then(if Selected(c, sel) then Validate2(c, cli) else Pass)
  }

  /** Every failure of `cli2`'s `validate` is a `ValidationError` with no cause. */
  predicate IsValidationError(r: Outcome<Exn>) {
    r.Fail? ==> r.error.CliValidation? && r.error.kind == ValidationErrorKind && r.error.cause.None?
  }

  lemma {:induction false} Validate2Fails(n: Node, cli: Cli)
    ensures IsValidationError(Validate2(n, cli))
    decreases n, 1
  {
    if n.Group? {
      Validate2AllFails(n.choices, RequiredOnly, cli);
    }
  }

  lemma {:induction false} Validate2AllFails(cs: seq<Node>, sel: Sel, cli: Cli)
    ensures IsValidationError(ValidateAll2(cs, sel, cli))
    decreases cs, 0
  {
    if |cs| > 0 {
      Validate2AllFails(cs[..|cs| - 1], sel, cli);
      Validate2Fails(cs[|cs| - 1], cli);
    }
  }

  /** When a command line satisfies a `cli2` tree, stated without the seen and missing
      lists: a leaf whose parser-level flag is set is given; a required group lacks none
      of its required children, and each required child is satisfied; no two choices
      of a radio have an option given, and a required radio has one with an option
      given. Optional children of a group, and the choices of a radio, are not looked
      into. */
  ghost predicate Sound2(n: Node, cli: Cli)
    decreases n, 1
  {
    match n
    case Leaf(o, _, _) => o.required ==> o.opt in cli.present
    case Group(isRequired, cs, _) =>
      (isRequired ==> forall i :: 0 <= i < |cs| && cs[i].isRequired ==> GetMissing(cs[i], cli).None?)
      && (forall i :: 0 <= i < |cs| && cs[i].isRequired ==> Sound2(cs[i], cli))
    case Radio(isRequired, cs, _) =>
      (forall i, j :: 0 <= i < j < |cs| && SomeLeafPresent(cs[i], cli) ==> !SomeLeafPresent(cs[j], cli))
      && (isRequired ==> exists i :: 0 <= i < |cs| && SomeLeafPresent(cs[i], cli))
    case AtLeastOne(_, _, _) => true
  }

  /** `cli2`'s `validate` returns normally exactly when the command line satisfies the
      tree. */
  lemma {:induction false} Validate2PassIffSound2(n: Node, cli: Cli)
    ensures Validate2(n, cli) == Pass <==> Sound2(n, cli)
    decreases n, 1
  {
    match n
    case Leaf(_, _, _) =>
    case Group(_, cs, _) =>
      forall i | 0 <= i < |cs| ensures Validate2(cs[i], cli) == Pass <==> Sound2(cs[i], cli) {
        Validate2PassIffSound2(cs[i], cli);
      }
    case Radio(_, cs, _) =>
      SeenCounts(cs, cli);
    case AtLeastOne(_, _, _) =>
  }

  /** Whatever `cli` accepts `cli2` accepts too: every check of the older `validate` is
      also made by the newer one. */
  lemma {:induction false} SoundImpliesSound2(n: Node, cli: Cli)
    requires Sound(n, cli)
    ensures Sound2(n, cli)
    decreases n, 1
  {
    match n
    case Leaf(_, _, _) =>
    case Group(_, cs, _) =>
      forall i | 0 <= i < |cs| && cs[i].isRequired ensures Sound2(cs[i], cli) {
        SoundImpliesSound2(cs[i], cli);
      }
    case Radio(_, _, _) =>
    case AtLeastOne(_, _, _) =>
  }

  lemma CliPassImpliesCli2Pass(n: Node, cli: Cli)
    requires Validate(n, cli) == Pass
    ensures Validate2(n, cli) == Pass
  {
    ValidatePassIffSound(n, cli);
    SoundImpliesSound2(n, cli);
    Validate2PassIffSound2(n, cli);
  }

  /** The converse fails: a required group holding an optional radio with both choices
      given. `cli` validates the optional radio and refuses; `cli2` never looks at it. */
  lemma OptionalRadioInGroup(x: Node, y: Node, cli: Cli)
    requires x.Leaf? && y.Leaf? && x.option.opt in cli.present && y.option.opt in cli.present
    ensures var n := Group(true, [Radio(false, [x, y], [])], []);
      Validate(n, cli).Fail? && Validate2(n, cli) == Pass
  {
    var r := Radio(false, [x, y], []);
    var n := Group(true, [r], []);
    assert [x, y][..1] == [x] && [x][..0] == [] && [r][..0] == [];
    assert |SeenParts([x, y], cli)| == 2;
    assert Validate(r, cli).Fail?;
    assert ValidateAll([r], OptionalOnly, cli).Fail?;
  }

  /** Nor does a radio look below the chosen choice: a group that lacks a required
      option is refused by `cli` and let through by `cli2`. */
  lemma RadioDoesNotRecurse(a: Node, b: Node, c: Node, cli: Cli)
    requires a.Leaf? && a.option.opt !in cli.present
    requires b.Leaf? && b.isRequired && b.option.opt in cli.present
    requires c.Leaf? && c.isRequired && c.option.opt !in cli.present
    ensures var n := Radio(false, [a, Group(true, [b, c], [])], []);
      Validate(n, cli).Fail? && Validate2(n, cli) == Pass
  {
    var g := Group(true, [b, c], []);
    var n := Radio(false, [a, g], []);
    assert [b, c][..1] == [b] && [b][..0] == [];
    assert [a, g][..1] == [a] && [a][..0] == [];
    assert SeenList(b, cli) != [];
    assert [b, c][0] == b;
    assert SeenParts([b, c], cli) != [];
    assert SeenList(g, cli) != [];
    assert |SeenParts([a, g], cli)| == 1;
    assert MissingParts([b, c], RequiredOnly, cli) != [];
    assert Validate(g, cli).Fail?;
    assert ValidateAll([a, g], Every, cli).Fail?;
  }

  // ------------------------------------------------------------ the loops

  lemma {:induction false} FilterValidate2(cs: seq<Node>, sel: Sel, cli: Cli)
    ensures ValidateAll2(cs, sel, cli) == ValidateAll2(Filter(cs, sel), Every, cli)
  {
    if |cs| > 0 {
      FilterValidate2(cs[..|cs| - 1], sel, cli);
      FilterSnoc(cs, sel);
    }
  }

  /** Once the validation of a prefix has thrown, the whole list throws the same. */
  lemma {:induction false} ValidateAll2Stops(xs: seq<Node>, k: nat, cli: Cli)
    requires k <= |xs| && ValidateAll2(xs[..k], Every, cli).Fail?
    ensures ValidateAll2(xs, Every, cli) == ValidateAll2(xs[..k], Every, cli)
    decreases |xs| - k
  {
    if k < |xs| {
      assert xs[..k + 1][..k] == xs[..k];
      ValidateAll2Stops(xs, k + 1, cli);
    } else {
      assert xs[..k] == xs;
    }
  }

  /** The loop over `requiredOptions`, stopping at the first that throws. */
  method ValidateChildren2M(n: Node, xs: seq<Node>, cli: Cli) returns (r: Outcome<Exn>)
    requires !n.Leaf? && forall i :: 0 <= i < |xs| ==> xs[i] in n.choices
    ensures r == ValidateAll2(xs, Every, cli)
    decreases n, 0
  {
    for i := 0 to |xs|
      invariant ValidateAll2(xs[..i], Every, cli) == Pass
    {
      assert xs[..i + 1][..i] == xs[..i];
      assert xs[i] in n.choices;
      var v := Validate2M(xs[i], cli);
      if v.Fail? {
        ValidateAll2Stops(xs, i + 1, cli);
        return v;
      }
    }
    assert xs[..|xs|] == xs;
    return Pass;
  }

  /** `validate(cli)` of the `cli2` nodes, with the loops the Java code runs. */
  method Validate2M(n: Node, cli: Cli) returns (r: Outcome<Exn>)
    ensures r == Validate2(n, cli)
    decreases n, 1
  {
    match n
    case Leaf(o, _, _) =>
      if o.required && o.opt !in cli.present {
        return Fail(WithMessage(ValidationErrorKind, o.opt + " is required"));
      }
      return Pass;
    case Group(isRequired, cs, _) =>
      var req, _ := PartitionChoices(cs);
      FilterMissing(cs, RequiredOnly, cli);
      FilterValidate2(cs, RequiredOnly, cli);
      var missing := MissingPartsM(n, req, cli);
      if missing != [] && isRequired {
        return Fail(WithMessage(ValidationErrorKind, GroupMissingPrefix + Wrap("( ", missing, ",", " )")));
      }
      r := ValidateChildren2M(n, req, cli);
    case Radio(isRequired, cs, _) =>
      var seen := SeenListM(n, cli);
      if |seen| > 1 {
        return Fail(WithMessage(ValidationErrorKind, RadioTooManyPrefix + ListToString(seen)));
      }
      if isRequired && |seen| == 0 {
        return Fail(WithMessage(ValidationErrorKind, RadioNoneSelected));
      }
      return Pass;
    case AtLeastOne(_, _, _) =>
      return Pass;
  }

  // ------------------------------------------------------------ builders

  /** Every field of a `cli2` leaf builder except its consumer. */
  datatype Shape2 = Shape2(argName: string, description: Option<string>, isRequired: bool, isFlag: bool)

  /** `cli2.BasicCliOption`: a leaf builder named by its argument name. */
  class Cli2Option {
    var argName: string
    var description: Option<string>
    var isRequired: bool
    var consumer: Consumer
    var isFlag: bool

    function Shape(): Shape2
      reads this
    {
      Shape2(argName, description, isRequired, isFlag)
    }

    /** `new BasicCliOption(argName)`: not required, not a flag, no description, and the
        consumer that does nothing. */
    constructor (argName: string)
      ensures Shape() == Shape2(argName, None, false, false)
      ensures forall s :: consumer(s) == Pass
    {
      this.argName := argName;
      description := None;
      isRequired := false;
      consumer := NoOp();
      isFlag := false;
    }

    /** `description(d)`; a null description is refused by the source. */
    method Description(d: string)
      modifies this
      ensures Shape() == old(Shape()).(description := Some(d))
      ensures forall s :: consumer(s) == old(consumer)(s)
    {
      description := Some(d);
    }

    /** `isFlag(b)`. */
    method IsFlag(b: bool)
      modifies this
      ensures Shape() == old(Shape()).(isFlag := b)
      ensures forall s :: consumer(s) == old(consumer)(s)
    {
      isFlag := b;
    }

    /** `required(b)` and `setRequired(b)`. */
    method SetRequired(b: bool)
      modifies this
      ensures Shape() == old(Shape()).(isRequired := b)
      ensures forall s :: consumer(s) == old(consumer)(s)
    {
      isRequired := b;
    }

    /** `setter(consumer, validator)`: a refused value throws a `ValidationError`, and so
        does a failing consumer, keeping the consumer's message. */
    method SetValidated(sink: Option<string> -> Outcome<Exn>, validator: Option<Option<string> -> bool>)
      modifies this
      ensures Shape() == old(Shape())
      ensures forall s :: consumer(s) == StringSetter(sink, validator, s).outcome
    {
      consumer := Installed(s => StringSetter(sink, validator, s));
    }

    /** `setter(Consumer<String>)`: `setter(consumer, null)`. */
    method Setter(sink: Option<string> -> Outcome<Exn>)
      modifies this
      ensures Shape() == old(Shape())
      ensures forall s :: consumer(s) == StringSetter(sink, None, s).outcome
    {
      SetValidated(sink, None);
    }

    /** `setToFile(consumer)`: what the consumer throws is not wrapped. */
    method SetToFile(sink: File -> Outcome<Exn>)
      modifies this
      ensures Shape() == old(Shape())
      ensures forall s :: consumer(s) == FileSetter(sink, s).outcome
    {
      consumer := Installed(s => FileSetter(sink, s));
    }

    /** `setToInt(consumer)`: neither the parse error nor what the consumer throws is
        wrapped. */
    method SetToInt(sink: int -> Outcome<Exn>)
      modifies this
      ensures Shape() == old(Shape())
      ensures forall s :: consumer(s) == IntSetter(sink, s).outcome
    {
      consumer := Installed(s => IntSetter(sink, s));
    }

    /** `asApacheOption()`: the argument name is both the short and the long name; the
        Apache option has no argument name of its own. */
    function AsApacheOption(): (o: ApacheOption)
      reads this
      ensures o.opt == argName && o.longOpt == Some(argName) && o.argName.None?
      ensures o.hasArg == !isFlag && o.required == isRequired && o.description == description
    {
      ApacheOption(argName, Some(argName), description, !isFlag, None, isRequired)
    }

    /** `build()`. */
    function Build(): (n: Node)
      reads this
      ensures n.Leaf? && n.option == AsApacheOption() && n.isRequired == isRequired
      ensures n.option.required == n.isRequired
      ensures forall s :: n.consumer(s) == consumer(s)
    {
      Leaf(AsApacheOption(), consumer, isRequired)
    }

    /** `build(b)`: the parser-level flag becomes `b`, the semantic flag stays. */
    function BuildWith(b: bool): (n: Node)
      reads this
      ensures n.Leaf? && n.option == AsApacheOption().(required := b) && n.isRequired == isRequired
      ensures forall s :: n.consumer(s) == consumer(s)
    {
      Leaf(AsApacheOption().(required := b), consumer, isRequired)
    }
  }

  /** A `cli2` builder tree: a leaf builder, or a group or radio builder with its
      `isRequired` field and its choices (no validation rules). */
  datatype Builder2 =
    | Basic2(basic: Cli2Option)
    | Group2(isRequired: bool, choices: seq<Builder2>)
    | Radio2(isRequired: bool, choices: seq<Builder2>)

  /** `new GroupedOption(choices)`: at least one choice, not required. */
  function NewGroup2(choices: seq<Builder2>): (r: Result<Builder2, Exn>)
    ensures r.Err? <==> |choices| < 1
    ensures r.Err? ==> r.error == IllegalState("group option requires at least 1 choices")
    ensures r.Ok? ==> r.value == Group2(false, choices)
  {
    if |choices| < 1 then Err(IllegalState("group option requires at least 1 choices"))
    else Ok(Group2(false, choices))
  }

  /** `new RadioCliOption(choices)`: at least two choices. */
  function NewRadio2(choices: seq<Builder2>): (r: Result<Builder2, Exn>)
    ensures r.Err? <==> |choices| < 2
    ensures r.Err? ==> r.error == IllegalState("Radio option requires at least 2 choices")
    ensures r.Ok? ==> r.value == Radio2(false, choices)
  {
    if |choices| < 2 then Err(IllegalState("Radio option requires at least 2 choices"))
    else Ok(Radio2(false, choices))
  }

  /** `setRequired(r)` on a group or radio builder. */
  function WithRequired2(b: Builder2, r: bool): (b': Builder2)
    requires !b.Basic2?
    ensures b'.Group2? == b.Group2? && b'.Radio2? == b.Radio2?
    ensures b'.isRequired == r && b'.choices == b.choices
  {
    b.(isRequired := r)
  }

  /** The leaf builder objects of a `cli2` builder tree. */
  function Objects2(b: Builder2): set<Cli2Option>
    decreases b, 1
  {
    match b
    case Basic2(o) => {o}
    case Group2(_, cs) => ObjectsAll2(cs)
    case Radio2(_, cs) => ObjectsAll2(cs)
  }

  function ObjectsAll2(cs: seq<Builder2>): set<Cli2Option>
    decreases cs, 0
  {
    if |cs| == 0 then {} else ObjectsAll2(cs[..|cs| - 1]) + Objects2(cs[|cs| - 1])
  }

  /** `build()`: every choice is built with `build()`; a group or radio node takes the
      builder's `isRequired`; what it builds is a `cli2` tree whose leaves have equal
      parser-level and semantic flags. */
  function Build2(b: Builder2): (n: Node)
    reads Objects2(b)
    ensures b.Basic2? <==> n.Leaf?
    ensures b.Basic2? ==> n.option == b.basic.AsApacheOption() && n.isRequired == b.basic.isRequired
    ensures !b.Basic2? ==> n.isRequired == b.isRequired && n.validators == [] && |n.choices| == |b.choices|
    ensures n.Group? == b.Group2? && n.Radio? == b.Radio2?
    ensures Cli2Tree(n) && FlagsAgree(n)
    decreases b, 1
  {
    match b
    case Basic2(o) => o.Build()
    case Group2(r, cs) => Group(r, BuildAll2(cs), [])
    case Radio2(r, cs) => Radio(r, BuildAll2(cs), [])
  }

  function BuildAll2(cs: seq<Builder2>): (r: seq<Node>)
    reads ObjectsAll2(cs)
    ensures |r| == |cs| && Cli2TreeAll(r) && FlagsAgreeAll(r)
    ensures forall i :: 0 <= i < |cs| ==> r[i] == Build2(cs[i])
    decreases cs, 0
  {
    if |cs| == 0 then []
    else
      var init := BuildAll2(cs[..|cs| - 1]);
      var r := init + [Build2(cs[|cs| - 1])];
      assert r[..|r| - 1] == init;
      r
  }

  /** `build(isRequired)`: a leaf takes `isRequired` as its parser-level flag; a group
      or radio takes it as its semantic flag, and builds its choices with `build()`. */
  function BuildWith2(b: Builder2, isRequired: bool): (n: Node)
    reads Objects2(b)
    ensures n.Group? == b.Group2? && n.Radio? == b.Radio2? && Cli2Tree(n)
    ensures b.Basic2? ==> n.Leaf? && n.option == b.basic.AsApacheOption().(required := isRequired) && n.isRequired == b.basic.isRequired
    ensures !b.Basic2? ==> !n.Leaf? && n.isRequired == isRequired && n.validators == [] && n.choices == BuildAll2(b.choices)
  {
    match b
    case Basic2(o) => o.BuildWith(isRequired)
    case Group2(_, cs) => Group(isRequired, BuildAll2(cs), [])
    case Radio2(_, cs) => Radio(isRequired, BuildAll2(cs), [])
  }
}
