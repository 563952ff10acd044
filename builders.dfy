/** The option builders of the `cli` package: the mutable leaf builder `BasicCliOption`,
    the composite builders `GroupedOption`, `RadioCliOption` and `AtLeastOneOfOption`
    with their construction checks, and `build()` / `build(isRequired)`, which turn a
    builder into an option node. */
module CliBuilders {
  import opened Wrappers
  import opened Context
  import opened Options
  import opened Setters
  import opened CliNodes

  /** Every field of a leaf builder except its consumer. */
  datatype OptionShape = OptionShape(
    name: string,
    description: Option<string>,
    longName: Option<string>,
    isRequired: bool,
    argName: Option<string>,
    isFlag: bool)

  /** `BasicCliOption`: a leaf builder. Every setter assigns one field. */
  class BasicCliOption {
    var name: string
    var description: Option<string>
    var longName: Option<string>
    var isRequired: bool
    var argName: Option<string>
    var consumer: Consumer
    var isFlag: bool

    function Shape(): OptionShape
      reads this
    {
      OptionShape(name, description, longName, isRequired, argName, isFlag)
    }

    /** `new BasicCliOption(name)` (`CliSpecification.option(name)`): not required, not a
        flag, no other names, and the consumer that does nothing. */
    constructor (name: string)
      ensures Shape() == OptionShape(name, None, None, false, None, false)
      ensures forall s :: consumer(s) == Pass
    {
      this.name := name;
      description := None;
      longName := None;
      isRequired := false;
      argName := None;
      consumer := NoOp();
      isFlag := false;
    }

    /** `argName(a)`. */
    method ArgName(a: Option<string>)
      modifies this
      ensures Shape() == old(Shape()).(argName := a)
      ensures forall s :: consumer(s) == old(consumer)(s)
    {
      argName := a;
    }

    /** `longName(l)`. */
    method LongName(l: Option<string>)
      modifies this
      ensures Shape() == old(Shape()).(longName := l)
      ensures forall s :: consumer(s) == old(consumer)(s)
    {
      longName := l;
    }

    /** `description(d)`; a null description is refused by the source. */
    method Description(d: string)
      modifies this
      ensures Shape() == old(Shape()).(description := Some(d))
      ensures forall s :: consumer(s) == old(consumer)(s)
    {
      description := Some(d);
    }

    /** `isFlag(b)`. */
    method IsFlag(b: bool)
      modifies this
      ensures Shape() == old(Shape()).(isFlag := b)
      ensures forall s :: consumer(s) == old(consumer)(s)
    {
      isFlag := b;
    }

    /** `required(b)` and `setRequired(b)`. */
    method SetRequired(b: bool)
      modifies this
      ensures Shape() == old(Shape()).(isRequired := b)
      ensures forall s :: consumer(s) == old(consumer)(s)
    {
      isRequired := b;
    }

    /** `setter(typeConverter, consumer, validator)`. */
    method SetConverter<R>(convert: Option<string> -> Result<R, Exn>, sink: R -> Outcome<Exn>, validator: Option<R -> bool>)
      modifies this
      ensures Shape() == old(Shape())
      ensures forall s :: consumer(s) == ConvertingSetter(convert, sink, validator, s).outcome
    {
      consumer := Installed(s => ConvertingSetter(convert, sink, validator, s));
    }

    /** `setter(consumer, validator)`. */
    method SetValidated(sink: Option<string> -> Outcome<Exn>, validator: Option<Option<string> -> bool>)
      modifies this
      ensures Shape() == old(Shape())
      ensures forall s :: consumer(s) == StringSetter(sink, validator, s).outcome
    {
      consumer := Installed(s => StringSetter(sink, validator, s));
    }

    /** `setter(Consumer<String>)`: the converting setter with the identity converter and
        no validator. */
    method Setter(sink: Option<string> -> Outcome<Exn>)
      modifies this
      ensures Shape() == old(Shape())
      ensures forall s :: consumer(s) == ConvertingSetter(Identity(), sink, None, s).outcome
    {
      SetConverter(Identity(), sink, None);
    }

    /** `setToFile(consumer)`. */
    method SetToFile(sink: File -> Outcome<Exn>)
      modifies this
      ensures Shape() == old(Shape())
      ensures forall s :: consumer(s) == FileSetter(sink, s).outcome
    {
      consumer := Installed(s => FileSetter(sink, s));
    }

    /** `setToInt(consumer)`. */
    method SetToInt(sink: int -> Outcome<Exn>)
      modifies this
      ensures Shape() == old(Shape())
      ensures forall s :: consumer(s) == IntSetter(sink, s).outcome
    {
      consumer := Installed(s => IntSetter(sink, s));
    }

    /** `asApacheOption()`: the Apache option of the current settings; it takes an
        argument unless the option is a flag, and it is parser-required when the builder
        is required. */
    function AsApacheOption(): (o: ApacheOption)
      reads this
      ensures o.hasArg == !isFlag && o.required == isRequired
      ensures o.opt == name && o.longOpt == longName && o.description == description && o.argName == argName
    {
      ApacheOption(name, longName, description, !isFlag, argName, isRequired)
    }

    /** `build()`: a leaf whose parser-level and semantic flags are the builder's. */
    function Build(): (n: Node)
      reads this
      ensures n.Leaf? && n.option == AsApacheOption() && n.isRequired == isRequired
      ensures n.option.required == n.isRequired
      ensures forall s :: n.consumer(s) == consumer(s)
    {
      Leaf(AsApacheOption(), consumer, isRequired)
    }

    /** `build(b)`: the parser-level flag becomes `b`, the semantic flag stays the
        builder's. */
    function BuildWith(b: bool): (n: Node)
      reads this
      ensures n.Leaf? && n.option == AsApacheOption().(required := b) && n.isRequired == isRequired
      ensures forall s :: n.consumer(s) == consumer(s)
    {
      Leaf(AsApacheOption().(required := b), consumer, isRequired)
    }
  }

  /** A builder tree: a leaf builder object, or a composite builder with its
      `isRequired` field, its choices and its validation rules. */
  datatype Builder =
    | BasicB(basic: BasicCliOption)
    | GroupB(isRequired: bool, choices: seq<Builder>, validators: seq<Validator>)
    | RadioB(isRequired: bool, choices: seq<Builder>, validators: seq<Validator>)
    | AtLeastOneB(isRequired: bool, choices: seq<Builder>, validators: seq<Validator>)

  /** `new IllegalStateException(message)`. */
  function IllegalState(message: string): Exn {
    Thrown("java.lang.IllegalStateException", Some(message))
  }

  /** `new GroupedOption(choices)`: at least one choice, not required, no rules. */
  function NewGroup(choices: seq<Builder>): (r: Result<Builder, Exn>)
    ensures r.Err? <==> |choices| < 1
    ensures r.Err? ==> r.error == IllegalState("group option requires at least 1 choices")
    ensures r.Ok? ==> r.value == GroupB(false, choices, [])
  {
    if |choices| < 1 then Err(IllegalState("group option requires at least 1 choices"))
    else Ok(GroupB(false, choices, []))
  }

  /** `new RadioCliOption(choices)`: at least two choices. */
  function NewRadio(choices: seq<Builder>): (r: Result<Builder, Exn>)
    ensures r.Err? <==> |choices| < 2
    ensures r.Err? ==> r.error == IllegalState("Radio option requires at least 2 choices")
    ensures r.Ok? ==> r.value == RadioB(false, choices, [])
  {
    if |choices| < 2 then Err(IllegalState("Radio option requires at least 2 choices"))
    else Ok(RadioB(false, choices, []))
  }

  /** `new AtLeastOneOfOption(choices)`: at least two choices. */
  function NewAtLeastOne(choices: seq<Builder>): (r: Result<Builder, Exn>)
    ensures r.Err? <==> |choices| < 2
    ensures r.Err? ==> r.error == IllegalState("At Least One Of option requires at least 2 choices")
    ensures r.Ok? ==> r.value == AtLeastOneB(false, choices, [])
  {
    if |choices| < 2 then Err(IllegalState("At Least One Of option requires at least 2 choices"))
    else Ok(AtLeastOneB(false, choices, []))
  }

  /** `setRequired(r)` on a composite builder. */
  function WithRequired(b: Builder, r: bool): (b': Builder)
    requires !b.BasicB?
    ensures b'.GroupB? == b.GroupB? && b'.RadioB? == b.RadioB? && b'.AtLeastOneB? == b.AtLeastOneB?
    ensures !b'.BasicB? && b'.isRequired == r && b'.choices == b.choices && b'.validators == b.validators
  {
    b.(isRequired := r)
  }

  /** `addValidation(rule, message)` on a composite builder: the rule goes last. */
  function AddValidation(b: Builder, v: Validator): (b': Builder)
    requires !b.BasicB?
    ensures b'.GroupB? == b.GroupB? && b'.RadioB? == b.RadioB? && b'.AtLeastOneB? == b.AtLeastOneB?
    ensures !b'.BasicB? && b'.isRequired == b.isRequired && b'.choices == b.choices && b'.validators == b.validators + [v]
  {
    b.(validators := b.validators + [v])
  }

  /** The leaf builder objects of a builder tree: what building it reads. */
  function Objects(b: Builder): set<BasicCliOption>
    decreases b, 1
  {
    match b
    case BasicB(o) => {o}
    case GroupB(_, cs, _) => ObjectsAll(cs)
    case RadioB(_, cs, _) => ObjectsAll(cs)
    case AtLeastOneB(_, cs, _) => ObjectsAll(cs)
  }

  function ObjectsAll(cs: seq<Builder>): set<BasicCliOption>
    decreases cs, 0
  {
    if |cs| == 0 then {} else ObjectsAll(cs[..|cs| - 1]) + Objects(cs[|cs| - 1])
  }

  /** `build()`: every choice is built with `build()`, and a composite node takes the
      builder's `isRequired`. */
  function Build(b: Builder): (n: Node)
    reads Objects(b)
    ensures b.BasicB? <==> n.Leaf?
    ensures b.BasicB? ==> n.option == b.basic.AsApacheOption() && n.isRequired == b.basic.isRequired
    ensures !b.BasicB? ==> n.isRequired == b.isRequired && n.validators == b.validators && |n.choices| == |b.choices|
    ensures n.Group? == b.GroupB? && n.Radio? == b.RadioB? && n.AtLeastOne? == b.AtLeastOneB?
    decreases b, 1
  {
    match b
    case BasicB(o) => o.Build()
    case GroupB(r, cs, vs) => Group(r, BuildAll(cs), vs)
    case RadioB(r, cs, vs) => Radio(r, BuildAll(cs), vs)
    case AtLeastOneB(r, cs, vs) => AtLeastOne(r, BuildAll(cs), vs)
  }

  function BuildAll(cs: seq<Builder>): (r: seq<Node>)
    reads ObjectsAll(cs)
    ensures |r| == |cs|
    decreases cs, 0
  {
    if |cs| == 0 then [] else BuildAll(cs[..|cs| - 1]) + [Build(cs[|cs| - 1])]
  }

  /** `build(isRequired)`: a leaf keeps its semantic flag and takes `isRequired` as its
      parser-level flag; a composite node takes `isRequired` as its semantic flag and
      builds its choices with `build()`. */
  function BuildWith(b: Builder, isRequired: bool): (n: Node)
    reads Objects(b)
    ensures n.Group? == b.GroupB? && n.Radio? == b.RadioB? && n.AtLeastOne? == b.AtLeastOneB?
    ensures b.BasicB? ==> n.Leaf? && n.option == b.basic.AsApacheOption().(required := isRequired) && n.isRequired == b.basic.isRequired
    ensures !b.BasicB? ==> !n.Leaf? && n.isRequired == isRequired && n.validators == b.validators && n.choices == BuildAll(b.choices)
  {
    match b
    case BasicB(o) => o.BuildWith(isRequired)
    case GroupB(_, cs, vs) => Group(isRequired, BuildAll(cs), vs)
    case RadioB(_, cs, vs) => Radio(isRequired, BuildAll(cs), vs)
    case AtLeastOneB(_, cs, vs) => AtLeastOne(isRequired, BuildAll(cs), vs)
  }

  /** Choice `i` of a built composite is choice `i` built. */
  lemma {:induction false} BuildAllAt(cs: seq<Builder>, i: nat)
    requires i < |cs|
    ensures BuildAll(cs)[i] == Build(cs[i])
  {
    if i < |cs| - 1 {
      BuildAllAt(cs[..|cs| - 1], i);
    }
  }

  /** A tree built with `build()` has, at every leaf, the parser-level flag equal to the
      semantic one: the flags only part when `addTo` or `build(b)` override them. */
  predicate FlagsAgree(n: Node)
    decreases n, 1
  {
    match n
    case Leaf(o, _, r) => o.required == r
    case Group(_, cs, _) => FlagsAgreeAll(cs)
    case Radio(_, cs, _) => FlagsAgreeAll(cs)
    case AtLeastOne(_, cs, _) => FlagsAgreeAll(cs)
  }

  predicate FlagsAgreeAll(cs: seq<Node>)
    decreases cs, 0
  {
    |cs| == 0 || (FlagsAgreeAll(cs[..|cs| - 1]) && FlagsAgree(cs[|cs| - 1]))
  }

  lemma {:induction false} BuiltFlagsAgree(b: Builder)
    ensures FlagsAgree(Build(b))
    decreases b, 1
  {
    if !b.BasicB? {
      BuiltAllFlagsAgree(b.choices);
    }
  }

  lemma {:induction false} BuiltAllFlagsAgree(cs: seq<Builder>)
    ensures FlagsAgreeAll(BuildAll(cs))
    decreases cs, 0
  {
    if |cs| > 0 {
      var r := BuildAll(cs);
      assert r[..|r| - 1] == BuildAll(cs[..|cs| - 1]);
      BuiltAllFlagsAgree(cs[..|cs| - 1]);
      BuiltFlagsAgree(cs[|cs| - 1]);
    }
  }
}
