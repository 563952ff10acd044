/** The command lines of the engine's own test suite (`TestCommandLine`), run through
    the model of `CliSpecification.create(...).parse(args)`: which ones are accepted,
    which consumers they call, and the exact message of the ones that are refused. */
module CliScenarios {
  import opened Wrappers
  import opened Text
  import opened Context
  import opened Options
  import opened Setters
  import opened CliNodes
  import opened CliNodeProps
  import opened CliBuilders
  import opened CliSpec

  // ------------------------------------------------------------ the options

  /** The node `option(name)` builds once `setRequired(required)` and a setter that
      installed `consumer` have run. */
  function Opt(name: string, required: bool, consumer: Consumer): (n: Node)
    ensures n.Leaf? && n.option.opt == name && n.isRequired == required && n.option.required == required
  {
    Leaf(ApacheOption(name, None, None, true, None, required), consumer, required)
  }

  /** `Opt` is what a leaf builder with no other settings builds. */
  lemma OptIsBuilt(o: BasicCliOption)
    requires o.Shape() == OptionShape(o.name, None, None, o.isRequired, None, false)
    ensures o.Build() == Opt(o.name, o.isRequired, o.consumer)
  {
  }

  /** The root `CliSpecification.create(top...)` holds once registered. */
  function Root(top: seq<Node>): Node {
    Registered(Group(true, top, []), None)
  }

  /** The consumers of `setToInt(ex::setA)` and `setToFile(ex::setMyFile)`. */
  function IntConsumer(setA: int -> Outcome<Exn>): Consumer {
    Installed(s => IntSetter(setA, s))
  }

  function FileConsumer(setFile: File -> Outcome<Exn>): Consumer {
    Installed(s => FileSetter(setFile, s))
  }

  const Path: string := "/usr/local/foo/bar/baz.txt"

  function Foo(setA: int -> Outcome<Exn>): Node {
    Opt("foo", true, IntConsumer(setA))
  }

  function PathOpt(setFile: File -> Outcome<Exn>, required: bool): Node {
    Opt("path", required, FileConsumer(setFile))
  }

  /** `radio(option("bar"), option("baz"))`, the options' and the radio's flags given. */
  function BarBaz(barsRequired: bool, radioRequired: bool): Node {
    Radio(radioRequired, [Opt("bar", barsRequired, NoOp()), Opt("baz", barsRequired, NoOp())], [])
  }

  /** The leaf with its parser-level flag cleared, as a radio or an optional group
      registers it. */
  function Cleared(n: Node): Node
    requires n.Leaf?
  {
    n.(option := n.option.(required := false))
  }

  /** The consumers of `setA` and `setMyFile` accept what the tests give them. */
  predicate Accepting(setA: int -> Outcome<Exn>, setFile: File -> Outcome<Exn>) {
    setA(123) == Pass && setFile(File(Path)) == Pass
  }

  lemma ParsesOneTwoThree()
    ensures ParseInt(Some("123")) == Ok(123)
  {
    assert "123"[..2] == "12" && "12"[..1] == "1" && "1"[..0] == "";
    assert DigitsValue("1") == 1;
    assert DigitsValue("12") == 12;
    assert DigitsValue("123") == 123;
  }

  lemma ConsumersOfTests(setA: int -> Outcome<Exn>, setFile: File -> Outcome<Exn>)
    requires Accepting(setA, setFile)
    ensures IntConsumer(setA)(Some("123")) == Pass && IntSetter(setA, Some("123")) == Run(Some(123), Pass)
    ensures FileConsumer(setFile)(Some(Path)) == Pass && FileSetter(setFile, Some(Path)) == Run(Some(File(Path)), Pass)
  {
    ParsesOneTwoThree();
  }

  // ------------------------------------------------- short lists, unrolled

  function Reg(c: Node, f: bool): Node {
    Registered(c, Some(c.isRequired && f))
  }

  function SeenEntry(c: Node, cli: Cli): seq<string> {
    if SeenList(c, cli) != [] then [Wrap("(", SeenList(c, cli), ",", ")")] else []
  }

  function MissingEntry(c: Node, sel: Sel, cli: Cli): seq<string> {
    if Selected(c, sel) && GetMissing(c, cli).Some? then [GetMissing(c, cli).value] else []
  }

  function CallEntry(l: Node, cli: Cli): seq<Call> {
    if l.Leaf? && l.option.opt in cli.present then [Call(l.option.opt, cli.OptionValue(l.option.opt))] else []
  }

  lemma RegisterOne(a: Node, f: bool)
    ensures RegisterAll([a], f) == [Reg(a, f)]
  {
    assert [a][..0] == [];
  }

  lemma LeavesOne(a: Node)
    ensures LeavesAll([a]) == Leaves(a)
  {
    assert [a][..0] == [];
  }

  lemma SeenOne(a: Node, cli: Cli)
    ensures SeenParts([a], cli) == SeenEntry(a, cli)
  {
    assert [a][..0] == [];
  }

  lemma JoinOne(a: string, sep: string)
    ensures Join([a], sep) == a
  {
  }

  lemma JoinTwo(a: string, b: string, sep: string)
    ensures Join([a, b], sep) == a + sep + b
  {
    assert [a, b][..1] == [a];
  }

  function ValidEntry(c: Node, sel: Sel, cli: Cli): Outcome<Exn> {
    if Selected(c, sel) then Validate(c, cli) else Pass
  }

  lemma ValidateOne(a: Node, sel: Sel, cli: Cli)
    ensures ValidateAll([a], sel, cli) == ValidEntry(a, sel, cli)
  {
    assert [a][..0] == [];
  }

  lemma ValidateTwo(a: Node, b: Node, sel: Sel, cli: Cli)
    ensures ValidateAll([a, b], sel, cli) == ValidEntry(a, sel, cli).Then(ValidEntry(b, sel, cli))
  {
    assert [a, b][..1] == [a];
    ValidateOne(a, sel, cli);
  }

  lemma ValidateThree(a: Node, b: Node, c: Node, sel: Sel, cli: Cli)
    ensures ValidateAll([a, b, c], sel, cli) == ValidEntry(a, sel, cli).Then(ValidEntry(b, sel, cli)).Then(ValidEntry(c, sel, cli))
  {
    assert [a, b, c][..2] == [a, b];
    ValidateTwo(a, b, sel, cli);
  }

  lemma MissingOne(a: Node, sel: Sel, cli: Cli)
    ensures MissingParts([a], sel, cli) == MissingEntry(a, sel, cli)
  {
    assert [a][..0] == [];
  }

  lemma CallsOne(a: Node, cli: Cli)
    ensures PresentCalls([a], cli) == CallEntry(a, cli)
  {
    assert [a][..0] == [];
  }

  lemma RegisterTwo(a: Node, b: Node, f: bool)
    ensures RegisterAll([a, b], f) == [Reg(a, f), Reg(b, f)]
  {
    assert [a, b][..1] == [a];
    RegisterOne(a, f);
  }

  lemma LeavesTwo(a: Node, b: Node)
    ensures LeavesAll([a, b]) == Leaves(a) + Leaves(b)
  {
    assert [a, b][..1] == [a];
    LeavesOne(a);
  }

  lemma SeenTwo(a: Node, b: Node, cli: Cli)
    ensures SeenParts([a, b], cli) == SeenEntry(a, cli) + SeenEntry(b, cli)
  {
    assert [a, b][..1] == [a];
    SeenOne(a, cli);
  }

  lemma MissingTwo(a: Node, b: Node, sel: Sel, cli: Cli)
    ensures MissingParts([a, b], sel, cli) == MissingEntry(a, sel, cli) + MissingEntry(b, sel, cli)
  {
    assert [a, b][..1] == [a];
    MissingOne(a, sel, cli);
  }

  lemma CallsTwo(a: Node, b: Node, cli: Cli)
    ensures PresentCalls([a, b], cli) == CallEntry(a, cli) + CallEntry(b, cli)
  {
    assert [a, b][..1] == [a];
    CallsOne(a, cli);
  }

  lemma RegisterThree(a: Node, b: Node, c: Node, f: bool)
    ensures RegisterAll([a, b, c], f) == [Reg(a, f), Reg(b, f), Reg(c, f)]
  {
    assert [a, b, c][..2] == [a, b];
    RegisterTwo(a, b, f);
  }

  lemma LeavesThree(a: Node, b: Node, c: Node)
    ensures LeavesAll([a, b, c]) == Leaves(a) + Leaves(b) + Leaves(c)
  {
    assert [a, b, c][..2] == [a, b];
    LeavesTwo(a, b);
  }

  lemma SeenThree(a: Node, b: Node, c: Node, cli: Cli)
    ensures SeenParts([a, b, c], cli) == SeenEntry(a, cli) + SeenEntry(b, cli) + SeenEntry(c, cli)
  {
    assert [a, b, c][..2] == [a, b];
    SeenTwo(a, b, cli);
  }

  lemma MissingThree(a: Node, b: Node, c: Node, sel: Sel, cli: Cli)
    ensures MissingParts([a, b, c], sel, cli) == MissingEntry(a, sel, cli) + MissingEntry(b, sel, cli) + MissingEntry(c, sel, cli)
  {
    assert [a, b, c][..2] == [a, b];
    MissingTwo(a, b, sel, cli);
  }

  lemma CallsThree(a: Node, b: Node, c: Node, cli: Cli)
    ensures PresentCalls([a, b, c], cli) == CallEntry(a, cli) + CallEntry(b, cli) + CallEntry(c, cli)
  {
    assert [a, b, c][..2] == [a, b];
    CallsTwo(a, b, cli);
  }

  lemma CallsFour(a: Node, b: Node, c: Node, d: Node, cli: Cli)
    ensures PresentCalls([a, b, c, d], cli) == CallEntry(a, cli) + CallEntry(b, cli) + CallEntry(c, cli) + CallEntry(d, cli)
  {
    assert [a, b, c, d][..3] == [a, b, c];
    CallsThree(a, b, c, cli);
  }

  lemma CallsFive(a: Node, b: Node, c: Node, d: Node, e: Node, cli: Cli)
    ensures PresentCalls([a, b, c, d, e], cli) ==
      CallEntry(a, cli) + CallEntry(b, cli) + CallEntry(c, cli) + CallEntry(d, cli) + CallEntry(e, cli)
  {
    assert [a, b, c, d, e][..4] == [a, b, c, d];
    CallsFour(a, b, c, d, cli);
  }

  // ----------------------------------------------------- accepted command lines

  /** A command line that validates, and whose present leaves all accept their values,
      is accepted, the consumers being called in tree order. */
  lemma Accepts(root: Node, cli: Cli, calls: seq<Call>)
    requires Validate(root, cli) == Pass
    requires PresentCalls(Leaves(root), cli) == calls && ConsumersAccept(Leaves(root), cli)
    ensures Parsed(root, Ok(cli)) == ParseRun(Ok(cli), calls)
  {
    ValidatePassIffSound(root, cli);
  }

  /** A command line that fails validation is refused with that failure, and no consumer
      is called. */
  lemma Refuses(root: Node, cli: Cli, e: Exn)
    requires Validate(root, cli) == Fail(e)
    ensures Parsed(root, Ok(cli)) == ParseRun(Err(e), [])
  {
    ValidatePassIffSound(root, cli);
  }

  const FooPathLine: Cli := Cli({"path", "foo"}, map["path" := Path, "foo" := "123"])

  /** `groupSomeRequiredSomeNot`: a required group of a required `foo` and an optional
      `bar`, and an optional `path`. */
  function SomeRequiredTop(setA: int -> Outcome<Exn>, setFile: File -> Outcome<Exn>): seq<Node> {
    [Group(true, [Foo(setA), Opt("bar", false, NoOp())], []), PathOpt(setFile, false)]
  }

  /** `-path ... -foo 123` is accepted; `setA` is called with 123 and `setMyFile` with
      the file. */
  lemma GroupSomeRequiredSomeNot(setA: int -> Outcome<Exn>, setFile: File -> Outcome<Exn>)
    requires Accepting(setA, setFile)
    ensures Parsed(Root(SomeRequiredTop(setA, setFile)), Ok(FooPathLine)) ==
      ParseRun(Ok(FooPathLine), [Call("foo", Some("123")), Call("path", Some(Path))])
    ensures IntSetter(setA, Some("123")) == Run(Some(123), Pass)
    ensures FileSetter(setFile, Some(Path)) == Run(Some(File(Path)), Pass)
  {
    var foo, bar, path := Foo(setA), Opt("bar", false, NoOp()), PathOpt(setFile, false);
    var root := Group(true, [Group(true, [foo, bar], []), path], []);
    SomeRequiredRegisters(foo, bar, path);
    SomeRequiredValidates(foo, bar, path, FooPathLine);
    SomeRequiredLeaves(foo, bar, path);
    CallsThree(foo, bar, path, FooPathLine);
    ConsumersOfTests(setA, setFile);
    Accepts(root, FooPathLine, [Call("foo", Some("123")), Call("path", Some(Path))]);
  }

  lemma SomeRequiredRegisters(foo: Node, bar: Node, path: Node)
    requires foo.Leaf? && foo.isRequired && foo.option.required
    requires bar.Leaf? && !bar.isRequired && !bar.option.required
    requires path.Leaf? && !path.isRequired && !path.option.required
    ensures Root([Group(true, [foo, bar], []), path]) == Group(true, [Group(true, [foo, bar], []), path], [])
  {
    RegisterTwo(foo, bar, true);
    RegisterTwo(Group(true, [foo, bar], []), path, true);
  }

  lemma SomeRequiredValidates(foo: Node, bar: Node, path: Node, cli: Cli)
    requires foo.Leaf? && foo.isRequired && foo.option.opt in cli.present
    requires bar.Leaf? && !bar.isRequired && !bar.option.required
    requires path.Leaf? && !path.isRequired && !path.option.required
    ensures Validate(Group(true, [Group(true, [foo, bar], []), path], []), cli) == Pass
  {
    var g := Group(true, [foo, bar], []);
    MissingTwo(foo, bar, RequiredOnly, cli);
    ValidateTwo(foo, bar, RequiredOnly, cli);
    ValidateTwo(foo, bar, OptionalOnly, cli);
    assert Validate(g, cli) == Pass;
    MissingTwo(g, path, RequiredOnly, cli);
    ValidateTwo(g, path, RequiredOnly, cli);
    ValidateTwo(g, path, OptionalOnly, cli);
  }

  lemma SomeRequiredLeaves(foo: Node, bar: Node, path: Node)
    requires foo.Leaf? && bar.Leaf? && path.Leaf?
    ensures Leaves(Group(true, [Group(true, [foo, bar], []), path], [])) == [foo, bar, path]
  {
    LeavesTwo(foo, bar);
    LeavesTwo(Group(true, [foo, bar], []), path);
  }

  /** `groupAllRequired`: both options of the group and `path` required; all three
      given, all three consumers called in order. */
  function AllRequiredTop(setA: int -> Outcome<Exn>, setFile: File -> Outcome<Exn>): seq<Node> {
    [Group(true, [Foo(setA), Opt("bar", true, NoOp())], []), PathOpt(setFile, true)]
  }

  const FooBarLahPathLine: Cli := Cli({"path", "foo", "bar"}, map["path" := Path, "foo" := "123", "bar" := "lah"])

  lemma GroupAllRequired(setA: int -> Outcome<Exn>, setFile: File -> Outcome<Exn>)
    requires Accepting(setA, setFile)
    ensures Parsed(Root(AllRequiredTop(setA, setFile)), Ok(FooBarLahPathLine)) ==
      ParseRun(Ok(FooBarLahPathLine), [Call("foo", Some("123")), Call("bar", Some("lah")), Call("path", Some(Path))])
  {
    var foo, bar, path := Foo(setA), Opt("bar", true, NoOp()), PathOpt(setFile, true);
    var g := Group(true, [foo, bar], []);
    var root := Group(true, [g, path], []);
    AllRequiredRegisters(foo, bar, path);
    AllRequiredValidates(foo, bar, path, FooBarLahPathLine);
    SomeRequiredLeaves(foo, bar, path);
    CallsThree(foo, bar, path, FooBarLahPathLine);
    ConsumersOfTests(setA, setFile);
    Accepts(root, FooBarLahPathLine, [Call("foo", Some("123")), Call("bar", Some("lah")), Call("path", Some(Path))]);
  }

  lemma AllRequiredRegisters(foo: Node, bar: Node, path: Node)
    requires foo.Leaf? && foo.isRequired && foo.option.required
    requires bar.Leaf? && bar.isRequired && bar.option.required
    requires path.Leaf? && path.isRequired && path.option.required
    ensures Root([Group(true, [foo, bar], []), path]) == Group(true, [Group(true, [foo, bar], []), path], [])
  {
    RegisterTwo(foo, bar, true);
    RegisterTwo(Group(true, [foo, bar], []), path, true);
  }

  lemma AllRequiredValidates(foo: Node, bar: Node, path: Node, cli: Cli)
    requires foo.Leaf? && foo.isRequired && foo.option.opt in cli.present
    requires bar.Leaf? && bar.isRequired && bar.option.opt in cli.present
    requires path.Leaf? && path.isRequired && path.option.opt in cli.present
    ensures Validate(Group(true, [Group(true, [foo, bar], []), path], []), cli) == Pass
  {
    var g := Group(true, [foo, bar], []);
    MissingTwo(foo, bar, RequiredOnly, cli);
    assert MissingParts([foo, bar], RequiredOnly, cli) == [];
    assert Validate(foo, cli) == Pass && Validate(bar, cli) == Pass;
    ValidateTwo(foo, bar, RequiredOnly, cli);
    ValidateTwo(foo, bar, OptionalOnly, cli);
    assert Validate(g, cli) == Pass;
    MissingTwo(g, path, RequiredOnly, cli);
    assert MissingParts([g, path], RequiredOnly, cli) == [];
    ValidateTwo(g, path, RequiredOnly, cli);
    ValidateTwo(g, path, OptionalOnly, cli);
  }

  // ----------------------------------------- a radio inside a group, six ways

  /** `group(foo, radio(bar, baz))` next to a required `path`, with the group's, the
      radio's and the radio options' flags given: the tree of the six
      `nestedGroups...RadioGroupInsideGenericGroup...` tests and of
      `radioGroupOptionsSetToRequiredShouldBeNoOp`. */
  function NestedTop(setA: int -> Outcome<Exn>, setFile: File -> Outcome<Exn>,
                     groupRequired: bool, radioRequired: bool, barsRequired: bool): seq<Node> {
    [Group(groupRequired, [Foo(setA), BarBaz(barsRequired, radioRequired)], []), PathOpt(setFile, true)]
  }

  /** That tree once registered: `foo`'s parser-level flag follows the group's, and the
      radio's options are never required by the parser. */
  function NestedRegistered(setA: int -> Outcome<Exn>, setFile: File -> Outcome<Exn>,
                            groupRequired: bool, radioRequired: bool, barsRequired: bool): Node {
    var foo := Foo(setA);
    var bars := [Cleared(Opt("bar", barsRequired, NoOp())), Cleared(Opt("baz", barsRequired, NoOp()))];
    Group(true, [Group(groupRequired, [foo.(option := foo.option.(required := groupRequired)), Radio(radioRequired, bars, [])], []),
                 PathOpt(setFile, true)], [])
  }

  lemma NestedRegisters(setA: int -> Outcome<Exn>, setFile: File -> Outcome<Exn>,
                        groupRequired: bool, radioRequired: bool, barsRequired: bool)
    ensures Root(NestedTop(setA, setFile, groupRequired, radioRequired, barsRequired)) ==
      NestedRegistered(setA, setFile, groupRequired, radioRequired, barsRequired)
  {
    NestedRegistersOf(Foo(setA), Opt("bar", barsRequired, NoOp()), Opt("baz", barsRequired, NoOp()), PathOpt(setFile, true),
                      groupRequired, radioRequired);
  }

  lemma NestedRegistersOf(foo: Node, bar: Node, baz: Node, path: Node, gr: bool, rr: bool)
    requires foo.Leaf? && foo.isRequired && bar.Leaf? && baz.Leaf?
    requires path.Leaf? && path.isRequired && path.option.required
    ensures Root([Group(gr, [foo, Radio(rr, [bar, baz], [])], []), path]) ==
      Group(true, [Group(gr, [foo.(option := foo.option.(required := gr)), Radio(rr, [Cleared(bar), Cleared(baz)], [])], []),
                   path], [])
  {
    var r := Radio(rr, [bar, baz], []);
    var g := Group(gr, [foo, r], []);
    RegisterTwo(bar, baz, false);
    assert Reg(r, gr) == Radio(rr, [Cleared(bar), Cleared(baz)], []);
    RegisterTwo(foo, r, gr);
    assert Reg(g, true) == Group(gr, [foo.(option := foo.option.(required := gr)), Radio(rr, [Cleared(bar), Cleared(baz)], [])], []);
    RegisterTwo(g, path, true);
  }

  /** The registered tree's leaves and the calls a command line makes to them. */
  lemma NestedLeaves(foo: Node, bar: Node, baz: Node, path: Node, gr: bool, rr: bool, cli: Cli)
    requires foo.Leaf? && bar.Leaf? && baz.Leaf? && path.Leaf?
    ensures var root := Group(true, [Group(gr, [foo, Radio(rr, [bar, baz], [])], []), path], []);
      Leaves(root) == [foo, bar, baz, path] &&
      PresentCalls(Leaves(root), cli) == CallEntry(foo, cli) + CallEntry(bar, cli) + CallEntry(baz, cli) + CallEntry(path, cli)
  {
    var r := Radio(rr, [bar, baz], []);
    var g := Group(gr, [foo, r], []);
    LeavesTwo(bar, baz);
    LeavesTwo(foo, r);
    LeavesTwo(g, path);
    assert [foo] + [bar, baz] + [path] == [foo, bar, baz, path];
    CallsFour(foo, bar, baz, path, cli);
  }

  /** With `bar` chosen the tree validates whatever its flags. */
  lemma NestedChosenValidates(foo: Node, bar: Node, baz: Node, path: Node, gr: bool, rr: bool, cli: Cli)
    requires foo.Leaf? && foo.isRequired && foo.option.opt in cli.present
    requires bar.Leaf? && bar.option.opt in cli.present && !bar.option.required
    requires baz.Leaf? && baz.option.opt !in cli.present && !baz.option.required
    requires path.Leaf? && path.isRequired && path.option.opt in cli.present
    ensures Validate(Group(true, [Group(gr, [foo, Radio(rr, [bar, baz], [])], []), path], []), cli) == Pass
  {
    var r := Radio(rr, [bar, baz], []);
    var g := Group(gr, [foo, r], []);
    NestedRadioOfBar(bar, baz, rr, cli);
    MissingTwo(foo, r, RequiredOnly, cli);
    assert MissingParts([foo, r], RequiredOnly, cli) == [];
    ValidateTwo(foo, r, RequiredOnly, cli);
    ValidateTwo(foo, r, OptionalOnly, cli);
    assert Validate(g, cli) == Pass;
    MissingTwo(g, path, RequiredOnly, cli);
    assert MissingParts([g, path], RequiredOnly, cli) == [];
    ValidateTwo(g, path, RequiredOnly, cli);
    ValidateTwo(g, path, OptionalOnly, cli);
  }

  /** The radio of `bar` and `baz` with only `bar` given validates, and is present. */
  lemma NestedRadioOfBar(bar: Node, baz: Node, rr: bool, cli: Cli)
    requires bar.Leaf? && bar.option.opt in cli.present && !bar.option.required
    requires baz.Leaf? && baz.option.opt !in cli.present && !baz.option.required
    ensures Validate(Radio(rr, [bar, baz], []), cli) == Pass && IsPresent(Radio(rr, [bar, baz], []), cli)
  {
    SeenTwo(bar, baz, cli);
    assert |SeenParts([bar, baz], cli)| == 1;
    assert Validate(bar, cli) == Pass && Validate(baz, cli) == Pass;
    ValidateTwo(bar, baz, Every, cli);
    assert IsPresent(bar, cli);
  }

  /** With neither `bar` nor `baz` given, the optional group holding an optional radio
      validates. */
  lemma NestedNoneValidates(foo: Node, bar: Node, baz: Node, path: Node, cli: Cli)
    requires foo.Leaf? && !foo.option.required
    requires bar.Leaf? && bar.option.opt !in cli.present && !bar.option.required
    requires baz.Leaf? && baz.option.opt !in cli.present && !baz.option.required
    requires path.Leaf? && path.isRequired && path.option.opt in cli.present
    ensures Validate(Group(true, [Group(false, [foo, Radio(false, [bar, baz], [])], []), path], []), cli) == Pass
  {
    var r := Radio(false, [bar, baz], []);
    var g := Group(false, [foo, r], []);
    SeenTwo(bar, baz, cli);
    assert SeenParts([bar, baz], cli) == [];
    assert Validate(bar, cli) == Pass && Validate(baz, cli) == Pass;
    ValidateTwo(bar, baz, Every, cli);
    assert Validate(r, cli) == Pass;
    assert Validate(foo, cli) == Pass;
    ValidateTwo(foo, r, RequiredOnly, cli);
    ValidateTwo(foo, r, OptionalOnly, cli);
    assert Validate(g, cli) == Pass;
    MissingTwo(g, path, RequiredOnly, cli);
    assert MissingParts([g, path], RequiredOnly, cli) == [];
    ValidateTwo(g, path, RequiredOnly, cli);
    ValidateTwo(g, path, OptionalOnly, cli);
  }

  const FooBarPathLine: Cli := Cli({"path", "foo", "bar"}, map["path" := Path, "foo" := "123", "bar" := "stool"])

  /** `nestedGroupsRadioGroupInsideGenericGroup` (all required),
      `radioGroupOptionsSetToRequiredShouldBeNoOp` (the radio's options set required,
      which the radio undoes) and `nestedGroupsOptionalRadioGroupInsideGenericGroup` (the
      group optional): choosing `bar` is accepted, and `foo`, `bar` and `path` are
      passed their values in that order. */
  lemma NestedRadioChosen(setA: int -> Outcome<Exn>, setFile: File -> Outcome<Exn>,
                          groupRequired: bool, barsRequired: bool)
    requires Accepting(setA, setFile)
    ensures Parsed(Root(NestedTop(setA, setFile, groupRequired, true, barsRequired)), Ok(FooBarPathLine)) ==
      ParseRun(Ok(FooBarPathLine), [Call("foo", Some("123")), Call("bar", Some("stool")), Call("path", Some(Path))])
  {
    var root := NestedRegistered(setA, setFile, groupRequired, true, barsRequired);
    var foo := Foo(setA).(option := Foo(setA).option.(required := groupRequired));
    var bar, baz := Cleared(Opt("bar", barsRequired, NoOp())), Cleared(Opt("baz", barsRequired, NoOp()));
    var path := PathOpt(setFile, true);
    NestedRegisters(setA, setFile, groupRequired, true, barsRequired);
    NestedChosenValidates(foo, bar, baz, path, groupRequired, true, FooBarPathLine);
    NestedLeaves(foo, bar, baz, path, groupRequired, true, FooBarPathLine);
    ConsumersOfTests(setA, setFile);
    Accepts(root, FooBarPathLine, [Call("foo", Some("123")), Call("bar", Some("stool")), Call("path", Some(Path))]);
  }

  /** The parser is handed the radio's options as optional even when they were set
      required: only `foo` (following its group) and `path` can be demanded by it. */
  lemma NestedTable(setA: int -> Outcome<Exn>, setFile: File -> Outcome<Exn>,
                    groupRequired: bool, radioRequired: bool, barsRequired: bool)
    ensures var t := Table(Root(NestedTop(setA, setFile, groupRequired, radioRequired, barsRequired)));
      |t| == 4 && t[0].opt == "foo" && t[1].opt == "bar" && t[2].opt == "baz" && t[3].opt == "path" &&
      t[0].required == groupRequired && !t[1].required && !t[2].required && t[3].required
  {
    assert Foo(setA).Leaf?;
    var foo := Foo(setA).(option := Foo(setA).option.(required := groupRequired));
    var bar, baz := Cleared(Opt("bar", barsRequired, NoOp())), Cleared(Opt("baz", barsRequired, NoOp()));
    NestedRegisters(setA, setFile, groupRequired, radioRequired, barsRequired);
    NestedLeaves(foo, bar, baz, PathOpt(setFile, true), groupRequired, radioRequired, FooBarPathLine);
  }

  /** `nestedGroupsOptionalRadioGroupInsideGenericGroupNotSelected`: with an optional
      group holding an optional radio, leaving out `bar` and `baz` is accepted. */
  lemma NestedOptionalRadioNotChosen(setA: int -> Outcome<Exn>, setFile: File -> Outcome<Exn>)
    requires Accepting(setA, setFile)
    ensures Parsed(Root(NestedTop(setA, setFile, false, false, false)), Ok(FooPathLine)) ==
      ParseRun(Ok(FooPathLine), [Call("foo", Some("123")), Call("path", Some(Path))])
  {
    var root := NestedRegistered(setA, setFile, false, false, false);
    var foo := Foo(setA).(option := Foo(setA).option.(required := false));
    var bar, baz := Opt("bar", false, NoOp()), Opt("baz", false, NoOp());
    var path := PathOpt(setFile, true);
    NestedRegisters(setA, setFile, false, false, false);
    NestedNoneValidates(foo, bar, baz, path, FooPathLine);
    NestedLeaves(foo, bar, baz, path, false, false, FooPathLine);
    ConsumersOfTests(setA, setFile);
    Accepts(root, FooPathLine, [Call("foo", Some("123")), Call("path", Some(Path))]);
  }

  // ----------------------------------------------------- refused command lines

  /** `optionalRadioGroupMultipleShouldThrowException`: a required radio of `foo` and
      `bar` refuses `-foo x -bar y` before any consumer runs. */
  lemma RadioRefusesTwo()
    ensures var top := [Radio(true, [Opt("foo", false, NoOp()), Opt("bar", false, NoOp())], [])];
      var cli := Cli({"foo", "bar"}, map["foo" := "x", "bar" := "y"]);
      Parsed(Root(top), Ok(cli)) ==
        ParseRun(Err(WithMessage(CliValidationKind, RadioTooManyPrefix + "[(foo), (bar)]")), [])
  {
    var radio := Radio(true, [Opt("foo", false, NoOp()), Opt("bar", false, NoOp())], []);
    var cli := Cli({"foo", "bar"}, map["foo" := "x", "bar" := "y"]);
    RadioTwoRegistered();
    RadioTwoFails(cli);
    var e := WithMessage(CliValidationKind, RadioTooManyPrefix + "[(foo), (bar)]");
    MissingOne(radio, RequiredOnly, cli);
    assert MissingParts([radio], RequiredOnly, cli) == [];
    ValidateOne(radio, RequiredOnly, cli);
    assert Validate(Group(true, [radio], []), cli) == Fail(e);
  }

  lemma RadioTwoFails(cli: Cli)
    requires cli.present == {"foo", "bar"}
    ensures var radio := Radio(true, [Opt("foo", false, NoOp()), Opt("bar", false, NoOp())], []);
      Validate(radio, cli) == Fail(WithMessage(CliValidationKind, RadioTooManyPrefix + "[(foo), (bar)]")) &&
      IsPresent(radio, cli)
  {
    RadioTwoSeen(cli);
    assert IsPresent(Opt("foo", false, NoOp()), cli);
  }

  lemma RadioTwoRegistered()
    ensures var radio := Radio(true, [Opt("foo", false, NoOp()), Opt("bar", false, NoOp())], []);
      Root([radio]) == Group(true, [radio], [])
  {
    var foo, bar := Opt("foo", false, NoOp()), Opt("bar", false, NoOp());
    var radio := Radio(true, [foo, bar], []);
    RegisterTwo(foo, bar, false);
    assert Reg(foo, false) == foo && Reg(bar, false) == bar;
    assert Reg(radio, true) == radio;
    RegisterOne(radio, true);
  }

  lemma RadioTwoSeen(cli: Cli)
    requires cli.present == {"foo", "bar"}
    ensures var cs := [Opt("foo", false, NoOp()), Opt("bar", false, NoOp())];
      ListToString(SeenParts(cs, cli)) == "[(foo), (bar)]" && |SeenParts(cs, cli)| == 2
  {
    var foo, bar := Opt("foo", false, NoOp()), Opt("bar", false, NoOp());
    SeenTwo(foo, bar, cli);
    assert SeenList(foo, cli) == ["foo"] && SeenList(bar, cli) == ["bar"];
    JoinOne("foo", ",");
    JoinOne("bar", ",");
    assert Wrap("(", ["foo"], ",", ")") == "(" + "foo" + ")" == "(foo)";
    assert Wrap("(", ["bar"], ",", ")") == "(" + "bar" + ")" == "(bar)";
    assert SeenEntry(foo, cli) == ["(foo)"] && SeenEntry(bar, cli) == ["(bar)"];
    assert SeenParts([foo, bar], cli) == ["(foo)", "(bar)"];
    JoinTwo("(foo)", "(bar)", ", ");
    assert ListToString(["(foo)", "(bar)"]) == "[" + ("(foo)" + ", " + "(bar)") + "]" == "[(foo), (bar)]";
  }

  /** `groupAllRequiredButNotAllInCommandLine`: leaving out the group's required `bar`
      is refused. `bar` is registered as required at parser level, so Apache's parser
      already refuses `-path ... -foo 123`, which `parse` rethrows as a `ValidationError`
      (a `CliValidationException`, as the test expects) before `validate` runs;
      `parsed` is what the parser makes of those arguments. */
  lemma GroupAllRequiredButNotAll(setA: int -> Outcome<Exn>, setFile: File -> Outcome<Exn>, parsed: Result<Cli, Exn>)
    requires EnforcesRequired(Table(Root(AllRequiredTop(setA, setFile))), parsed)
    requires parsed.Ok? ==> parsed.value.present == FooPathLine.present
    ensures parsed.Err?
    ensures Parsed(Root(AllRequiredTop(setA, setFile)), parsed) ==
      ParseRun(Err(WrapCause(ValidationErrorKind, parsed.error)), [])
    ensures IsCliValidation(Parsed(Root(AllRequiredTop(setA, setFile)), parsed).result.error)
  {
    var foo, bar, path := Foo(setA), Opt("bar", true, NoOp()), PathOpt(setFile, true);
    AllRequiredRegisters(foo, bar, path);
    SomeRequiredLeaves(foo, bar, path);
    var root := Root(AllRequiredTop(setA, setFile));
    assert Table(root)[1] == bar.option;
    MissingRequiredRefusedByParser(root, parsed, FooPathLine.present, 1);
  }

  /** Were the arguments to reach it, `validate` would refuse them with the group's usage
      of what is missing. */
  lemma GroupAllRequiredValidateMessage(setA: int -> Outcome<Exn>, setFile: File -> Outcome<Exn>)
    ensures Validate(Root(AllRequiredTop(setA, setFile)), FooPathLine) ==
      Fail(WithMessage(CliValidationKind, GroupMissingPrefix + "( ( -bar ) )"))
  {
    var foo, bar, path := Foo(setA), Opt("bar", true, NoOp()), PathOpt(setFile, true);
    AllRequiredRegisters(foo, bar, path);
    BarMissing(foo, bar, path, FooPathLine);
  }

  /** With `bar` not given, the root reports the group's marker of `bar` as missing. */
  lemma BarMissing(foo: Node, bar: Node, path: Node, cli: Cli)
    requires foo.Leaf? && foo.isRequired && foo.option.opt in cli.present
    requires bar.Leaf? && bar.isRequired && bar.option.opt == "bar" && "bar" !in cli.present
    requires path.Leaf? && path.isRequired && path.option.opt in cli.present
    ensures Validate(Group(true, [Group(true, [foo, bar], []), path], []), cli) ==
      Fail(WithMessage(CliValidationKind, GroupMissingPrefix + "( ( -bar ) )"))
  {
    var g := Group(true, [foo, bar], []);
    MissingTwo(foo, bar, RequiredOnly, cli);
    assert GetMissing(bar, cli) == Some("-" + "bar");
    assert "-" + "bar" == "-bar";
    assert MissingParts([foo, bar], RequiredOnly, cli) == ["-bar"];
    assert GetMissing(g, cli) == Some(Wrap("( ", ["-bar"], " ", " )"));
    JoinOne("-bar", " ");
    assert Wrap("( ", ["-bar"], " ", " )") == "( " + "-bar" + " )" == "( -bar )";
    MissingTwo(g, path, RequiredOnly, cli);
    assert MissingParts([g, path], RequiredOnly, cli) == ["( -bar )"];
    JoinOne("( -bar )", ",");
    assert Wrap("( ", ["( -bar )"], ",", " )") == "( " + "( -bar )" + " )" == "( ( -bar ) )";
  }

  /** The usage of the radio of `bar` and `baz` when neither is given. */
  lemma BarBazMissing(rr: bool, cli: Cli)
    requires "bar" !in cli.present && "baz" !in cli.present
    ensures var bar, baz := Opt("bar", false, NoOp()), Opt("baz", false, NoOp());
      SeenParts([bar, baz], cli) == [] && GetMissing(Radio(rr, [bar, baz], []), cli) == Some("[ -bar | -baz ]")
  {
    var bar, baz := Opt("bar", false, NoOp()), Opt("baz", false, NoOp());
    SeenTwo(bar, baz, cli);
    BarBazAbsent(rr, cli);
    BarBazMarkers(cli);
    BarBazUsage();
  }

  lemma BarBazAbsent(rr: bool, cli: Cli)
    requires "bar" !in cli.present && "baz" !in cli.present
    ensures !IsPresent(Radio(rr, [Opt("bar", false, NoOp()), Opt("baz", false, NoOp())], []), cli)
  {
    assert !IsPresent(Opt("bar", false, NoOp()), cli) && !IsPresent(Opt("baz", false, NoOp()), cli);
  }

  lemma BarBazMarkers(cli: Cli)
    requires "bar" !in cli.present && "baz" !in cli.present
    ensures MissingParts([Opt("bar", false, NoOp()), Opt("baz", false, NoOp())], Every, cli) == ["-bar", "-baz"]
  {
    var bar, baz := Opt("bar", false, NoOp()), Opt("baz", false, NoOp());
    MissingTwo(bar, baz, Every, cli);
    assert GetMissing(bar, cli) == Some("-" + "bar") && "-" + "bar" == "-bar";
    assert GetMissing(baz, cli) == Some("-" + "baz") && "-" + "baz" == "-baz";
  }

  lemma BarBazUsage()
    ensures Wrap("[ ", ["-bar", "-baz"], " | ", " ]") == "[ -bar | -baz ]"
  {
    assert ["-bar", "-baz"][..1] == ["-bar"];
    assert Join(["-bar", "-baz"], " | ") == "-bar" + " | " + "-baz" == "-bar | -baz";
    assert "[ " + "-bar | -baz" + " ]" == "[ -bar | -baz ]";
  }

  /** `nestedGroupsOptionalRadioGroupInsideGenericGroupRequiredAndNotSelected`: with the
      group and its radio required, choosing neither `bar` nor `baz` is refused with the
      usage of the missing radio. */
  lemma NestedRequiredRadioNotChosen(setA: int -> Outcome<Exn>, setFile: File -> Outcome<Exn>)
    ensures Parsed(Root(NestedTop(setA, setFile, true, true, false)), Ok(FooPathLine)) ==
      ParseRun(Err(WithMessage(CliValidationKind, GroupMissingPrefix + "( ( [ -bar | -baz ] ) )")), [])
  {
    var root := NestedRegistered(setA, setFile, true, true, false);
    var foo, path := Foo(setA), PathOpt(setFile, true);
    var bar, baz := Opt("bar", false, NoOp()), Opt("baz", false, NoOp());
    NestedRegisters(setA, setFile, true, true, false);
    var r := Radio(true, [bar, baz], []);
    var g := Group(true, [foo, r], []);
    assert root == Group(true, [g, path], []);
    NestedGroupMissing(foo, FooPathLine);
    MissingTwo(g, path, RequiredOnly, FooPathLine);
    assert MissingParts([g, path], RequiredOnly, FooPathLine) == ["( [ -bar | -baz ] )"];
    NestedUsage();
    Refuses(root, FooPathLine, WithMessage(CliValidationKind, GroupMissingPrefix + "( ( [ -bar | -baz ] ) )"));
  }

  /** What a required group of a given `foo` and the required radio reports missing. */
  lemma NestedGroupMissing(foo: Node, cli: Cli)
    requires foo.Leaf? && foo.isRequired && foo.option.opt in cli.present
    requires "bar" !in cli.present && "baz" !in cli.present
    ensures var r := Radio(true, [Opt("bar", false, NoOp()), Opt("baz", false, NoOp())], []);
      GetMissing(Group(true, [foo, r], []), cli) == Some("( [ -bar | -baz ] )")
  {
    var r := Radio(true, [Opt("bar", false, NoOp()), Opt("baz", false, NoOp())], []);
    BarBazMissing(true, cli);
    MissingTwo(foo, r, RequiredOnly, cli);
    assert MissingParts([foo, r], RequiredOnly, cli) == ["[ -bar | -baz ]"];
    NestedUsage();
  }

  lemma NestedUsage()
    ensures Wrap("( ", ["[ -bar | -baz ]"], " ", " )") == "( [ -bar | -baz ] )"
    ensures Wrap("( ", ["( [ -bar | -baz ] )"], ",", " )") == "( ( [ -bar | -baz ] ) )"
  {
    assert "( " + "[ -bar | -baz ]" + " )" == "( [ -bar | -baz ] )";
    assert "( " + "( [ -bar | -baz ] )" + " )" == "( ( [ -bar | -baz ] ) )";
  }

  /** `nestedGroupsRequiredRadioGroupInsideGenericGroupNotSelected`: the group is
      optional, so nothing counts as missing; but the group still validates its required
      radio, which refuses the command line for selecting nothing. */
  lemma NestedOptionalGroupRequiredRadio(setA: int -> Outcome<Exn>, setFile: File -> Outcome<Exn>)
    ensures Parsed(Root(NestedTop(setA, setFile, false, true, false)), Ok(FooPathLine)) ==
      ParseRun(Err(WithMessage(CliValidationKind, RadioNoneSelected)), [])
  {
    var root := NestedRegistered(setA, setFile, false, true, false);
    assert Foo(setA).Leaf?;
    var foo := Foo(setA).(option := Foo(setA).option.(required := false));
    var path := PathOpt(setFile, true);
    var bar, baz := Opt("bar", false, NoOp()), Opt("baz", false, NoOp());
    NestedRegisters(setA, setFile, false, true, false);
    var r := Radio(true, [bar, baz], []);
    var g := Group(false, [foo, r], []);
    assert root == Group(true, [g, path], []);
    var e := WithMessage(CliValidationKind, RadioNoneSelected);
    BarBazMissing(true, FooPathLine);
    assert Validate(r, FooPathLine) == Fail(e);
    assert ValidateAll([foo, r], RequiredOnly, FooPathLine) == Fail(e) by {
      assert [foo, r][..1] == [foo];
    }
    assert Validate(g, FooPathLine) == Fail(e);
    MissingTwo(g, path, RequiredOnly, FooPathLine);
    assert ValidateAll([g, path], RequiredOnly, FooPathLine) == Pass;
    assert ValidateAll([g, path], OptionalOnly, FooPathLine) == Fail(e) by {
      assert [g, path][..1] == [g];
    }
    Refuses(root, FooPathLine, e);
  }

  // ----------------------------------------------- a group inside a radio

  /** `radio(bar, baz, group(foo required, anotherFoo))` next to a required `path`: the
      tree of `nestedGroupsGenericGroupInsideRadio...`. */
  function GroupInRadioTop(setA: int -> Outcome<Exn>, setFile: File -> Outcome<Exn>, radioRequired: bool): seq<Node> {
    [Radio(radioRequired, [Opt("bar", false, NoOp()), Opt("baz", false, NoOp()),
                           Group(false, [Foo(setA), Opt("anotherFoo", false, NoOp())], [])], []),
     PathOpt(setFile, true)]
  }

  /** Once registered, the radio clears the group's flag, and the group clears `foo`'s. */
  function GroupInRadioRegistered(setA: int -> Outcome<Exn>, setFile: File -> Outcome<Exn>, radioRequired: bool): Node {
    Group(true, [Radio(radioRequired, [Opt("bar", false, NoOp()), Opt("baz", false, NoOp()),
                                    Group(false, [Cleared(Opt("foo", true, IntConsumer(setA))), Opt("anotherFoo", false, NoOp())], [])], []),
                 PathOpt(setFile, true)], [])
  }

  lemma GroupInRadioRegisters(setA: int -> Outcome<Exn>, setFile: File -> Outcome<Exn>, radioRequired: bool)
    ensures Root(GroupInRadioTop(setA, setFile, radioRequired)) == GroupInRadioRegistered(setA, setFile, radioRequired)
  {
    var g := Group(false, [Foo(setA), Opt("anotherFoo", false, NoOp())], []);
    RegisterTwo(Foo(setA), Opt("anotherFoo", false, NoOp()), false);
    RegisterThree(Opt("bar", false, NoOp()), Opt("baz", false, NoOp()), g, false);
    var r := Radio(radioRequired, [Opt("bar", false, NoOp()), Opt("baz", false, NoOp()), g], []);
    RegisterTwo(r, PathOpt(setFile, true), true);
  }

  /** `nestedGroupsGenericGroupInsideRadioMultiSelectFails`: `-foo` selects the group as
      a second choice beside `-bar`, and the required radio refuses both, listing what
      each choice saw. */
  lemma GroupInRadioMultiSelect(setA: int -> Outcome<Exn>, setFile: File -> Outcome<Exn>)
    ensures Parsed(Root(GroupInRadioTop(setA, setFile, true)), Ok(FooBarPathLine)) ==
      ParseRun(Err(WithMessage(CliValidationKind, RadioTooManyPrefix + "[(bar), ((foo))]")), [])
  {
    var cli := FooBarPathLine;
    GroupInRadioRegisters(setA, setFile, true);
    var foo, af := Cleared(Opt("foo", true, IntConsumer(setA))), Opt("anotherFoo", false, NoOp());
    var bar, baz := Opt("bar", false, NoOp()), Opt("baz", false, NoOp());
    var path := PathOpt(setFile, true);
    var root := Group(true, [Radio(true, [bar, baz, Group(false, [foo, af], [])], []), path], []);
    assert GroupInRadioRegistered(setA, setFile, true) == root;
    MultiSelectRefused(foo, af, bar, baz, path, cli);
    Refuses(root, cli, WithMessage(CliValidationKind, RadioTooManyPrefix + "[(bar), ((foo))]"));
  }

  /** The required radio sees `bar` and, through the group, `foo`: two choices. */
  lemma MultiSelectSeen(foo: Node, af: Node, bar: Node, baz: Node, cli: Cli)
    requires foo.Leaf? && foo.option.opt == "foo" && "foo" in cli.present
    requires af.Leaf? && af.option.opt !in cli.present
    requires bar.Leaf? && bar.option.opt == "bar" && "bar" in cli.present
    requires baz.Leaf? && baz.option.opt !in cli.present
    ensures SeenParts([bar, baz, Group(false, [foo, af], [])], cli) == ["(bar)", "((foo))"]
  {
    var g := Group(false, [foo, af], []);
    SeenTwo(foo, af, cli);
    JoinOne("foo", ",");
    assert Wrap("(", ["foo"], ",", ")") == "(" + "foo" + ")" == "(foo)";
    assert SeenList(g, cli) == ["(foo)"];
    JoinOne("(foo)", ",");
    assert Wrap("(", ["(foo)"], ",", ")") == "(" + "(foo)" + ")" == "((foo))";
    JoinOne("bar", ",");
    assert Wrap("(", ["bar"], ",", ")") == "(" + "bar" + ")" == "(bar)";
    SeenThree(bar, baz, g, cli);
    assert SeenEntry(bar, cli) == ["(bar)"] && SeenEntry(baz, cli) == [] && SeenEntry(g, cli) == ["((foo))"];
  }

  lemma MultiSelectRadio(foo: Node, af: Node, bar: Node, baz: Node, cli: Cli)
    requires foo.Leaf? && foo.option.opt == "foo" && "foo" in cli.present
    requires af.Leaf? && af.option.opt !in cli.present
    requires bar.Leaf? && bar.option.opt == "bar" && "bar" in cli.present
    requires baz.Leaf? && baz.option.opt !in cli.present
    ensures var r := Radio(true, [bar, baz, Group(false, [foo, af], [])], []);
      Validate(r, cli) == Fail(WithMessage(CliValidationKind, RadioTooManyPrefix + "[(bar), ((foo))]")) && IsPresent(r, cli)
  {
    var r := Radio(true, [bar, baz, Group(false, [foo, af], [])], []);
    MultiSelectSeen(foo, af, bar, baz, cli);
    JoinTwo("(bar)", "((foo))", ", ");
    assert ListToString(["(bar)", "((foo))"]) == "[" + ("(bar)" + ", " + "((foo))") + "]" == "[(bar), ((foo))]";
    assert IsPresent(r, cli) by {
      assert IsPresent(bar, cli);
    }
  }

  lemma MultiSelectRefused(foo: Node, af: Node, bar: Node, baz: Node, path: Node, cli: Cli)
    requires foo.Leaf? && foo.option.opt == "foo" && "foo" in cli.present
    requires af.Leaf? && af.option.opt !in cli.present
    requires bar.Leaf? && bar.option.opt == "bar" && "bar" in cli.present
    requires baz.Leaf? && baz.option.opt !in cli.present
    requires path.Leaf? && path.isRequired && path.option.opt in cli.present
    ensures var r := Radio(true, [bar, baz, Group(false, [foo, af], [])], []);
      Validate(Group(true, [r, path], []), cli) == Fail(WithMessage(CliValidationKind, RadioTooManyPrefix + "[(bar), ((foo))]"))
  {
    var r := Radio(true, [bar, baz, Group(false, [foo, af], [])], []);
    MultiSelectRadio(foo, af, bar, baz, cli);
    MissingTwo(r, path, RequiredOnly, cli);
    assert MissingParts([r, path], RequiredOnly, cli) == [];
    ValidateTwo(r, path, RequiredOnly, cli);
  }

  const BarPathLine: Cli := Cli({"path", "bar"}, map["path" := Path, "bar" := "stool"])

  /** `nestedGroupsGenericGroupInsideRadioNotSelected`: with the radio optional,
      choosing `bar` and not the group is accepted, even though the group's `foo` was set
      required; `bar` and `path` receive their values. */
  lemma GroupInRadioNotSelected(setA: int -> Outcome<Exn>, setFile: File -> Outcome<Exn>)
    requires setFile(File(Path)) == Pass
    ensures Parsed(Root(GroupInRadioTop(setA, setFile, false)), Ok(BarPathLine)) ==
      ParseRun(Ok(BarPathLine), [Call("bar", Some("stool")), Call("path", Some(Path))])
  {
    var cli := BarPathLine;
    var root := GroupInRadioRegistered(setA, setFile, false);
    GroupInRadioRegisters(setA, setFile, false);
    var foo, af := Cleared(Opt("foo", true, IntConsumer(setA))), Opt("anotherFoo", false, NoOp());
    var bar, baz := Opt("bar", false, NoOp()), Opt("baz", false, NoOp());
    var g := Group(false, [foo, af], []);
    var r := Radio(false, [bar, baz, g], []);
    var path := PathOpt(setFile, true);
    assert root == Group(true, [r, path], []);
    GroupInRadioValidates(foo, af, bar, baz, path, cli);
    GroupInRadioLeaves(foo, af, bar, baz, path, cli);
    assert FileConsumer(setFile)(Some(Path)) == Pass;
    assert ConsumersAccept([bar, baz, foo, af, path], cli);
    Accepts(root, cli, [Call("bar", Some("stool")), Call("path", Some(Path))]);
  }

  lemma GroupInRadioValidates(foo: Node, af: Node, bar: Node, baz: Node, path: Node, cli: Cli)
    requires foo.Leaf? && foo.option.opt !in cli.present && !foo.option.required
    requires af.Leaf? && af.option.opt !in cli.present && !af.option.required
    requires bar.Leaf? && bar.option.opt in cli.present && !bar.option.required
    requires baz.Leaf? && baz.option.opt !in cli.present && !baz.option.required
    requires path.Leaf? && path.isRequired && path.option.opt in cli.present
    ensures Validate(Group(true, [Radio(false, [bar, baz, Group(false, [foo, af], [])], []), path], []), cli) == Pass
  {
    var g := Group(false, [foo, af], []);
    var r := Radio(false, [bar, baz, g], []);
    assert Validate(foo, cli) == Pass && Validate(af, cli) == Pass;
    ValidateTwo(foo, af, RequiredOnly, cli);
    ValidateTwo(foo, af, OptionalOnly, cli);
    assert Validate(g, cli) == Pass;
    SeenTwo(foo, af, cli);
    assert SeenList(g, cli) == [];
    SeenThree(bar, baz, g, cli);
    assert |SeenParts([bar, baz, g], cli)| == 1;
    assert Validate(bar, cli) == Pass && Validate(baz, cli) == Pass;
    ValidateThree(bar, baz, g, Every, cli);
    assert Validate(r, cli) == Pass;
    MissingTwo(r, path, RequiredOnly, cli);
    assert MissingParts([r, path], RequiredOnly, cli) == [];
    ValidateTwo(r, path, RequiredOnly, cli);
    ValidateTwo(r, path, OptionalOnly, cli);
  }

  lemma GroupInRadioLeaves(foo: Node, af: Node, bar: Node, baz: Node, path: Node, cli: Cli)
    requires foo.Leaf? && foo.option.opt !in cli.present
    requires af.Leaf? && af.option.opt !in cli.present
    requires bar.Leaf? && baz.Leaf? && baz.option.opt !in cli.present && path.Leaf?
    ensures var root := Group(true, [Radio(false, [bar, baz, Group(false, [foo, af], [])], []), path], []);
      Leaves(root) == [bar, baz, foo, af, path] &&
      PresentCalls(Leaves(root), cli) == CallEntry(bar, cli) + CallEntry(path, cli)
  {
    var g := Group(false, [foo, af], []);
    var r := Radio(false, [bar, baz, g], []);
    LeavesTwo(foo, af);
    LeavesThree(bar, baz, g);
    LeavesTwo(r, path);
    assert [bar, baz] + [foo, af] + [path] == [bar, baz, foo, af, path];
    CallsFive(bar, baz, foo, af, path, cli);
    assert CallEntry(baz, cli) == [] && CallEntry(foo, cli) == [] && CallEntry(af, cli) == [];
  }

  // ------------------------------------------------------------- parse(URL)

  /** `URLDecoder.decode` on strings with no `%` or `+`: the identity. */
  function Undecoded(): Decoder {
    s => Ok(s)
  }

  const UrlQuery: string := ("path" + "=" + Path) + "&" + ("a" + "=" + "2")

  /** `asUrl`: the query `path=/usr/local/foo/bar/baz.txt&a=2` becomes the arguments
      `-path /usr/local/foo/bar/baz.txt -a 2`. */
  lemma AsUrlArgs()
    ensures QueryArgs(Some(UrlQuery), Undecoded()) == Ok(["-path", Path, "-a", "2"])
  {
    var pairs := [("path", Path), ("a", "2")];
    var d := Undecoded();
    assert Carried(pairs[0], d) && Carried(pairs[1], d);
    UrlPairsQuery();
    QueryOfPairs(pairs, d);
    UrlDecodedArgs();
  }

  lemma UrlPairsQuery()
    ensures PairsQuery([("path", Path), ("a", "2")]) == UrlQuery
  {
    var x, y := "path" + "=" + Path, "a" + "=" + "2";
    assert PairPieces([("path", Path), ("a", "2")]) == [x, y];
    JoinTwo(x, y, "&");
  }

  lemma UrlDecodedArgs()
    ensures forall i :: 0 <= i < 2 ==> Carried([("path", Path), ("a", "2")][i], Undecoded())
    ensures DecodedArgs([("path", Path), ("a", "2")], Undecoded()) == ["-path", Path, "-a", "2"]
  {
    var pairs := [("path", Path), ("a", "2")];
    var d := Undecoded();
    assert Carried(pairs[0], d) && Carried(pairs[1], d);
    assert pairs[..1] == [("path", Path)] && [("path", Path)][..0] == [];
    assert d("path") == Ok("path") && d(Path) == Ok(Path) && d("a") == Ok("a") && d("2") == Ok("2");
    assert DecodedArgs([("path", Path)], d) == ["-" + "path", Path];
    assert DecodedArgs(pairs, d) == ["-" + "path", Path] + ["-" + "a", "2"];
    assert "-" + "path" == "-path" && "-" + "a" == "-a";
  }

  const UrlLine: Cli := Cli({"path", "a"}, map["path" := Path, "a" := "2"])

  function UrlTop(setA: int -> Outcome<Exn>, setFile: File -> Outcome<Exn>): seq<Node> {
    [PathOpt(setFile, false), Opt("a", false, IntConsumer(setA))]
  }

  /** Those arguments parsed, `setMyFile` is passed the file and `setA` the int 2. */
  lemma AsUrl(setA: int -> Outcome<Exn>, setFile: File -> Outcome<Exn>)
    requires setA(2) == Pass && setFile(File(Path)) == Pass
    ensures Parsed(Root(UrlTop(setA, setFile)), Ok(UrlLine)) ==
      ParseRun(Ok(UrlLine), [Call("path", Some(Path)), Call("a", Some("2"))])
    ensures IntSetter(setA, Some("2")) == Run(Some(2), Pass)
  {
    var path, a := PathOpt(setFile, false), Opt("a", false, IntConsumer(setA));
    var root := Group(true, [path, a], []);
    RegisterTwo(path, a, true);
    MissingTwo(path, a, RequiredOnly, UrlLine);
    LeavesTwo(path, a);
    CallsTwo(path, a, UrlLine);
    assert "2"[..0] == "";
    assert DigitsValue("2") == 2;
    assert ParseInt(Some("2")) == Ok(2);
    assert ConsumersAccept([path, a], UrlLine);
    Accepts(root, UrlLine, [Call("path", Some(Path)), Call("a", Some("2"))]);
  }
}
