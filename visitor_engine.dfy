/** `CommandLine`, the older engine's `OptionVisitor`: while options are visited it
    fills an Apache option table and a consumer map, and builds a tree of validation
    builders by pushing a builder at every `preVisit` and popping it, attached to its
    parent, at every `postVisit`. `parse` validates every builder against the set of
    options given and then calls the consumers of the options given. */
module VisitorEngine {
  import opened Wrappers
  import opened Text
  import opened Context
  import opened Options
  import opened VisitorOptions
  import opened VisitorBuilders
  import opened VisitorParse
  import CliSpec

  // ------------------------------------------------------------- the visitor

  /** The fields of a `CommandLine`: the Apache option table, the consumer map, the list
      of validation builders, and the stack of validation builders, written as positions
      in that list with the top last. */
  datatype VState = VState(options: seq<ApacheOption>, consumers: map<string, Consumer>, builders: seq<VBuilder>, stack: seq<nat>)

  /** What `visit`, `preVisit` and `postVisit` keep: there is a builder; every
      sub-builder comes later in the list than its parent; the stack lists builders,
      each pushed after the one below it. */
  predicate ValidState(st: VState) {
    && |st.builders| >= 1
    && (forall i, k :: 0 <= i < |st.builders| && 0 <= k < |st.builders[i].subs| ==> i < st.builders[i].subs[k] < |st.builders|)
    && (forall k :: 0 <= k < |st.stack| ==> st.stack[k] < |st.builders|)
    && (forall j, k :: 0 <= j < k < |st.stack| ==> st.stack[j] < st.stack[k])
  }

  /** The fields right after `new CommandLine()`. */
  function Initial(): (st: VState)
    ensures ValidState(st)
  {
    VState([], map[], [BasicVB([], [], [])], [0])
  }

  function NoSuchElement(): Exn {
    Thrown("java.util.NoSuchElementException", None)
  }

  /** `visit(apacheOption, consumer)`: the option is added to the table; a non-null
      consumer is recorded under the option's short name; the name goes to the top
      builder's required names when the Apache option is required and to its optional
      names otherwise; with an empty stack, `peek()` is null and the call throws. */
  function VisitStep(st: VState, a: ApacheOption, c: Option<Consumer>): (r: (VState, Outcome<Exn>))
    requires ValidState(st)
    ensures ValidState(r.0)
    ensures r.0.options == st.options + [a] && r.0.stack == st.stack
    ensures r.0.consumers == if c.Some? then st.consumers[a.opt := c.value] else st.consumers
    ensures r.1.Fail? <==> st.stack == []
    ensures st.stack == [] ==> r.0.builders == st.builders && r.1 == Fail(NullPointer())
    ensures st.stack != [] ==> var t := st.stack[|st.stack| - 1];
      r.0.builders == st.builders[t := if a.required then AddRequired(st.builders[t], a.opt) else AddOptional(st.builders[t], a.opt)]
  {
    var st1 := st.(options := st.options + [a], consumers := if c.Some? then st.consumers[a.opt := c.value] else st.consumers);
    if |st.stack| == 0 then (st1, Fail(NullPointer()))
    else
      var t := st.stack[|st.stack| - 1];
      var b := if a.required then AddRequired(st.builders[t], a.opt) else AddOptional(st.builders[t], a.opt);
      (st1.(builders := st.builders[t := b]), Pass)
  }

  /** With a builder on the stack, `visit` returns normally and changes only the
      table, the consumer map and the top builder. */
  lemma VisitPushes(st: VState, a: ApacheOption, c: Option<Consumer>)
    requires ValidState(st) && st.stack != []
    ensures var t := st.stack[|st.stack| - 1];
      VisitStep(st, a, c) == (VState(st.options + [a], if c.Some? then st.consumers[a.opt := c.value] else st.consumers,
        st.builders[t := if a.required then AddRequired(st.builders[t], a.opt) else AddOptional(st.builders[t], a.opt)], st.stack), Pass)
  {
  }

  /** `preVisit(group)`: a fresh builder is appended to the list and pushed. */
  function PreStep(st: VState, b: VBuilder): (st': VState)
    requires ValidState(st) && b.subs == []
    ensures ValidState(st')
    ensures st' == st.(builders := st.builders + [b], stack := st.stack + [|st.builders|])
  {
    st.(builders := st.builders + [b], stack := st.stack + [|st.builders|])
  }

  /** `postVisit(group)` (`popGroup`): the top builder is popped and, when a builder is
      left below it, attached to that builder; popping an empty stack throws. */
  function PopStep(st: VState): (r: (VState, Outcome<Exn>))
    requires ValidState(st)
    ensures ValidState(r.0) && r.0.options == st.options && r.0.consumers == st.consumers
    ensures r.1.Fail? <==> st.stack == []
    ensures st.stack == [] ==> r == (st, Fail(NoSuchElement()))
    ensures st.stack != [] ==> r.0.stack == st.stack[..|st.stack| - 1]
    ensures |st.stack| == 1 ==> r.0.builders == st.builders
    ensures |st.stack| > 1 ==> var t := st.stack[|st.stack| - 2];
      r.0.builders == st.builders[t := AddGroup(st.builders[t], st.stack[|st.stack| - 1])]
  {
    if |st.stack| == 0 then (st, Fail(NoSuchElement()))
    else
      var b := st.stack[|st.stack| - 1];
      var rest := st.stack[..|st.stack| - 1];
      if |rest| == 0 then (st.(stack := rest), Pass)
      else
        var t := rest[|rest| - 1];
        assert t < b;
        (st.(stack := rest, builders := st.builders[t := AddGroup(st.builders[t], b)]), Pass)
  }

  /** One visitor call. */
  function Step(st: VState, e: Event): (r: (VState, Outcome<Exn>))
    requires ValidState(st)
    ensures ValidState(r.0)
  {
    match e
    case Visited(a, c) => VisitStep(st, a, c)
    case PreGrouped(q) => (PreStep(st, GroupedVB(q, [], [], [])), Pass)
    case PreRadio(q) => (PreStep(st, RadioVB(q, [], [])), Pass)
    case Post => PopStep(st)
  }

  /** A sequence of visitor calls; an exception ends it. */
  function Run(st: VState, es: seq<Event>): (r: (VState, Outcome<Exn>))
    requires ValidState(st)
    ensures ValidState(r.0)
    decreases |es|
  {
    if |es| == 0 then (st, Pass)
    else
      var s1 := Step(st, es[0]);
      if s1.1.Fail? then s1 else Run(s1.0, es[1..])
  }

  /** Running two sequences of calls is running the first, then, if it returned
      normally, the second. */
  lemma {:induction false} RunAppend(st: VState, a: seq<Event>, b: seq<Event>)
    requires ValidState(st)
    ensures Run(st, a + b) == (var r := Run(st, a); if r.1.Fail? then r else Run(r.0, b))
    decreases |a|
  {
    if |a| > 0 {
      assert (a + b)[0] == a[0] && (a + b)[1..] == a[1..] + b;
      var s1 := Step(st, a[0]);
      if s1.1.Pass? {
        RunAppend(s1.0, a[1..], b);
      }
    } else {
      assert a + b == b;
    }
  }

  /** After a prefix that returned normally, the rest runs from the state it left. */
  lemma RunThen(st: VState, a: seq<Event>, b: seq<Event>, mid: VState)
    requires ValidState(st) && ValidState(mid) && Run(st, a) == (mid, Pass)
    ensures Run(st, a + b) == Run(mid, b)
  {
    RunAppend(st, a, b);
  }

  /** After a prefix that threw, nothing else runs. */
  lemma RunStop(st: VState, a: seq<Event>, b: seq<Event>)
    requires ValidState(st) && Run(st, a).1.Fail?
    ensures Run(st, a + b) == Run(st, a)
  {
    RunAppend(st, a, b);
  }

  /** One more call after a prefix that returned normally. */
  lemma RunPrefix(s0: VState, es: seq<Event>, k: nat, s1: VState)
    requires ValidState(s0) && ValidState(s1) && k < |es| && Run(s0, es[..k]) == (s1, Pass)
    ensures Run(s0, es[..k + 1]) == Step(s1, es[k])
  {
    TakeOneMore(es, k);
    RunThen(s0, es[..k], [es[k]], s1);
    RunOne(s1, es[k]);
  }

  /** A prefix that threw is the whole run. */
  lemma RunPrefixStop(s0: VState, es: seq<Event>, k: nat)
    requires ValidState(s0) && k <= |es| && Run(s0, es[..k]).1.Fail?
    ensures Run(s0, es) == Run(s0, es[..k])
  {
    TakeDrop(es, k);
    RunStop(s0, es[..k], es[k..]);
  }

  lemma TakeOneMore(es: seq<Event>, k: nat)
    requires k < |es|
    ensures es[..k + 1] == es[..k] + [es[k]]
  {
  }

  lemma TakeDrop(es: seq<Event>, k: nat)
    requires k <= |es|
    ensures es[..k] + es[k..] == es
  {
  }

  /** A call, then a sequence of calls. */
  lemma FrontThen(s0: VState, pre: Event, es: seq<Event>, s1: VState)
    requires ValidState(s0) && ValidState(s1) && Step(s0, pre) == (s1, Pass)
    ensures Run(s0, [pre] + es) == Run(s1, es)
  {
    RunOne(s0, pre);
    RunThen(s0, [pre], es, s1);
  }

  /** Once a prefix has thrown, the two parts after it do not run. */
  lemma StopRest(s0: VState, a: seq<Event>, b: seq<Event>, c: seq<Event>)
    requires ValidState(s0) && Run(s0, a).1.Fail?
    ensures Run(s0, a + b + c) == Run(s0, a)
  {
    RunStop(s0, a, b);
    RunStop(s0, a + b, c);
  }

  lemma RunOne(st: VState, e: Event)
    requires ValidState(st)
    ensures Run(st, [e]) == Step(st, e)
  {
    assert [e][1..] == [];
  }

  lemma ConsumedSnoc(consumers: map<string, Consumer>, cli: Cli, opts: seq<string>, k: nat, calls: seq<Call>)
    requires k < |opts| && Consumed(consumers, cli, opts[..k]) == FireResult(calls, None)
    ensures Consumed(consumers, cli, opts[..k + 1]) ==
      if opts[k] !in consumers then FireResult(calls, None)
      else
        var v := TrimmedValue(cli, opts[k]);
        FireResult(calls + [Call(opts[k], v)], match consumers[opts[k]](v) case Pass => None case Fail(e) => Some(e))
  {
    assert opts[..k + 1][..k] == opts[..k];
  }

  /** A `CommandLine`. */
  class CommandLine {
    var options: seq<ApacheOption>
    var consumerMap: map<string, Consumer>
    var validationBuilders: seq<VBuilder>
    var validationStack: seq<nat>

    function State(): VState
      reads this
    {
      VState(options, consumerMap, validationBuilders, validationStack)
    }

    predicate Valid()
      reads this
    {
      ValidState(State())
    }

    /** `new CommandLine()`: one basic builder, in the list and on the stack. */
    constructor ()
      ensures State() == Initial() && Valid()
    {
      options := [];
      consumerMap := map[];
      validationBuilders := [BasicVB([], [], [])];
      validationStack := [0];
    }

    /** `visit(apacheOption, consumer)`. */
    method VisitApache(a: ApacheOption, c: Option<Consumer>) returns (r: Outcome<Exn>)
      requires Valid()
      modifies this
      ensures (State(), r) == VisitStep(old(State()), a, c) && Valid()
    {
      ghost var s0 := State();
      options := options + [a];
      if c.Some? {
        consumerMap := consumerMap[a.opt := c.value];
      }
      if |validationStack| == 0 {
        return Fail(NullPointer());
      }
      var t := validationStack[|validationStack| - 1];
      var b := validationBuilders[t];
      var b' := if a.required then AddRequired(b, a.opt) else AddOptional(b, a.opt);
      validationBuilders := validationBuilders[t := b'];
      VisitPushes(s0, a, c);
      return Pass;
    }

    /** `visit(option)`: the option's Apache form and its consumer. */
    method VisitLeaf(o: LeafOption) returns (r: Outcome<Exn>)
      requires Valid()
      modifies this
      ensures (State(), r) == VisitStep(old(State()), AsApacheOption(o), Some(o.consumer)) && Valid()
    {
      r := VisitApache(AsApacheOption(o), Some(o.consumer));
    }

    /** `preVisit(group)` for a grouped group (`radio` false) or a radio. */
    method PreVisit(radio: bool, isRequired: bool)
      requires Valid()
      modifies this
      ensures State() == Step(old(State()), if radio then PreRadio(isRequired) else PreGrouped(isRequired)).0
      ensures Valid()
    {
      var b := if radio then RadioVB(isRequired, [], []) else GroupedVB(isRequired, [], [], []);
      validationStack := validationStack + [|validationBuilders|];
      validationBuilders := validationBuilders + [b];
    }

    /** `postVisit(group)`, that is `popGroup()`. */
    method PostVisit() returns (r: Outcome<Exn>)
      requires Valid()
      modifies this
      ensures (State(), r) == PopStep(old(State())) && Valid()
    {
      if |validationStack| == 0 {
        return Fail(NoSuchElement());
      }
      var b := validationStack[|validationStack| - 1];
      validationStack := validationStack[..|validationStack| - 1];
      if |validationStack| > 0 {
        var t := validationStack[|validationStack| - 1];
        validationBuilders := validationBuilders[t := AddGroup(validationBuilders[t], b)];
      }
      return Pass;
    }

    /** `group.visit(this, forced)`: `preVisit`, the leaf options, the nested groups,
        `postVisit`. */
    method VisitGroup(g: OptionGroup, forced: Option<bool>) returns (r: Outcome<Exn>)
      requires Valid()
      modifies this
      ensures (State(), r) == Run(old(State()), Events(g, forced)) && Valid()
      decreases g, 1
    {
      match g
      case Grouped(q, os, gs) =>
        r := VisitBracketed(false, q, os, GroupClears(q, forced), gs, forced);
      case Radio(q, os, gs) =>
        r := VisitBracketed(true, q, os, true, gs, Some(false));
    }

    /** The body of a group's `visit`. */
    method VisitBracketed(radio: bool, isRequired: bool, os: seq<LeafOption>, clear: bool, gs: seq<OptionGroup>, sub: Option<bool>)
      returns (r: Outcome<Exn>)
      requires Valid()
      modifies this
      ensures (State(), r) == Run(old(State()),
        [if radio then PreRadio(isRequired) else PreGrouped(isRequired)] + LeafEvents(os, clear) + GroupsEvents(gs, sub) + [Post])
      ensures Valid()
      decreases gs, 2
    {
      ghost var s0 := State();
      ghost var pre := if radio then PreRadio(isRequired) else PreGrouped(isRequired);
      ghost var front := [pre] + LeafEvents(os, clear);
      ghost var groups := GroupsEvents(gs, sub);
      PreVisit(radio, isRequired);
      ghost var s1 := State();
      r := VisitLeaves(os, clear);
      FrontThen(s0, pre, LeafEvents(os, clear), s1);
      if r.Fail? {
        StopRest(s0, front, groups, [Post]);
        return;
      }
      ghost var s2 := State();
      r := VisitGroups(gs, sub);
      RunThen(s0, front, groups, s2);
      if r.Fail? {
        RunStop(s0, front + groups, [Post]);
        return;
      }
      ghost var s3 := State();
      r := PostVisit();
      BackRun(s0, front, groups, s2, s3);
    }

    /** The loop of a group's `visit` over its leaf options. */
    method VisitLeaves(os: seq<LeafOption>, clear: bool) returns (r: Outcome<Exn>)
      requires Valid()
      modifies this
      ensures (State(), r) == Run(old(State()), LeafEvents(os, clear)) && Valid()
    {
      ghost var s0 := State();
      ghost var leaves := LeafEvents(os, clear);
      r := Pass;
      for k := 0 to |os|
        invariant Valid() && r == Pass
        invariant Run(s0, leaves[..k]) == (State(), Pass)
      {
        var e := Visited(Reported(os[k], clear), Some(os[k].consumer));
        assert e == leaves[k];
        ghost var s1 := State();
        r := VisitApache(e.option, e.consumer);
        RunPrefix(s0, leaves, k, s1);
        if r.Fail? {
          RunPrefixStop(s0, leaves, k + 1);
          return;
        }
      }
      assert leaves[..|os|] == leaves;
    }

    /** The loop of a group's `visit` over its nested groups. */
    method VisitGroups(gs: seq<OptionGroup>, forced: Option<bool>) returns (r: Outcome<Exn>)
      requires Valid()
      modifies this
      ensures (State(), r) == Run(old(State()), GroupsEvents(gs, forced)) && Valid()
      decreases gs, 0
    {
      ghost var s0 := State();
      r := Pass;
      assert gs[..0] == [];
      for k := 0 to |gs|
        invariant Valid() && r == Pass
        invariant Run(s0, GroupsEvents(gs[..k], forced)) == (State(), Pass)
      {
        GroupsEventsSnoc(gs, k, forced);
        ghost var s1 := State();
        r := VisitGroup(gs[k], forced);
        RunThen(s0, GroupsEvents(gs[..k], forced), Events(gs[k], forced), s1);
        if r.Fail? {
          GroupsEventsSplit(gs, k + 1, forced);
          RunStop(s0, GroupsEvents(gs[..k + 1], forced), GroupsEvents(gs[k + 1..], forced));
          return;
        }
      }
      assert gs[..|gs|] == gs;
    }

    /** `option.visit(this, forced)` on any option. */
    method VisitCliOption(x: CliOption, forced: Option<bool>) returns (r: Outcome<Exn>)
      requires Valid()
      modifies this
      ensures (State(), r) == Run(old(State()), OptionEvents(x, forced)) && Valid()
    {
      match x
      case Single(o) =>
        ghost var s0 := State();
        r := VisitLeaf(o);
        RunOne(s0, Visited(AsApacheOption(o), Some(o.consumer)));
      case Nested(g) =>
        r := VisitGroup(g, forced);
    }

    /** `addOptions(options...)`: each option visited in turn with no override. */
    method AddOptions(xs: seq<CliOption>) returns (r: Outcome<Exn>)
      requires Valid()
      modifies this
      ensures (State(), r) == Run(old(State()), AddEvents(xs)) && Valid()
    {
      ghost var s0 := State();
      r := Pass;
      assert xs[..0] == [];
      for k := 0 to |xs|
        invariant Valid()
        invariant Run(s0, AddEvents(xs[..k])) == (State(), Pass) && r == Pass
      {
        assert xs[..k + 1][..k] == xs[..k];
        ghost var s1 := State();
        r := VisitCliOption(xs[k], None);
        RunThen(s0, AddEvents(xs[..k]), OptionEvents(xs[k], None), s1);
        if r.Fail? {
          AddEventsStops(s0, xs, k + 1);
          return;
        }
      }
      assert xs[..|xs|] == xs;
    }

    /** `parse(args)`: the Apache parser `parser` run on the option table, then every
        builder validated in list order, then the consumers of the options given
        called in the order `order` gives the `HashSet` of their names. */
    method Parse(args: seq<string>, parser: CliSpec.Parser, order: set<string> -> seq<string>, name: nat -> string)
      returns (r: FireResult)
      requires Valid()
      ensures r == ParseOutcome(validationBuilders, consumerMap, parser(options, args), order, name)
    {
      var parsed := parser(options, args);
      if parsed.Err? {
        return FireResult([], Some(WrapCause(ValidationErrorKind, parsed.error)));
      }
      var cli := parsed.value;
      var seen := cli.present;
      for i := 0 to |validationBuilders|
        invariant ValidateAll(validationBuilders, i, seen, name) == Pass
      {
        var v := ValidateLoop(validationBuilders, i, seen, name);
        if v.Err? {
          ValidateAllStops(validationBuilders, i + 1, |validationBuilders|, seen, name);
          return FireResult([], Some(v.error));
        }
      }
      r := FireConsumers(cli, order(seen));
    }

    /** The loop of `parse` over the options given, in iteration order. */
    method FireConsumers(cli: Cli, opts: seq<string>) returns (r: FireResult)
      ensures r == Consumed(consumerMap, cli, opts)
    {
      var calls := [];
      for k := 0 to |opts|
        invariant Consumed(consumerMap, cli, opts[..k]) == FireResult(calls, None)
      {
        ConsumedSnoc(consumerMap, cli, opts, k, calls);
        var opt := opts[k];
        if opt in consumerMap {
          var value := cli.OptionValue(opt);
          if value.Some? {
            value := Some(Trim(value.value));
          }
          calls := calls + [Call(opt, value)];
          var o := consumerMap[opt](value);
          if o.Fail? {
            ConsumedStops(consumerMap, cli, opts, k + 1);
            return FireResult(calls, Some(o.error));
          }
        }
      }
      assert opts[..|opts|] == opts;
      r := FireResult(calls, None);
    }

    /** `parse(allArgs)`: the line split at single spaces. */
    method ParseLine(allArgs: string, parser: CliSpec.Parser, order: set<string> -> seq<string>, name: nat -> string)
      returns (r: FireResult)
      requires Valid()
      ensures r == ParseOutcome(validationBuilders, consumerMap, parser(options, Split(allArgs, ' ')), order, name)
    {
      r := Parse(Split(allArgs, ' '), parser, order, name);
    }

    /** `parse(arg0, args...)`: the arguments copied into one array after `arg0`. */
    method ParseArgs(arg0: string, args: array<string>, parser: CliSpec.Parser, order: set<string> -> seq<string>, name: nat -> string)
      returns (r: FireResult)
      requires Valid()
      ensures r == ParseOutcome(validationBuilders, consumerMap, parser(options, [arg0] + args[..]), order, name)
    {
      var combined := Combine(arg0, args);
      assert combined[..] == [combined[0]] + combined[1..];
      r := Parse(combined[..], parser, order, name);
    }

    /** `parse(url)`: the arguments the query makes (`-name`, then the value when there
        is an `=`), decoded by `decode`, then `parse(args)`; a missing query throws. */
    method ParseUrl(query: Option<string>, decode: CliSpec.Decoder, parser: CliSpec.Parser,
                    order: set<string> -> seq<string>, name: nat -> string)
      returns (r: FireResult)
      requires Valid()
      ensures CliSpec.QueryArgs(query, decode).Err? ==> r == FireResult([], Some(CliSpec.QueryArgs(query, decode).error))
      ensures CliSpec.QueryArgs(query, decode).Ok? ==>
        r == ParseOutcome(validationBuilders, consumerMap, parser(options, CliSpec.QueryArgs(query, decode).value), order, name)
    {
      var args := CliSpec.QueryArgsM(query, decode);
      if args.Err? {
        return FireResult([], Some(args.error));
      }
      r := Parse(args.value, parser, order, name);
    }
  }

  /** The new array of `parse(arg0, args...)`: `arg0`, then a copy of `args`. */
  method Combine(arg0: string, args: array<string>) returns (combined: array<string>)
    ensures fresh(combined) && combined.Length == args.Length + 1
    ensures combined[0] == arg0 && combined[1..] == args[..]
  {
    combined := new string[args.Length + 1];
    combined[0] := arg0;
    for k := 0 to args.Length
      invariant combined[0] == arg0 && combined[1..k + 1] == args[..k]
    {
      combined[k + 1] := args[k];
    }
  }

  lemma {:induction false} GroupsEventsSplit(gs: seq<OptionGroup>, k: nat, forced: Option<bool>)
    requires k <= |gs|
    ensures GroupsEvents(gs, forced) == GroupsEvents(gs[..k], forced) + GroupsEvents(gs[k..], forced)
  {
    if k > 0 {
      assert gs[..k][1..] == gs[1..][..k - 1];
      assert gs[k..] == gs[1..][k - 1..];
      GroupsEventsSplit(gs[1..], k - 1, forced);
    } else {
      assert gs[..0] == [] && gs[0..] == gs;
    }
  }

  /** Once the options visited so far have thrown, the rest of `addOptions` is not run. */
  lemma {:induction false} AddEventsStops(st: VState, xs: seq<CliOption>, k: nat)
    requires ValidState(st) && k <= |xs| && Run(st, AddEvents(xs[..k])).1.Fail?
    ensures Run(st, AddEvents(xs)) == Run(st, AddEvents(xs[..k]))
    decreases |xs| - k
  {
    if k < |xs| {
      assert xs[..k + 1][..k] == xs[..k];
      RunAppend(st, AddEvents(xs[..k]), OptionEvents(xs[k], None));
      AddEventsStops(st, xs, k + 1);
    } else {
      assert xs[..k] == xs;
    }
  }

  // ------------------------------------------------- what a visit leaves behind

  /** The number of groups in `g`, itself included: the builders its visit creates. */
  function Count(g: OptionGroup): (n: nat)
    ensures n >= 1
    decreases g, 1
  {
    1 + CountAll(g.optionGroups)
  }

  function CountAll(gs: seq<OptionGroup>): nat
    decreases gs, 0
  {
    if |gs| == 0 then 0 else Count(gs[0]) + CountAll(gs[1..])
  }

  /** Where the builders of the groups `gs` start when the first is created at `base`. */
  function Starts(gs: seq<OptionGroup>, base: nat): (r: seq<nat>)
    ensures |r| == |gs|
  {
    if |gs| == 0 then [] else [base] + Starts(gs[1..], base + Count(gs[0]))
  }

  /** A builder told about the options `os`, reported with `clear` as a group does. */
  function Told(b: VBuilder, os: seq<LeafOption>, clear: bool): (b': VBuilder)
    ensures b'.subs == b.subs && BuilderRequired(b') == BuilderRequired(b)
    ensures b'.BasicVB? == b.BasicVB? && b'.RadioVB? == b.RadioVB?
    ensures NamesDistinct(b) ==> NamesDistinct(b')
    decreases |os|
  {
    if |os| == 0 then b
    else
      var a := Reported(os[0], clear);
      Told(if a.required then AddRequired(b, a.opt) else AddOptional(b, a.opt), os[1..], clear)
  }

  /** The builder that `preVisit` creates for a group and its visit completes, when it
      is created at position `base`. */
  function Made(g: OptionGroup, forced: Option<bool>, base: nat): VBuilder {
    match g
    case Grouped(q, os, gs) => WithSubs(Told(GroupedVB(q, [], [], []), os, GroupClears(q, forced)), Starts(gs, base + 1))
    case Radio(q, os, gs) => WithSubs(Told(RadioVB(q, [], []), os, true), Starts(gs, base + 1))
  }

  function WithSubs(b: VBuilder, subs: seq<nat>): (b': VBuilder)
    ensures b' == b.(subs := subs)
  {
    match b
    case BasicVB(r, o, _) => BasicVB(r, o, subs)
    case RadioVB(q, one, _) => RadioVB(q, one, subs)
    case GroupedVB(q, r, o, _) => GroupedVB(q, r, o, subs)
  }

  /** The override a group hands its nested groups. */
  function SubOverride(g: OptionGroup, forced: Option<bool>): Option<bool> {
    if g.Radio? then Some(false) else forced
  }

  /** The builders from position `base` on are those a visit of `g` creates: one per
      group, in visit order, each attached to its parent's builder. */
  ghost predicate Describes(bs: seq<VBuilder>, base: nat, g: OptionGroup, forced: Option<bool>)
    decreases g, 1
  {
    base + Count(g) <= |bs| && bs[base] == Made(g, forced, base)
    && DescribesAll(bs, base + 1, g.optionGroups, SubOverride(g, forced))
  }

  ghost predicate DescribesAll(bs: seq<VBuilder>, base: nat, gs: seq<OptionGroup>, forced: Option<bool>)
    decreases gs, 0
  {
    |gs| == 0 || (Describes(bs, base, gs[0], forced) && DescribesAll(bs, base + Count(gs[0]), gs[1..], forced))
  }

  /** Whether builders describe a group depends only on the builders it created. */
  lemma {:induction false} DescribesFrame(bs: seq<VBuilder>, bs': seq<VBuilder>, base: nat, g: OptionGroup, forced: Option<bool>)
    requires base + Count(g) <= |bs| && base + Count(g) <= |bs'|
    requires forall i :: base <= i < base + Count(g) ==> bs[i] == bs'[i]
    ensures Describes(bs, base, g, forced) <==> Describes(bs', base, g, forced)
    decreases g, 1
  {
    DescribesAllFrame(bs, bs', base + 1, g.optionGroups, SubOverride(g, forced));
  }

  lemma {:induction false} DescribesAllFrame(bs: seq<VBuilder>, bs': seq<VBuilder>, base: nat, gs: seq<OptionGroup>, forced: Option<bool>)
    requires base + CountAll(gs) <= |bs| && base + CountAll(gs) <= |bs'|
    requires forall i :: base <= i < base + CountAll(gs) ==> bs[i] == bs'[i]
    ensures DescribesAll(bs, base, gs, forced) <==> DescribesAll(bs', base, gs, forced)
    decreases gs, 0
  {
    if |gs| > 0 {
      DescribesFrame(bs, bs', base, gs[0], forced);
      DescribesAllFrame(bs, bs', base + Count(gs[0]), gs[1..], forced);
    }
  }

  /** The leaf visits of a group tell the top builder their names and change nothing
      else of the builders or the stack. */
  lemma {:induction false} LeavesRun(st: VState, os: seq<LeafOption>, clear: bool)
    requires ValidState(st) && st.stack != []
    ensures var r := Run(st, LeafEvents(os, clear)); var t := st.stack[|st.stack| - 1];
      r.1 == Pass && r.0.stack == st.stack && r.0.builders == st.builders[t := Told(st.builders[t], os, clear)]
    decreases |os|
  {
    var t := st.stack[|st.stack| - 1];
    if |os| > 0 {
      var es := LeafEvents(os, clear);
      assert es[1..] == LeafEvents(os[1..], clear);
      var e := Visited(Reported(os[0], clear), Some(os[0].consumer));
      assert es[0] == e;
      VisitPushes(st, Reported(os[0], clear), Some(os[0].consumer));
      var s1 := Step(st, e).0;
      LeavesRun(s1, os[1..], clear);
      LeafCompose(st.builders, s1.builders, Run(s1, es[1..]).0.builders, t, os, clear);
    } else {
      assert st.builders[t := st.builders[t]] == st.builders;
    }
  }

  /** Telling a builder about the first leaf, then about the others, tells it about
      them all. */
  lemma LeafCompose(bs: seq<VBuilder>, bs1: seq<VBuilder>, bs2: seq<VBuilder>, t: nat, os: seq<LeafOption>, clear: bool)
    requires |os| > 0 && t < |bs|
    requires var a := Reported(os[0], clear);
      bs1 == bs[t := if a.required then AddRequired(bs[t], a.opt) else AddOptional(bs[t], a.opt)]
    requires bs2 == bs1[t := Told(bs1[t], os[1..], clear)]
    ensures bs2 == bs[t := Told(bs[t], os, clear)]
  {
  }

  /** `bs'` is `bs` with more builders after it and with `added` appended to the
      sub-builders of builder `t`. */
  predicate Attached(bs: seq<VBuilder>, bs': seq<VBuilder>, t: nat, added: seq<nat>) {
    && |bs| <= |bs'| && t < |bs|
    && (forall i :: 0 <= i < |bs| && i != t ==> bs'[i] == bs[i])
    && bs'[t] == WithSubs(bs[t], bs[t].subs + added)
  }

  /** Attaching the first group's builder, then those of the others, attaches them all. */
  lemma AttachedGroups(a: seq<VBuilder>, b: seq<VBuilder>, c: seq<VBuilder>, t: nat, gs: seq<OptionGroup>, n: nat, m: nat)
    requires |gs| > 0 && m == n + Count(gs[0])
    requires Attached(a, b, t, [n]) && Attached(b, c, t, Starts(gs[1..], m))
    ensures Attached(a, c, t, Starts(gs, n))
  {
    assert a[t].subs + [n] + Starts(gs[1..], m) == a[t].subs + Starts(gs, n);
  }

  /** Visiting a group from a non-empty stack returns normally, leaves the stack as it
      found it, appends one builder per group of the tree, mirroring it, and attaches
      the group's builder to the builder on top of the stack. */
  lemma {:induction false} GroupRun(st: VState, g: OptionGroup, forced: Option<bool>)
    requires ValidState(st) && st.stack != []
    ensures var r := Run(st, Events(g, forced)); var n := |st.builders|;
      && r.1 == Pass && r.0.stack == st.stack
      && |r.0.builders| == n + Count(g)
      && Attached(st.builders, r.0.builders, st.stack[|st.stack| - 1], [n])
      && Describes(r.0.builders, n, g, forced)
    decreases g, 1
  {
    match g
    case Grouped(q, os, gs) =>
      BracketRun(st, false, q, os, GroupClears(q, forced), gs, forced);
    case Radio(q, os, gs) =>
      BracketRun(st, true, q, os, true, gs, Some(false));
  }

  /** The visit of a group, its parts spelled out. */
  lemma {:induction false} BracketRun(st: VState, radio: bool, q: bool, os: seq<LeafOption>, clear: bool, gs: seq<OptionGroup>, sub: Option<bool>)
    requires ValidState(st) && st.stack != []
    ensures var b0 := if radio then RadioVB(q, [], []) else GroupedVB(q, [], [], []);
      var es := [if radio then PreRadio(q) else PreGrouped(q)] + LeafEvents(os, clear) + GroupsEvents(gs, sub) + [Post];
      var r := Run(st, es); var n := |st.builders|;
      && r.1 == Pass && r.0.stack == st.stack
      && |r.0.builders| == n + 1 + CountAll(gs)
      && Attached(st.builders, r.0.builders, st.stack[|st.stack| - 1], [n])
      && r.0.builders[n] == WithSubs(Told(b0, os, clear), Starts(gs, n + 1))
      && DescribesAll(r.0.builders, n + 1, gs, sub)
    decreases gs, 1
  {
    var n := |st.builders|;
    var t := st.stack[|st.stack| - 1];
    var pre := if radio then PreRadio(q) else PreGrouped(q);
    var b0 := if radio then RadioVB(q, [], []) else GroupedVB(q, [], [], []);
    var front := [pre] + LeafEvents(os, clear);
    FrontRun(st, radio, q, os, clear);
    var s2 := Run(st, front).0;
    GroupsRun(s2, gs, sub);
    var s3 := Run(s2, GroupsEvents(gs, sub)).0;
    BackRun(st, front, GroupsEvents(gs, sub), s2, s3);
    PopAttaches(st, s2, s3, t, n, Told(b0, os, clear), gs, sub);
  }

  /** The start of a group's visit: `preVisit` pushes a fresh builder and the leaves
      tell it their names. */
  lemma FrontRun(st: VState, radio: bool, q: bool, os: seq<LeafOption>, clear: bool)
    requires ValidState(st) && st.stack != []
    ensures var b0 := if radio then RadioVB(q, [], []) else GroupedVB(q, [], [], []);
      var r := Run(st, [if radio then PreRadio(q) else PreGrouped(q)] + LeafEvents(os, clear));
      && r.1 == Pass && r.0.stack == st.stack + [|st.builders|]
      && r.0.builders == st.builders + [Told(b0, os, clear)]
  {
    var pre := if radio then PreRadio(q) else PreGrouped(q);
    var b0 := if radio then RadioVB(q, [], []) else GroupedVB(q, [], [], []);
    var s1 := PreStep(st, b0);
    FrontThen(st, pre, LeafEvents(os, clear), s1);
    LeavesRun(s1, os, clear);
    assert s1.stack[|s1.stack| - 1] == |st.builders|;
    SnocUpdate(st.builders, b0, Told(b0, os, clear));
  }

  lemma SnocUpdate(bs: seq<VBuilder>, b: VBuilder, b': VBuilder)
    ensures (bs + [b])[|bs| := b'] == bs + [b']
  {
  }

  /** The rest of a group's visit: its nested groups, then `postVisit`. */
  lemma BackRun(st: VState, front: seq<Event>, groups: seq<Event>, s2: VState, s3: VState)
    requires ValidState(st) && ValidState(s2) && ValidState(s3)
    requires Run(st, front) == (s2, Pass) && Run(s2, groups) == (s3, Pass)
    ensures Run(st, front + groups + [Post]) == PopStep(s3)
  {
    assert front + groups + [Post] == front + (groups + [Post]);
    RunThen(st, front, groups + [Post], s2);
    RunThen(s2, groups, [Post], s3);
    RunOne(s3, Post);
  }

  /** The last step of a group's visit: popping its builder attaches it to the one
      below, and the builders of its nested groups stay as they were. */
  lemma PopAttaches(st: VState, s2: VState, s3: VState, t: nat, n: nat, told: VBuilder, gs: seq<OptionGroup>, sub: Option<bool>)
    requires ValidState(st) && ValidState(s3) && st.stack != [] && t == st.stack[|st.stack| - 1] && n == |st.builders|
    requires told.subs == [] && s2.stack == st.stack + [n] && s2.builders == st.builders + [told]
    requires s3.stack == s2.stack && |s3.builders| == n + 1 + CountAll(gs)
    requires Attached(s2.builders, s3.builders, n, Starts(gs, n + 1))
    requires DescribesAll(s3.builders, n + 1, gs, sub)
    ensures var s4 := PopStep(s3).0;
      && PopStep(s3).1 == Pass && s4.stack == st.stack && |s4.builders| == n + 1 + CountAll(gs)
      && Attached(st.builders, s4.builders, t, [n])
      && s4.builders[n] == WithSubs(told, Starts(gs, n + 1))
      && DescribesAll(s4.builders, n + 1, gs, sub)
  {
    assert s3.stack[..|s3.stack| - 1] == st.stack;
    assert told.subs + Starts(gs, n + 1) == Starts(gs, n + 1);
    var s4 := PopStep(s3).0;
    assert forall i :: 0 <= i < n ==> s3.builders[i] == st.builders[i] by {
      forall i | 0 <= i < n ensures s3.builders[i] == st.builders[i] {
        assert s2.builders[i] == st.builders[i];
      }
    }
    DescribesAllFrame(s3.builders, s4.builders, n + 1, gs, sub);
  }

  /** Visiting a list of groups: the same, with each group's builder attached in turn. */
  lemma {:induction false} GroupsRun(st: VState, gs: seq<OptionGroup>, forced: Option<bool>)
    requires ValidState(st) && st.stack != []
    ensures var r := Run(st, GroupsEvents(gs, forced)); var n := |st.builders|;
      && r.1 == Pass && r.0.stack == st.stack
      && |r.0.builders| == n + CountAll(gs)
      && Attached(st.builders, r.0.builders, st.stack[|st.stack| - 1], Starts(gs, n))
      && DescribesAll(r.0.builders, n, gs, forced)
    decreases gs, 0
  {
    var n := |st.builders|;
    var t := st.stack[|st.stack| - 1];
    if |gs| == 0 {
      assert st.builders[t].subs + [] == st.builders[t].subs;
    } else {
      GroupRun(st, gs[0], forced);
      var s1 := Run(st, Events(gs[0], forced)).0;
      RunThen(st, Events(gs[0], forced), GroupsEvents(gs[1..], forced), s1);
      GroupsRun(s1, gs[1..], forced);
      var s2 := Run(s1, GroupsEvents(gs[1..], forced)).0;
      GroupsCompose(st, s1, s2, gs, forced);
    }
  }

  /** The visit of the first group, then of the others, is the visit of them all. */
  lemma GroupsCompose(st: VState, s1: VState, s2: VState, gs: seq<OptionGroup>, forced: Option<bool>)
    requires |gs| > 0 && st.stack != []
    requires var n := |st.builders|;
      && s1.stack == st.stack && |s1.builders| == n + Count(gs[0])
      && Attached(st.builders, s1.builders, st.stack[|st.stack| - 1], [n])
      && Describes(s1.builders, n, gs[0], forced)
    requires var n := |s1.builders|;
      && s2.stack == s1.stack && |s2.builders| == n + CountAll(gs[1..])
      && Attached(s1.builders, s2.builders, s1.stack[|s1.stack| - 1], Starts(gs[1..], n))
      && DescribesAll(s2.builders, n, gs[1..], forced)
    ensures var n := |st.builders|;
      && s2.stack == st.stack && |s2.builders| == n + CountAll(gs)
      && Attached(st.builders, s2.builders, st.stack[|st.stack| - 1], Starts(gs, n))
      && DescribesAll(s2.builders, n, gs, forced)
  {
    var n := |st.builders|;
    var t := st.stack[|st.stack| - 1];
    assert s1.stack[|s1.stack| - 1] == t;
    AttachedGroups(st.builders, s1.builders, s2.builders, t, gs, n, |s1.builders|);
    DescribesFrame(s1.builders, s2.builders, n, gs[0], forced);
  }
}
