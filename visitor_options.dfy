/** The option objects of the older visitor engine: `Option`, `GroupedOptionGroup` and
    `RadioGroup`, their constructors, and the order in which `visit` reports them to an
    `OptionVisitor`. A visit is written out as the sequence of visitor calls it makes. */
module VisitorOptions {
  import opened Wrappers
  import opened Context
  import opened Options

  /** An `Option` of the visitor engine: its argument name (its short and long name),
      description, `isRequired`, `isFlag` and consumer. */
  datatype LeafOption = LeafOption(argName: string, description: Option<string>, isRequired: bool, isFlag: bool, consumer: Consumer)

  /** `Option.asApacheOption()`. */
  function AsApacheOption(o: LeafOption): (a: ApacheOption)
    ensures a.opt == o.argName && a.longOpt == Some(o.argName) && a.argName.None?
    ensures a.required == o.isRequired && a.hasArg == !o.isFlag && a.description == o.description
  {
    ApacheOption(o.argName, Some(o.argName), o.description, !o.isFlag, None, o.isRequired)
  }

  /** A group: its `isRequired` field, its leaf options and its nested groups, each list
      in the order the constructor met them. */
  datatype OptionGroup =
    | Grouped(isRequired: bool, options: seq<LeafOption>, optionGroups: seq<OptionGroup>)
    | Radio(isRequired: bool, options: seq<LeafOption>, optionGroups: seq<OptionGroup>)

  /** A `CliOption` handed to a group constructor or to `addOptions`. */
  datatype CliOption = Single(option: LeafOption) | Nested(group: OptionGroup)

  /** `setIsRequired(b)` on a group: only `isRequired` changes. */
  function SetIsRequired(g: OptionGroup, b: bool): (g': OptionGroup)
    ensures g'.Grouped? == g.Grouped? && g'.isRequired == b
    ensures g'.options == g.options && g'.optionGroups == g.optionGroups
  {
    g.(isRequired := b)
  }

  // ------------------------------------------------------------ constructors

  /** The leaf options among `xs`, in order. */
  function LeafItems(xs: seq<CliOption>): (r: seq<LeafOption>)
    ensures |r| <= |xs|
  {
    if |xs| == 0 then []
    else LeafItems(xs[..|xs| - 1]) + (if xs[|xs| - 1].Single? then [xs[|xs| - 1].option] else [])
  }

  /** The groups among `xs`, in order. */
  function GroupItems(xs: seq<CliOption>): (r: seq<OptionGroup>)
    ensures |r| <= |xs|
  {
    if |xs| == 0 then []
    else GroupItems(xs[..|xs| - 1]) + (if xs[|xs| - 1].Nested? then [xs[|xs| - 1].group] else [])
  }

  /** Every child lands in exactly one of the two lists, and each list holds exactly the
      children of its kind. */
  lemma {:induction false} Partition(xs: seq<CliOption>)
    ensures |LeafItems(xs)| + |GroupItems(xs)| == |xs|
    ensures forall o :: o in LeafItems(xs) <==> Single(o) in xs
    ensures forall g :: g in GroupItems(xs) <==> Nested(g) in xs
  {
    if |xs| > 0 {
      var init := xs[..|xs| - 1];
      Partition(init);
      assert xs == init + [xs[|xs| - 1]];
    }
  }

  /** Each group of `gs` with `isRequired` cleared. */
  function Cleared(gs: seq<OptionGroup>): (r: seq<OptionGroup>)
    ensures |r| == |gs|
    ensures forall i :: 0 <= i < |gs| ==> r[i] == SetIsRequired(gs[i], false)
  {
    seq(|gs|, i requires 0 <= i < |gs| => SetIsRequired(gs[i], false))
  }

  /** The children handed to a constructor; a null one (`None`) fails
      `Objects.requireNonNull`. */
  function Children(items: seq<Option<CliOption>>): (r: Option<seq<CliOption>>)
    ensures r.None? <==> exists i :: 0 <= i < |items| && items[i].None?
    ensures r.Some? ==> |r.value| == |items| && forall i :: 0 <= i < |items| ==> items[i] == Some(r.value[i])
  {
    if exists i :: 0 <= i < |items| && items[i].None? then None
    else Some(seq(|items|, i requires 0 <= i < |items| => items[i].value))
  }

  function NullPointer(): Exn {
    Thrown("java.lang.NullPointerException", None)
  }

  /** The private `GroupedOptionGroup` constructor: leaves and groups split in order. */
  function NewGrouped(isRequired: bool, items: seq<Option<CliOption>>): (r: Result<OptionGroup, Exn>)
    ensures r.Err? <==> Children(items).None?
    ensures r.Err? ==> r.error == NullPointer()
    ensures r.Ok? ==> r.value == Grouped(isRequired, LeafItems(Children(items).value), GroupItems(Children(items).value))
  {
    match Children(items)
    case None => Err(NullPointer())
    case Some(xs) => Ok(Grouped(isRequired, LeafItems(xs), GroupItems(xs)))
  }

  /** The private `RadioGroup` constructor: as for a group, and every nested group has
      its `isRequired` cleared. */
  function NewRadio(isRequired: bool, items: seq<Option<CliOption>>): (r: Result<OptionGroup, Exn>)
    ensures r.Err? <==> Children(items).None?
    ensures r.Err? ==> r.error == NullPointer()
    ensures r.Ok? ==> r.value == Radio(isRequired, LeafItems(Children(items).value), Cleared(GroupItems(Children(items).value)))
  {
    match Children(items)
    case None => Err(NullPointer())
    case Some(xs) => Ok(Radio(isRequired, LeafItems(xs), Cleared(GroupItems(xs))))
  }

  /** No nested group of a radio is required, whatever it was built as. */
  lemma RadioClearsSubgroups(isRequired: bool, items: seq<Option<CliOption>>)
    requires NewRadio(isRequired, items).Ok?
    ensures var g := NewRadio(isRequired, items).value;
      g.isRequired == isRequired && forall i :: 0 <= i < |g.optionGroups| ==> !g.optionGroups[i].isRequired
  {
  }

  /** The constructor loops of `GroupedOptionGroup` (`radio` false) and `RadioGroup`
      (`radio` true). */
  method NewGroupM(radio: bool, isRequired: bool, items: seq<Option<CliOption>>) returns (r: Result<OptionGroup, Exn>)
    ensures r == if radio then NewRadio(isRequired, items) else NewGrouped(isRequired, items)
  {
    var options: seq<LeafOption> := [];
    var optionGroups: seq<OptionGroup> := [];
    ghost var xs: seq<CliOption> := [];
    for k := 0 to |items|
      invariant |xs| == k && forall i :: 0 <= i < k ==> items[i] == Some(xs[i])
      invariant options == LeafItems(xs)
      invariant optionGroups == if radio then Cleared(GroupItems(xs)) else GroupItems(xs)
    {
      if items[k].None? {
        return Err(NullPointer());
      }
      var o := items[k].value;
      ItemsSnoc(xs, o);
      if o.Nested? {
        var g := if radio then SetIsRequired(o.group, false) else o.group;
        optionGroups := optionGroups + [g];
      } else {
        options := options + [o.option];
      }
      xs := xs + [o];
    }
    ChildrenOf(items, xs);
    if radio {
      return Ok(Radio(isRequired, options, optionGroups));
    }
    return Ok(Grouped(isRequired, options, optionGroups));
  }

  /** One more child of the constructor's loop lands at the end of its list. */
  lemma ItemsSnoc(xs: seq<CliOption>, o: CliOption)
    ensures LeafItems(xs + [o]) == LeafItems(xs) + (if o.Single? then [o.option] else [])
    ensures GroupItems(xs + [o]) == GroupItems(xs) + (if o.Nested? then [o.group] else [])
    ensures o.Nested? ==> Cleared(GroupItems(xs) + [o.group]) == Cleared(GroupItems(xs)) + [SetIsRequired(o.group, false)]
  {
    assert (xs + [o])[..|xs|] == xs;
  }

  /** Items none of which is null are the children `xs` they hold. */
  lemma ChildrenOf(items: seq<Option<CliOption>>, xs: seq<CliOption>)
    requires |xs| == |items| && forall i :: 0 <= i < |items| ==> items[i] == Some(xs[i])
    ensures Children(items) == Some(xs)
  {
    assert !exists i :: 0 <= i < |items| && items[i].None?;
    var c := Children(items);
    assert c.Some? && |c.value| == |xs|;
    assert forall i :: 0 <= i < |xs| ==> c.value[i] == xs[i];
    assert c.value == xs;
  }

  /** `GroupedOptionGroup.requiredGroup` and `optionalGroup`. */
  function RequiredGroup(items: seq<Option<CliOption>>): (r: Result<OptionGroup, Exn>)
    ensures r.Err? <==> Children(items).None?
    ensures r.Ok? ==> r.value.Grouped? && r.value.isRequired
    ensures r.Ok? ==> r.value.options == LeafItems(Children(items).value) && r.value.optionGroups == GroupItems(Children(items).value)
  {
    NewGrouped(true, items)
  }

  function OptionalGroup(items: seq<Option<CliOption>>): (r: Result<OptionGroup, Exn>)
    ensures r.Err? <==> Children(items).None?
    ensures r.Ok? ==> r.value.Grouped? && !r.value.isRequired
    ensures r.Ok? ==> r.value.options == LeafItems(Children(items).value) && r.value.optionGroups == GroupItems(Children(items).value)
  {
    NewGrouped(false, items)
  }

  /** `RadioGroup.required` and `optional`. */
  function RequiredRadio(items: seq<Option<CliOption>>): (r: Result<OptionGroup, Exn>)
    ensures r.Err? <==> Children(items).None?
    ensures r.Ok? ==> r.value.Radio? && r.value.isRequired
    ensures r.Ok? ==> r.value.options == LeafItems(Children(items).value) && r.value.optionGroups == Cleared(GroupItems(Children(items).value))
  {
    NewRadio(true, items)
  }

  function OptionalRadio(items: seq<Option<CliOption>>): (r: Result<OptionGroup, Exn>)
    ensures r.Err? <==> Children(items).None?
    ensures r.Ok? ==> r.value.Radio? && !r.value.isRequired
    ensures r.Ok? ==> r.value.options == LeafItems(Children(items).value) && r.value.optionGroups == Cleared(GroupItems(Children(items).value))
  {
    NewRadio(false, items)
  }

  // ------------------------------------------------------------------- visit

  /** One call a visit makes on its `OptionVisitor`. Both `postVisit` overloads of the
      engine pop the builder stack, so they are one event. */
  datatype Event =
    | Visited(option: ApacheOption, consumer: Option<Consumer>)
    | PreGrouped(isRequired: bool)
    | PreRadio(isRequired: bool)
    | Post

  /** The Apache option a leaf is reported with: with its parser-level flag cleared when
      `clear` holds, as its own `asApacheOption()` otherwise. */
  function Reported(o: LeafOption, clear: bool): (a: ApacheOption)
    ensures a == AsApacheOption(o).(required := AsApacheOption(o).required && !clear)
  {
    var a := AsApacheOption(o);
    if clear then a.(required := false) else a
  }

  /** The leaf visits of a group's options, in order. */
  function LeafEvents(os: seq<LeafOption>, clear: bool): (r: seq<Event>)
    ensures |r| == |os|
  {
    seq(|os|, i requires 0 <= i < |os| => Visited(Reported(os[i], clear), Some(os[i].consumer)))
  }

  /** A grouped group clears its leaves' parser-level flags when it is not required or
      the override is `FALSE`. */
  predicate GroupClears(isRequired: bool, forced: Option<bool>) {
    !isRequired || forced == Some(false)
  }

  /** `visit(visitor, forcedOverride)` on a group: `preVisit`; the leaf options; the
      nested groups, with the same override for a grouped group and with `false` for a
      radio; `postVisit`. */
  function Events(g: OptionGroup, forced: Option<bool>): seq<Event>
    decreases g, 1
  {
    match g
    case Grouped(r, os, gs) =>
      [PreGrouped(r)] + LeafEvents(os, GroupClears(r, forced)) + GroupsEvents(gs, forced) + [Post]
    case Radio(r, os, gs) =>
      [PreRadio(r)] + LeafEvents(os, true) + GroupsEvents(gs, Some(false)) + [Post]
  }

  function GroupsEvents(gs: seq<OptionGroup>, forced: Option<bool>): seq<Event>
    decreases gs, 0
  {
    if |gs| == 0 then [] else Events(gs[0], forced) + GroupsEvents(gs[1..], forced)
  }

  /** `visit(visitor, override)` on any option; a single `Option` ignores the override
      and reports itself with its own flag. */
  function OptionEvents(x: CliOption, forced: Option<bool>): seq<Event> {
    match x
    case Single(o) => [Visited(AsApacheOption(o), Some(o.consumer))]
    case Nested(g) => Events(g, forced)
  }

  /** `addOptions(xs...)`: each option visited with no override. */
  function AddEvents(xs: seq<CliOption>): seq<Event> {
    if |xs| == 0 then [] else AddEvents(xs[..|xs| - 1]) + OptionEvents(xs[|xs| - 1], None)
  }

  lemma {:induction false} GroupsEventsSnoc(gs: seq<OptionGroup>, k: nat, forced: Option<bool>)
    requires k < |gs|
    ensures GroupsEvents(gs[..k + 1], forced) == GroupsEvents(gs[..k], forced) + Events(gs[k], forced)
  {
    if k == 0 {
      assert gs[..1][1..] == [];
    } else {
      assert gs[..k + 1][1..] == gs[1..][..k];
      assert gs[..k][1..] == gs[1..][..k - 1];
      GroupsEventsSnoc(gs[1..], k - 1, forced);
    }
  }

  /** Where the leaf visits of a group sit in its events, and the flag each reports: a
      grouped group's leaf keeps its own parser-level flag unless the group is not
      required or the override is `FALSE`, in which case the flag is cleared. */
  lemma GroupedLeafFlags(g: OptionGroup, forced: Option<bool>, i: nat)
    requires g.Grouped? && i < |g.options|
    ensures Events(g, forced)[1 + i].Visited?
    ensures Events(g, forced)[1 + i].option.opt == g.options[i].argName
    ensures Events(g, forced)[1 + i].option.required <==>
      g.options[i].isRequired && g.isRequired && forced != Some(false)
  {
  }

  /** A radio reports every leaf as not required to the parser. */
  lemma RadioLeafFlags(g: OptionGroup, forced: Option<bool>, i: nat)
    requires g.Radio? && i < |g.options|
    ensures Events(g, forced)[1 + i].Visited?
    ensures Events(g, forced)[1 + i].option.opt == g.options[i].argName
    ensures !Events(g, forced)[1 + i].option.required
  {
  }
}
