# ncats-common-cli, modelled in Dafny

`ncats-common-cli` is a small command-line constraint engine on top of Apache Commons
CLI. A program describes its options as a tree. The leaves are single flags. The
composites are:

- an all-required **group** (`GroupedOption`);
- an exactly-one-of **radio** (`RadioCliOption`);
- an **at-least-one-of** node (`AtLeastOneOfOption`).

`CliSpecification` wraps the top-level options in one required group, builds the tree
once and registers its leaves with the Apache parser. After Apache has tokenised the
arguments, the engine validates the whole tree against the options given. Only when
the whole tree is valid does it fire each given option's consumer. The consumers are
the option setters, which combine a converter, an optional validator and the user's
consumer with fixed rules for mapping errors.

The repository holds three versions of the tree engine, and this project models all
three:

- **`cli`, the current combinator tree.** The modules are `CliNodes`, `CliNodeLoops`,
  `CliNodeProps`, `CliBuilders`, `CliSpec` and `CliScenarios`.
  - The runtime nodes are the value datatype `CliNodes.Node`. Each Java query is a
    function over `Node`: `isPresent`, `getMissing`, `getSeenList`, `generateUsage`,
    `validate`, `fireConsumerIfNeeded` and `addTo`.
  - The loops the Java code runs over a node's children are methods in
    `CliNodeLoops`. Each is proved equal to its function. `addTo` appends to an
    `Options.OptionTable` object.
  - A leaf carries its Apache option, and `validate` reads that option's parser-level
    `required` flag. `addTo` overwrites that flag with the override passed down by
    the enclosing node: `false` under a radio or an at-least-one-of node, and
    `child.isRequired() && f` under a group. So what a leaf enforces depends on where
    it was registered. The model carries this state in `CliNodes.Registered`.
  - `CliScenarios` states the outcome of the command lines of the engine's own test
    suite under `CliSpec`: whether each line is accepted, which consumers are called
    and the exact message of a refusal.
- **The older `cli2` snapshot (`Cli2`).** It has the same node shapes, but its
  `validate` is different:
  - a group validates only its required children;
  - a radio only counts its choices and never validates them;
  - every failure is a `ValidationError`;
  - nodes carry no validation rules.
  The lemmas `Cli2.OptionalRadioInGroup` and `Cli2.RadioDoesNotRecurse` state these
  differences against `cli`.
- **The older visitor engine.** The modules are `VisitorOptions`, `VisitorBuilders`,
  `VisitorEngine`, `VisitorParse` and `VisitorProps`.
  - `GroupedOptionGroup.visit` and `RadioGroup.visit` are written out as the
    sequence of visitor calls they make.
  - The class `VisitorEngine.CommandLine` applies those calls to its state:
    - an Apache option table;
    - a consumer map;
    - the list of validation builders;
    - the stack of builders that `preVisit` pushes and `postVisit` pops.
  - Each method of `CommandLine` ensures that its new state is the pure `Run` of the
    old state over its calls. The properties are proved about `Run`.
  - Then `parse` validates every builder against the set of options given, and
    calls the consumers of those options.

The setters form the modules `Setters` and `Trailers`. `Setters` covers the option
setters, whose code is the same in `cli` and `cli2`. `Trailers` covers
`TrailerBuilder`, which maps errors to `CliValidationException` instead of
`ValidationError`.

The shared modules are:

- `Wrappers`: Option, Result and Outcome;
- `Text`: the string operations the engine uses, such as `Collectors.joining`,
  `split` and `trim`;
- `Context`: the parsed command line as a set of given names plus a map of values,
  together with the exceptions, consumers and validators;
- `Options`: the Apache `Option` record and its table.

Two behaviours of the code are proved and worth knowing.

- **An optional grouped group enforces nothing in the visitor engine.** A visit
  clears the parser-level flag of every leaf of an optional grouped group. Its
  builder is therefore told no required names, so it throws nothing of its own and
  returns false whenever its nested builders return (`VisitorProps.GroupOfLeaves`, `VisitorProps.OptionalGroupNeverChosen`).
  `RadioGroup`'s constructor makes every nested grouped group optional. So inside a
  radio, a grouped group never counts as a choice. For the same reason, the branch
  `missing.size() != required.size()` of `GroupedValidationBuilder.validate` is never
  the one that throws for a builder a visit has filled. An optional group's builder
  has no required names (`VisitorProps.ClearedTellsNoRequired`), and a required
  group's builder already throws on `isRequired`.
- **A radio's cardinality counts children, not leaves.** In `cli`, a radio counts
  one `getSeenList` entry per child that saw something. A group inside a radio
  therefore counts as a single choice, however many of its leaves are given
  (`CliNodeProps.SeenCounts`, `CliNodeProps.RadioRejectsTwo`).

Three details of the code that a reader might not expect:

- **Leaves have no validators.** A leaf's `validate` checks only its parser-level
  required flag. Validators are run by the specification, not by the leaves.
- **`getMissing` of a radio or an at-least-one-of node.** It reports the joined
  markers even when no child has a marker, which gives `"[  ]"`.
- **At-least-one-of usage text.** It is written with `"["` and `"]"`, without the
  inner spaces a radio's has.

The model does no I/O. The Apache parser is a parameter, `CliSpec.Parser`: a function
from the option table and the arguments to a parsed command line or a
`ParseException`. The one property of Apache's `DefaultParser` the engine relies on,
that it refuses arguments leaving out a required option, is the predicate
`CliSpec.EnforcesRequired`, which the lemmas that need it take as a precondition. `URLDecoder.decode` is the parameter `CliSpec.Decoder`.

## Model

| member | source | states |
|---|---|---|
| CliBuilders.BasicCliOption.constructor | src/main/java/gov/nih/ncats/common/cli/BasicCliOption.java:50-52 | a new option builder has only its argument name: not required, not a flag, no long name or description, and a consumer that accepts every value |
| CliBuilders.BasicCliOption.ArgName | src/main/java/gov/nih/ncats/common/cli/BasicCliOption.java:54-57 | sets the display argument name and leaves every other setting and the consumer as they were |
| CliBuilders.BasicCliOption.LongName | src/main/java/gov/nih/ncats/common/cli/BasicCliOption.java:58-61 | sets the long name and leaves every other setting and the consumer as they were |
| CliBuilders.BasicCliOption.Description | src/main/java/gov/nih/ncats/common/cli/BasicCliOption.java:62-65 | sets the description and leaves every other setting and the consumer as they were |
| CliBuilders.BasicCliOption.IsFlag | src/main/java/gov/nih/ncats/common/cli/BasicCliOption.java:66-69 | sets the flag setting and leaves every other setting and the consumer as they were |
| CliBuilders.BasicCliOption.SetRequired | src/main/java/gov/nih/ncats/common/cli/BasicCliOption.java:70-79 | sets the required setting (both `required` and `setRequired`) and leaves every other setting and the consumer as they were |
| CliBuilders.BasicCliOption.SetConverter | src/main/java/gov/nih/ncats/common/cli/BasicCliOption.java:85-115 | installs a consumer that behaves, on every value, as the converting setter (convert, validate, deliver, wrapping failures); the settings do not change |
| CliBuilders.BasicCliOption.SetValidated | src/main/java/gov/nih/ncats/common/cli/BasicCliOption.java:116-139 | installs a consumer that behaves, on every value, as the validating string setter; the settings do not change |
| CliBuilders.BasicCliOption.Setter | src/main/java/gov/nih/ncats/common/cli/BasicCliOption.java:81-83 | installs the converting setter with the identity converter and no validator; the settings do not change |
| CliBuilders.BasicCliOption.SetToFile | src/main/java/gov/nih/ncats/common/cli/BasicCliOption.java:141-145 | installs the setter that delivers a `File` of the value; the settings do not change |
| CliBuilders.BasicCliOption.SetToInt | src/main/java/gov/nih/ncats/common/cli/BasicCliOption.java:146-150 | installs the setter that delivers the value parsed as an `int`; the settings do not change |
| CliBuilders.BasicCliOption.AsApacheOption | src/main/java/gov/nih/ncats/common/cli/BasicCliOption.java:161-169 | the parser option takes an argument exactly when the option is not a flag, is parser-required exactly when the builder is required, and carries the builder's names and description |
| CliBuilders.BasicCliOption.Build | src/main/java/gov/nih/ncats/common/cli/BasicCliOption.java:172-174 | `build()` gives a leaf whose parser-level required flag equals its semantic one, with the builder's consumer |
| CliBuilders.BasicCliOption.BuildWith | src/main/java/gov/nih/ncats/common/cli/BasicCliOption.java:177-181 | `build(b)` gives a leaf whose parser-level flag is `b` while its semantic flag stays the builder's |
| CliBuilders.NewGroup | src/main/java/gov/nih/ncats/common/cli/GroupedOption.java:40-49 | a grouped option needs at least one choice, else `IllegalStateException` with the source's message; otherwise it is optional with no rules |
| CliBuilders.NewRadio | src/main/java/gov/nih/ncats/common/cli/RadioCliOption.java:36-45 | a radio needs at least two choices, else `IllegalStateException` with the source's message; otherwise it is optional with no rules |
| CliBuilders.NewAtLeastOne | src/main/java/gov/nih/ncats/common/cli/AtLeastOneOfOption.java:19-28 | an at-least-one-of option needs at least two choices, else `IllegalStateException` with the source's message; otherwise it is optional with no rules |
| CliBuilders.WithRequired | src/main/java/gov/nih/ncats/common/cli/GroupedOption.java:78-81 | `setRequired(r)` on a composite builder changes only its required flag and keeps its kind, choices and rules |
| CliBuilders.AddValidation | src/main/java/gov/nih/ncats/common/cli/GroupedOption.java:51-61 | `addValidation` on a composite builder appends the rule after the existing ones and changes nothing else |
| CliBuilders.Build | src/main/java/gov/nih/ncats/common/cli/GroupedOption.java:63-68 | `build()` keeps the kind (a leaf exactly for an option builder), gives a composite node the builder's required flag and rules and one built node per choice |
| CliBuilders.BuildWith | src/main/java/gov/nih/ncats/common/cli/GroupedOption.java:70-76 | `build(isRequired)`: a leaf takes `isRequired` only as its parser-level flag; a composite node takes it as its semantic flag and builds its choices with `build()` |
| CliBuilders.BuiltFlagsAgree | src/main/java/gov/nih/ncats/common/cli/BasicCliOption.java:172-174 | in every tree made by `build()`, every leaf's parser-level required flag equals its semantic flag |
| CliBuilders.BuiltAllFlagsAgree | src/main/java/gov/nih/ncats/common/cli/RadioCliOption.java:66-71 | the same for every tree of a built list of choices |
| CliBuilders.BuildAllAt | src/main/java/gov/nih/ncats/common/cli/RadioCliOption.java:66-71 | choice `i` of a built composite is choice `i` built |
| CliBuilders.BuildAll | src/main/java/gov/nih/ncats/common/cli/GroupedOption.java:63-68 | one built node per choice |
| CliNodes.Filter | src/main/java/gov/nih/ncats/common/cli/GroupedOption.java:98-104 | the partition into required and optional children keeps only children of the selected kind, each taken from the node's choices |
| CliNodes.AnyPresent | src/main/java/gov/nih/ncats/common/cli/GroupedOption.java:150-155 | true exactly when some child of the selected kind is present |
| CliNodes.AllPresent | src/main/java/gov/nih/ncats/common/cli/GroupedOption.java:140-148 | true exactly when every child of the selected kind is present |
| CliNodes.MissingParts | src/main/java/gov/nih/ncats/common/cli/GroupedOption.java:113-117 | the collected missing markers are empty exactly when no selected child reports anything missing |
| CliNodes.SeenParts | src/main/java/gov/nih/ncats/common/cli/RadioCliOption.java:165-175 | the seen list of a composite is empty exactly when every child's seen list is empty |
| CliNodes.UsageParts | src/main/java/gov/nih/ncats/common/cli/GroupedOption.java:164-173 | the collected forced usages are empty exactly when no selected child has a forced usage |
| CliNodes.Bracketed | src/main/java/gov/nih/ncats/common/cli/GroupedOption.java:171-173 | each optional child's usage is shown as `[ u ]`, one entry per usage |
| CliNodes.ValidateAll | src/main/java/gov/nih/ncats/common/cli/GroupedOption.java:208-213 | validating the children in order returns normally exactly when every selected child validates, and otherwise throws a `CliValidationException` |
| CliNodes.Validate | src/main/java/gov/nih/ncats/common/cli/InternalCliOption.java:36 | `validate` throws only `CliValidationException`s: a leaf's `ValidationError`, a composite's own refusals and its rules' exceptions |
| CliNodes.Fire | src/main/java/gov/nih/ncats/common/cli/BasicCliOption.java:240-252 | an exception of `fireConsumerIfNeeded` comes from a consumer it called: a firing that threw has made at least one call |
| CliNodes.FireAll | src/main/java/gov/nih/ncats/common/cli/RadioCliOption.java:177-181 | the same for a list of children |
| CliNodes.RegisterAll | src/main/java/gov/nih/ncats/common/cli/GroupedOption.java:131-134 | registering the children gives one registered child per child |
| CliNodes.Leaves | src/main/java/gov/nih/ncats/common/cli/GroupedOption.java:131-134 | the leaves of a tree, in the order `addTo` and `fireConsumerIfNeeded` visit them, are all leaf nodes |
| CliNodes.LeavesAll | src/main/java/gov/nih/ncats/common/cli/GroupedOption.java:233-235 | the leaves of a list of trees are all leaf nodes |
| CliNodes.LeafOptions | src/main/java/gov/nih/ncats/common/cli/BasicCliOption.java:212-217 | the options a list of leaves adds to the table are their own parser options, in order |
| CliNodeProps.LeafMissing | src/main/java/gov/nih/ncats/common/cli/BasicCliOption.java:220-225 | a leaf reports nothing missing exactly when it is given, and otherwise reports `-opt` |
| CliNodeProps.LeafValidate | src/main/java/gov/nih/ncats/common/cli/BasicCliOption.java:233-237 | a leaf fails exactly when its parser-level flag is set and it is absent, with `ValidationError("<opt> is required")`; its semantic flag plays no part |
| CliNodeProps.LeafSeenAndFire | src/main/java/gov/nih/ncats/common/cli/BasicCliOption.java:240-252 | a leaf's seen list is its name exactly when it is given; firing calls its consumer once with the option's value exactly when it is given, and fails exactly when that call fails |
| CliNodeProps.LeafUsage | src/main/java/gov/nih/ncats/common/cli/BasicCliOption.java:199-204 | a leaf's usage is empty exactly when neither forced nor required; otherwise `-opt`, then ` <argName>` exactly when it has an argument name |
| CliNodeProps.LeafRegistration | src/main/java/gov/nih/ncats/common/cli/BasicCliOption.java:212-217 | registering a leaf sets its parser-level flag to the override when there is one, keeps it otherwise, changes nothing else and adds exactly that option to the table |
| CliNodeProps.PartitionCovers | src/main/java/gov/nih/ncats/common/cli/GroupedOption.java:98-104 | the partition puts every child into exactly one of the two lists (a permutation split) |
| CliNodeProps.GroupPresence | src/main/java/gov/nih/ncats/common/cli/GroupedOption.java:138-157 | a group with required children is present exactly when all of them are; a group without any is present exactly when some optional child is |
| CliNodeProps.OneOfPresence | src/main/java/gov/nih/ncats/common/cli/RadioCliOption.java:139-146 | a radio or at-least-one node is present exactly when some child is |
| CliNodeProps.SeenIffLeafPresent | src/main/java/gov/nih/ncats/common/cli/RadioCliOption.java:165-175 | a node's seen list is non-empty exactly when some leaf below it is given |
| CliNodeProps.SeenPartsIffLeafPresent | src/main/java/gov/nih/ncats/common/cli/GroupedOption.java:221-230 | a composite's seen list is non-empty exactly when some leaf below one of its children is given |
| CliNodeProps.SeenPartsAtMostOne | src/main/java/gov/nih/ncats/common/cli/RadioCliOption.java:150-153 | the radio's seen list has at most one entry exactly when at most one child saw an option |
| CliNodeProps.MissingIffAbsent | src/main/java/gov/nih/ncats/common/cli/RadioCliOption.java:122-131 | in a tree whose every group has a required child, a node reports nothing missing exactly when it is present |
| CliNodeProps.OptionalGroupNeverMissing | src/main/java/gov/nih/ncats/common/cli/GroupedOption.java:113-123 | a group without required children never reports anything missing |
| CliNodeProps.GroupMissing | src/main/java/gov/nih/ncats/common/cli/GroupedOption.java:113-123 | a group reports nothing missing exactly when no required child does; otherwise the markers joined by " " inside "( " and " )" |
| CliNodeProps.OneOfMissing | src/main/java/gov/nih/ncats/common/cli/RadioCliOption.java:122-131 | a radio or at-least-one node reports nothing missing exactly when present; otherwise the children's markers joined by " \| " inside "[ " and " ]" |
| CliNodeProps.ValidatePassIffSound | src/main/java/gov/nih/ncats/common/cli/GroupedOption.java:196-217 | `validate` returns normally exactly when the command line satisfies the tree, as defined independently by `Sound` (required groups complete, radios with at most one and, when required, exactly one choice, required at-least-one nodes with some choice, every rule holding) |
| CliNodeProps.GroupPassIffSound | src/main/java/gov/nih/ncats/common/cli/GroupedOption.java:196-217 | the same for a group node |
| CliNodeProps.SeenCounts | src/main/java/gov/nih/ncats/common/cli/RadioCliOption.java:150-156 | the radio's two seen-list checks restated over the children that have an option given below them |
| CliNodeProps.RadioPassIffSound | src/main/java/gov/nih/ncats/common/cli/RadioCliOption.java:149-163 | the same for a radio node |
| CliNodeProps.AtLeastOnePassIffSound | src/main/java/gov/nih/ncats/common/cli/AtLeastOneOfOption.java:132-144 | the same for an at-least-one node |
| CliNodeProps.ChildrenPassIffSound | src/main/java/gov/nih/ncats/common/cli/GroupedOption.java:208-213 | validating the children (a group's required ones first, then its optional ones) passes exactly when every child is satisfied |
| CliNodeProps.RadioRejectsTwo | src/main/java/gov/nih/ncats/common/cli/RadioCliOption.java:150-153 | a radio with options given under two of its children fails with the "must only select at most 1 choice" message, whatever its flag |
| CliNodeProps.RequiredOneOfRejectsNone | src/main/java/gov/nih/ncats/common/cli/RadioCliOption.java:154-156 | a required radio or at-least-one node with nothing given under any child fails with the source's "was required" message |
| CliNodeProps.AtLeastOneNoUpperBound | src/main/java/gov/nih/ncats/common/cli/AtLeastOneOfOption.java:132-144 | an at-least-one node has no upper bound: once its own check passes only its children and rules decide |
| CliNodeProps.GroupRejectsMissing | src/main/java/gov/nih/ncats/common/cli/GroupedOption.java:197-206 | a required group lacking a required child fails with "required group was not found require ( ... )" before any child is validated |
| CliNodeProps.UsageNonEmpty | src/main/java/gov/nih/ncats/common/cli/GroupedOption.java:160-188 | a usage text, when there is one, is never empty |
| CliNodeProps.UsagePartsNonEmpty | src/main/java/gov/nih/ncats/common/cli/RadioCliOption.java:104-107 | no collected child usage is empty |
| CliNodeProps.GroupUsage | src/main/java/gov/nih/ncats/common/cli/GroupedOption.java:160-188 | a forced or required group's usage is empty exactly when no child has a forced usage, and is otherwise `(req )`, `(opt )` or `(req opt )`, with optional usages bracketed and each part joined by " , " |
| CliNodeProps.OneOfUsage | src/main/java/gov/nih/ncats/common/cli/RadioCliOption.java:100-112 | a radio's usage is empty unless forced or required and some child has a forced usage; otherwise the usages joined by " \| " inside "[ " and " ]" (inside "[" and "]" for an at-least-one node) |
| CliNodeProps.PresentCallsAppend | src/main/java/gov/nih/ncats/common/cli/GroupedOption.java:232-236 | the expected calls of two lists of leaves are the expected calls of each, concatenated |
| CliNodeProps.FireTrace | src/main/java/gov/nih/ncats/common/cli/GroupedOption.java:232-236 | firing calls the given leaves' consumers in tree order: the calls are a prefix of that order, all of it when nothing throws, and nothing throws when every consumer accepts its value |
| CliNodeProps.FireAllTrace | src/main/java/gov/nih/ncats/common/cli/RadioCliOption.java:177-181 | the same for a list of children |
| CliNodeProps.RegisterAllAt | src/main/java/gov/nih/ncats/common/cli/GroupedOption.java:131-134 | child `i` is registered with the override `child.isRequired && force` |
| CliNodeProps.RegisteredKeepsQueries | src/main/java/gov/nih/ncats/common/cli/GroupedOption.java:126-135 | registration changes only parser-level flags: the semantic flag, presence, missing markers, seen list, usage and firing are unchanged |
| CliNodeProps.CompositeKeepsQueries | src/main/java/gov/nih/ncats/common/cli/RadioCliOption.java:115-119 | a composite whose children give the same answers as before gives the same answers itself |
| CliNodeProps.RegisterAllKeepsQueries | src/main/java/gov/nih/ncats/common/cli/GroupedOption.java:131-134 | registering a list of children keeps every query about the list |
| CliNodeProps.RelabelsAppend | src/main/java/gov/nih/ncats/common/cli/GroupedOption.java:131-134 | relabelling two lists of leaves relabels their concatenation |
| CliNodeProps.AllClearedAppend | src/main/java/gov/nih/ncats/common/cli/RadioCliOption.java:115-119 | two lists of leaves not parser-required concatenate to one |
| CliNodeProps.LeavesRegistered | src/main/java/gov/nih/ncats/common/cli/RadioCliOption.java:115-119 | registration keeps the leaves and their order and touches only their parser-level flags; with override `false`, and always below a radio or an at-least-one node, no leaf ends up parser-required |
| CliNodeProps.LeavesRegisterAll | src/main/java/gov/nih/ncats/common/cli/GroupedOption.java:131-134 | the same for a list of children registered with a flag; with flag `false` no leaf is parser-required |
| CliNodeProps.TableRegistered | src/main/java/gov/nih/ncats/common/cli/RadioCliOption.java:115-119 | `addTo` adds the same options in the same order with only the required flag changed; override `false`, and any radio or at-least-one node, adds nothing parser-required |
| CliNodeLoops.FilterSelected | src/main/java/gov/nih/ncats/common/cli/GroupedOption.java:98-104 | some child is of the selected kind exactly when the partition's list for that kind is non-empty |
| CliNodeLoops.FilterPresence | src/main/java/gov/nih/ncats/common/cli/GroupedOption.java:140-155 | presence over the selected children equals presence over the partition's list |
| CliNodeLoops.FilterMissing | src/main/java/gov/nih/ncats/common/cli/GroupedOption.java:113-117 | the missing markers of the selected children are those of the partition's list |
| CliNodeLoops.FilterUsage | src/main/java/gov/nih/ncats/common/cli/GroupedOption.java:164-173 | the usages of the selected children are those of the partition's list |
| CliNodeLoops.FilterValidate | src/main/java/gov/nih/ncats/common/cli/GroupedOption.java:208-213 | validating the selected children is validating the partition's list |
| CliNodeLoops.FirstBrokenUnique | src/main/java/gov/nih/ncats/common/cli/GroupedOption.java:214-216 | at most one rule is the first rule broken |
| CliNodeLoops.ValidateAllStops | src/main/java/gov/nih/ncats/common/cli/RadioCliOption.java:157-159 | once a prefix of the children has thrown, validating them all throws the same exception |
| CliNodeLoops.FireAllStops | src/main/java/gov/nih/ncats/common/cli/RadioCliOption.java:177-181 | once firing a prefix of the children has thrown, firing them all ends the same way |
| CliNodeLoops.PartitionChoices | src/main/java/gov/nih/ncats/common/cli/GroupedOption.java:92-105 | the constructor's loop sends each child to the required or the optional list by its flag, keeping order: the two lists are the filters of the choices, which `PartitionCovers` shows split the choices |
| CliNodeLoops.IsPresentM | src/main/java/gov/nih/ncats/common/cli/RadioCliOption.java:139-146 | `isPresent` on any node computes exactly `IsPresent`, whose meaning `GroupPresence` and `OneOfPresence` state |
| CliNodeLoops.GroupPresentM | src/main/java/gov/nih/ncats/common/cli/GroupedOption.java:138-157 | the group's two loops compute exactly `IsPresent` |
| CliNodeLoops.CountPresentM | src/main/java/gov/nih/ncats/common/cli/GroupedOption.java:139-148 | the counting loop returns the number of required children only when all of them are present, and never more |
| CliNodeLoops.AnyPresentM | src/main/java/gov/nih/ncats/common/cli/GroupedOption.java:150-155 | the loop returns true exactly when some child of the list is present |
| CliNodeLoops.AnyChoicePresentM | src/main/java/gov/nih/ncats/common/cli/AtLeastOneOfOption.java:122-129 | the radio's and the at-least-one node's loop compute exactly `IsPresent` |
| CliNodeLoops.MissingPartsM | src/main/java/gov/nih/ncats/common/cli/RadioCliOption.java:126-129 | the loop collects exactly the children's missing markers, in order |
| CliNodeLoops.GetMissingM | src/main/java/gov/nih/ncats/common/cli/GroupedOption.java:113-123 | `getMissing` computes exactly `GetMissing`, whose meaning `GroupMissing`, `OneOfMissing` and `MissingIffAbsent` state |
| CliNodeLoops.SeenListM | src/main/java/gov/nih/ncats/common/cli/GroupedOption.java:221-230 | `getSeenList` computes exactly `SeenList`, non-empty exactly when some leaf below is given |
| CliNodeLoops.UsagePartsM | src/main/java/gov/nih/ncats/common/cli/GroupedOption.java:164-173 | the loop collects exactly the children's forced usages, bracketed when asked |
| CliNodeLoops.GenerateUsageM | src/main/java/gov/nih/ncats/common/cli/GroupedOption.java:160-188 | `generateUsage(force)` computes exactly `GenerateUsage`, whose shape `GroupUsage`, `OneOfUsage` and `LeafUsage` state |
| CliNodeLoops.RunValidatorsM | src/main/java/gov/nih/ncats/common/cli/GroupedOption.java:214-216 | the rule loop computes exactly `RunValidators`: the first broken rule's exception, or a normal return |
| CliNodeLoops.ValidateChildrenM | src/main/java/gov/nih/ncats/common/cli/RadioCliOption.java:157-159 | the child loop computes exactly the in-order, stop-at-first validation of the list |
| CliNodeLoops.ValidateM | src/main/java/gov/nih/ncats/common/cli/GroupedOption.java:196-217 | `validate` computes exactly `Validate`, which passes exactly when the command line satisfies the tree (`ValidatePassIffSound`) |
| CliNodeLoops.FireM | src/main/java/gov/nih/ncats/common/cli/RadioCliOption.java:177-181 | `fireConsumerIfNeeded` computes exactly `Fire`: calls in tree order, stopped by the first exception (`FireTrace`) |
| CliNodeLoops.AddTo | src/main/java/gov/nih/ncats/common/cli/GroupedOption.java:126-135 | `addTo` appends to the option table exactly the options of the registered tree, in order, after what was already there |
| CliNodeLoops.AddAll | src/main/java/gov/nih/ncats/common/cli/GroupedOption.java:131-134 | the composite's loop adds each child with override `child.isRequired && force` and appends their leaves' options in order |
| Text.JoinCons | src/main/java/gov/nih/ncats/common/cli/GroupedOption.java:122 | `Collectors.joining`: the separator goes between the first part and the join of the rest |
| Text.JoinEmptyIffNoParts | src/main/java/gov/nih/ncats/common/cli/GroupedOption.java:168-177 | when no part is empty, the joined string is empty exactly when there are no parts (the test `requiredGroup.isEmpty()` means "no required usage") |
| Text.IndexOf | src/main/java/gov/nih/ncats/common/cli/CliSpecification.java:72 | `indexOf('=')` is -1 exactly when the character does not occur, and otherwise the first index holding it |
| Text.SplitAll | src/main/java/gov/nih/ncats/common/cli/CliSpecification.java:69 | the pieces between occurrences of the separator: at least one, none containing it |
| Text.DropTrailingEmpty | src/main/java/gov/nih/ncats/common/cli/CommandLine.java:81 | removes exactly the trailing empty strings and leaves a prefix of the input |
| Text.Split | src/main/java/gov/nih/ncats/common/cli/CommandLine.java:81 | `String.split` on one ordinary character: the whole string when it does not occur, otherwise the pieces without the trailing empty ones |
| Text.SplitAllJoin | src/main/java/gov/nih/ncats/common/cli/CliSpecification.java:69 | joining the pieces with the separator gives back the original string |
| Text.TrimStart | src/main/java/gov/nih/ncats/common/cli/CommandLine.java:113-115 | removes exactly the leading run of characters up to ' ': what is left is a suffix that does not start with one, and every character removed is one |
| Text.TrimEnd | src/main/java/gov/nih/ncats/common/cli/CommandLine.java:113-115 | removes exactly the trailing run of characters up to ' ': what is left is a prefix that does not end with one, and every character removed is one |
| Text.Trim | src/main/java/gov/nih/ncats/common/cli/CommandLine.java:113-115 | `trim()` is a substring of the input that neither starts nor ends with a character up to ' ', and everything outside it is such a character |
| Text.TrimUnique | src/main/java/gov/nih/ncats/common/cli/CommandLine.java:113-115 | `trim()` is determined by those properties: any substring that is clean at both ends and has only such characters outside it is the trimmed string |
| Text.TrimKeepsClean | src/main/java/gov/nih/ncats/common/cli/CommandLine.java:113-115 | trimming is the identity on a string that is already clean, so trimming twice is trimming once |
| Context.OptionValue | src/main/java/gov/nih/ncats/common/cli/Cli.java:44-46 | `getOptionValue` is null exactly when the option has no value, and otherwise that value |
| Context.ToString | src/main/java/gov/nih/ncats/common/cli/CliValidationException.java:31-33 | `t.toString()` is the class name when `t` has no message, and otherwise the class name, `": "` and the message |
| Context.WrapKeepMessage | src/main/java/gov/nih/ncats/common/cli/CliValidationException.java:35-37 | `new K(t.getMessage(), t)` is a validation exception of kind K caused by `t` with `t`'s message |
| Context.WrapCause | src/main/java/gov/nih/ncats/common/cli/CliValidationException.java:31-33 | `new K(t)` is a validation exception of kind K caused by `t` whose message is `t.toString()` |
| Context.NoOp | src/main/java/gov/nih/ncats/common/cli/BasicCliOption.java:46 | the default consumer accepts every value |
| Context.RunValidators | src/main/java/gov/nih/ncats/common/cli/GroupedOption.java:214-216 | the rules run in insertion order: a normal return exactly when every rule holds, and otherwise the first rule that does not hold throws a `CliValidationException` with its message |
| Options.OptionTable.constructor | src/main/java/gov/nih/ncats/common/cli/CommandLine.java:38 | a new option table is empty |
| Options.OptionTable.AddOption | src/main/java/gov/nih/ncats/common/cli/BasicCliOption.java:216 | `addOption` appends the option after those already there |
| Setters.DigitValue | src/main/java/gov/nih/ncats/common/cli/BasicCliOption.java:148 | a decimal digit's value is below ten |
| Setters.Digit | src/main/java/gov/nih/ncats/common/cli/BasicCliOption.java:148 | the digit of a value below ten reads back as that value |
| Setters.ParseInt | src/main/java/gov/nih/ncats/common/cli/BasicCliOption.java:148 | `Integer.parseInt` succeeds exactly on a decimal numeral (optional sign) within the 32-bit range, with that value; otherwise it throws `NumberFormatException` |
| Setters.NatToString | src/main/java/gov/nih/ncats/common/cli/BasicCliOption.java:148 | printing a natural number gives a non-empty string of digits |
| Setters.NatToStringValue | src/main/java/gov/nih/ncats/common/cli/BasicCliOption.java:148 | the printed digits read back as the number |
| Setters.ParseIntReadsBack | src/main/java/gov/nih/ncats/common/cli/BasicCliOption.java:146-150 | parsing reads back every 32-bit integer printed in decimal (round trip) |
| Setters.NewFile | src/main/java/gov/nih/ncats/common/cli/BasicCliOption.java:143 | `new File(s)` throws on a null path and otherwise keeps the path |
| Setters.Identity | src/main/java/gov/nih/ncats/common/cli/BasicCliOption.java:82 | the identity converter hands every value on unchanged |
| Setters.ConvertingSetter | src/main/java/gov/nih/ncats/common/cli/BasicCliOption.java:85-115 | the converting setter delivers the converted value exactly when conversion succeeds and the validator, if any, accepts it; it returns normally exactly when the consumer then accepts; every failure is a `ValidationError` |
| Setters.StringSetter | src/main/java/gov/nih/ncats/common/cli/BasicCliOption.java:116-139 | the string setter delivers the raw value exactly when there is no validator or it accepts the value |
| Setters.StringSetterIsIdentitySetter | src/main/java/gov/nih/ncats/common/cli/BasicCliOption.java:116-139 | the string setter behaves exactly as the converting setter with the identity converter |
| Setters.PlainSetter | src/main/java/gov/nih/ncats/common/cli/BasicCliOption.java:81-83 | `setter(Consumer<String>)` is the converting setter with the identity converter and no validator |
| Setters.RejectedNeverDelivered | src/main/java/gov/nih/ncats/common/cli/BasicCliOption.java:103-111 | a value the validator rejects never reaches the consumer and fails with "setter did not pass validation test" |
| Setters.ConverterFailureWrapped | src/main/java/gov/nih/ncats/common/cli/BasicCliOption.java:87-102 | a converter exception becomes the cause of a `ValidationError`: with a validator its message is the cause's `toString()`, without one the cause's own message |
| Setters.ConsumerFailureWrapped | src/main/java/gov/nih/ncats/common/cli/BasicCliOption.java:104-108 | an exception of the consumer is wrapped once more in a `ValidationError` keeping its message, even when it already was one |
| Setters.FileSetter | src/main/java/gov/nih/ncats/common/cli/BasicCliOption.java:141-145 | `setToFile` delivers a file of the value exactly when it is not null; the exceptions of `new File` and of the consumer pass through unwrapped |
| Setters.IntSetter | src/main/java/gov/nih/ncats/common/cli/BasicCliOption.java:146-150 | `setToInt` delivers the parsed value exactly when it parses as a 32-bit integer; parse and consumer exceptions pass through unwrapped |
| Setters.IntSetterDeliversPrinted | src/main/java/gov/nih/ncats/common/cli/BasicCliOption.java:146-150 | the int setter hands over exactly the integer that was printed |
| Setters.Installed | src/main/java/gov/nih/ncats/common/cli/BasicCliOption.java:46 | an installed consumer's outcome on every value is the setter's outcome |
| Trailers.Rethrow | src/main/java/gov/nih/ncats/common/cli/TrailerBuilder.java:32-36 | a `CliValidationException` is rethrown as it is; anything else is wrapped keeping its message |
| Trailers.TrailerSetter | src/main/java/gov/nih/ncats/common/cli/TrailerBuilder.java:70-110 | the trailer's converting setter delivers and succeeds on the same inputs as the option's, and every failure is a `CliValidationException` |
| Trailers.TrailerSetterKeepsValidation | src/main/java/gov/nih/ncats/common/cli/TrailerBuilder.java:76-102 | a validation exception thrown by the converter or by the consumer comes out unchanged |
| Trailers.TrailerSetterWrapsOthers | src/main/java/gov/nih/ncats/common/cli/TrailerBuilder.java:76-102 | any other exception becomes the cause of a new `CliValidationException` |
| Trailers.TrailerAndOptionSettersAgree | src/main/java/gov/nih/ncats/common/cli/TrailerBuilder.java:70-110 | the trailer setter and the option setter hand the same values to the consumer and succeed on the same inputs; only their exceptions differ |
| Trailers.TrailerFileSetter | src/main/java/gov/nih/ncats/common/cli/TrailerBuilder.java:27-40 | `setToFile` delivers a file exactly when the value is not null; exceptions are rethrown or wrapped keeping their message |
| Trailers.TrailerIntSetter | src/main/java/gov/nih/ncats/common/cli/TrailerBuilder.java:116-126 | `setToInt(consumer)` delivers the parsed value exactly when it parses and succeeds exactly when the consumer then accepts |
| Trailers.TrailerIntSetterAlwaysWraps | src/main/java/gov/nih/ncats/common/cli/TrailerBuilder.java:118-123 | even a validation exception of the consumer is wrapped as a cause, so it never comes out as thrown |
| Trailers.TrailerCheckedIntSetter | src/main/java/gov/nih/ncats/common/cli/TrailerBuilder.java:42-68 | `setToInt(consumer, validator)` delivers exactly when the value parses and the validator, if any, accepts it |
| Trailers.NullIntValidatorIsPlain | src/main/java/gov/nih/ncats/common/cli/TrailerBuilder.java:43-45 | a null validator installs exactly what `setToInt(consumer)` does |
| Trailers.CheckedIntErrors | src/main/java/gov/nih/ncats/common/cli/TrailerBuilder.java:49-65 | with a validator, a value that is not an int fails with "error parsing int value" caused by the parse exception, and a rejected int fails with "setter did not pass validation test" |
| Trailers.TrailerBuilder.constructor | src/main/java/gov/nih/ncats/common/cli/TrailerBuilder.java:14-17 | a new trailer builder has no name or description and a consumer that accepts everything |
| Trailers.TrailerBuilder.Build | src/main/java/gov/nih/ncats/common/cli/TrailerBuilder.java:19-21 | `build()` gives a trailer with the current name, description and consumer |
| Trailers.TrailerBuilder.SetConverter | src/main/java/gov/nih/ncats/common/cli/TrailerBuilder.java:70-110 | installs the trailer converting setter; name and description unchanged |
| Trailers.TrailerBuilder.Setter | src/main/java/gov/nih/ncats/common/cli/TrailerBuilder.java:23-25 | installs the converting setter with the identity converter and no validator |
| Trailers.TrailerBuilder.SetValidated | src/main/java/gov/nih/ncats/common/cli/TrailerBuilder.java:112-114 | installs the converting setter with the identity converter and the validator |
| Trailers.TrailerBuilder.SetToFile | src/main/java/gov/nih/ncats/common/cli/TrailerBuilder.java:27-40 | installs the trailer file setter |
| Trailers.TrailerBuilder.SetToInt | src/main/java/gov/nih/ncats/common/cli/TrailerBuilder.java:116-126 | installs the trailer int setter |
| Trailers.TrailerBuilder.SetToIntChecked | src/main/java/gov/nih/ncats/common/cli/TrailerBuilder.java:42-68 | installs the checked int setter, or the plain one for a null validator |
| CliSpec.Create | src/main/java/gov/nih/ncats/common/cli/CliSpecification.java:38-41 | `create(options...)` makes the options the choices of a required group with no rules; no options at all is the group constructor's `IllegalStateException` |
| CliSpec.Parsed | src/main/java/gov/nih/ncats/common/cli/CliSpecification.java:84-100 | a parser exception becomes the cause of a `ValidationError` and nothing runs; a command line that does not satisfy the tree is refused before any consumer is called; consumers run only after validation passed, in tree order; the call returns the `Cli` exactly when parser, validation and every consumer succeed, and then every given leaf's consumer was called |
| CliSpec.MissingRequiredRefusedByParser | src/main/java/gov/nih/ncats/common/cli/CliSpecification.java:85-93 | when the arguments leave out an option the table marks required, a parser that enforces required options (as Apache's `DefaultParser` does) fails, and `parse` rethrows its exception as the cause of a `CliValidationException` and calls no consumer |
| CliSpec.PieceArgs | src/main/java/gov/nih/ncats/common/cli/CliSpecification.java:72-78 | a decoded piece yields two arguments when it has an `=` after its first character and one otherwise, the first always a flag starting with `-` |
| CliSpec.PiecesArgs | src/main/java/gov/nih/ncats/common/cli/CliSpecification.java:71-79 | the loop over the pieces succeeds exactly when every piece decodes, and its exception is that of one of the pieces |
| CliSpec.QueryArgs | src/main/java/gov/nih/ncats/common/cli/CliSpecification.java:66-81 | a URL without a query makes `split` throw `NullPointerException`; otherwise the argument list is built exactly when every `&`-separated piece decodes |
| CliSpec.PiecesArgsStops | src/main/java/gov/nih/ncats/common/cli/CliSpecification.java:71-79 | once a piece of the query fails to decode, so does the whole loop, with the same exception |
| CliSpec.QueryArgsM | src/main/java/gov/nih/ncats/common/cli/CliSpecification.java:66-81 | the loop of `parse(URL)` builds exactly the argument list `QueryArgs` defines (`QueryOfPairs` states what that is) |
| CliSpec.PiecesArgsM | src/main/java/gov/nih/ncats/common/cli/CliSpecification.java:70-80 | the loop over the `&`-separated pieces appends exactly the arguments `PiecesArgs` defines, and stops at the first piece that fails to decode |
| CliSpec.PairPieces | src/main/java/gov/nih/ncats/common/cli/CliSpecification.java:69 | the pieces of a query of pairs are `key=value`, one per pair |
| CliSpec.IndexOfAfter | src/main/java/gov/nih/ncats/common/cli/CliSpecification.java:72 | in `key=value` with no `=` in the key, `indexOf('=')` is the key's length |
| CliSpec.SplitAllOfJoin | src/main/java/gov/nih/ncats/common/cli/CliSpecification.java:69 | splitting pieces joined with a separator they do not hold gives the pieces back |
| CliSpec.PairPiecesArgs | src/main/java/gov/nih/ncats/common/cli/CliSpecification.java:71-79 | the loop turns the pieces of a query of pairs into `-key value` for each pair, decoded, in order |
| CliSpec.QueryOfPairs | src/main/java/gov/nih/ncats/common/cli/CliSpecification.java:66-81 | `parse(URL)` reads back a query of key/value pairs: its arguments are `-key value` for each pair, decoded, in the query's order (round trip) |
| CliSpec.FlagPiece | src/main/java/gov/nih/ncats/common/cli/CliSpecification.java:76-78 | a piece without `=` after its first character becomes the flag `-piece` |
| CliSpec.ObjectsAllocated | src/main/java/gov/nih/ncats/common/cli/CliSpecification.java:57-65 | the option builders of a builder tree already exist when a specification is made |
| CliSpec.ObjectsAllAllocated | src/main/java/gov/nih/ncats/common/cli/CliSpecification.java:57-65 | the same for a list of builder trees |
| CliSpec.CliSpecification.constructor | src/main/java/gov/nih/ncats/common/cli/CliSpecification.java:57-65 | the specification's tree is `options.build()` registered with override `null`, and its option table is new and holds exactly that tree's options |
| CliSpec.CliSpecification.Parse | src/main/java/gov/nih/ncats/common/cli/CliSpecification.java:84-100 | `parse(args)` returns and calls exactly what `Parsed` says for what the parser makes of the arguments over the specification's option table |
| CliSpec.CliSpecification.ParseUrl | src/main/java/gov/nih/ncats/common/cli/CliSpecification.java:66-83 | `parse(URL)` throws the decoding exception, calling nothing, when the query does not decode, and otherwise is `parse` of the query's arguments |
| Cli2.ValidateAll2 | src/main/java/gov/nih/ncats/common/cli2/GroupedOption.java:149-151 | validating the children in order returns normally exactly when every selected child validates |
| Cli2.Validate2Fails | src/main/java/gov/nih/ncats/common/cli2/GroupedOption.java:136-152 | every exception of `cli2`'s `validate` is a `ValidationError` |
| Cli2.Validate2AllFails | src/main/java/gov/nih/ncats/common/cli2/GroupedOption.java:149-151 | the same for a list of children |
| Cli2.Validate2PassIffSound2 | src/main/java/gov/nih/ncats/common/cli2/GroupedOption.java:136-152 | `cli2`'s `validate` returns normally exactly when the command line satisfies `Sound2`: required groups complete over their required children only, radios with at most one and, when required, exactly one choice, not looking below it |
| Cli2.SoundImpliesSound2 | src/main/java/gov/nih/ncats/common/cli2/RadioCliOption.java:108-119 | everything the older tree accepts the `cli2` tree accepts too |
| Cli2.CliPassImpliesCli2Pass | src/main/java/gov/nih/ncats/common/cli2/RadioCliOption.java:108-119 | when the older `validate` returns normally, so does `cli2`'s |
| Cli2.OptionalRadioInGroup | src/main/java/gov/nih/ncats/common/cli2/GroupedOption.java:149-151 | the converse fails: in a required group, an optional radio with both choices given is refused by the older code and accepted by `cli2`, which never validates optional children |
| Cli2.RadioDoesNotRecurse | src/main/java/gov/nih/ncats/common/cli2/RadioCliOption.java:108-119 | a `cli2` radio does not validate its chosen choice: a chosen group lacking a required option is refused by the older code and accepted by `cli2` |
| Cli2.FilterValidate2 | src/main/java/gov/nih/ncats/common/cli2/GroupedOption.java:149-151 | validating the selected children is validating the partition's list |
| Cli2.ValidateAll2Stops | src/main/java/gov/nih/ncats/common/cli2/GroupedOption.java:149-151 | once a prefix of the children has thrown, validating them all throws the same |
| Cli2.ValidateChildren2M | src/main/java/gov/nih/ncats/common/cli2/GroupedOption.java:149-151 | the loop over `requiredOptions` computes exactly the in-order, stop-at-first validation |
| Cli2.Validate2M | src/main/java/gov/nih/ncats/common/cli2/GroupedOption.java:136-152 | `validate` computes exactly `Validate2`, which passes exactly when `Sound2` holds |
| Cli2.Cli2Option.constructor | src/main/java/gov/nih/ncats/common/cli2/BasicCliOption.java:49 | a new `cli2` option builder is not required, not a flag, with no description and a consumer that accepts everything |
| Cli2.Cli2Option.Description | src/main/java/gov/nih/ncats/common/cli2/BasicCliOption.java:53 | sets the description, nothing else |
| Cli2.Cli2Option.IsFlag | src/main/java/gov/nih/ncats/common/cli2/BasicCliOption.java:57 | sets the flag setting, nothing else |
| Cli2.Cli2Option.SetRequired | src/main/java/gov/nih/ncats/common/cli2/BasicCliOption.java:61-67 | sets the required setting, nothing else |
| Cli2.Cli2Option.SetValidated | src/main/java/gov/nih/ncats/common/cli2/BasicCliOption.java:72-99 | installs the validating string setter; the settings do not change |
| Cli2.Cli2Option.Setter | src/main/java/gov/nih/ncats/common/cli2/BasicCliOption.java:72-99 | installs the string setter without validator |
| Cli2.Cli2Option.SetToFile | src/main/java/gov/nih/ncats/common/cli2/BasicCliOption.java:100 | installs the file setter, whose exceptions pass through unwrapped |
| Cli2.Cli2Option.SetToInt | src/main/java/gov/nih/ncats/common/cli2/BasicCliOption.java:105 | installs the int setter, whose exceptions pass through unwrapped |
| Cli2.Cli2Option.AsApacheOption | src/main/java/gov/nih/ncats/common/cli2/BasicCliOption.java:120-127 | the argument name is both short and long name, the option has no argument name of its own, takes an argument unless a flag and is parser-required when required |
| Cli2.Cli2Option.Build | src/main/java/gov/nih/ncats/common/cli2/BasicCliOption.java:130-139 | `build()` gives a leaf whose parser-level and semantic flags agree |
| Cli2.Cli2Option.BuildWith | src/main/java/gov/nih/ncats/common/cli2/BasicCliOption.java:130-139 | `build(b)` sets only the parser-level flag to `b` |
| Cli2.NewGroup2 | src/main/java/gov/nih/ncats/common/cli2/GroupedOption.java:38-43 | a `cli2` group needs at least one choice, else `IllegalStateException`; otherwise it is optional |
| Cli2.NewRadio2 | src/main/java/gov/nih/ncats/common/cli2/RadioCliOption.java:35-41 | a `cli2` radio needs at least two choices, else `IllegalStateException`; otherwise it is optional |
| Cli2.WithRequired2 | src/main/java/gov/nih/ncats/common/cli2/GroupedOption.java:56-60 | `setRequired` changes only the required flag |
| Cli2.Build2 | src/main/java/gov/nih/ncats/common/cli2/GroupedOption.java:45-48 | `build()` keeps the kind and the required flag, builds one node per choice, has no rules, and gives a `cli2` tree whose leaves' flags agree |
| Cli2.BuildAll2 | src/main/java/gov/nih/ncats/common/cli2/RadioCliOption.java:49-52 | the built choices are each choice built, in order |
| Cli2.BuildWith2 | src/main/java/gov/nih/ncats/common/cli2/GroupedOption.java:50-54 | `build(isRequired)`: a leaf takes it as its parser-level flag, a composite as its semantic flag |
| VisitorOptions.AsApacheOption | src/main/java/gov/nih/ncats/common/cli/Option.java:99-106 | the argument name is both short and long name, the option has no argument name of its own, is parser-required exactly when required, and takes an argument unless it is a flag |
| VisitorOptions.SetIsRequired | src/main/java/gov/nih/ncats/common/cli/GroupedOptionGroup.java:79-81 | `setIsRequired(b)` changes only the group's required flag, keeping its kind, leaves and nested groups |
| VisitorOptions.LeafItems | src/main/java/gov/nih/ncats/common/cli/GroupedOptionGroup.java:48-55 | the leaf options among the children, never more than the children |
| VisitorOptions.GroupItems | src/main/java/gov/nih/ncats/common/cli/GroupedOptionGroup.java:48-55 | the nested groups among the children, never more than the children |
| VisitorOptions.Partition | src/main/java/gov/nih/ncats/common/cli/GroupedOptionGroup.java:48-55 | every child lands in exactly one of the two lists, and each list holds exactly the children of its kind |
| VisitorOptions.Cleared | src/main/java/gov/nih/ncats/common/cli/RadioGroup.java:50-54 | each nested group of a radio with its required flag cleared, in order |
| VisitorOptions.Children | src/main/java/gov/nih/ncats/common/cli/GroupedOptionGroup.java:49 | `Objects.requireNonNull` fails exactly when some child is null; otherwise the children in order |
| VisitorOptions.NewGrouped | src/main/java/gov/nih/ncats/common/cli/GroupedOptionGroup.java:44-56 | a null child throws `NullPointerException`; otherwise the leaves and the nested groups, each in order |
| VisitorOptions.NewRadio | src/main/java/gov/nih/ncats/common/cli/RadioGroup.java:44-59 | as for a group, and every nested group has its required flag cleared |
| VisitorOptions.RadioClearsSubgroups | src/main/java/gov/nih/ncats/common/cli/RadioGroup.java:50-54 | no nested group of a radio is required, whatever it was built as |
| VisitorOptions.NewGroupM | src/main/java/gov/nih/ncats/common/cli/RadioGroup.java:44-59 | the constructor loops of both group classes compute exactly the values above, including the null-child error |
| VisitorOptions.RequiredGroup | src/main/java/gov/nih/ncats/common/cli/GroupedOptionGroup.java:36-38 | `requiredGroup` fails exactly on a null child and otherwise is a required grouped group of the children, split by kind |
| VisitorOptions.OptionalGroup | src/main/java/gov/nih/ncats/common/cli/GroupedOptionGroup.java:40-42 | `optionalGroup`: the same, not required |
| VisitorOptions.RequiredRadio | src/main/java/gov/nih/ncats/common/cli/RadioGroup.java:37-39 | `RadioGroup.required` fails exactly on a null child and is otherwise a required radio whose nested groups are cleared |
| VisitorOptions.OptionalRadio | src/main/java/gov/nih/ncats/common/cli/RadioGroup.java:40-42 | `RadioGroup.optional`: the same, not required |
| VisitorOptions.Reported | src/main/java/gov/nih/ncats/common/cli/GroupedOptionGroup.java:65-70 | a leaf is reported as its own Apache option with the parser-level flag cleared exactly when the group clears it |
| VisitorOptions.LeafEvents | src/main/java/gov/nih/ncats/common/cli/RadioGroup.java:69-74 | one visit per leaf of the group |
| VisitorOptions.GroupsEventsSnoc | src/main/java/gov/nih/ncats/common/cli/GroupedOptionGroup.java:72-74 | visiting one more nested group appends its events |
| VisitorOptions.GroupedLeafFlags | src/main/java/gov/nih/ncats/common/cli/GroupedOptionGroup.java:63-76 | leaf `i` of a grouped group is visited right after the group's pre-visit and keeps its own parser-level flag unless the group is not required or the override is `FALSE` |
| VisitorOptions.RadioLeafFlags | src/main/java/gov/nih/ncats/common/cli/RadioGroup.java:67-79 | a radio reports every leaf as not required to the parser |
| VisitorBuilders.AddName | src/main/java/gov/nih/ncats/common/cli/CommandLine.java:186 | `LinkedHashSet.add`: the name is appended unless already there, so the set keeps its order and stays duplicate-free |
| VisitorBuilders.AddRequired | src/main/java/gov/nih/ncats/common/cli/CommandLine.java:207-210 | `addRequired` adds the name to a radio's names (a radio does not tell required from optional) or to a grouped builder's required names, nothing else |
| VisitorBuilders.AddOptional | src/main/java/gov/nih/ncats/common/cli/CommandLine.java:202-205 | `addOptional` adds the name to a radio's names or to the optional names, nothing else |
| VisitorBuilders.AddGroup | src/main/java/gov/nih/ncats/common/cli/CommandLine.java:239-242 | `addGroup` appends the nested builder after the existing ones, nothing else |
| VisitorBuilders.SeenNames | src/main/java/gov/nih/ncats/common/cli/CommandLine.java:214-219 | the radio's first loop keeps exactly the names that were given, in order |
| VisitorBuilders.MissingNames | src/main/java/gov/nih/ncats/common/cli/CommandLine.java:275-280 | the grouped builder's first loop keeps exactly the required names that were not given, in order |
| VisitorBuilders.Validate | src/main/java/gov/nih/ncats/common/cli/CommandLine.java:354 | a builder's `validate` throws only the engine's own `ValidationError`s, each with a message and no cause |
| VisitorBuilders.RadioVerdict | src/main/java/gov/nih/ncats/common/cli/CommandLine.java:229-236 | the radio throws a `ValidationError` exactly when it saw more than one name, or none while required; otherwise it counts as chosen exactly when it saw one |
| VisitorBuilders.GroupedVerdict | src/main/java/gov/nih/ncats/common/cli/CommandLine.java:291-297 | the grouped builder throws a `ValidationError` exactly when something is missing and it is required or not everything is missing; it counts as chosen exactly when it is required and nothing is missing |
| VisitorBuilders.Chosen | src/main/java/gov/nih/ncats/common/cli/CommandLine.java:222-228 | the radio's loop over its nested builders throws only `ValidationError`s and collects at most one label per nested builder |
| VisitorBuilders.Unmet | src/main/java/gov/nih/ncats/common/cli/CommandLine.java:283-289 | the grouped builder's loop over its nested builders throws only `ValidationError`s and collects at most one label per nested builder |
| VisitorBuilders.ValidateAll | src/main/java/gov/nih/ncats/common/cli/CommandLine.java:104-106 | `parse`'s loop over the builder list passes only when every builder returns normally, and otherwise fails with the first builder's exception |
| VisitorBuilders.ValidateAllPass | src/main/java/gov/nih/ncats/common/cli/CommandLine.java:104-106 | the converse: when every builder returns normally the loop passes |
| VisitorBuilders.ValidateAllStops | src/main/java/gov/nih/ncats/common/cli/CommandLine.java:104-106 | once a builder has thrown, no further builder is validated |
| VisitorBuilders.SeenMissingCount | src/main/java/gov/nih/ncats/common/cli/CommandLine.java:214-219 | every name is either given or missing |
| VisitorBuilders.SeenNamesDistinct | src/main/java/gov/nih/ncats/common/cli/CommandLine.java:186 | the given names of a duplicate-free list are duplicate-free |
| VisitorBuilders.ManySeen | src/main/java/gov/nih/ncats/common/cli/CommandLine.java:229-236 | of a duplicate-free list, more than one name is given exactly when two different ones are, and none exactly when no name is |
| VisitorBuilders.RadioOfNames | src/main/java/gov/nih/ncats/common/cli/CommandLine.java:213-237 | a radio without nested builders throws exactly when two of its names were given, or none was and it is required; otherwise it returns true exactly when one was given |
| VisitorBuilders.RequiredChosen | src/main/java/gov/nih/ncats/common/cli/CommandLine.java:229-236 | a required builder that returns normally returns true: an unsatisfied required radio or group throws instead |
| VisitorBuilders.UnmetNothing | src/main/java/gov/nih/ncats/common/cli/CommandLine.java:283-289 | so the grouped builder's loop over its required nested builders never finds one missing |
| VisitorBuilders.GroupedOfNames | src/main/java/gov/nih/ncats/common/cli/CommandLine.java:274-298 | a grouped builder whose nested builders return throws exactly when some required name is missing and it is required or another required name was given (an optional group is all or nothing); otherwise it returns true exactly when it is required and has all its names |
| VisitorBuilders.BasicChosen | src/main/java/gov/nih/ncats/common/cli/CommandLine.java:322-346 | the basic builder always returns true and counts as required |
| VisitorBuilders.ValidateLoop | src/main/java/gov/nih/ncats/common/cli/CommandLine.java:354 | each builder's `validate` computes exactly `Validate` |
| VisitorBuilders.RadioLoop | src/main/java/gov/nih/ncats/common/cli/CommandLine.java:213-237 | the radio's two loops and verdict compute exactly `Validate`, whose meaning `RadioOfNames` and `RadioOfLeaves` state |
| VisitorBuilders.GroupedLoop | src/main/java/gov/nih/ncats/common/cli/CommandLine.java:274-298 | the grouped builder's two loops and verdict compute exactly `Validate`, whose meaning `GroupedOfNames` and `GroupOfLeaves` state |
| VisitorBuilders.SeenLoop | src/main/java/gov/nih/ncats/common/cli/CommandLine.java:214-219 | the loop collects exactly the names given |
| VisitorBuilders.MissingLoop | src/main/java/gov/nih/ncats/common/cli/CommandLine.java:275-280 | the loop collects exactly the names missing |
| VisitorBuilders.ChosenStep | src/main/java/gov/nih/ncats/common/cli/CommandLine.java:222-228 | one more nested builder: its exception ends the loop, a true result adds its name, a false one nothing |
| VisitorBuilders.UnmetStep | src/main/java/gov/nih/ncats/common/cli/CommandLine.java:283-289 | one more nested builder: its exception ends the loop, a false result of a required one adds its name, anything else nothing |
| VisitorBuilders.ChosenStops | src/main/java/gov/nih/ncats/common/cli/CommandLine.java:222-228 | once a nested builder has thrown, the radio's loop runs no further builder |
| VisitorBuilders.UnmetStops | src/main/java/gov/nih/ncats/common/cli/CommandLine.java:283-289 | once a nested builder has thrown, the grouped builder's loop runs no further builder |
| VisitorParse.TrimmedValue | src/main/java/gov/nih/ncats/common/cli/CommandLine.java:111-115 | the value handed to a consumer is null exactly when the option has none, and is otherwise the option's value trimmed |
| VisitorParse.Consumed | src/main/java/gov/nih/ncats/common/cli/CommandLine.java:108-118 | the consumer loop makes at most one call per option given |
| VisitorParse.ConsumedTrace | src/main/java/gov/nih/ncats/common/cli/CommandLine.java:108-118 | the loop calls only consumers of given options, each with its trimmed value; when nothing threw it called every one; when all accept nothing throws; an exception comes from the last call |
| VisitorParse.ConsumedStops | src/main/java/gov/nih/ncats/common/cli/CommandLine.java:108-118 | once a consumer has thrown, no further consumer is called |
| VisitorParse.ConsumedOnce | src/main/java/gov/nih/ncats/common/cli/CommandLine.java:100-102 | the options given form a set, so each consumer is called at most once |
| VisitorParse.ParseRejected | src/main/java/gov/nih/ncats/common/cli/CommandLine.java:119-121 | a `ParseException` becomes the cause of a `ValidationError` whose message is its `toString()`, and no consumer is called |
| VisitorParse.ConsumersAfterValidation | src/main/java/gov/nih/ncats/common/cli/CommandLine.java:91-122 | a consumer is called only when the parser accepted the arguments and every builder returned normally, and then only consumers of given options, once each, with trimmed values |
| VisitorParse.ParseFiresEach | src/main/java/gov/nih/ncats/common/cli/CommandLine.java:91-122 | when the arguments parse, every builder and every consumer accepts, `parse` throws nothing and calls each given option's consumer exactly once |
| VisitorProps.NamedSplit | src/main/java/gov/nih/ncats/common/cli/GroupedOptionGroup.java:65-71 | a name of a group's leaves is the first one's or one of the rest's |
| VisitorProps.ToldNames | src/main/java/gov/nih/ncats/common/cli/GroupedOptionGroup.java:63-76 | a visit tells a radio's builder the names of all its leaves, and a grouped builder, as required, exactly the names of the leaves reported required |
| VisitorProps.ClearedTellsNoRequired | src/main/java/gov/nih/ncats/common/cli/GroupedOptionGroup.java:67-69 | a group that clears its leaves' flags tells its builder no required name |
| VisitorProps.GroupOfLeaves | src/main/java/gov/nih/ncats/common/cli/CommandLine.java:274-298 | after a visit, a grouped group of leaves throws exactly when it is required, the override is not `FALSE` and a required leaf is absent; it returns true exactly when required |
| VisitorProps.RadioOfLeaves | src/main/java/gov/nih/ncats/common/cli/CommandLine.java:213-237 | after a visit, a radio of leaves with different names throws exactly when two of its leaves are given, or none is and it is required; it returns true exactly when one is given |
| VisitorProps.OptionalGroupNeverChosen | src/main/java/gov/nih/ncats/common/cli/RadioGroup.java:50-54 | an optional grouped builder, such as every group nested in a radio, never returns true, and returns false when its nested builders return |
| VisitorEngine.Initial | src/main/java/gov/nih/ncats/common/cli/CommandLine.java:46-50 | the fields after `new CommandLine()`: one basic builder, in the list and on the stack, satisfy the engine's invariant (stack entries point into the builder list, nested builders come after their parents) |
| VisitorEngine.VisitStep | src/main/java/gov/nih/ncats/common/cli/CommandLine.java:125-135 | the option is appended to the table; a non-null consumer is recorded under its short name; the name goes to the top builder's required names exactly when the Apache option is required, to its optional names otherwise; with an empty stack the call throws `NullPointerException` having only added the option; the invariant is kept |
| VisitorEngine.PreStep | src/main/java/gov/nih/ncats/common/cli/CommandLine.java:143-154 | `preVisit` appends a fresh builder to the list and pushes it, keeping the invariant |
| VisitorEngine.PopStep | src/main/java/gov/nih/ncats/common/cli/CommandLine.java:167-175 | `popGroup` pops the top builder and attaches it to the builder below when there is one; options and consumers are unchanged; an empty stack throws `NoSuchElementException`; the invariant is kept |
| VisitorEngine.Step | src/main/java/gov/nih/ncats/common/cli/OptionVisitor.java:28-41 | every visitor call keeps the engine's invariant |
| VisitorEngine.Run | src/main/java/gov/nih/ncats/common/cli/CommandLine.java:52-61 | every sequence of visitor calls keeps the engine's invariant |
| VisitorEngine.RunAppend | src/main/java/gov/nih/ncats/common/cli/CommandLine.java:54-56 | running two sequences of calls is running the first and, when it returned normally, the second |
| VisitorEngine.RunThen | src/main/java/gov/nih/ncats/common/cli/CommandLine.java:54-56 | after a prefix that returned normally, the rest runs from the state it left |
| VisitorEngine.RunStop | src/main/java/gov/nih/ncats/common/cli/CommandLine.java:54-56 | after a prefix that threw, nothing else runs |
| VisitorEngine.RunPrefix | src/main/java/gov/nih/ncats/common/cli/CommandLine.java:54-56 | one more call after a prefix that returned normally is one step from the state it left |
| VisitorEngine.RunPrefixStop | src/main/java/gov/nih/ncats/common/cli/CommandLine.java:54-56 | a prefix that threw is the whole run |
| VisitorEngine.FrontThen | src/main/java/gov/nih/ncats/common/cli/GroupedOptionGroup.java:64 | a call that returned normally, then a sequence of calls, runs the sequence from the state it left |
| VisitorEngine.StopRest | src/main/java/gov/nih/ncats/common/cli/GroupedOptionGroup.java:63-76 | once a prefix has thrown, the two parts after it do not run |
| VisitorEngine.RunOne | src/main/java/gov/nih/ncats/common/cli/OptionVisitor.java:28-41 | running a single call is that call's step |
| VisitorEngine.CommandLine.constructor | src/main/java/gov/nih/ncats/common/cli/CommandLine.java:46-50 | a new engine is in the initial state and satisfies its invariant |
| VisitorEngine.CommandLine.VisitApache | src/main/java/gov/nih/ncats/common/cli/CommandLine.java:125-135 | `visit(apacheOption, consumer)` changes the fields exactly as `VisitStep` says and keeps the invariant |
| VisitorEngine.CommandLine.VisitLeaf | src/main/java/gov/nih/ncats/common/cli/CommandLine.java:138-140 | `visit(option)` is `visit` of the option's Apache form and its consumer |
| VisitorEngine.CommandLine.PreVisit | src/main/java/gov/nih/ncats/common/cli/CommandLine.java:143-154 | `preVisit` pushes a fresh radio or grouped builder with the group's required flag |
| VisitorEngine.CommandLine.PostVisit | src/main/java/gov/nih/ncats/common/cli/CommandLine.java:157-175 | `postVisit` changes the fields exactly as `PopStep` says |
| VisitorEngine.CommandLine.VisitGroup | src/main/java/gov/nih/ncats/common/cli/GroupedOptionGroup.java:63-76 | a group's `visit` performs exactly its sequence of calls (pre-visit, leaves, nested groups, post-visit); `GroupRun` states what that sequence does |
| VisitorEngine.CommandLine.VisitBracketed | src/main/java/gov/nih/ncats/common/cli/RadioGroup.java:67-79 | the body of a group's visit performs exactly pre-visit, leaf visits, nested visits, post-visit |
| VisitorEngine.CommandLine.VisitLeaves | src/main/java/gov/nih/ncats/common/cli/RadioGroup.java:69-74 | the loop over a group's leaf options performs exactly one leaf visit per option, in order |
| VisitorEngine.CommandLine.VisitGroups | src/main/java/gov/nih/ncats/common/cli/GroupedOptionGroup.java:72-74 | the loop over a group's nested groups performs exactly their visits, in order |
| VisitorEngine.CommandLine.VisitCliOption | src/main/java/gov/nih/ncats/common/cli/Option.java:95-97 | `visit` on any option: a leaf's visit, or a group's |
| VisitorEngine.CommandLine.AddOptions | src/main/java/gov/nih/ncats/common/cli/CommandLine.java:52-61 | `addOptions` performs exactly the visits of the options, in order and with no override, stopping at the first exception |
| VisitorEngine.CommandLine.Parse | src/main/java/gov/nih/ncats/common/cli/CommandLine.java:91-122 | `parse(args)` has exactly the outcome `ParseOutcome` gives for what the parser makes of the arguments over the engine's table, builders and consumers (`ConsumersAfterValidation` and `ParseFiresEach` state what that is) |
| VisitorEngine.CommandLine.FireConsumers | src/main/java/gov/nih/ncats/common/cli/CommandLine.java:107-118 | the loop over the options given calls exactly the consumers `Consumed` lists, each with its trimmed value, and stops at the first that throws |
| VisitorEngine.CommandLine.ParseLine | src/main/java/gov/nih/ncats/common/cli/CommandLine.java:80-82 | `parse(allArgs)` is `parse` of the line split at single spaces |
| VisitorEngine.CommandLine.ParseArgs | src/main/java/gov/nih/ncats/common/cli/CommandLine.java:83-90 | `parse(arg0, args...)` is `parse` of `arg0` followed by `args` |
| VisitorEngine.CommandLine.ParseUrl | src/main/java/gov/nih/ncats/common/cli/CommandLine.java:62-79 | `parse(url)` throws the decoding error, calling nothing, when the query does not decode, and otherwise is `parse` of the query's arguments |
| VisitorEngine.Combine | src/main/java/gov/nih/ncats/common/cli/CommandLine.java:84-87 | the combined array is new, one longer than `args`, starts with `arg0` and then holds a copy of `args` |
| VisitorEngine.GroupsEventsSplit | src/main/java/gov/nih/ncats/common/cli/GroupedOptionGroup.java:72-74 | the visits of a list of groups split at any point into the visits of the two parts |
| VisitorEngine.AddEventsStops | src/main/java/gov/nih/ncats/common/cli/CommandLine.java:54-56 | once the options visited so far have thrown, the rest of `addOptions` is not run |
| VisitorEngine.Told | src/main/java/gov/nih/ncats/common/cli/CommandLine.java:130-134 | telling a builder about leaves keeps its kind, its nested builders and its required flag, and keeps its name sets duplicate-free |
| VisitorEngine.DescribesFrame | src/main/java/gov/nih/ncats/common/cli/CommandLine.java:42 | whether the builders describe a group depends only on the builders its visit created |
| VisitorEngine.DescribesAllFrame | src/main/java/gov/nih/ncats/common/cli/CommandLine.java:42 | the same for a list of groups |
| VisitorEngine.LeavesRun | src/main/java/gov/nih/ncats/common/cli/GroupedOptionGroup.java:65-71 | the leaf visits of a group return normally, tell the top builder their names, and leave the stack and every other builder as they were |
| VisitorEngine.LeafCompose | src/main/java/gov/nih/ncats/common/cli/CommandLine.java:130-134 | telling a builder about the first leaf, then about the others, tells it about them all |
| VisitorEngine.AttachedGroups | src/main/java/gov/nih/ncats/common/cli/CommandLine.java:171-173 | attaching the first group's builder, then those of the others, attaches them all in order |
| VisitorEngine.GroupRun | src/main/java/gov/nih/ncats/common/cli/GroupedOptionGroup.java:63-76 | visiting a group from a non-empty stack returns normally, leaves the stack as it found it, appends one builder per group of the tree mirroring the tree (kinds, required flags, names told, nesting), and attaches the group's builder to the builder on top |
| VisitorEngine.BracketRun | src/main/java/gov/nih/ncats/common/cli/RadioGroup.java:67-79 | the visit of a group with its parts spelled out: the new builder is told its leaves, its nested groups' builders are attached to it, and it is attached below |
| VisitorEngine.FrontRun | src/main/java/gov/nih/ncats/common/cli/RadioGroup.java:68-74 | the start of a group's visit: `preVisit` pushes a fresh builder and the leaves tell it their names |
| VisitorEngine.BackRun | src/main/java/gov/nih/ncats/common/cli/RadioGroup.java:75-79 | the rest of a group's visit: its nested groups, then `postVisit` |
| VisitorEngine.PopAttaches | src/main/java/gov/nih/ncats/common/cli/CommandLine.java:167-175 | popping a group's builder attaches it to the one below, and the builders of its nested groups stay as they were |
| VisitorEngine.GroupsRun | src/main/java/gov/nih/ncats/common/cli/GroupedOptionGroup.java:72-74 | visiting a list of groups returns normally, appends their builders mirroring them and attaches each group's builder in turn to the builder on top |
| VisitorEngine.GroupsCompose | src/main/java/gov/nih/ncats/common/cli/GroupedOptionGroup.java:72-74 | the visit of the first group, then of the others, is the visit of them all |
| CliScenarios.Opt | src/main/java/gov/nih/ncats/common/cli/BasicCliOption.java:172-174 | a leaf built from `option(name)` with a required setting and a setter is a leaf of that name whose parser-level and semantic flags both equal the setting |
| CliScenarios.OptIsBuilt | src/main/java/gov/nih/ncats/common/cli/BasicCliOption.java:172-174 | `Opt` is exactly what an option builder with no other settings builds |
| CliScenarios.ParsesOneTwoThree | src/test/java/gov/nih/ncats/common/cli/TestCommandLine.java:148-161 | `Integer.parseInt("123")` is 123 |
| CliScenarios.ConsumersOfTests | src/test/java/gov/nih/ncats/common/cli/TestCommandLine.java:148-161 | the tests' int and file setters accept "123" and the test path, delivering 123 and the file |
| CliScenarios.Accepts | src/main/java/gov/nih/ncats/common/cli/CliSpecification.java:84-100 | a command line that validates, and whose given leaves all accept their values, is returned with the consumers called in tree order |
| CliScenarios.Refuses | src/main/java/gov/nih/ncats/common/cli/CliSpecification.java:84-100 | a command line that fails validation is refused with that failure and no consumer is called |
| CliScenarios.GroupSomeRequiredSomeNot | src/test/java/gov/nih/ncats/common/cli/TestCommandLine.java:147-161 | `-path ... -foo 123` against a required group of a required `foo` and an optional `bar`, plus `path`, is accepted, and `foo` then `path` receive their values |
| CliScenarios.SomeRequiredRegisters | src/test/java/gov/nih/ncats/common/cli/TestCommandLine.java:150-155 | registration of that specification keeps the flags the builders set (an optional `bar` stays optional) |
| CliScenarios.SomeRequiredValidates | src/test/java/gov/nih/ncats/common/cli/TestCommandLine.java:150-155 | that tree validates whenever `foo` is given |
| CliScenarios.SomeRequiredLeaves | src/test/java/gov/nih/ncats/common/cli/TestCommandLine.java:150-155 | its leaves are `foo`, `bar`, `path`, in that order |
| CliScenarios.GroupAllRequired | src/test/java/gov/nih/ncats/common/cli/TestCommandLine.java:163-176 | with all three required and all given, the command line is accepted and `foo`, `bar`, `path` receive their values in order |
| CliScenarios.NestedRegisters | src/test/java/gov/nih/ncats/common/cli/TestCommandLine.java:191-208 | registering a required group of `foo` and a radio of `bar` and `baz`, plus `path`, gives the expected tree for every combination of flags |
| CliScenarios.NestedLeaves | src/test/java/gov/nih/ncats/common/cli/TestCommandLine.java:191-208 | that tree's leaves are `foo`, `bar`, `baz`, `path`, and a command line calls exactly the given ones' consumers, in that order |
| CliScenarios.NestedChosenValidates | src/test/java/gov/nih/ncats/common/cli/TestCommandLine.java:191-208 | with `foo`, `bar` and `path` given, that tree validates whatever its flags |
| CliScenarios.NestedRadioChosen | src/test/java/gov/nih/ncats/common/cli/TestCommandLine.java:191-248 | `nestedGroupsRadioGroupInsideGenericGroup`, `radioGroupOptionsSetToRequiredShouldBeNoOp` and `nestedGroupsOptionalRadioGroupInsideGenericGroup`: choosing `bar` is accepted and `foo`, `bar`, `path` receive their values |
| CliScenarios.NestedTable | src/test/java/gov/nih/ncats/common/cli/TestCommandLine.java:210-227 | the parser is handed the radio's options as optional even when they were set required; only `foo` (following its group) and `path` can be demanded by it |
| CliScenarios.NestedOptionalRadioNotChosen | src/test/java/gov/nih/ncats/common/cli/TestCommandLine.java:266-284 | an optional group with an optional radio accepts leaving out `bar` and `baz` |
| CliScenarios.RadioRefusesTwo | src/test/java/gov/nih/ncats/common/cli/TestCommandLine.java:117-127 | a required radio of `foo` and `bar` refuses `-foo x -bar y` with the "at most 1 choice" message listing `[(foo), (bar)]`, before any consumer runs |
| CliScenarios.RadioTwoRegistered | src/test/java/gov/nih/ncats/common/cli/TestCommandLine.java:120-124 | the specification of that test registers as a required group around the radio |
| CliScenarios.RadioTwoSeen | src/test/java/gov/nih/ncats/common/cli/TestCommandLine.java:117-127 | with both given, the radio's seen list prints as `[(foo), (bar)]` |
| CliScenarios.GroupAllRequiredButNotAll | src/test/java/gov/nih/ncats/common/cli/TestCommandLine.java:178-190 | `bar` is registered as parser-required, so any parser that enforces required options refuses `-path ... -foo 123`; `parse` rethrows that as a `ValidationError` (a `CliValidationException`) and calls no consumer |
| CliScenarios.GroupAllRequiredValidateMessage | src/test/java/gov/nih/ncats/common/cli/TestCommandLine.java:178-190 | were the arguments to reach `validate`, the root would refuse them with "required group was not found require ( ( -bar ) )" |
| CliScenarios.NestedRequiredRadioNotChosen | src/test/java/gov/nih/ncats/common/cli/TestCommandLine.java:249-265 | with the group and its radio required, choosing neither `bar` nor `baz` is refused with the usage of the missing radio |
| CliScenarios.NestedGroupMissing | src/test/java/gov/nih/ncats/common/cli/TestCommandLine.java:249-265 | what a required group of a given `foo` and the unchosen required radio reports missing |
| CliScenarios.NestedOptionalGroupRequiredRadio | src/test/java/gov/nih/ncats/common/cli/TestCommandLine.java:285-305 | the group is optional, so nothing counts as missing, but it still validates its required radio, which refuses the command line for selecting nothing |
| CliScenarios.GroupInRadioRegisters | src/test/java/gov/nih/ncats/common/cli/TestCommandLine.java:320-346 | registering a radio holding a group registers every leaf below it as not parser-required |
| CliScenarios.GroupInRadioMultiSelect | src/test/java/gov/nih/ncats/common/cli/TestCommandLine.java:320-333 | `-foo` selects the group as a second choice beside `-bar`; the required radio refuses both, listing `[(bar), ((foo))]` |
| CliScenarios.GroupInRadioNotSelected | src/test/java/gov/nih/ncats/common/cli/TestCommandLine.java:334-346 | with the radio optional, choosing `bar` and not the group is accepted although the group's `foo` was set required; `bar` and `path` receive their values |
| CliScenarios.GroupInRadioValidates | src/test/java/gov/nih/ncats/common/cli/TestCommandLine.java:334-346 | that tree validates with only `bar` and `path` given |
| CliScenarios.GroupInRadioLeaves | src/test/java/gov/nih/ncats/common/cli/TestCommandLine.java:334-346 | its leaves in order, and only `bar` and `path` are called |
| CliScenarios.AsUrlArgs | src/test/java/gov/nih/ncats/common/cli/TestCommandLine.java:91-103 | the query `path=/usr/local/foo/bar/baz.txt&a=2` becomes the arguments `-path /usr/local/foo/bar/baz.txt -a 2` |
| CliScenarios.AsUrl | src/test/java/gov/nih/ncats/common/cli/TestCommandLine.java:91-103 | those arguments parsed, the file setter receives the path and the int setter 2 |

## Left out

- **Apache Commons CLI.** `DefaultParser`, `Options`, `CommandLine` and `Option` are
  foreign library code. Tokenising the arguments is the parameter `CliSpec.Parser`,
  and a parsed command line is `Context.Cli`: the set of names given plus a map of
  values. The option table keeps only the fields the engine sets and reads.
- **URL handling.** `URLDecoder.decode` is the parameter `CliSpec.Decoder`, because
  percent-decoding is library code. `URL.getQuery()` is the query string the caller
  passes in as an `Option<string>`, with `None` for a URL that has no query.
- **`Integer.parseInt`.** It is modelled for an optional sign followed by ASCII decimal
  digits, in the 32-bit range. Non-ASCII Unicode digits, which Java also accepts, are
  not modelled.
- **`new File(s)`.** A file is only the path it was created with. Path normalisation
  and the filesystem are outside the engine.
- **Messages of JDK exceptions.** A `Throwable` is its class name plus its message,
  and `toString()` is built from those two. The exact texts of exceptions raised
  inside library code are whatever the caller's parameters return.
- **Debug output.** The `System.out.println` calls in `cli2/RadioCliOption.java` are
  left out. They are I/O and do not affect any result.
- **Classes not part of this model.** `CliValidator`, `InternalCliSpecification`,
  `ValidationError` and the `Throwable*` functional interfaces are not part of this
  model.
  - A validator is a pair of a rule over the parsed command line and a message
    function, and it throws `CliValidationException` with that message.
  - `ValidationError` is taken to be a subclass of `CliValidationException`: the
    engine's tests expect a `CliValidationException` when the parser fails.
- **Interfaces and thin wrappers.** `InternalCliOption`, `CliOption`, `OptionVisitor`,
  `CliOptionBuilder` and `BasicCliOptionBuilder` have no behaviour of their own. They
  only give the shape of the operations.
  - `Cli.java` is modelled only by its presence test and its value lookup.
    `Cli.helpRequested` is not modelled.
  - `UsageExample.java` is not modelled. It is a text record that the tree engine
    never reads.
  - `Trailer.java` only delegates to the consumer its builder installs, and that
    consumer is modelled.
- **Option (visitor engine) setters.** `Option.setter(consumer, OptionValidator)`,
  `setToFile` and `setToInt` wrap the consumer with `OptionValidator`, which is not
  part of this model. The visitor engine's leaf therefore takes its consumer as given.
- **Null arguments.** `Objects.requireNonNull` checks on names, descriptions
  and consumers are left out, because the model's parameters cannot be
  null. The model keeps every null the Java code handles or rejects on purpose: an
  absent value, an absent argument name, a null validator, and a null child of a
  visitor group, which is rejected.
- **Builders with mutable state.**
  - The composite builders (`GroupedOption`, `RadioCliOption`, `AtLeastOneOfOption`)
    are values, and their fluent setters return the updated value.
  - `RadioGroup`'s constructor clearing its nested groups' `isRequired` is likewise
    modelled on values.
  - So aliasing is not captured: two references to one builder or group that see each
    other's changes.
- **Iteration order of `HashSet`.** `CommandLine.parse` walks the set of options given
  in the set's own iteration order. That order is the parameter `order`, of which the
  properties assume only that it lists each given option once.
- **`toString()` of a sub-builder.** The radio validation builder's error message
  holds each nested builder's default `Object.toString()`. That text is the parameter
  `name`.
- **Runtime exceptions of the visitor engine.** `Deque.pop()` on an empty stack
  throws `NoSuchElementException`, and `visit` with no builder on the stack throws
  `NullPointerException`. The model returns these as outcomes of the `CommandLine`
  methods instead of throwing them.
