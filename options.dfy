/** The part of Apache Commons CLI's `Option` and `Options` the engine uses: the option
    record it builds and the table it registers options into. */
module Options {
  import opened Wrappers

  /** An Apache `Option`: short name, long name, description, whether it takes an
      argument, the argument's display name, and the parser-level required flag. */
  datatype ApacheOption = ApacheOption(
    opt: string,
    longOpt: Option<string>,
    description: Option<string>,
    hasArg: bool,
    argName: Option<string>,
    required: bool)

  /** An Apache `Options` table, filled by `addOption` in registration order. */
  class OptionTable {
    var entries: seq<ApacheOption>

    /** `new Options()`: an empty table. */
    constructor ()
      ensures entries == []
    {
      entries := [];
    }

    /** `options.addOption(o)`: appends `o`. */
    method AddOption(o: ApacheOption)
      modifies this
      ensures entries == old(entries) + [o]
    {
      entries := entries + [o];
    }
  }
}
