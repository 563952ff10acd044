/** What the option tree sees of a parsed command line, the exceptions it throws, the
    consumers it fires and the validation rules attached to composite options. */
module Context {
  import opened Wrappers
  import opened Text

  /** A parsed command line (`Cli`): the short names of the options present and the
      first value given to each option that took one. */
  datatype Cli = Cli(present: set<string>, values: map<string, string>) {
    /** `cli.hasOption(name)`. */
    predicate HasOption(name: string) {
      name in present
    }

    /** `cli.getOptionValue(name)`: the value, or null (`None`). */
    function OptionValue(name: string): (v: Option<string>)
      ensures v.Some? <==> name in values
      ensures v.Some? ==> v.value == values[name]
    {
      if name in values then Some(values[name]) else None
    }
  }

  /** The two validation exception classes of the engine. `ValidationError` is taken to
      be a subclass of `CliValidationException`. */
  datatype ExnKind = ValidationErrorKind | CliValidationKind

  /** A Java throwable: a validation exception with its detail message (null is `None`)
      and cause, or any other throwable, identified by its class name. */
  datatype Exn =
    | CliValidation(kind: ExnKind, message: Option<string>, cause: Option<Exn>)
    | Thrown(className: string, message: Option<string>)

  /** `t instanceof CliValidationException`. */
  predicate IsCliValidation(t: Exn) {
    t.CliValidation?
  }

  /** The fully qualified class name of a throwable. */
  function ClassName(t: Exn): string {
    match t
    case CliValidation(kind, _, _) =>
      if kind == ValidationErrorKind then "gov.nih.ncats.common.cli.ValidationError"
      else "gov.nih.ncats.common.cli.CliValidationException"
    case Thrown(name, _) => name
  }

  /** `Throwable.toString()`: the class name, then ": " and the message when there is one. */
  function ToString(t: Exn): (r: string)
    ensures ClassName(t) <= r
    ensures t.message.None? ==> r == ClassName(t)
    ensures t.message.Some? ==> r == ClassName(t) + ": " + t.message.value
  {
    match t.message
    case None => ClassName(t)
    case Some(m) => ClassName(t) + ": " + m
  }

  /** `new K(message)`. */
  function WithMessage(kind: ExnKind, message: string): Exn {
    CliValidation(kind, Some(message), None)
  }

  /** `new K(t.getMessage(), t)`. */
  function WrapKeepMessage(kind: ExnKind, t: Exn): (e: Exn)
    ensures e.CliValidation? && e.kind == kind && e.cause == Some(t) && e.message == t.message
  {
    CliValidation(kind, t.message, Some(t))
  }

  /** `new K(t)`: the detail message becomes `t.toString()`. */
  function WrapCause(kind: ExnKind, t: Exn): (e: Exn)
    ensures e.CliValidation? && e.kind == kind && e.cause == Some(t)
    ensures e.message == Some(ToString(t))
  {
    CliValidation(kind, Some(ToString(t)), Some(t))
  }

  /** The consumer an option fires with its value (null is `None`): it returns normally
      or throws. */
  type Consumer = Option<string> -> Outcome<Exn>

  /** The consumer that does nothing. */
  function NoOp(): (c: Consumer)
    ensures forall s :: c(s) == Pass
  {
    _ => Pass
  }

  /** A validation rule added with `addValidation`: a predicate over the parsed command
      line and the message of the exception thrown when it does not hold. */
  datatype Validator = Validator(rule: Cli -> bool, message: Cli -> string)

  /** Rule `i` is the first of `vs` that does not hold of `cli`. */
  predicate FirstBroken(vs: seq<Validator>, cli: Cli, i: int) {
    0 <= i < |vs| && !vs[i].rule(cli) && forall j :: 0 <= j < i ==> vs[j].rule(cli)
  }

  /** Runs the rules in insertion order; the first rule that does not hold throws a
      `CliValidationException` with its message, and the later rules are not run. */
  function RunValidators(vs: seq<Validator>, cli: Cli): (r: Outcome<Exn>)
    ensures r == Pass <==> forall i :: 0 <= i < |vs| ==> vs[i].rule(cli)
    ensures r.Fail? ==>
      exists i :: FirstBroken(vs, cli, i) && r.error == WithMessage(CliValidationKind, vs[i].message(cli))
  {
    if |vs| == 0 then Pass
    else if !vs[0].rule(cli) then Fail(WithMessage(CliValidationKind, vs[0].message(cli)))
    else
      var rest := RunValidators(vs[1..], cli);
      assert forall i :: 1 <= i < |vs| ==> vs[i] == vs[1..][i - 1];
      assert forall i :: FirstBroken(vs[1..], cli, i) ==> FirstBroken(vs, cli, i + 1);
      rest
  }

  /** One call of an option's consumer: the option's short name and the value passed. */
  datatype Call = Call(name: string, value: Option<string>)

  /** The consumers fired by `fireConsumerIfNeeded`, in order, and the exception that
      stopped it, if any (the last call is the one that threw). */
  datatype FireResult = FireResult(calls: seq<Call>, error: Option<Exn>)
}
