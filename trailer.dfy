/** `TrailerBuilder`: the builder of the trailing, positional argument. Its setters install
    the same compositions of converter, validator and consumer as the option setters,
    but with the error mapping of `CliValidationException`: an exception that already
    is one passes through unchanged, except in `setToInt(consumer)`, which wraps every
    exception. */
module Trailers {
  import opened Wrappers
  import opened Context
  import opened Setters

  /** Rethrows a `CliValidationException` as it is and wraps anything else with its
      message. */
  function Rethrow(t: Exn): (e: Exn)
    ensures e.CliValidation?
    ensures IsCliValidation(t) ==> e == t
    ensures !IsCliValidation(t) ==> e == WrapKeepMessage(CliValidationKind, t)
  {
    if IsCliValidation(t) then t else WrapKeepMessage(CliValidationKind, t)
  }

  function RethrowAll(o: Outcome<Exn>): Outcome<Exn> {
    match o
    case Pass => Pass
    case Fail(t) => Fail(Rethrow(t))
  }

  /** The consumer installed by `setter(typeConverter, consumer, validator)`. A converter
      exception that is not a validation exception becomes its cause, with its
      `toString()` as message when a validator is given. */
  function TrailerSetter<R>(convert: Option<string> -> Result<R, Exn>, sink: R -> Outcome<Exn>,
                            validator: Option<R -> bool>, s: Option<string>): (r: Run<R>)
    ensures r.delivered.Some? <==>
      convert(s).Ok? && (validator.None? || validator.value(convert(s).value))
    ensures r.delivered.Some? ==> r.delivered.value == convert(s).value
    ensures r.outcome == Pass <==> r.delivered.Some? && sink(r.delivered.value) == Pass
    ensures r.outcome.Fail? ==> r.outcome.error.CliValidation?
  {
    match convert(s)
    case Err(t) =>
      Run(None, Fail(if validator.None? || IsCliValidation(t) then Rethrow(t) else WrapCause(CliValidationKind, t)))
    case Ok(v) =>
      if validator.Some? && !validator.value(v) then
        Run(None, Fail(WithMessage(CliValidationKind, NotValidated)))
      else
        Run(Some(v), RethrowAll(sink(v)))
  }

  /** A validation exception thrown by the converter or by the consumer comes out of the
      trailer setter unchanged. */
  lemma TrailerSetterKeepsValidation<R>(convert: Option<string> -> Result<R, Exn>, sink: R -> Outcome<Exn>,
                                        validator: Option<R -> bool>, s: Option<string>, e: Exn)
    requires IsCliValidation(e)
    requires convert(s) == Err(e) ||
      (TrailerSetter(convert, sink, validator, s).delivered.Some? && sink(convert(s).value) == Fail(e))
    ensures TrailerSetter(convert, sink, validator, s).outcome == Fail(e)
  {
  }

  /** Any other exception becomes the cause of a new `CliValidationException`. */
  lemma TrailerSetterWrapsOthers<R>(convert: Option<string> -> Result<R, Exn>, sink: R -> Outcome<Exn>,
                                    validator: Option<R -> bool>, s: Option<string>, e: Exn)
    requires !IsCliValidation(e)
    requires convert(s) == Err(e) ||
      (TrailerSetter(convert, sink, validator, s).delivered.Some? && sink(convert(s).value) == Fail(e))
    ensures var o := TrailerSetter(convert, sink, validator, s).outcome;
      o.Fail? && o.error.kind == CliValidationKind && o.error.cause == Some(e)
  {
  }

  /** The trailer setter and the option setter hand the same values to the consumer and
      succeed on the same inputs; they differ only in the exceptions they throw. */
  lemma TrailerAndOptionSettersAgree<R>(convert: Option<string> -> Result<R, Exn>, sink: R -> Outcome<Exn>,
                                        validator: Option<R -> bool>, s: Option<string>)
    ensures TrailerSetter(convert, sink, validator, s).delivered == ConvertingSetter(convert, sink, validator, s).delivered
    ensures TrailerSetter(convert, sink, validator, s).outcome.Pass? == ConvertingSetter(convert, sink, validator, s).outcome.Pass?
  {
  }

  /** The consumer installed by `setToFile`. */
  function TrailerFileSetter(sink: File -> Outcome<Exn>, s: Option<string>): (r: Run<File>)
    ensures r.delivered.Some? <==> s.Some?
    ensures r.delivered.Some? ==> r.delivered.value == File(s.value) && r.outcome == RethrowAll(sink(File(s.value)))
    ensures s.None? ==> r.outcome == Fail(WrapKeepMessage(CliValidationKind, Thrown("java.lang.NullPointerException", None)))
  {
    match NewFile(s)
    case Err(t) => Run(None, Fail(Rethrow(t)))
    case Ok(f) => Run(Some(f), RethrowAll(sink(f)))
  }

  /** The message of an int validator's parse failure. */
  const ParseError: string := "error parsing int value"

  /** The consumer installed by `setToInt(consumer)`: every exception, of the parse or of
      the consumer, validation exceptions included, becomes the cause of a new
      `CliValidationException` with the cause's `toString()` as message. */
  function TrailerIntSetter(sink: int -> Outcome<Exn>, s: Option<string>): (r: Run<int>)
    ensures r.delivered.Some? <==> ParseInt(s).Ok?
    ensures r.delivered.Some? ==> r.delivered.value == ParseInt(s).value
    ensures r.outcome == Pass <==> r.delivered.Some? && sink(r.delivered.value) == Pass
  {
    match ParseInt(s)
    case Err(t) => Run(None, Fail(WrapCause(CliValidationKind, t)))
    case Ok(v) => Run(Some(v), match sink(v) case Pass => Pass case Fail(t) => Fail(WrapCause(CliValidationKind, t)))
  }

  /** Even a validation exception of the consumer is wrapped, so it never comes out as
      it was thrown. */
  lemma TrailerIntSetterAlwaysWraps(sink: int -> Outcome<Exn>, s: Option<string>, e: Exn)
    requires ParseInt(s).Ok? && sink(ParseInt(s).value) == Fail(e)
    ensures TrailerIntSetter(sink, s).outcome == Fail(WrapCause(CliValidationKind, e))
    ensures TrailerIntSetter(sink, s).outcome != Fail(e)
  {
  }

  /** The consumer installed by `setToInt(consumer, validator)`; a null validator falls
      back to `setToInt(consumer)`. */
  function TrailerCheckedIntSetter(sink: int -> Outcome<Exn>, validator: Option<int -> bool>, s: Option<string>): (r: Run<int>)
    ensures r.delivered.Some? <==> ParseInt(s).Ok? && (validator.None? || validator.value(ParseInt(s).value))
    ensures r.delivered.Some? ==> r.delivered.value == ParseInt(s).value
    ensures r.outcome == Pass <==> r.delivered.Some? && sink(r.delivered.value) == Pass
  {
    match validator
    case None => TrailerIntSetter(sink, s)
    case Some(p) =>
      match ParseInt(s)
      case Err(t) => Run(None, Fail(CliValidation(CliValidationKind, Some(ParseError), Some(t))))
      case Ok(v) =>
        if p(v) then Run(Some(v), RethrowAll(sink(v)))
        else Run(None, Fail(WithMessage(CliValidationKind, NotValidated)))
  }

  /** `setToInt(consumer, null)` installs exactly what `setToInt(consumer)` does. */
  lemma NullIntValidatorIsPlain(sink: int -> Outcome<Exn>, s: Option<string>)
    ensures TrailerCheckedIntSetter(sink, None, s) == TrailerIntSetter(sink, s)
  {
  }

  /** With a validator: a value that is not an int fails with `ParseError` caused by the
      parse exception; a rejected int fails with `NotValidated` and is not delivered. */
  lemma CheckedIntErrors(sink: int -> Outcome<Exn>, p: int -> bool, s: Option<string>)
    ensures ParseInt(s).Err? ==>
      TrailerCheckedIntSetter(sink, Some(p), s) == Run(None, Fail(CliValidation(CliValidationKind, Some(ParseError), Some(ParseInt(s).error))))
    ensures ParseInt(s).Ok? && !p(ParseInt(s).value) ==>
      TrailerCheckedIntSetter(sink, Some(p), s) == Run(None, Fail(WithMessage(CliValidationKind, NotValidated)))
  {
  }

  /** A built trailer: the name and description captured from the builder and the
      consumer its argument is handed to. */
  datatype Trailer = Trailer(name: Option<string>, description: Option<string>, consumer: Consumer)

  /** `TrailerBuilder`: each setter replaces the installed consumer. */
  class TrailerBuilder {
    var name: Option<string>
    var description: Option<string>
    var consumer: Consumer

    /** A new builder: no name or description, and the consumer that does nothing. */
    constructor ()
      ensures name.None? && description.None?
      ensures forall s :: consumer(s) == Pass
    {
      name := None;
      description := None;
      consumer := NoOp();
    }

    /** `build()`: a trailer with the current name, description and consumer. */
    function Build(): (t: Trailer)
      reads this
      ensures t.name == name && t.description == description
      ensures forall s :: t.consumer(s) == consumer(s)
    {
      Trailer(name, description, consumer)
    }

    /** `setter(typeConverter, consumer, validator)`. */
    method SetConverter<R>(convert: Option<string> -> Result<R, Exn>, sink: R -> Outcome<Exn>, validator: Option<R -> bool>)
      modifies this
      ensures name == old(name) && description == old(description)
      ensures forall s :: consumer(s) == TrailerSetter(convert, sink, validator, s).outcome
    {
      consumer := Installed(s => TrailerSetter(convert, sink, validator, s));
    }

    /** `setter(consumer)`: the identity converter and no validator. */
    method Setter(sink: Option<string> -> Outcome<Exn>)
      modifies this
      ensures name == old(name) && description == old(description)
      ensures forall s :: consumer(s) == TrailerSetter(Identity(), sink, None, s).outcome
    {
      SetConverter(Identity(), sink, None);
    }

    /** `setter(consumer, validator)`: the identity converter. */
    method SetValidated(sink: Option<string> -> Outcome<Exn>, validator: Option<Option<string> -> bool>)
      modifies this
      ensures name == old(name) && description == old(description)
      ensures forall s :: consumer(s) == TrailerSetter(Identity(), sink, validator, s).outcome
    {
      SetConverter(Identity(), sink, validator);
    }

    /** `setToFile(consumer)`. */
    method SetToFile(sink: File -> Outcome<Exn>)
      modifies this
      ensures name == old(name) && description == old(description)
      ensures forall s :: consumer(s) == TrailerFileSetter(sink, s).outcome
    {
      consumer := Installed(s => TrailerFileSetter(sink, s));
    }

    /** `setToInt(consumer)`. */
    method SetToInt(sink: int -> Outcome<Exn>)
      modifies this
      ensures name == old(name) && description == old(description)
      ensures forall s :: consumer(s) == TrailerIntSetter(sink, s).outcome
    {
      consumer := Installed(s => TrailerIntSetter(sink, s));
    }

    /** `setToInt(consumer, validator)`. */
    method SetToIntChecked(sink: int -> Outcome<Exn>, validator: Option<int -> bool>)
      modifies this
      ensures name == old(name) && description == old(description)
      ensures forall s :: consumer(s) == TrailerCheckedIntSetter(sink, validator, s).outcome
    {
      if validator.None? {
        SetToInt(sink);
        assert forall s :: TrailerCheckedIntSetter(sink, validator, s) == TrailerIntSetter(sink, s);
      } else {
        consumer := Installed(s => TrailerCheckedIntSetter(sink, validator, s));
      }
    }
  }

  /** `Trailer.fireConsumerIfNeeded(arg)`: the argument goes to the trailer's consumer. */
  function FireTrailer(t: Trailer, arg: Option<string>): Outcome<Exn> {
    t.consumer(arg)
  }
}
