/** The consumers the option builders install: a converter from the option's raw value,
    an optional validator and the user's consumer, composed with the error mapping of
    `BasicCliOption.setter`, `setToFile` and `setToInt` (the same code in the `cli` and
    `cli2` packages), over models of `Integer.parseInt` and `new File`. */
module Setters {
  import opened Wrappers
  import opened Context

  // ------------------------------------------------------------ Integer.parseInt

  const INT_MIN: int := -0x8000_0000
  const INT_MAX: int := 0x7fff_ffff

  predicate InInt32(n: int) {
    INT_MIN <= n <= INT_MAX
  }

  predicate IsDigit(c: char) {
    '0' <= c <= '9'
  }

  function DigitValue(c: char): (d: nat)
    requires IsDigit(c)
    ensures d < 10
  {
    c as int - '0' as int
  }

  function Digit(d: nat): (c: char)
    requires d < 10
    ensures IsDigit(c) && DigitValue(c) == d
  {
    ('0' as int + d) as char
  }

  predicate AllDigits(s: string) {
    forall i :: 0 <= i < |s| ==> IsDigit(s[i])
  }

  /** The value of a string of decimal digits, most significant first. */
  function DigitsValue(s: string): nat
    requires AllDigits(s)
  {
    if |s| == 0 then 0 else DigitsValue(s[..|s| - 1]) * 10 + DigitValue(s[|s| - 1])
  }

  /** An optional sign followed by at least one decimal digit. */
  predicate IsDecimal(s: string) {
    if |s| > 0 && (s[0] == '-' || s[0] == '+') then |s| > 1 && AllDigits(s[1..])
    else |s| > 0 && AllDigits(s)
  }

  function DecimalValue(s: string): int
    requires IsDecimal(s)
  {
    if s[0] == '-' then -(DigitsValue(s[1..]) as int)
    else if s[0] == '+' then DigitsValue(s[1..])
    else DigitsValue(s)
  }

  /** A `java.lang.NumberFormatException` with its message. */
  function NumberFormat(message: string): Exn {
    Thrown("java.lang.NumberFormatException", Some(message))
  }

  /** `Integer.parseInt(s)`: a 32-bit decimal integer, or a `NumberFormatException` whose
      message is `"null"` for a null string and `For input string: "s"` otherwise. */
  function ParseInt(s: Option<string>): (r: Result<int, Exn>)
    ensures r.Ok? <==> s.Some? && IsDecimal(s.value) && InInt32(DecimalValue(s.value))
    ensures r.Ok? ==> r.value == DecimalValue(s.value) && InInt32(r.value)
    ensures r.Err? ==> r.error.Thrown? && r.error.className == "java.lang.NumberFormatException"
  {
    match s
    case None => Err(NumberFormat("null"))
    case Some(t) =>
      if IsDecimal(t) && InInt32(DecimalValue(t)) then Ok(DecimalValue(t))
      else Err(NumberFormat("For input string: \"" + t + "\""))
  }

  /** `Integer.toString(n)` for a natural number. */
  function NatToString(m: nat): (s: string)
    ensures |s| > 0 && AllDigits(s)
  {
    if m < 10 then [Digit(m)] else NatToString(m / 10) + [Digit(m % 10)]
  }

  /** `Integer.toString(n)`. */
  function IntToString(n: int): string {
    if n < 0 then "-" + NatToString(-n) else NatToString(n)
  }

  lemma {:induction false} NatToStringValue(m: nat)
    ensures DigitsValue(NatToString(m)) == m
  {
    if m >= 10 {
      var s := NatToString(m);
      assert s[..|s| - 1] == NatToString(m / 10);
      NatToStringValue(m / 10);
    }
  }

  /** Parsing reads back every 32-bit integer printed in decimal. */
  lemma ParseIntReadsBack(n: int)
    requires InInt32(n)
    ensures ParseInt(Some(IntToString(n))) == Ok(n)
  {
    var s := IntToString(n);
    if n < 0 {
      assert s[1..] == NatToString(-n);
      NatToStringValue(-n);
    } else {
      NatToStringValue(n);
    }
  }

  // ---------------------------------------------------------------------- File

  /** A `java.io.File`, identified by the path it was created with. */
  datatype File = File(path: string)

  /** `new File(s)`: a null path throws `NullPointerException`. */
  function NewFile(s: Option<string>): (r: Result<File, Exn>)
    ensures r.Ok? <==> s.Some?
    ensures r.Ok? ==> r.value.path == s.value
  {
    match s
    case None => Err(Thrown("java.lang.NullPointerException", None))
    case Some(p) => Ok(File(p))
  }

  // ------------------------------------------------------------------- setters

  /** One run of an installed consumer: the value handed to the user's consumer, if it
      was called, and how the installed consumer ended. */
  datatype Run<R> = Run(delivered: Option<R>, outcome: Outcome<Exn>)

  /** The converter that hands the raw value on (`ThrowableFunction.identity()`). */
  function Identity(): (c: Option<string> -> Result<Option<string>, Exn>)
    ensures forall s :: c(s) == Ok(s)
  {
    s => Ok(s)
  }

  /** The message of a value the validator rejects. */
  const NotValidated: string := "setter did not pass validation test"

  /** The consumer installed by `setter(typeConverter, consumer, validator)` run on `s`.
      Without a validator, an exception of the converter or of the consumer becomes a
      `ValidationError` with the same message. With one, a converter exception becomes
      a `ValidationError` whose message is the exception's `toString()`, a rejected
      value a `ValidationError` with `NotValidated`, and an exception of the consumer
      one with the same message. */
  function ConvertingSetter<R>(convert: Option<string> -> Result<R, Exn>, sink: R -> Outcome<Exn>,
                               validator: Option<R -> bool>, s: Option<string>): (r: Run<R>)
    ensures r.delivered.Some? <==>
      convert(s).Ok? && (validator.None? || validator.value(convert(s).value))
    ensures r.delivered.Some? ==> r.delivered.value == convert(s).value
    ensures r.outcome == Pass <==> r.delivered.Some? && sink(r.delivered.value) == Pass
    ensures r.outcome.Fail? ==> r.outcome.error.CliValidation? && r.outcome.error.kind == ValidationErrorKind
  {
    match convert(s)
    case Err(t) =>
      Run(None, Fail(if validator.None? then WrapKeepMessage(ValidationErrorKind, t) else WrapCause(ValidationErrorKind, t)))
    case Ok(v) =>
      if validator.Some? && !validator.value(v) then
        Run(None, Fail(WithMessage(ValidationErrorKind, NotValidated)))
      else
        Run(Some(v), match sink(v) case Pass => Pass case Fail(t) => Fail(WrapKeepMessage(ValidationErrorKind, t)))
  }

  /** The consumer installed by `setter(consumer, validator)`, the string form. */
  function StringSetter(sink: Option<string> -> Outcome<Exn>, validator: Option<Option<string> -> bool>,
                        s: Option<string>): (r: Run<Option<string>>)
    ensures r.delivered.Some? <==> validator.None? || validator.value(s)
    ensures r.delivered.Some? ==> r.delivered.value == s
  {
    if validator.Some? && !validator.value(s) then
      Run(None, Fail(WithMessage(ValidationErrorKind, NotValidated)))
    else
      Run(Some(s), match sink(s) case Pass => Pass case Fail(t) => Fail(WrapKeepMessage(ValidationErrorKind, t)))
  }

  /** The string form is the converting form with the identity converter. */
  lemma StringSetterIsIdentitySetter(sink: Option<string> -> Outcome<Exn>,
                                     validator: Option<Option<string> -> bool>, s: Option<string>)
    ensures StringSetter(sink, validator, s) == ConvertingSetter(Identity(), sink, validator, s)
  {
  }

  /** The consumer installed by `setter(Consumer<String>)`. */
  function PlainSetter(sink: Option<string> -> Outcome<Exn>, s: Option<string>): (r: Run<Option<string>>)
    ensures r == ConvertingSetter(Identity(), sink, None, s)
  {
    StringSetter(sink, None, s)
  }

  /** A rejected value never reaches the user's consumer, whatever that consumer is. */
  lemma RejectedNeverDelivered<R>(convert: Option<string> -> Result<R, Exn>, sink: R -> Outcome<Exn>,
                                  p: R -> bool, s: Option<string>)
    requires convert(s).Ok? && !p(convert(s).value)
    ensures ConvertingSetter(convert, sink, Some(p), s) == Run(None, Fail(WithMessage(ValidationErrorKind, NotValidated)))
  {
  }

  /** A converter exception is reported as the cause of a `ValidationError`: with a
      validator its message is the cause's `toString()`, without one the cause's own
      message. */
  lemma ConverterFailureWrapped<R>(convert: Option<string> -> Result<R, Exn>, sink: R -> Outcome<Exn>,
                                   validator: Option<R -> bool>, s: Option<string>)
    requires convert(s).Err?
    ensures var r := ConvertingSetter(convert, sink, validator, s);
      r.delivered.None? && r.outcome.Fail? && r.outcome.error.cause == Some(convert(s).error) &&
      r.outcome.error.message == (if validator.None? then convert(s).error.message else Some(ToString(convert(s).error)))
  {
  }

  /** An exception of the user's consumer keeps its message, even when it already was a
      validation exception: it is always wrapped once more. */
  lemma ConsumerFailureWrapped<R>(convert: Option<string> -> Result<R, Exn>, sink: R -> Outcome<Exn>,
                                  validator: Option<R -> bool>, s: Option<string>)
    requires ConvertingSetter(convert, sink, validator, s).delivered.Some?
    requires sink(convert(s).value).Fail?
    ensures ConvertingSetter(convert, sink, validator, s).outcome ==
      Fail(WrapKeepMessage(ValidationErrorKind, sink(convert(s).value).error))
  {
  }

  /** The consumer installed by `setToFile`: the exceptions of `new File` and of the
      consumer pass through unwrapped. */
  function FileSetter(sink: File -> Outcome<Exn>, s: Option<string>): (r: Run<File>)
    ensures r.delivered.Some? <==> s.Some?
    ensures r.delivered.Some? ==> r.delivered.value == File(s.value) && r.outcome == sink(File(s.value))
    ensures s.None? ==> r.outcome == Fail(Thrown("java.lang.NullPointerException", None))
  {
    match NewFile(s)
    case Err(t) => Run(None, Fail(t))
    case Ok(f) => Run(Some(f), sink(f))
  }

  /** The consumer installed by `setToInt`: the `NumberFormatException` of a value that is
      not a 32-bit integer, and any exception of the consumer, pass through unwrapped. */
  function IntSetter(sink: int -> Outcome<Exn>, s: Option<string>): (r: Run<int>)
    ensures r.delivered.Some? <==> ParseInt(s).Ok?
    ensures r.delivered.Some? ==> r.delivered.value == ParseInt(s).value && r.outcome == sink(r.delivered.value)
    ensures r.delivered.None? ==> r.outcome.Fail? && r.outcome.error.Thrown?
  {
    match ParseInt(s)
    case Err(t) => Run(None, Fail(t))
    case Ok(v) => Run(Some(v), sink(v))
  }

  /** The int setter hands over exactly the printed value. */
  lemma IntSetterDeliversPrinted(sink: int -> Outcome<Exn>, n: int)
    requires InInt32(n)
    ensures IntSetter(sink, Some(IntToString(n))) == Run(Some(n), sink(n))
  {
    ParseIntReadsBack(n);
  }

  /** The consumers above as installed on an option: only the outcome is visible. */
  function Installed<R>(run: Option<string> -> Run<R>): (c: Consumer)
    ensures forall s :: c(s) == run(s).outcome
  {
    s => run(s).outcome
  }
}
