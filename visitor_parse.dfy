/** What `CommandLine.parse(args)` does once the Apache parser has run: the
    `ParseException` becomes a `ValidationError`; otherwise every validation builder
    validates the set of options given, then every given option with a consumer is
    handed its value, trimmed. */
module VisitorParse {
  import opened Wrappers
  import opened Text
  import opened Context
  import opened VisitorBuilders

  /** `cmd.getOptionValue(opt)`, trimmed unless it is null. */
  function TrimmedValue(cli: Cli, opt: string): (v: Option<string>)
    ensures v.Some? <==> cli.OptionValue(opt).Some?
    ensures v.Some? ==> v.value == Trim(cli.OptionValue(opt).value)
    ensures v.Some? ==> v.value == "" || (!IsTrimmed(v.value[0]) && !IsTrimmed(v.value[|v.value| - 1]))
  {
    match cli.OptionValue(opt)
    case None => None
    case Some(s) => Some(Trim(s))
  }

  /** The loop of `parse` over the options given, in iteration order `order`: each one
      with a consumer is handed its trimmed value; the first exception ends the loop. */
  function Consumed(consumers: map<string, Consumer>, cli: Cli, order: seq<string>): (r: FireResult)
    ensures |r.calls| <= |order|
  {
    if |order| == 0 then FireResult([], None)
    else
      var init := Consumed(consumers, cli, order[..|order| - 1]);
      var opt := order[|order| - 1];
      if init.error.Some? || opt !in consumers then init
      else
        var v := TrimmedValue(cli, opt);
        FireResult(init.calls + [Call(opt, v)], match consumers[opt](v) case Pass => None case Fail(e) => Some(e))
  }

  /** `parse(args)` given what the Apache parser made of `args`: `order(seen)` stands
      for the iteration order of the `HashSet` of options given, and `name(i)` for
      builder `i`'s `toString()`. */
  function ParseOutcome(bs: seq<VBuilder>, consumers: map<string, Consumer>, parsed: Result<Cli, Exn>,
                        order: set<string> -> seq<string>, name: nat -> string): (r: FireResult)
    requires SubsAfter(bs)
  {
    match parsed
    case Err(e) => FireResult([], Some(WrapCause(ValidationErrorKind, e)))
    case Ok(cli) =>
      match ValidateAll(bs, |bs|, cli.present, name)
      case Fail(e) => FireResult([], Some(e))
      case Pass => Consumed(consumers, cli, order(cli.present))
  }

  // --------------------------------------------------------------- properties

  /** Every consumer of an option in `order` accepts the option's trimmed value. */
  predicate Accepts(consumers: map<string, Consumer>, cli: Cli, order: seq<string>) {
    forall o :: o in order && o in consumers ==> consumers[o](TrimmedValue(cli, o)) == Pass
  }

  /** No option is handed a value twice. */
  predicate CalledOnce(calls: seq<Call>) {
    forall j, k :: 0 <= j < k < |calls| ==> calls[j].name != calls[k].name
  }

  /** `order` lists the set `s`, each element once. */
  predicate Enumerates(order: seq<string>, s: set<string>) {
    Distinct(order) && (forall o :: o in order ==> o in s) && (forall o :: o in s ==> o in order)
  }

  /** The consumers' loop calls only consumers of options in `order`, each with its
      option's trimmed value; when nothing threw it called every one of them; when
      all of them accept nothing throws; and an exception comes from the last call. */
  lemma {:induction false} ConsumedTrace(consumers: map<string, Consumer>, cli: Cli, order: seq<string>)
    ensures var r := Consumed(consumers, cli, order);
      && (forall c :: c in r.calls ==> c.name in order && c.name in consumers && c.value == TrimmedValue(cli, c.name))
      && (r.error.None? ==> forall o :: o in order && o in consumers ==> Call(o, TrimmedValue(cli, o)) in r.calls)
      && (Accepts(consumers, cli, order) ==> r.error.None?)
      && (r.error.Some? ==>
            && |r.calls| > 0 && r.calls[|r.calls| - 1].name in consumers
            && consumers[r.calls[|r.calls| - 1].name](r.calls[|r.calls| - 1].value) == Fail(r.error.value))
  {
    if |order| > 0 {
      var init := order[..|order| - 1];
      assert order == init + [order[|order| - 1]];
      ConsumedTrace(consumers, cli, init);
      assert Accepts(consumers, cli, order) ==> Accepts(consumers, cli, init);
    }
  }

  /** Once a consumer has thrown, the loop calls no further consumer. */
  lemma {:induction false} ConsumedStops(consumers: map<string, Consumer>, cli: Cli, order: seq<string>, k: nat)
    requires k <= |order| && Consumed(consumers, cli, order[..k]).error.Some?
    ensures Consumed(consumers, cli, order) == Consumed(consumers, cli, order[..k])
    decreases |order| - k
  {
    if k < |order| {
      assert order[..k + 1][..k] == order[..k];
      ConsumedStops(consumers, cli, order, k + 1);
    } else {
      assert order[..k] == order;
    }
  }

  /** When the options are listed once each, each consumer is called at most once. */
  lemma {:induction false} ConsumedOnce(consumers: map<string, Consumer>, cli: Cli, order: seq<string>)
    requires Distinct(order)
    ensures CalledOnce(Consumed(consumers, cli, order).calls)
  {
    if |order| > 0 {
      var init := order[..|order| - 1];
      var last := order[|order| - 1];
      assert Distinct(init) by {
        forall j, k | 0 <= j < k < |init| ensures init[j] != init[k] {
          assert init[j] == order[j] && init[k] == order[k];
        }
      }
      assert last !in init by {
        forall j | 0 <= j < |init| ensures init[j] != last {
          assert init[j] == order[j];
        }
      }
      ConsumedOnce(consumers, cli, init);
      ConsumedTrace(consumers, cli, init);
    }
  }

  /** A `ParseException` is rethrown as a `ValidationError` caused by it, and no
      consumer is called. */
  lemma ParseRejected(bs: seq<VBuilder>, consumers: map<string, Consumer>, e: Exn,
                      order: set<string> -> seq<string>, name: nat -> string)
    requires SubsAfter(bs)
    ensures var r := ParseOutcome(bs, consumers, Err(e), order, name);
      r.calls == [] && r.error == Some(CliValidation(ValidationErrorKind, Some(ToString(e)), Some(e)))
  {
  }

  /** A consumer is called only after the parser accepted the arguments and every
      validation builder accepted the options given; and then only consumers of
      given options are called, each with its option's trimmed value. */
  lemma ConsumersAfterValidation(bs: seq<VBuilder>, consumers: map<string, Consumer>, parsed: Result<Cli, Exn>,
                                 order: set<string> -> seq<string>, name: nat -> string)
    requires SubsAfter(bs)
    requires forall s :: Enumerates(order(s), s)
    ensures var r := ParseOutcome(bs, consumers, parsed, order, name);
      r.calls != [] ==>
        && parsed.Ok?
        && (forall i :: 0 <= i < |bs| ==> Validate(bs, i, parsed.value.present, name).Ok?)
        && (forall c :: c in r.calls ==>
              && c.name in parsed.value.present && c.name in consumers
              && c.value == TrimmedValue(parsed.value, c.name))
        && CalledOnce(r.calls)
  {
    if parsed.Ok? && ValidateAll(bs, |bs|, parsed.value.present, name) == Pass {
      var cli := parsed.value;
      ConsumedTrace(consumers, cli, order(cli.present));
      ConsumedOnce(consumers, cli, order(cli.present));
    }
  }

  /** When the arguments parse, every builder accepts them and every consumer accepts
      its value, `parse` throws nothing and hands each given option that has a
      consumer its trimmed value, exactly once. */
  lemma ParseFiresEach(bs: seq<VBuilder>, consumers: map<string, Consumer>, cli: Cli,
                       order: set<string> -> seq<string>, name: nat -> string)
    requires SubsAfter(bs)
    requires Enumerates(order(cli.present), cli.present)
    requires forall i :: 0 <= i < |bs| ==> Validate(bs, i, cli.present, name).Ok?
    requires forall o :: o in cli.present && o in consumers ==> consumers[o](TrimmedValue(cli, o)) == Pass
    ensures var r := ParseOutcome(bs, consumers, Ok(cli), order, name);
      && r.error.None?
      && (forall o :: o in cli.present && o in consumers ==> Call(o, TrimmedValue(cli, o)) in r.calls)
      && (forall c :: c in r.calls ==> c.name in cli.present && c.name in consumers)
      && CalledOnce(r.calls)
  {
    ValidateAllPass(bs, |bs|, cli.present, name);
    ConsumedTrace(consumers, cli, order(cli.present));
    ConsumedOnce(consumers, cli, order(cli.present));
  }
}
