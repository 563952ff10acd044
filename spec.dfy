/** `CliSpecification`: the top-level options wrapped in one required group, built once
    and registered with no override; `parse(String[])`, which hands the arguments to the
    Apache parser, validates the tree and only then fires the consumers; and
    `parse(URL)`, which first turns the URL's query into an argument list. */
module CliSpec {
  import opened Wrappers
  import opened Text
  import opened Context
  import opened Options
  import opened CliNodes
  import opened CliNodeProps
  import opened CliBuilders
  import opened CliNodeLoops

  /** `create(options...)`: the options become the choices of a group whose `isRequired`
      is set; no options is the group constructor's error. */
  function Create(options: seq<Builder>): (r: Result<Builder, Exn>)
    ensures r.Err? <==> |options| == 0
    ensures r.Err? ==> r.error == IllegalState("group option requires at least 1 choices")
    ensures r.Ok? ==> r.value.GroupB? && r.value.isRequired && r.value.choices == options && r.value.validators == []
  {
    match NewGroup(options)
    case Err(e) => Err(e)
    case Ok(g) => Ok(WithRequired(g, true))
  }

  // -------------------------------------------------------------------- parse

  /** One run of `parse`: the command line it returns or the exception it throws, and
      the consumers it called on the way. */
  datatype ParseRun = ParseRun(result: Result<Cli, Exn>, calls: seq<Call>)

  /** `parse(args)` on the tree `root`, given what the Apache parser made of the
      arguments. A parser exception becomes the cause of a `ValidationError` and nothing
      else runs; otherwise the tree is validated, and the consumers are fired only once
      validation has passed. */
  function Parsed(root: Node, parsed: Result<Cli, Exn>): (p: ParseRun)
    ensures parsed.Err? ==> p == ParseRun(Err(WrapCause(ValidationErrorKind, parsed.error)), [])
    ensures parsed.Ok? && !Sound(root, parsed.value) ==>
      Validate(root, parsed.value).Fail? && p == ParseRun(Err(Validate(root, parsed.value).error), [])
    ensures p.calls != [] ==> parsed.Ok? && Sound(root, parsed.value)
    ensures parsed.Ok? ==> p.calls <= PresentCalls(Leaves(root), parsed.value)
    ensures p.result.Ok? <==> parsed.Ok? && Sound(root, parsed.value) && Fire(root, parsed.value).error.None?
    ensures p.result.Ok? ==> p.result.value == parsed.value && p.calls == PresentCalls(Leaves(root), parsed.value)
    ensures parsed.Ok? && Sound(root, parsed.value) && ConsumersAccept(Leaves(root), parsed.value) ==>
      p == ParseRun(Ok(parsed.value), PresentCalls(Leaves(root), parsed.value))
  {
    match parsed
    case Err(e) => ParseRun(Err(WrapCause(ValidationErrorKind, e)), [])
    case Ok(cli) =>
      ValidatePassIffSound(root, cli);
      FireTrace(root, cli);
      match Validate(root, cli)
      case Fail(e) => ParseRun(Err(e), [])
      case Pass =>
        var fired := Fire(root, cli);
        ParseRun(if fired.error.None? then Ok(cli) else Err(fired.error.value), fired.calls)
  }

  /** What Apache's `DefaultParser.parse` promises of a command line it returns: every
      option of the table marked required was given. When one is not, the parser itself
      throws `MissingOptionException`. */
  predicate EnforcesRequired(table: seq<ApacheOption>, parsed: Result<Cli, Exn>) {
    parsed.Ok? ==> forall i :: 0 <= i < |table| && table[i].required ==> table[i].opt in parsed.value.present
  }

  /** Arguments that leave out an option the table marks required never reach `validate`:
      a parser that checks required options throws, and `parse` rethrows its exception as
      the cause of a `ValidationError`, calling no consumer. */
  lemma MissingRequiredRefusedByParser(root: Node, parsed: Result<Cli, Exn>, given: set<string>, i: nat)
    requires EnforcesRequired(Table(root), parsed)
    requires parsed.Ok? ==> parsed.value.present == given
    requires i < |Table(root)| && Table(root)[i].required && Table(root)[i].opt !in given
    ensures parsed.Err?
    ensures Parsed(root, parsed) == ParseRun(Err(WrapCause(ValidationErrorKind, parsed.error)), [])
    ensures IsCliValidation(Parsed(root, parsed).result.error)
  {
  }

  // -------------------------------------------------------------- parse(URL)

  /** `URLDecoder.decode(s, "UTF-8")`, supplied by the caller: the decoded string or the
      exception of a malformed escape. */
  type Decoder = string -> Result<string, Exn>

  /** The arguments one `&`-separated piece of a query yields: `"-" + key` and `value`
      when the piece has an `=` after its first character, `"-" + piece` otherwise. */
  function PieceArgs(piece: string, decode: Decoder): (r: Result<seq<string>, Exn>)
    ensures r.Ok? ==> |r.value| == (if IndexOf(piece, '=') > 0 then 2 else 1)
    ensures r.Ok? ==> r.value[0] != "" && r.value[0][0] == '-'
  {
    var i := IndexOf(piece, '=');
    if i > 0 then
      match decode(piece[..i])
      case Err(e) => Err(e)
      case Ok(key) =>
        match decode(piece[i + 1..])
        case Err(e) => Err(e)
        case Ok(value) => Ok(["-" + key, value])
    else
      match decode(piece)
      case Err(e) => Err(e)
      case Ok(name) => Ok(["-" + name])
  }

  /** The arguments of the pieces in order; the first decoding exception ends it. */
  function PiecesArgs(pieces: seq<string>, decode: Decoder): (r: Result<seq<string>, Exn>)
    ensures r.Ok? <==> forall k :: 0 <= k < |pieces| ==> PieceArgs(pieces[k], decode).Ok?
    ensures r.Err? ==> exists k :: 0 <= k < |pieces| && PieceArgs(pieces[k], decode) == Err(r.error)
  {
    if |pieces| == 0 then Ok([])
    else
      assert forall k :: 0 <= k < |pieces| - 1 ==> pieces[..|pieces| - 1][k] == pieces[k];
      match PiecesArgs(pieces[..|pieces| - 1], decode)
      case Err(e) => Err(e)
      case Ok(init) =>
        match PieceArgs(pieces[|pieces| - 1], decode)
        case Err(e) => Err(e)
        case Ok(last) => Ok(init + last)
  }

  /** The argument list `parse(URL)` builds from `url.getQuery()`; a URL without a query
      makes `split` throw `NullPointerException`. */
  function QueryArgs(query: Option<string>, decode: Decoder): (r: Result<seq<string>, Exn>)
    ensures query.None? ==> r.Err? && r.error == Thrown("java.lang.NullPointerException", None)
    ensures query.Some? ==>
      (r.Ok? <==> forall k :: 0 <= k < |Split(query.value, '&')| ==> PieceArgs(Split(query.value, '&')[k], decode).Ok?)
  {
    match query
    case None => Err(Thrown("java.lang.NullPointerException", None))
    case Some(q) => PiecesArgs(Split(q, '&'), decode)
  }

  /** Once a prefix of the pieces fails, so do all of them, with the same exception. */
  lemma {:induction false} PiecesArgsStops(pieces: seq<string>, k: nat, decode: Decoder)
    requires k <= |pieces| && PiecesArgs(pieces[..k], decode).Err?
    ensures PiecesArgs(pieces, decode) == PiecesArgs(pieces[..k], decode)
    decreases |pieces| - k
  {
    if k < |pieces| {
      assert pieces[..k + 1][..k] == pieces[..k];
      PiecesArgsStops(pieces, k + 1, decode);
    } else {
      assert pieces[..k] == pieces;
    }
  }

  lemma PiecesArgsSnoc(pieces: seq<string>, k: nat, decode: Decoder, args: seq<string>)
    requires k < |pieces| && PiecesArgs(pieces[..k], decode) == Ok(args)
    ensures PiecesArgs(pieces[..k + 1], decode) ==
      match PieceArgs(pieces[k], decode) case Err(e) => Err(e) case Ok(last) => Ok(args + last)
  {
    assert pieces[..k + 1][..k] == pieces[..k];
  }

  /** The loop of `parse(URL)` that fills `args`. */
  method QueryArgsM(query: Option<string>, decode: Decoder) returns (r: Result<seq<string>, Exn>)
    ensures r == QueryArgs(query, decode)
  {
    if query.None? {
      return Err(Thrown("java.lang.NullPointerException", None));
    }
    var split := Split(query.value, '&');
    r := PiecesArgsM(split, decode);
  }

  /** The loop over the pieces of the query. */
  method PiecesArgsM(split: seq<string>, decode: Decoder) returns (r: Result<seq<string>, Exn>)
    ensures r == PiecesArgs(split, decode)
  {
    var args: seq<string> := [];
    for k := 0 to |split|
      invariant PiecesArgs(split[..k], decode) == Ok(args)
    {
      PiecesArgsSnoc(split, k, decode, args);
      var s := split[k];
      var index := IndexOf(s, '=');
      if index > 0 {
        var key := decode(s[..index]);
        if key.Err? {
          PiecesArgsStops(split, k + 1, decode);
          return Err(key.error);
        }
        var value := decode(s[index + 1..]);
        if value.Err? {
          PiecesArgsStops(split, k + 1, decode);
          return Err(value.error);
        }
        args := args + ["-" + key.value, value.value];
      } else {
        var name := decode(s);
        if name.Err? {
          PiecesArgsStops(split, k + 1, decode);
          return Err(name.error);
        }
        args := args + ["-" + name.value];
      }
    }
    assert split[..|split|] == split;
    return Ok(args);
  }

  /** The query `k1=v1&k2=v2&...` of some key/value pairs. */
  function PairsQuery(pairs: seq<(string, string)>): string {
    Join(PairPieces(pairs), "&")
  }

  function PairPieces(pairs: seq<(string, string)>): (r: seq<string>)
    ensures |r| == |pairs|
    ensures forall i :: 0 <= i < |pairs| ==> r[i] == pairs[i].0 + "=" + pairs[i].1
  {
    seq(|pairs|, i requires 0 <= i < |pairs| => pairs[i].0 + "=" + pairs[i].1)
  }

  /** A pair a query can carry: a key with no `=` or `&` that is not empty, and a value
      without `&`, both of which decode. */
  predicate Carried(pair: (string, string), decode: Decoder) {
    pair.0 != "" && '=' !in pair.0 && '&' !in pair.0 && '&' !in pair.1 &&
    decode(pair.0).Ok? && decode(pair.1).Ok?
  }

  /** The argument list `-key value ...` of some pairs, decoded. */
  function DecodedArgs(pairs: seq<(string, string)>, decode: Decoder): seq<string>
    requires forall i :: 0 <= i < |pairs| ==> Carried(pairs[i], decode)
  {
    if |pairs| == 0 then []
    else
      var p := pairs[|pairs| - 1];
      assert Carried(p, decode);
      DecodedArgs(pairs[..|pairs| - 1], decode) + ["-" + decode(p.0).value, decode(p.1).value]
  }

  /** The first occurrence of `c` in `a + [c] + b` is the one after `a` when `a` holds
      no `c`. */
  lemma IndexOfAfter(a: string, c: char, b: string)
    requires c !in a
    ensures IndexOf(a + [c] + b, c) == |a|
  {
    var s := a + [c] + b;
    var i := IndexOf(s, c);
    assert s[|a|] == c;
    assert forall j :: 0 <= j < |a| ==> s[j] == a[j];
  }

  /** Splitting pieces joined with a separator they do not hold gives them back. */
  lemma {:induction false} SplitAllOfJoin(ps: seq<string>, c: char)
    requires |ps| > 0
    requires forall i :: 0 <= i < |ps| ==> c !in ps[i]
    ensures SplitAll(Join(ps, [c]), c) == ps
  {
    if |ps| == 1 {
      assert Join(ps, [c]) == ps[0];
    } else {
      var rest := ps[1..];
      assert ps == [ps[0]] + rest;
      JoinCons(ps[0], rest, [c]);
      var s := Join(ps, [c]);
      assert s == ps[0] + [c] + Join(rest, [c]);
      IndexOfAfter(ps[0], c, Join(rest, [c]));
      assert s[..|ps[0]|] == ps[0];
      assert s[|ps[0]| + 1..] == Join(rest, [c]);
      SplitAllOfJoin(rest, c);
    }
  }

  lemma {:induction false} PairPiecesArgs(pairs: seq<(string, string)>, decode: Decoder)
    requires forall i :: 0 <= i < |pairs| ==> Carried(pairs[i], decode)
    ensures PiecesArgs(PairPieces(pairs), decode) == Ok(DecodedArgs(pairs, decode))
  {
    if |pairs| > 0 {
      var ps := PairPieces(pairs);
      var init := pairs[..|pairs| - 1];
      var p := pairs[|pairs| - 1];
      assert ps[..|ps| - 1] == PairPieces(init);
      PairPiecesArgs(init, decode);
      IndexOfAfter(p.0, '=', p.1);
      var piece := ps[|ps| - 1];
      assert piece == p.0 + ['='] + p.1;
      assert piece[..|p.0|] == p.0;
      assert piece[|p.0| + 1..] == p.1;
    }
  }

  /** `parse(URL)` reads back a query of key/value pairs: the arguments are `-key value`
      for each pair, decoded, in the order of the query. */
  lemma QueryOfPairs(pairs: seq<(string, string)>, decode: Decoder)
    requires |pairs| > 0
    requires forall i :: 0 <= i < |pairs| ==> Carried(pairs[i], decode)
    ensures QueryArgs(Some(PairsQuery(pairs)), decode) == Ok(DecodedArgs(pairs, decode))
  {
    SplitOfPairs(pairs, decode);
    PairPiecesArgs(pairs, decode);
  }

  /** Splitting the query at `&` gives back the pieces `key=value`. */
  lemma SplitOfPairs(pairs: seq<(string, string)>, decode: Decoder)
    requires |pairs| > 0
    requires forall i :: 0 <= i < |pairs| ==> Carried(pairs[i], decode)
    ensures Split(PairsQuery(pairs), '&') == PairPieces(pairs)
  {
    var ps := PairPieces(pairs);
    assert forall i :: 0 <= i < |ps| ==> '&' !in ps[i] by {
      forall i | 0 <= i < |ps| ensures '&' !in ps[i] {
        assert Carried(pairs[i], decode);
        assert ps[i] == pairs[i].0 + "=" + pairs[i].1;
      }
    }
    SplitAllOfJoin(ps, '&');
    var q := PairsQuery(pairs);
    assert ps[|ps| - 1] != "" by {
      assert Carried(pairs[|pairs| - 1], decode);
    }
    if '&' !in q {
      assert SplitAll(q, '&') == [q];
    }
  }

  /** A piece without `=` after its first character is taken as a flag. */
  lemma FlagPiece(piece: string, decode: Decoder)
    requires IndexOf(piece, '=') <= 0 && decode(piece).Ok?
    ensures PieceArgs(piece, decode) == Ok(["-" + decode(piece).value])
  {
  }

  // ------------------------------------------------------- CliSpecification

  /** The leaf builders of a builder tree exist already, so a new object is none of them. */
  lemma {:induction false} ObjectsAllocated(b: Builder)
    ensures forall o | o in Objects(b) :: allocated(o)
    decreases b, 1
  {
    if !b.BasicB? {
      ObjectsAllAllocated(b.choices);
    }
  }

  lemma {:induction false} ObjectsAllAllocated(cs: seq<Builder>)
    ensures forall o | o in ObjectsAll(cs) :: allocated(o)
    decreases cs, 0
  {
    if |cs| > 0 {
      ObjectsAllAllocated(cs[..|cs| - 1]);
      ObjectsAllocated(cs[|cs| - 1]);
    }
  }

  /** The Apache parser, supplied by the caller: the command line it makes of an
      option table and an argument list, or the `ParseException` it throws. */
  type Parser = (seq<ApacheOption>, seq<string>) -> Result<Cli, Exn>

  /** A `CliSpecification`: the built, registered root node and the option table
      holding its leaves' Apache options. */
  class CliSpecification {
    var root: Node
    var options: OptionTable

    /** The table lists the options of the root's leaves, in order. */
    predicate Valid()
      reads this, options
    {
      options.entries == Table(root)
    }

    /** `new CliSpecification(options)`: the root is `options.build()` registered with
        override `null`. */
    constructor (b: Builder)
      ensures root == Registered(Build(b), None)
      ensures fresh(options)
      ensures Valid()
    {
      ObjectsAllocated(b);
      var built := Build(b);
      var table := new OptionTable();
      var registered := AddTo(built, table, None);
      root := registered;
      options := table;
    }

    /** `parse(args)` with the Apache parser `parser`. */
    method Parse(args: seq<string>, parser: Parser) returns (r: Result<Cli, Exn>, calls: seq<Call>)
      ensures ParseRun(r, calls) == Parsed(root, parser(options.entries, args))
    {
      var parsed := parser(options.entries, args);
      if parsed.Err? {
        return Err(WrapCause(ValidationErrorKind, parsed.error)), [];
      }
      var cli := parsed.value;
      var v := ValidateM(root, cli);
      if v.Fail? {
        return Err(v.error), [];
      }
      var fired := FireM(root, cli);
      calls := fired.calls;
      r := if fired.error.None? then Ok(cli) else Err(fired.error.value);
    }

    /** `parse(url)`: the query's arguments, then `parse(args)`. */
    method ParseUrl(query: Option<string>, decode: Decoder, parser: Parser) returns (r: Result<Cli, Exn>, calls: seq<Call>)
      ensures QueryArgs(query, decode).Err? ==> r == Err(QueryArgs(query, decode).error) && calls == []
      ensures QueryArgs(query, decode).Ok? ==>
        ParseRun(r, calls) == Parsed(root, parser(options.entries, QueryArgs(query, decode).value))
    {
      var args := QueryArgsM(query, decode);
      if args.Err? {
        return Err(args.error), [];
      }
      r, calls := Parse(args.value, parser);
    }
  }
}
