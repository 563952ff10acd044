/** What a visit tells the validation builders, and so what `validate` then enforces
    for a group of leaf options: the older engine's meaning of a required group, an
    optional group and a radio. */
module VisitorProps {
  import opened Wrappers
  import opened Context
  import opened VisitorOptions
  import opened VisitorBuilders
  import opened VisitorEngine

  /** Some leaf of `os` is named `n`. */
  predicate NamedIn(os: seq<LeafOption>, n: string) {
    exists k :: 0 <= k < |os| && os[k].argName == n
  }

  /** Some leaf of `os` named `n` is reported required when its group clears with `clear`. */
  predicate RequiredIn(os: seq<LeafOption>, n: string, clear: bool) {
    exists k :: 0 <= k < |os| && os[k].argName == n && os[k].isRequired && !clear
  }

  lemma NamedSplit(os: seq<LeafOption>, n: string, clear: bool)
    requires |os| > 0
    ensures NamedIn(os, n) <==> os[0].argName == n || NamedIn(os[1..], n)
    ensures RequiredIn(os, n, clear) <==> (os[0].argName == n && os[0].isRequired && !clear) || RequiredIn(os[1..], n, clear)
  {
    if NamedIn(os, n) && os[0].argName != n {
      var k :| 0 <= k < |os| && os[k].argName == n;
      assert os[1..][k - 1] == os[k];
    }
    if NamedIn(os[1..], n) {
      var k :| 0 <= k < |os[1..]| && os[1..][k].argName == n;
      assert os[k + 1] == os[1..][k];
    }
    if RequiredIn(os, n, clear) && !(os[0].argName == n && os[0].isRequired && !clear) {
      var k :| 0 <= k < |os| && os[k].argName == n && os[k].isRequired && !clear;
      assert os[1..][k - 1] == os[k];
    }
    if RequiredIn(os[1..], n, clear) {
      var k :| 0 <= k < |os[1..]| && os[1..][k].argName == n && os[1..][k].isRequired && !clear;
      assert os[k + 1] == os[1..][k];
    }
  }

  /** A visit tells a radio's builder the names of all its leaves, and a grouped
      builder, as required, the names of the leaves reported required. */
  lemma {:induction false} ToldNames(b: VBuilder, os: seq<LeafOption>, clear: bool)
    ensures b.RadioVB? ==> forall n :: n in Told(b, os, clear).oneOf <==> n in b.oneOf || NamedIn(os, n)
    ensures !b.RadioVB? ==> forall n :: n in Told(b, os, clear).required <==> n in b.required || RequiredIn(os, n, clear)
    decreases |os|
  {
    if |os| > 0 {
      var a := Reported(os[0], clear);
      var b1 := if a.required then AddRequired(b, a.opt) else AddOptional(b, a.opt);
      ToldNames(b1, os[1..], clear);
      forall n {
        NamedSplit(os, n, clear);
      }
    }
  }

  /** A group that clears its leaves' flags tells its builder no required name. */
  lemma {:induction false} ClearedTellsNoRequired(b: VBuilder, os: seq<LeafOption>)
    requires !b.RadioVB?
    ensures Told(b, os, true).required == b.required
    decreases |os|
  {
    if |os| > 0 {
      ClearedTellsNoRequired(AddOptional(b, os[0].argName), os[1..]);
    }
  }

  /** After a visit, the builder of a grouped group of leaves throws exactly when the
      group is required, the override is not `FALSE` and some required leaf was not
      given; when it returns, it counts as chosen exactly when the group is required.
      So an optional grouped group, whose leaves the visit reports optional, enforces
      nothing and never counts as chosen. */
  lemma GroupOfLeaves(bs: seq<VBuilder>, i: nat, q: bool, os: seq<LeafOption>, forced: Option<bool>,
                      seen: set<string>, name: nat -> string)
    requires SubsAfter(bs) && i < |bs| && bs[i] == Made(Grouped(q, os, []), forced, i)
    ensures var r := Validate(bs, i, seen, name);
      && (r.Err? <==> q && forced != Some(false) && exists k :: 0 <= k < |os| && os[k].isRequired && os[k].argName !in seen)
      && (r.Ok? ==> (r.value <==> q))
  {
    var clear := GroupClears(q, forced);
    var b := Told(GroupedVB(q, [], [], []), os, clear);
    ToldNames(GroupedVB(q, [], [], []), os, clear);
    assert bs[i] == b;
    GroupedOfNames(bs, i, seen, name);
    if exists k :: 0 <= k < |os| && os[k].isRequired && os[k].argName !in seen {
      var k :| 0 <= k < |os| && os[k].isRequired && os[k].argName !in seen;
      if !clear {
        assert RequiredIn(os, os[k].argName, clear);
      }
    }
    if !clear && SomeMissing(b.required, seen) {
      var n :| n in b.required && n !in seen;
      assert RequiredIn(os, n, clear);
    }
    if clear {
      ClearedTellsNoRequired(GroupedVB(q, [], [], []), os);
    }
  }

  /** After a visit, the builder of a radio of leaves whose names are different throws
      exactly when two of its leaves were given, or none was and the radio is required;
      when it returns, it counts as chosen exactly when one of its leaves was given. */
  lemma RadioOfLeaves(bs: seq<VBuilder>, i: nat, q: bool, os: seq<LeafOption>, forced: Option<bool>,
                      seen: set<string>, name: nat -> string)
    requires SubsAfter(bs) && i < |bs| && bs[i] == Made(Radio(q, os, []), forced, i)
    ensures var r := Validate(bs, i, seen, name); var given := exists k :: 0 <= k < |os| && os[k].argName in seen;
      && (r.Err? <==>
            (exists j, k :: 0 <= j < |os| && 0 <= k < |os| && os[j].argName != os[k].argName &&
               os[j].argName in seen && os[k].argName in seen)
            || (q && !given))
      && (r.Ok? ==> (r.value <==> given))
  {
    var b := Told(RadioVB(q, [], []), os, true);
    ToldNames(RadioVB(q, [], []), os, true);
    assert NamesDistinct(RadioVB(q, [], []));
    assert bs[i] == b;
    RadioOfNames(bs, i, seen, name);
    if exists k :: 0 <= k < |os| && os[k].argName in seen {
      var k :| 0 <= k < |os| && os[k].argName in seen;
      assert NamedIn(os, os[k].argName);
    }
    if SomeSeen(b.oneOf, seen) {
      var n :| n in b.oneOf && n in seen;
      assert NamedIn(os, n);
    }
    if exists j, k :: 0 <= j < |os| && 0 <= k < |os| && os[j].argName != os[k].argName && os[j].argName in seen && os[k].argName in seen {
      var j, k :| 0 <= j < |os| && 0 <= k < |os| && os[j].argName != os[k].argName && os[j].argName in seen && os[k].argName in seen;
      assert NamedIn(os, os[j].argName) && NamedIn(os, os[k].argName);
    }
    if TwoSeen(b.oneOf, seen) {
      var x, y :| x != y && x in b.oneOf && y in b.oneOf && x in seen && y in seen;
      assert NamedIn(os, x) && NamedIn(os, y);
    }
  }

  /** The builder of an optional grouped group, such as every group nested in a radio
      (the radio's constructor makes them optional), never counts as chosen: when its
      nested required builders return, it returns false. */
  lemma OptionalGroupNeverChosen(bs: seq<VBuilder>, i: nat, os: seq<LeafOption>, gs: seq<OptionGroup>,
                                 forced: Option<bool>, seen: set<string>, name: nat -> string)
    requires SubsAfter(bs) && i < |bs| && bs[i] == Made(Grouped(false, os, gs), forced, i)
    ensures Validate(bs, i, seen, name) != Ok(true)
    ensures Unmet(bs, i, bs[i].subs, seen, name).Ok? ==> Validate(bs, i, seen, name) == Ok(false)
  {
    var b := Told(GroupedVB(false, [], [], []), os, true);
    ClearedTellsNoRequired(GroupedVB(false, [], [], []), os);
    UnmetNothing(bs, i, bs[i].subs, seen, name);
  }
}
