/** The few java.lang.String and java.util.stream operations the engine relies on:
    `Collectors.joining`, `AbstractCollection.toString`, `String.indexOf(char)`,
    `String.split` with a one-character pattern, and `String.trim`. */
module Text {

  /** `parts.stream().collect(Collectors.joining(sep))`. */
  function Join(parts: seq<string>, sep: string): string {
    if |parts| == 0 then ""
    else if |parts| == 1 then parts[0]
    else Join(parts[..|parts| - 1], sep) + sep + parts[|parts| - 1]
  }

  /** `Collectors.joining(sep, prefix, suffix)`. */
  function Wrap(prefix: string, parts: seq<string>, sep: string, suffix: string): string {
    prefix + Join(parts, sep) + suffix
  }

  /** `List.toString()`: the elements between brackets, separated by ", ". */
  function ListToString(parts: seq<string>): string {
    Wrap("[", parts, ", ", "]")
  }

  /** Joining puts the separator between the first part and the join of the rest. */
  lemma {:induction false} JoinCons(p: string, rest: seq<string>, sep: string)
    requires |rest| > 0
    ensures Join([p] + rest, sep) == p + sep + Join(rest, sep)
  {
    if |rest| == 1 {
      assert [p] + rest == [p, rest[0]];
    } else {
      var init := rest[..|rest| - 1];
      JoinCons(p, init, sep);
      assert ([p] + rest)[..|rest|] == [p] + init;
    }
  }

  /** When no part is empty, the joined string is empty exactly when there are no parts. */
  lemma {:induction false} JoinEmptyIffNoParts(parts: seq<string>, sep: string)
    requires forall i :: 0 <= i < |parts| ==> parts[i] != ""
    ensures Join(parts, sep) == "" <==> parts == []
  {
    if |parts| > 1 {
      assert parts[|parts| - 1] != "";
    } else if |parts| == 1 {
      assert parts[0] != "";
    }
  }

  /** `s.indexOf(c)`: the first index of `c` in `s`, or -1. */
  function IndexOf(s: string, c: char): (i: int)
    ensures -1 <= i < |s|
    ensures i == -1 <==> c !in s
    ensures i >= 0 ==> s[i] == c && c !in s[..i]
  {
    if |s| == 0 then -1
    else if s[0] == c then 0
    else
      var j := IndexOf(s[1..], c);
      assert s[1..][..if j < 0 then 0 else j] == s[1..if j < 0 then 1 else j + 1];
      if j < 0 then -1 else j + 1
  }

  /** The pieces of `s` between occurrences of `c`, empty pieces included. */
  function SplitAll(s: string, c: char): (r: seq<string>)
    ensures |r| >= 1
    ensures forall k :: 0 <= k < |r| ==> c !in r[k]
    decreases |s|
  {
    var i := IndexOf(s, c);
    if i < 0 then [s] else [s[..i]] + SplitAll(s[i + 1..], c)
  }

  /** `ps` with trailing empty strings removed. */
  function DropTrailingEmpty(ps: seq<string>): (r: seq<string>)
    ensures r <= ps
    ensures r == [] || r[|r| - 1] != ""
    ensures forall k :: |r| <= k < |ps| ==> ps[k] == ""
  {
    if |ps| == 0 || ps[|ps| - 1] != "" then ps else DropTrailingEmpty(ps[..|ps| - 1])
  }

  /** `s.split(c)` for a pattern that is one ordinary character: the whole string when
      `c` does not occur, otherwise the pieces without the trailing empty ones. */
  function Split(s: string, c: char): (r: seq<string>)
    ensures c !in s ==> r == [s]
    ensures c in s ==> r == DropTrailingEmpty(SplitAll(s, c))
  {
    if IndexOf(s, c) < 0 then [s] else DropTrailingEmpty(SplitAll(s, c))
  }

  /** Joining the pieces of a split with the separator gives back the string. */
  lemma {:induction false} SplitAllJoin(s: string, c: char)
    ensures Join(SplitAll(s, c), [c]) == s
    decreases |s|
  {
    var i := IndexOf(s, c);
    if i >= 0 {
      var rest := s[i + 1..];
      var tail := SplitAll(rest, c);
      assert SplitAll(s, c) == [s[..i]] + tail;
      SplitAllJoin(rest, c);
      JoinCons(s[..i], tail, [c]);
      Rejoin(s, i);
    } else {
      assert SplitAll(s, c) == [s];
    }
  }

  lemma Rejoin(s: string, i: nat)
    requires i < |s|
    ensures s[..i] + [s[i]] + s[i + 1..] == s
  {
  }

  /** Characters `String.trim` removes: code points up to the space character. */
  predicate IsTrimmed(ch: char) {
    ch <= ' '
  }

  /** `s` without its leading characters up to ' '. */
  function TrimStart(s: string): (r: string)
    ensures r == "" || !IsTrimmed(r[0])
    ensures |r| <= |s| && r == s[|s| - |r|..]
    ensures forall k :: 0 <= k < |s| - |r| ==> IsTrimmed(s[k])
  {
    if |s| > 0 && IsTrimmed(s[0]) then TrimStart(s[1..]) else s
  }

  /** `s` without its trailing characters up to ' '. */
  function TrimEnd(s: string): (r: string)
    ensures r == "" || !IsTrimmed(r[|r| - 1])
    ensures |r| <= |s| && r == s[..|r|]
    ensures forall k :: |r| <= k < |s| ==> IsTrimmed(s[k])
  {
    if |s| > 0 && IsTrimmed(s[|s| - 1]) then TrimEnd(s[..|s| - 1]) else s
  }

  /** `s.trim()`: `s` without its leading and trailing characters up to ' '. */
  function Trim(s: string): (r: string)
    ensures r == "" || (!IsTrimmed(r[0]) && !IsTrimmed(r[|r| - 1]))
    ensures |r| <= |s|
    ensures exists i :: 0 <= i <= |s| - |r| && Trimmed(s, i, r)
  {
    var a := TrimStart(s);
    var b := TrimEnd(a);
    CutOf(s, a, b);
    b
  }

  /** `r` is `s` from index `i` on, with only characters up to ' ' cut off before `i`
      and after `r`. */
  predicate Trimmed(s: string, i: nat, r: string) {
    && i + |r| <= |s| && s[i..i + |r|] == r
    && (forall k :: 0 <= k < i ==> IsTrimmed(s[k]))
    && (forall k :: i + |r| <= k < |s| ==> IsTrimmed(s[k]))
  }

  /** A suffix `a` of `s` with only characters up to ' ' before it, cut down to a prefix
      `b` with only such characters after it, is such a cut of `s`. */
  lemma CutOf(s: string, a: string, b: string)
    requires |a| <= |s| && a == s[|s| - |a|..]
    requires forall k :: 0 <= k < |s| - |a| ==> IsTrimmed(s[k])
    requires |b| <= |a| && b == a[..|b|]
    requires forall k :: |b| <= k < |a| ==> IsTrimmed(a[k])
    requires a == "" || !IsTrimmed(a[0])
    ensures Trimmed(s, |s| - |a|, b) && (b == "" || !IsTrimmed(b[0]))
  {
    var i := |s| - |a|;
    assert s[i..][..|b|] == s[i..i + |b|];
    forall k | i + |b| <= k < |s|
      ensures IsTrimmed(s[k])
    {
      assert s[k] == a[k - i];
    }
  }

  /** Two cuts of `s` that both start on a kept character start at the same index. */
  lemma CutStart(s: string, i: nat, r: string, j: nat, t: string)
    requires Trimmed(s, i, r) && r != "" && !IsTrimmed(r[0])
    requires Trimmed(s, j, t) && t != "" && !IsTrimmed(t[0])
    ensures i == j
  {
    assert s[i] == r[0] && s[j] == t[0];
  }

  /** Two cuts of `s` that both end on a kept character end at the same index. */
  lemma CutEnd(s: string, i: nat, r: string, j: nat, t: string)
    requires Trimmed(s, i, r) && r != "" && !IsTrimmed(r[|r| - 1])
    requires Trimmed(s, j, t) && t != "" && !IsTrimmed(t[|t| - 1])
    ensures i + |r| == j + |t|
  {
    assert s[i + |r| - 1] == r[|r| - 1] && s[j + |t| - 1] == t[|t| - 1];
  }

  /** `trim()` is the one such cut whose ends are kept: any `r` that is `s` with only
      characters up to ' ' cut off at both ends, and that neither starts nor ends with
      one, is `Trim(s)`. */
  lemma TrimUnique(s: string, i: nat, r: string)
    requires Trimmed(s, i, r)
    requires r == "" || (!IsTrimmed(r[0]) && !IsTrimmed(r[|r| - 1]))
    ensures Trim(s) == r
  {
    var t := Trim(s);
    var j :| 0 <= j <= |s| - |t| && Trimmed(s, j, t);
    if r != "" && t != "" {
      CutStart(s, i, r, j, t);
      CutEnd(s, i, r, j, t);
    }
  }

  /** Trimming leaves a string alone when it neither starts nor ends with such a character. */
  lemma TrimKeepsClean(s: string)
    requires s == "" || (!IsTrimmed(s[0]) && !IsTrimmed(s[|s| - 1]))
    ensures Trim(s) == s
  {
  }
}
