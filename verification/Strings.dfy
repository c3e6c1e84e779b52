/**
 Go strings, and the splitting and joining that URL and hostname handling needs.

 A Go string is a sequence of bytes. Where the program works on bytes, a string is a `Bytes`:
 every character stands for one byte.
 */
module Strings {

  predicate IsByte(c: char) {
    c as int < 256
  }

  predicate AllBytes(s: string) {
    forall i | 0 <= i < |s| :: IsByte(s[i])
  }

  type Bytes = s: string | AllBytes(s)

  /** The position of the first `sep`, or the length of the string if there is none. */
  function IndexOf(s: string, sep: char): (i: nat)
    ensures i <= |s|
    ensures forall k | 0 <= k < i :: s[k] != sep
    ensures i < |s| ==> s[i] == sep
  {
    if s == "" || s[0] == sep then 0 else 1 + IndexOf(s[1..], sep)
  }

  /** The pieces of `s` between separators; there is always at least one piece. */
  function Split(s: string, sep: char): (parts: seq<string>)
    ensures |parts| >= 1
    ensures forall p | p in parts :: sep !in p
  {
    var i := IndexOf(s, sep);
    if i == |s| then [s] else [s[..i]] + Split(s[i + 1..], sep)
  }

  /** The pieces with one separator between neighbours. */
  function Join(parts: seq<string>, sep: char): string {
    if parts == [] then ""
    else if |parts| == 1 then parts[0]
    else parts[0] + [sep] + Join(parts[1..], sep)
  }

  lemma IndexOfUnique(s: string, sep: char, i: nat)
    requires i <= |s| && forall k | 0 <= k < i :: s[k] != sep
    requires i < |s| ==> s[i] == sep
    ensures IndexOf(s, sep) == i
  {
    hide IndexOf;
    var j := IndexOf(s, sep);
    assert i < |s| ==> s[i] == sep;
    assert j < |s| ==> s[j] == sep;
  }

  lemma SplitUnfold(s: string, sep: char)
    ensures IndexOf(s, sep) == |s| ==> Split(s, sep) == [s]
    ensures IndexOf(s, sep) < |s| ==>
              Split(s, sep) == [s[..IndexOf(s, sep)]] + Split(s[IndexOf(s, sep) + 1..], sep)
  {
    hide IndexOf;
    var i := IndexOf(s, sep);
    var parts := if i == |s| then [s] else [s[..i]] + Split(s[i + 1..], sep);
    assert Split(s, sep) == parts;
  }

  lemma SplitPiece(s: string, sep: char)
    requires sep !in s
    ensures Split(s, sep) == [s]
  {
    hide IndexOf, Split;
    IndexOfUnique(s, sep, |s|);
    SplitUnfold(s, sep);
  }

  lemma SplitFirst(p: string, sep: char, rest: string)
    requires sep !in p
    ensures Split(p + [sep] + rest, sep) == [p] + Split(rest, sep)
  {
    hide IndexOf, Split;
    var s := p + [sep] + rest;
    assert s[..|p|] == p && s[|p| + 1..] == rest;
    IndexOfUnique(s, sep, |p|);
    SplitUnfold(s, sep);
  }

  lemma {:induction false} SplitConcat(a: string, sep: char, b: string)
    ensures Split(a + [sep] + b, sep) == Split(a, sep) + Split(b, sep)
    decreases |a|
  {
    hide *;
    var i := IndexOf(a, sep);
    SplitUnfold(a, sep);
    if i == |a| {
      assert a[..i] == a;
      SplitFirst(a, sep, b);
    } else {
      var p, rest := a[..i], a[i + 1..];
      SplitConcat(rest, sep, b);
      assert a + [sep] + b == p + [sep] + (rest + [sep] + b);
      SplitFirst(p, sep, rest + [sep] + b);
    }
  }

  /** Splitting undoes joining, for pieces without separators. */
  lemma {:induction false} SplitJoin(parts: seq<string>, sep: char)
    requires parts != []
    requires forall p | p in parts :: sep !in p
    ensures Split(Join(parts, sep), sep) == parts
  {
    if |parts| == 1 {
      SplitPiece(parts[0], sep);
    } else {
      SplitJoin(parts[1..], sep);
      SplitFirst(parts[0], sep, Join(parts[1..], sep));
    }
  }

  lemma JoinCons(p: string, parts: seq<string>, sep: char)
    requires parts != []
    ensures Join([p] + parts, sep) == p + [sep] + Join(parts, sep)
  {
    assert ([p] + parts)[1..] == parts;
  }

  /** Joining undoes splitting. */
  lemma {:induction false} JoinSplit(s: string, sep: char)
    ensures Join(Split(s, sep), sep) == s
    decreases |s|
  {
    var i := IndexOf(s, sep);
    SplitUnfold(s, sep);
    hide IndexOf, Split;
    if i < |s| {
      JoinSplit(s[i + 1..], sep);
      JoinCons(s[..i], Split(s[i + 1..], sep), sep);
      assert s == s[..i] + [sep] + s[i + 1..];
    }
  }

  predicate AllChars(s: string, ok: char -> bool) {
    forall i | 0 <= i < |s| :: ok(s[i])
  }

  /** Every character of a join is the separator or comes from a piece. */
  lemma {:induction false} JoinChars(parts: seq<string>, sep: char, ok: char -> bool)
    requires ok(sep)
    requires forall i | 0 <= i < |parts| :: AllChars(parts[i], ok)
    ensures AllChars(Join(parts, sep), ok)
  {
    if |parts| > 1 {
      JoinChars(parts[1..], sep, ok);
    }
  }
}
