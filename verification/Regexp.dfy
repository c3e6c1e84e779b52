/** Regular expressions with the meaning that Go's regexp package gives to anchored patterns. */
module Regexp {
  import opened Strings

  datatype Regex =
    | Chars(ok: char -> bool)          // one character of a class
    | Seq(first: Regex, second: Regex)
    | Star(body: Regex)                // body*
    | Opt(body: Regex)                 // (body)?

  function Plus(r: Regex): Regex {
    Seq(r, Star(r))
  }

  /** Between 0 and n repetitions. */
  function AtMost(r: Regex, n: nat): Regex
    decreases n
  {
    if n == 0 then Star(Chars(x => false)) else Opt(Seq(r, AtMost(r, n - 1)))
  }

  /** Whether the whole of `s` matches, as with ^ and $ around the pattern. */
  predicate Matches(r: Regex, s: string)
    decreases r, |s|
  {
    match r
    case Chars(ok) => |s| == 1 && ok(s[0])
    case Seq(a, b) => exists k | 0 <= k <= |s| :: Matches(a, s[..k]) && Matches(b, s[k..])
    case Star(a) => s == "" || exists k | 1 <= k <= |s| :: Matches(a, s[..k]) && Matches(r, s[k..])
    case Opt(a) => s == "" || Matches(a, s)
  }

  lemma SeqMatches(a: Regex, b: Regex, s: string)
    ensures Matches(Seq(a, b), s)
            <==> exists k | 0 <= k <= |s| :: Matches(a, s[..k]) && Matches(b, s[k..])
  {
  }

  lemma MatchSeq(a: Regex, b: Regex, s: string, t: string)
    requires Matches(a, s) && Matches(b, t)
    ensures Matches(Seq(a, b), s + t)
  {
    assert (s + t)[..|s|] == s && (s + t)[|s|..] == t;
  }

  lemma MatchStarMore(a: Regex, s: string, t: string)
    requires s != "" && Matches(a, s) && Matches(Star(a), t)
    ensures Matches(Star(a), s + t)
  {
    assert (s + t)[..|s|] == s && (s + t)[|s|..] == t;
  }

  /** A starred class matches exactly the strings over that class. */
  lemma {:induction false} StarChars(ok: char -> bool, s: string)
    ensures Matches(Star(Chars(ok)), s) <==> AllChars(s, ok)
  {
    if s != "" {
      StarChars(ok, s[1..]);
      if AllChars(s, ok) {
        assert Matches(Chars(ok), s[..1]);
      } else if Matches(Star(Chars(ok)), s) {
        var k :| 1 <= k <= |s| && Matches(Chars(ok), s[..k]) && Matches(Star(Chars(ok)), s[k..]);
      }
    }
  }

  lemma SeqChars(ok: char -> bool, b: Regex, s: string)
    ensures Matches(Seq(Chars(ok), b), s) <==> s != "" && ok(s[0]) && Matches(b, s[1..])
  {
    if s != "" && ok(s[0]) && Matches(b, s[1..]) {
      assert Matches(Chars(ok), s[..1]);
    }
    if Matches(Seq(Chars(ok), b), s) {
      var k :| 0 <= k <= |s| && Matches(Chars(ok), s[..k]) && Matches(b, s[k..]);
      assert k == 1;
    }
  }

  lemma SeqLastChar(a: Regex, ok: char -> bool, s: string)
    ensures Matches(Seq(a, Chars(ok)), s)
            <==> s != "" && ok(s[|s| - 1]) && Matches(a, s[..|s| - 1])
  {
    if s != "" && ok(s[|s| - 1]) && Matches(a, s[..|s| - 1]) {
      assert Matches(Chars(ok), s[|s| - 1..]);
    }
    if Matches(Seq(a, Chars(ok)), s) {
      var k :| 0 <= k <= |s| && Matches(a, s[..k]) && Matches(Chars(ok), s[k..]);
      assert k == |s| - 1;
    }
  }

  /** [class]+ matches exactly the non-empty strings over the class. */
  lemma PlusChars(ok: char -> bool, s: string)
    ensures Matches(Plus(Chars(ok)), s) <==> s != "" && AllChars(s, ok)
  {
    SeqChars(ok, Star(Chars(ok)), s);
    if s != "" {
      StarChars(ok, s[1..]);
      assert AllChars(s, ok) <==> ok(s[0]) && AllChars(s[1..], ok) by {
        if ok(s[0]) && AllChars(s[1..], ok) {
          forall i | 0 <= i < |s| ensures ok(s[i]) {
            if i > 0 { assert s[1..][i - 1] == s[i]; }
          }
        }
      }
    }
  }

  /** A counted class matches exactly the strings over the class that are short enough. */
  lemma {:induction false} AtMostChars(ok: char -> bool, n: nat, s: string)
    ensures Matches(AtMost(Chars(ok), n), s) <==> |s| <= n && AllChars(s, ok)
    decreases n
  {
    if n == 0 {
      StarChars(x => false, s);
    } else {
      SeqChars(ok, AtMost(Chars(ok), n - 1), s);
      if s != "" {
        AtMostChars(ok, n - 1, s[1..]);
        if ok(s[0]) && AllChars(s[1..], ok) {
          forall i | 0 <= i < |s| ensures ok(s[i]) {
            if i > 0 { assert s[1..][i - 1] == s[i]; }
          }
        }
      }
    }
  }
}
