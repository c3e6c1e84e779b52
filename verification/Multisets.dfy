/** Reordering lists: what multisets say about their elements and about what is computed from each. */
module Multisets {

  lemma TakeOut<T>(xs: seq<T>, k: nat)
    requires k < |xs|
    ensures multiset(xs) == multiset{xs[k]} + multiset(xs[..k] + xs[k + 1..])
  {
    assert xs == xs[..k] + [xs[k]] + xs[k + 1..];
  }

  lemma CancelOne<T>(y: T, a: multiset<T>, b: multiset<T>)
    requires multiset{y} + a <= multiset{y} + b
    ensures a <= b
  {
    forall x ensures a[x] <= b[x] {
      assert (multiset{y} + a)[x] <= (multiset{y} + b)[x];
    }
  }

  /** Taking the same element out of two reorderings leaves reorderings. */
  lemma TakeOutBoth<T>(xs: seq<T>, i: nat, ys: seq<T>) returns (k: nat)
    requires multiset(xs) == multiset(ys) && i < |xs|
    ensures k < |ys| && ys[k] == xs[i]
    ensures multiset(xs[..i] + xs[i + 1..]) == multiset(ys[..k] + ys[k + 1..])
  {
    assert xs[i] in multiset(ys);
    k :| 0 <= k < |ys| && ys[k] == xs[i];
    TakeOut(xs, i);
    TakeOut(ys, k);
    var restX, restY := xs[..i] + xs[i + 1..], ys[..k] + ys[k + 1..];
    CancelOne(xs[i], multiset(restX), multiset(restY));
    CancelOne(xs[i], multiset(restY), multiset(restX));
  }

  function Without<T>(xs: seq<T>, k: nat): seq<T>
    requires k < |xs|
  {
    xs[..k] + xs[k + 1..]
  }

  lemma WithoutParts<T>(xs: seq<T>, k: nat)
    requires k < |xs|
    ensures |Without(xs, k)| == |xs| - 1
    ensures multiset(xs) == multiset{xs[k]} + multiset(Without(xs, k))
    ensures forall m | 0 <= m < |xs| - 1 :: Without(xs, k)[m] == xs[if m < k then m else m + 1]
  {
    TakeOut(xs, k);
  }

  lemma Pair<T>(a: T, b: T, rest: seq<T>)
    ensures multiset([a, b] + rest) == multiset{a} + (multiset{b} + multiset(rest))
    ensures multiset([a, b] + rest) == multiset([b, a] + rest)
  {
    assert [a, b] + rest == [a] + ([b] + rest);
    assert [b, a] + rest == [b] + ([a] + rest);
  }

  /** Where the elements are that remain when those at i and then at j are taken out. */
  lemma WithoutTwo<T>(xs: seq<T>, i: nat, j: nat)
    requires i < |xs| && j < |xs| - 1
    ensures |Without(xs, i)| == |xs| - 1 && |Without(Without(xs, i), j)| == |xs| - 2
    ensures forall m | 0 <= m < |xs| - 2 ::
              var l := if m < j then m else m + 1;
              Without(Without(xs, i), j)[m] == xs[if l < i then l else l + 1]
  {
    hide *;
    WithoutParts(xs, i);
    WithoutParts(Without(xs, i), j);
  }

  lemma RestPlaces<T>(xs: seq<T>, i: nat, j: nat, j': nat, rest: seq<T>)
    requires i < |xs| && j < |xs| && i != j && j' == if j < i then j else j - 1
    requires |rest| == |xs| - 2
    requires forall m | 0 <= m < |xs| - 2 ::
               var l := if m < j' then m else m + 1;
               rest[m] == xs[if l < i then l else l + 1]
    ensures forall x | x in rest :: exists k :: 0 <= k < |xs| && k != i && k != j && xs[k] == x
  {
    forall x | x in rest ensures exists k :: 0 <= k < |xs| && k != i && k != j && xs[k] == x {
      var m :| 0 <= m < |rest| && rest[m] == x;
      var l := if m < j' then m else m + 1;
      var k := if l < i then l else l + 1;
      assert xs[k] == x;
    }
  }

  /** A list as two of its elements and the others. */
  lemma TakeTwo<T>(xs: seq<T>, i: nat, j: nat) returns (rest: seq<T>)
    requires i < |xs| && j < |xs| && i != j
    ensures multiset(xs) == multiset([xs[i], xs[j]] + rest)
    ensures multiset(xs) == multiset([xs[j], xs[i]] + rest)
    ensures forall x | x in rest :: exists k :: 0 <= k < |xs| && k != i && k != j && xs[k] == x
  {
    hide *;
    var j' := if j < i then j else j - 1;
    WithoutParts(xs, i);
    var others := Without(xs, i);
    WithoutParts(others, j');
    rest := Without(others, j');
    WithoutTwo(xs, i, j');
    RestPlaces(xs, i, j, j', rest);
    Pair(xs[i], xs[j], rest);
  }

  /** Reordering keeps every pair of elements, at two places of the list. */
  lemma TwoPlaces<T>(ys: seq<T>, xs: seq<T>, i: nat, j: nat) returns (k: nat, l: nat)
    requires multiset(xs) == multiset(ys) && i < j < |ys|
    ensures k < |xs| && l < |xs| && k != l && xs[k] == ys[i] && xs[l] == ys[j]
  {
    k := TakeOutBoth(ys, i, xs);
    var restY, restX := ys[..i] + ys[i + 1..], xs[..k] + xs[k + 1..];
    assert restY[j - 1] == ys[j];
    assert ys[j] in multiset(restY);
    assert ys[j] in multiset(restX);
    var m :| 0 <= m < |restX| && restX[m] == ys[j];
    l := if m < k then m else m + 1;
  }

  /** The lists that f gives for the elements, one after another. */
  function Flat<A, B>(f: A -> seq<B>, xs: seq<A>): seq<B> {
    if xs == [] then [] else Flat(f, xs[..|xs| - 1]) + f(xs[|xs| - 1])
  }

  lemma FlatUnfold<A, B>(f: A -> seq<B>, xs: seq<A>)
    ensures xs == [] ==> Flat(f, xs) == []
    ensures xs != [] ==> Flat(f, xs) == Flat(f, xs[..|xs| - 1]) + f(xs[|xs| - 1])
  {
  }

  lemma {:induction false} FlatConcat<A, B>(f: A -> seq<B>, a: seq<A>, b: seq<A>)
    ensures Flat(f, a + b) == Flat(f, a) + Flat(f, b)
  {
    hide *;
    FlatUnfold(f, b);
    FlatUnfold(f, a + b);
    if b == [] {
      assert a + b == a;
    } else {
      FlatConcat(f, a, b[..|b| - 1]);
      assert (a + b)[..|a + b| - 1] == a + b[..|b| - 1];
    }
  }

  lemma FlatTakeOut<A, B>(f: A -> seq<B>, xs: seq<A>, k: nat)
    requires k < |xs|
    ensures multiset(Flat(f, xs)) == multiset(f(xs[k])) + multiset(Flat(f, xs[..k] + xs[k + 1..]))
  {
    hide *;
    var a, b := xs[..k], xs[k + 1..];
    assert xs == a + [xs[k]] + b;
    FlatConcat(f, a + [xs[k]], b);
    FlatConcat(f, a, [xs[k]]);
    FlatConcat(f, a, b);
    FlatSingle(f, xs[k]);
  }

  lemma FlatSingle<A, B>(f: A -> seq<B>, x: A)
    ensures Flat(f, [x]) == f(x)
  {
    hide *;
    FlatUnfold(f, [x]);
    FlatUnfold(f, []);
    assert [x][..0] == [];
  }

  /** Reordering the elements only reorders what they give. */
  lemma {:induction false} FlatReorder<A, B>(f: A -> seq<B>, xs: seq<A>, ys: seq<A>)
    requires multiset(xs) == multiset(ys)
    ensures multiset(Flat(f, xs)) == multiset(Flat(f, ys))
    decreases |xs|
  {
    hide *;
    if xs == [] {
      assert |multiset(ys)| == 0;
    } else {
      var k := TakeOutBoth(xs, 0, ys);
      FlatTakeOut(f, xs, 0);
      FlatTakeOut(f, ys, k);
      FlatReorder(f, xs[..0] + xs[1..], ys[..k] + ys[k + 1..]);
    }
  }
}
