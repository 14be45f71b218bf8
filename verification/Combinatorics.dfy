/** `itertools.combinations` and `itertools.permutations`, and Python's `min` over lexicographic keys. */
module Combinatorics {
  import Lex = Lexicographic

  function PrependAll<T(!new)>(x: T, ss: seq<seq<T>>): (r: seq<seq<T>>)
    ensures forall t :: t in r <==> t != [] && t[0] == x && t[1..] in ss
  {
    if ss == [] then [] else
      assert forall t: seq<T> :: t == [x] + ss[0] <==> t != [] && t[0] == x && t[1..] == ss[0];
      [[x] + ss[0]] + PrependAll(x, ss[1..])
  }

  // ---- Combinations ------------------------------------------------------------------------

  function Combos<T(!new)>(s: seq<T>, k: nat): seq<seq<T>> {
    if k == 0 then [[]]
    else if s == [] then []
    else PrependAll(s[0], Combos(s[1..], k - 1)) + Combos(s[1..], k)
  }

  /** t is s with some elements left out. */
  predicate Picks<T(==)>(t: seq<T>, s: seq<T>) {
    if t == [] then true
    else if s == [] then false
    else (t[0] == s[0] && Picks(t[1..], s[1..])) || Picks(t, s[1..])
  }

  lemma CombosStep<T(!new)>(s: seq<T>, k: nat, t: seq<T>)
    requires k > 0 && s != []
    ensures t in Combos(s, k) <==>
      (t != [] && t[0] == s[0] && t[1..] in Combos(s[1..], k - 1)) || t in Combos(s[1..], k)
  {
    var with, without := PrependAll(s[0], Combos(s[1..], k - 1)), Combos(s[1..], k);
    assert Combos(s, k) == with + without;
    hide Combos;
    assert t in with + without <==> t in with || t in without;
  }

  lemma CombosBase<T(!new)>(s: seq<T>, k: nat, t: seq<T>)
    requires k == 0 || s == []
    ensures t in Combos(s, k) <==> k == 0 && t == []
  {
  }

  /** The combinations of size k are exactly the subsequences of that length. */
  lemma {:induction false} CombosAre<T(!new)>(s: seq<T>, k: nat, t: seq<T>)
    ensures t in Combos(s, k) <==> |t| == k && Picks(t, s)
  {
    hide Combos;
    if k == 0 || s == [] {
      CombosBase(s, k, t);
    } else {
      CombosStep(s, k, t);
      CombosAre(s[1..], k, t);
      if t != [] {
        CombosAre(s[1..], k - 1, t[1..]);
      }
    }
  }

  lemma {:induction false} PicksMembers<T(!new)>(t: seq<T>, s: seq<T>, x: T)
    requires Picks(t, s) && x in t
    ensures x in s
  {
    if t[0] == s[0] && Picks(t[1..], s[1..]) {
      if x != t[0] {
        PicksMembers(t[1..], s[1..], x);
      }
    } else {
      PicksMembers(t, s[1..], x);
    }
  }

  ghost predicate Distinct<T>(s: seq<T>) {
    forall i, j :: 0 <= i < j < |s| ==> s[i] != s[j]
  }

  lemma {:induction false} PicksDistinct<T(!new)>(t: seq<T>, s: seq<T>)
    requires Picks(t, s) && Distinct(s)
    ensures Distinct(t)
  {
    if t != [] {
      if t[0] == s[0] && Picks(t[1..], s[1..]) {
        PicksDistinct(t[1..], s[1..]);
        if t[0] in t[1..] {
          PicksMembers(t[1..], s[1..], t[0]);
        }
      } else {
        PicksDistinct(t, s[1..]);
      }
    }
  }

  /** The elements of a set, in the order of the sequence. */
  function Chosen<T>(s: seq<T>, x: set<T>): seq<T> {
    if s == [] then [] else (if s[0] in x then [s[0]] else []) + Chosen(s[1..], x)
  }

  /** Every set of elements of a sequence without repetitions is picked by exactly one combination. */
  lemma {:induction false} SetIsPicked<T(!new)>(s: seq<T>, x: set<T>)
    requires Distinct(s) && forall e :: e in x ==> e in s
    ensures Picks(Chosen(s, x), s) && |Chosen(s, x)| == |x|
    ensures forall e :: e in Chosen(s, x) <==> e in x
  {
    if s == [] {
      assert x == {};
    } else {
      var rest := x - {s[0]};
      SetIsPicked(s[1..], rest);
      ChosenIgnores(s[1..], x, s[0]);
      var c := Chosen(s[1..], rest);
      assert Chosen(s, x) == (if s[0] in x then [s[0]] else []) + c;
      if s[0] in x {
        assert ([s[0]] + c)[1..] == c;
      } else {
        assert rest == x;
        assert Chosen(s, x) == c;
        PicksLonger(c, s);
      }
    }
  }

  lemma PicksLonger<T(!new)>(t: seq<T>, s: seq<T>)
    requires s != [] && Picks(t, s[1..])
    ensures Picks(t, s)
  {
  }

  lemma {:induction false} ChosenIgnores<T(!new)>(s: seq<T>, x: set<T>, e: T)
    requires e !in s
    ensures Chosen(s, x) == Chosen(s, x - {e})
  {
    if s != [] {
      ChosenIgnores(s[1..], x, e);
    }
  }

  // ---- Permutations ------------------------------------------------------------------------

  function Without<T>(s: seq<T>, i: nat): (r: seq<T>)
    requires i < |s|
    ensures |r| == |s| - 1
  {
    s[..i] + s[i + 1..]
  }

  function Perms<T(!new)>(s: seq<T>): seq<seq<T>>
    decreases |s|, 1, 0
  {
    if s == [] then [[]] else PermsFrom(s, 0)
  }

  function PermsFrom<T(!new)>(s: seq<T>, i: nat): seq<seq<T>>
    requires i <= |s|
    decreases |s|, 0, |s| - i
  {
    if i == |s| then [] else PrependAll(s[i], Perms(Without(s, i))) + PermsFrom(s, i + 1)
  }

  lemma WithoutBag<T(!new)>(s: seq<T>, i: nat)
    requires i < |s|
    ensures multiset(s) == multiset{s[i]} + multiset(Without(s, i))
  {
    assert s == s[..i] + [s[i]] + s[i + 1..];
  }

  lemma HeadBag<T(!new)>(s: seq<T>)
    requires s != []
    ensures multiset(s) == multiset{s[0]} + multiset(s[1..])
  {
    assert s == [s[0]] + s[1..];
  }

  /** The permutations of a sequence are exactly the sequences with the same elements. */
  lemma {:induction false} PermsAre<T(!new)>(s: seq<T>, p: seq<T>)
    ensures p in Perms(s) <==> multiset(p) == multiset(s)
    decreases |s|, 1, 0
  {
    if s == [] {
      assert p in Perms(s) <==> p == [];
      assert multiset(p) == multiset(s) ==> |multiset(p)| == 0;
    } else {
      PermsFromAre(s, 0, p);
      if multiset(p) == multiset(s) {
        assert |multiset(p)| == |s|;
        assert p[0] in multiset(s);
      }
      assert p in Perms(s) <==> p in PermsFrom(s, 0);
    }
  }

  lemma {:induction false} PermsFromAre<T(!new)>(s: seq<T>, i: nat, p: seq<T>)
    requires i <= |s| && s != []
    ensures p in PermsFrom(s, i) <==> p != [] && multiset(p) == multiset(s) && p[0] in s[i..]
    decreases |s|, 0, |s| - i
  {
    if i < |s| {
      PermsFromAre(s, i + 1, p);
      assert s[i..] == [s[i]] + s[i + 1..];
      if p != [] && p[0] == s[i] {
        PermsAre(Without(s, i), p[1..]);
        HeadBag(p);
        WithoutBag(s, i);
        SameHeadSameRest(p, s, i);
      }
    }
  }

  lemma SameHeadSameRest<T(!new)>(p: seq<T>, s: seq<T>, i: nat)
    requires p != [] && i < |s| && p[0] == s[i]
    requires multiset(p) == multiset{p[0]} + multiset(p[1..])
    requires multiset(s) == multiset{s[i]} + multiset(Without(s, i))
    ensures multiset(p) == multiset(s) <==> multiset(p[1..]) == multiset(Without(s, i))
  {
    assert multiset(p[1..]) == multiset(p) - multiset{p[0]};
    assert multiset(Without(s, i)) == multiset(s) - multiset{s[i]};
  }

  // ---- Keys --------------------------------------------------------------------------------

  /** A tuple of numbers followed by a tuple of strings, compared component by component. */
  datatype Key = Key(numbers: seq<int>, texts: seq<string>)

  predicate NumbersLess(a: seq<int>, b: seq<int>) {
    if b == [] then false
    else if a == [] then true
    else a[0] < b[0] || (a[0] == b[0] && NumbersLess(a[1..], b[1..]))
  }

  predicate TextsLess(a: seq<string>, b: seq<string>) {
    if b == [] then false
    else if a == [] then true
    else Lex.Less(a[0], b[0]) || (a[0] == b[0] && TextsLess(a[1..], b[1..]))
  }

  lemma OneText(a: string, b: string)
    ensures TextsLess([a], [b]) <==> Lex.Less(a, b)
  {
    assert [a][1..] == [] && [b][1..] == [];
  }

  predicate KeyLess(a: Key, b: Key) {
    NumbersLess(a.numbers, b.numbers) || (a.numbers == b.numbers && TextsLess(a.texts, b.texts))
  }

  lemma {:induction false} NumbersTransitive(a: seq<int>, b: seq<int>, c: seq<int>)
    requires NumbersLess(a, b) && NumbersLess(b, c)
    ensures NumbersLess(a, c)
  {
    if a != [] && a[0] == b[0] == c[0] {
      NumbersTransitive(a[1..], b[1..], c[1..]);
    }
  }

  lemma {:induction false} TextsTransitive(a: seq<string>, b: seq<string>, c: seq<string>)
    requires TextsLess(a, b) && TextsLess(b, c)
    ensures TextsLess(a, c)
  {
    if a != [] {
      if Lex.Less(a[0], b[0]) && Lex.Less(b[0], c[0]) {
        Lex.Transitive(a[0], b[0], c[0]);
      } else if a[0] == b[0] == c[0] {
        TextsTransitive(a[1..], b[1..], c[1..]);
      }
    }
  }

  lemma KeyTransitive(a: Key, b: Key, c: Key)
    requires KeyLess(a, b) && KeyLess(b, c)
    ensures KeyLess(a, c)
  {
    if NumbersLess(a.numbers, b.numbers) && NumbersLess(b.numbers, c.numbers) {
      NumbersTransitive(a.numbers, b.numbers, c.numbers);
    }
    if TextsLess(a.texts, b.texts) && TextsLess(b.texts, c.texts) {
      TextsTransitive(a.texts, b.texts, c.texts);
    }
  }

  lemma {:induction false} NumbersIrreflexive(a: seq<int>)
    ensures !NumbersLess(a, a)
  {
    if a != [] {
      NumbersIrreflexive(a[1..]);
    }
  }

  lemma {:induction false} TextsIrreflexive(a: seq<string>)
    ensures !TextsLess(a, a)
  {
    if a != [] {
      Lex.Irreflexive(a[0]);
      TextsIrreflexive(a[1..]);
    }
  }

  lemma KeyIrreflexive(a: Key)
    ensures !KeyLess(a, a)
  {
    NumbersIrreflexive(a.numbers);
    TextsIrreflexive(a.texts);
  }

  lemma {:induction false} NumbersTotal(a: seq<int>, b: seq<int>)
    ensures a == b || NumbersLess(a, b) || NumbersLess(b, a)
  {
    if a != [] && b != [] && a[0] == b[0] {
      NumbersTotal(a[1..], b[1..]);
      assert a == [a[0]] + a[1..] && b == [b[0]] + b[1..];
    }
  }

  lemma {:induction false} TextsTotal(a: seq<string>, b: seq<string>)
    ensures a == b || TextsLess(a, b) || TextsLess(b, a)
  {
    if a != [] && b != [] {
      Lex.Total(a[0], b[0]);
      if a[0] == b[0] {
        TextsTotal(a[1..], b[1..]);
        assert a == [a[0]] + a[1..] && b == [b[0]] + b[1..];
      }
    }
  }

  lemma KeyTotal(a: Key, b: Key)
    ensures a == b || KeyLess(a, b) || KeyLess(b, a)
  {
    NumbersTotal(a.numbers, b.numbers);
    TextsTotal(a.texts, b.texts);
  }

  lemma KeyAsymmetric(a: Key, b: Key)
    ensures !(KeyLess(a, b) && KeyLess(b, a))
  {
    KeyIrreflexive(a);
    if KeyLess(a, b) && KeyLess(b, a) {
      KeyTransitive(a, b, a);
    }
  }

  /** Below something that is not above c means below c. */
  lemma KeyBelow(a: Key, b: Key, c: Key)
    requires KeyLess(a, b) && !KeyLess(c, b)
    ensures KeyLess(a, c)
  {
    KeyTotal(b, c);
    if KeyLess(b, c) {
      KeyTransitive(a, b, c);
    }
  }

  /** The position of the first smallest of the first n keys, as Python's `min` finds it. */
  function LeastOf(keys: seq<Key>, n: nat): (i: nat)
    requires 0 < n <= |keys|
    ensures i < n
  {
    if n == 1 then 0
    else
      var best := LeastOf(keys, n - 1);
      if KeyLess(keys[n - 1], keys[best]) then n - 1 else best
  }

  lemma {:induction false} LeastIsMinimal(keys: seq<Key>, n: nat, j: nat)
    requires j < n <= |keys|
    ensures !KeyLess(keys[j], keys[LeastOf(keys, n)])
  {
    KeyIrreflexive(keys[j]);
    if n > 1 {
      var best := LeastOf(keys, n - 1);
      if j < n - 1 {
        LeastIsMinimal(keys, n - 1, j);
        if KeyLess(keys[n - 1], keys[best]) && KeyLess(keys[j], keys[n - 1]) {
          KeyTransitive(keys[j], keys[n - 1], keys[best]);
        }
      }
    }
  }

  method FirstLeast(keys: seq<Key>) returns (best: nat)
    requires keys != []
    ensures best == LeastOf(keys, |keys|)
  {
    best := 0;
    var i := 1;
    while i < |keys|
      invariant 1 <= i <= |keys|
      invariant best == LeastOf(keys, i)
    {
      if KeyLess(keys[i], keys[best]) {
        best := i;
      }
      i := i + 1;
    }
  }
}
