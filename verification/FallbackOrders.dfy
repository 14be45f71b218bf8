/** The deterministic enumeration of visiting orders, used when no proposed order is usable: `_deterministic_orders` of
    app/application/recommendation_service.py. */
module FallbackOrders {
  import Lex = Lexicographic

  /** `_MAX_ENUMERATED_ORDERS`. */
  const MAX_ORDERS := 12

  /** One turn of the three nested loops. */
  datatype Turn = Turn(size: nat, offset: nat, start: nat)

  predicate InRange(t: Turn, n: nat) {
    2 <= t.size <= 3 && 1 <= t.offset < n && t.start < n
  }

  predicate Before(a: Turn, b: Turn) {
    || a.size < b.size
    || (a.size == b.size && a.offset < b.offset)
    || (a.size == b.size && a.offset == b.offset && a.start < b.start)
  }

  function OrderOf(ordered: seq<string>, t: Turn): (order: seq<string>)
    requires InRange(t, |ordered|)
    ensures |order| == t.size
  {
    seq(t.size, step requires 0 <= step < t.size => ordered[(t.start + step * t.offset) % |ordered|])
  }

  predicate AllDifferent<T(==)>(s: seq<T>) {
    forall i, j :: 0 <= i < j < |s| ==> s[i] != s[j]
  }

  /** The turn yields an order without repetitions. */
  predicate Yields(ordered: seq<string>, t: Turn, order: seq<string>) {
    InRange(t, |ordered|) && OrderOf(ordered, t) == order && AllDifferent(order)
  }

  /** Everything the turns before this one yield is listed. */
  ghost predicate Reached(ordered: seq<string>, orders: seq<seq<string>>, t: Turn) {
    forall u, order :: Yields(ordered, u, order) && Before(u, t) ==> order in orders
  }

  ghost predicate Earned(ordered: seq<string>, orders: seq<seq<string>>, order: seq<string>) {
    exists t :: Yields(ordered, t, order) && Reached(ordered, orders, t)
  }

  /** The listed orders: no repetitions, each from a turn whose earlier turns are all listed, at most `limit` of them
      (one at least is tried), and all there are if the limit was not reached. */
  ghost predicate Enumerates(ordered: seq<string>, limit: nat, orders: seq<seq<string>>) {
    && AllDifferent(orders)
    && (forall order :: order in orders ==> Earned(ordered, orders, order))
    && (|orders| <= limit || |orders| == 1)
    && (|orders| < limit ==> forall t, order :: Yields(ordered, t, order) ==> order in orders)
  }

  ghost predicate SoFar(ordered: seq<string>, limit: nat, orders: seq<seq<string>>, t: Turn) {
    && AllDifferent(orders)
    && (forall order :: order in orders ==> Earned(ordered, orders, order))
    && (|orders| < limit || orders == [])
    && Reached(ordered, orders, t)
  }

  function Taken(ordered: seq<string>, orders: seq<seq<string>>, t: Turn): seq<seq<string>>
    requires InRange(t, |ordered|)
  {
    var order := OrderOf(ordered, t);
    if AllDifferent(order) && order !in orders then orders + [order] else orders
  }

  /** One turn either reaches the limit or leaves everything up to the next turn listed. */
  lemma NextTurn(ordered: seq<string>, limit: nat, orders: seq<seq<string>>, t: Turn)
    requires SoFar(ordered, limit, orders, t) && InRange(t, |ordered|)
    ensures var after := Taken(ordered, orders, t);
      if after != orders && |after| >= limit then Enumerates(ordered, limit, after)
      else SoFar(ordered, limit, after, t.(start := t.start + 1))
  {
    hide OrderOf;
    var after := Taken(ordered, orders, t);
    forall x | x in after
      ensures Earned(ordered, after, x)
    {
      if x in orders {
        var u :| Yields(ordered, u, x) && Reached(ordered, orders, u);
        assert Reached(ordered, after, u);
      } else {
        assert Yields(ordered, t, x) && Reached(ordered, after, t);
      }
    }
    forall u, x | Yields(ordered, u, x) && Before(u, t.(start := t.start + 1))
      ensures x in after
    {
      if !Before(u, t) {
        assert u == t;
      }
    }
  }

  /** The end of an inner loop is the beginning of the next round of the outer one. */
  lemma NextRound(ordered: seq<string>, limit: nat, orders: seq<seq<string>>, t: Turn, next: Turn)
    requires SoFar(ordered, limit, orders, t)
    requires (next == Turn(t.size, t.offset + 1, 0) && t.start >= |ordered|) || (next == Turn(t.size + 1, 1, 0) && t.offset >= |ordered|)
    ensures SoFar(ordered, limit, orders, next)
  {
    hide OrderOf;
    forall u, x | Yields(ordered, u, x) && Before(u, next)
      ensures x in orders
    {
      assert Before(u, t);
    }
  }

  /** `_deterministic_orders`. */
  method DeterministicOrders(ids: set<string>, limit: nat) returns (orders: seq<seq<string>>)
    ensures Enumerates(Lex.Sorted(ids), limit, orders)
  {
    hide OrderOf, SoFar, Enumerates, AllDifferent;
    var ordered := Lex.Sorted(ids);
    var n := |ordered|;
    orders := [];
    NothingYet(ordered, limit);
    var size := 2;
    while size <= 3
      invariant 2 <= size <= 4
      invariant SoFar(ordered, limit, orders, Turn(size, 1, 0))
    {
      var offset := 1;
      while offset < n
        invariant 1 <= offset
        invariant SoFar(ordered, limit, orders, Turn(size, offset, 0))
      {
        var start := 0;
        while start < n
          invariant 0 <= start <= n
          invariant SoFar(ordered, limit, orders, Turn(size, offset, start))
        {
          var order := OrderOf(ordered, Turn(size, offset, start));
          NextTurn(ordered, limit, orders, Turn(size, offset, start));
          if AllDifferent(order) && order !in orders {
            orders := orders + [order];
            if |orders| >= limit {
              return;
            }
          }
          start := start + 1;
        }
        NextRound(ordered, limit, orders, Turn(size, offset, start), Turn(size, offset + 1, 0));
        offset := offset + 1;
      }
      NextRound(ordered, limit, orders, Turn(size, offset, 0), Turn(size + 1, 1, 0));
      size := size + 1;
    }
    AllTurnsTaken(ordered, limit, orders);
  }

  lemma NothingYet(ordered: seq<string>, limit: nat)
    ensures SoFar(ordered, limit, [], Turn(2, 1, 0))
  {
    hide OrderOf;
    forall u, x | Yields(ordered, u, x)
      ensures !Before(u, Turn(2, 1, 0))
    {
    }
  }

  lemma AllTurnsTaken(ordered: seq<string>, limit: nat, orders: seq<seq<string>>)
    requires SoFar(ordered, limit, orders, Turn(4, 1, 0))
    ensures Enumerates(ordered, limit, orders)
  {
    hide OrderOf;
    forall t, order | Yields(ordered, t, order)
      ensures order in orders
    {
      assert Before(t, Turn(4, 1, 0));
    }
  }

  // ---- Which orders the turns yield ------------------------------------------------------------

  lemma Wrap(x: nat, n: nat)
    requires 0 < n && x < 2 * n
    ensures x % n == if x < n then x else x - n
  {
  }

  /** Going from one position to any other is a turn. */
  lemma PairYielded(ordered: seq<string>, i: nat, j: nat)
    requires i < |ordered| && j < |ordered| && ordered[i] != ordered[j]
    ensures exists t: Turn :: t.size == 2 && Yields(ordered, t, [ordered[i], ordered[j]])
  {
    var n := |ordered|;
    var offset := if i < j then j - i else j + n - i;
    Wrap(i, n);
    Wrap(i + offset, n);
    var t := Turn(2, offset, i);
    assert OrderOf(ordered, t) == [ordered[i], ordered[j]];
    assert Yields(ordered, t, [ordered[i], ordered[j]]);
  }

  /** A third position needs no second offset: three ids in a row are a turn. */
  lemma TripleYielded(ordered: seq<string>)
    requires |ordered| == 3 && AllDifferent(ordered)
    ensures Yields(ordered, Turn(3, 1, 0), ordered)
  {
    assert OrderOf(ordered, Turn(3, 1, 0)) == ordered;
  }

  lemma YieldedIds(ordered: seq<string>, t: Turn, order: seq<string>)
    requires Yields(ordered, t, order)
    ensures |order| == t.size && 2 <= t.size <= 3 && AllDifferent(order)
    ensures forall i :: 0 <= i < |order| ==> order[i] in ordered
  {
  }

  // ---- Counting pairs --------------------------------------------------------------------------

  function Pairs(ids: set<string>): set<seq<string>> {
    set a, b | a in ids && b in ids && a != b :: [a, b]
  }

  function PairWith(x: string, y: string, first: bool): seq<string> {
    if first then [x, y] else [y, x]
  }

  function PairsWith(ids: set<string>, x: string, first: bool): set<seq<string>> {
    set y | y in ids :: PairWith(x, y, first)
  }

  lemma {:induction false} PairsWithSize(ids: set<string>, x: string, first: bool)
    ensures |PairsWith(ids, x, first)| == |ids|
    decreases |ids|
  {
    if ids == {} {
      assert PairsWith(ids, x, first) == {};
    } else {
      var z :| z in ids;
      PairsWithSize(ids - {z}, x, first);
      forall y | y in ids - {z}
        ensures PairWith(x, y, first) != PairWith(x, z, first)
      {
        assert PairWith(x, y, first)[if first then 1 else 0] == y;
        assert PairWith(x, z, first)[if first then 1 else 0] == z;
      }
      assert PairsWith(ids, x, first) == PairsWith(ids - {z}, x, first) + {PairWith(x, z, first)};
    }
  }

  /** A pair either leaves x out or has it in one of its two places. */
  lemma PairsCovered(ids: set<string>, x: string, p: seq<string>)
    requires x in ids
    ensures p in Pairs(ids) <==>
      p in Pairs(ids - {x}) || p in PairsWith(ids - {x}, x, true) || p in PairsWith(ids - {x}, x, false)
  {
    var rest := ids - {x};
    if p in Pairs(ids) {
      var a, b :| a in ids && b in ids && a != b && p == [a, b];
      if a == x {
        assert p == PairWith(x, b, true);
      } else if b == x {
        assert p == PairWith(x, a, false);
      } else {
        assert a in rest && b in rest;
      }
    }
    if p in PairsWith(rest, x, true) {
      var y :| y in rest && p == PairWith(x, y, true);
      assert p == [x, y];
    }
    if p in PairsWith(rest, x, false) {
      var y :| y in rest && p == PairWith(x, y, false);
      assert p == [y, x];
    }
  }

  lemma PairsApart(ids: set<string>, x: string)
    requires x !in ids
    ensures Pairs(ids) !! PairsWith(ids, x, true)
    ensures Pairs(ids) + PairsWith(ids, x, true) !! PairsWith(ids, x, false)
  {
    forall p | p in PairsWith(ids, x, true)
      ensures p[0] == x && p[1] in ids && p !in Pairs(ids)
    {
    }
    forall p | p in PairsWith(ids, x, false)
      ensures p[1] == x && p !in Pairs(ids) && p !in PairsWith(ids, x, true)
    {
    }
  }

  lemma PairsSplit(ids: set<string>, x: string)
    requires x in ids
    ensures |Pairs(ids)| == |Pairs(ids - {x})| + |PairsWith(ids - {x}, x, true)| + |PairsWith(ids - {x}, x, false)|
  {
    hide Pairs, PairsWith;
    var rest := ids - {x};
    forall p
      ensures p in Pairs(ids) <==> p in Pairs(rest) + PairsWith(rest, x, true) + PairsWith(rest, x, false)
    {
      PairsCovered(ids, x, p);
    }
    assert Pairs(ids) == Pairs(rest) + PairsWith(rest, x, true) + PairsWith(rest, x, false);
    PairsApart(rest, x);
  }

  lemma {:induction false} PairCount(ids: set<string>)
    ensures |Pairs(ids)| == |ids| * (|ids| - 1)
    decreases |ids|
  {
    hide Pairs, PairsWith;
    if ids == {} {
      NoPairs();
    } else {
      var x :| x in ids;
      var rest := ids - {x};
      PairCount(rest);
      PairsSplit(ids, x);
      PairsWithSize(rest, x, true);
      PairsWithSize(rest, x, false);
      PairStep(|rest|);
    }
  }

  lemma NoPairs()
    ensures Pairs({}) == {}
  {
  }

  lemma PairStep(m: nat)
    ensures (m + 1) * m == m * (m - 1) + m + m
  {
  }

  lemma SubsetSize<T>(a: set<T>, b: set<T>)
    requires a <= b
    ensures |a| <= |b|
    ensures |a| == |b| ==> a == b
  {
    assert b == a + (b - a);
  }

  function Elements<T>(s: seq<T>): set<T> {
    set x | x in s
  }

  lemma {:induction false} ElementsSize<T>(s: seq<T>)
    requires AllDifferent(s)
    ensures |Elements(s)| == |s|
  {
    if s != [] {
      ElementsSize(s[1..]);
      assert s == [s[0]] + s[1..];
      assert Elements(s) == Elements(s[1..]) + {s[0]};
    }
  }

  // ---- What twelve orders offer ----------------------------------------------------------------

  predicate HasTriple(orders: seq<seq<string>>) {
    exists order :: order in orders && |order| == 3
  }

  lemma SortedDiffers(ids: set<string>)
    ensures AllDifferent(Lex.Sorted(ids))
  {
    var s := Lex.Sorted(ids);
    Lex.SortedAscends(ids);
    forall i, j | 0 <= i < j < |s|
      ensures s[i] != s[j]
    {
      Lex.Irreflexive(s[i]);
    }
  }

  lemma PairIsYielded(ids: set<string>, pair: seq<string>) returns (t: Turn)
    requires pair in Pairs(ids)
    ensures t.size == 2 && Yields(Lex.Sorted(ids), t, pair)
  {
    var ordered := Lex.Sorted(ids);
    var a, b :| a in ids && b in ids && a != b && pair == [a, b];
    var i :| 0 <= i < |ordered| && ordered[i] == a;
    var j :| 0 <= j < |ordered| && ordered[j] == b;
    PairYielded(ordered, i, j);
    t :| t.size == 2 && Yields(ordered, t, [ordered[i], ordered[j]]);
  }

  /** Every pair comes before any triple. */
  lemma TriplesAfterPairs(ids: set<string>, limit: nat, orders: seq<seq<string>>)
    requires Enumerates(Lex.Sorted(ids), limit, orders)
    requires HasTriple(orders) || |orders| < limit
    ensures Pairs(ids) <= Elements(orders)
  {
    hide OrderOf, Pairs, AllDifferent;
    forall pair | pair in Pairs(ids)
      ensures pair in orders
    {
      var u := PairIsYielded(ids, pair);
      if order :| order in orders && |order| == 3 {
        var t :| Yields(Lex.Sorted(ids), t, order) && Reached(Lex.Sorted(ids), orders, t);
        YieldedIds(Lex.Sorted(ids), t, order);
      }
    }
  }

  lemma OnlyPairs(ids: set<string>, limit: nat, orders: seq<seq<string>>)
    requires Enumerates(Lex.Sorted(ids), limit, orders) && !HasTriple(orders)
    ensures Elements(orders) <= Pairs(ids)
  {
    hide OrderOf;
    forall order | order in orders
      ensures order in Pairs(ids)
    {
      var t :| Yields(Lex.Sorted(ids), t, order) && Reached(Lex.Sorted(ids), orders, t);
      YieldedIds(Lex.Sorted(ids), t, order);
      assert order == [order[0], order[1]];
    }
  }

  lemma TripleNeedsThree(ids: set<string>, limit: nat, orders: seq<seq<string>>)
    requires Enumerates(Lex.Sorted(ids), limit, orders) && HasTriple(orders)
    ensures 3 <= |ids| && |Pairs(ids)| < |orders|
  {
    hide OrderOf, Pairs;
    var order :| order in orders && |order| == 3;
    var t :| Yields(Lex.Sorted(ids), t, order) && Reached(Lex.Sorted(ids), orders, t);
    YieldedIds(Lex.Sorted(ids), t, order);
    assert order[0] != order[1] && order[0] != order[2] && order[1] != order[2];
    SubsetSize({order[0], order[1], order[2]}, ids);
    TriplesAfterPairs(ids, limit, orders);
    PairsAreShort(ids, order);
    SubsetSize(Pairs(ids) + {order}, Elements(orders));
    ElementsSize(orders);
  }

  lemma PairsAreShort(ids: set<string>, order: seq<string>)
    ensures order in Pairs(ids) ==> |order| == 2
  {
  }

  lemma ManyPairs(n: nat, m: nat)
    requires n >= m >= 1
    ensures n * (n - 1) >= m * (m - 1)
  {
    assert n * (n - 1) - m * (m - 1) == (n - m) * (n + m - 1);
  }

  lemma PairTotals(ids: set<string>)
    ensures |ids| == 3 ==> |Pairs(ids)| == 6
    ensures |ids| <= 4 ==> |Pairs(ids)| <= MAX_ORDERS
    ensures |ids| >= 4 ==> |Pairs(ids)| >= MAX_ORDERS
    ensures |ids| >= 5 ==> |Pairs(ids)| >= 20
  {
    hide Pairs;
    var n := |ids|;
    PairCount(ids);
    if n >= 5 {
      ManyPairs(n, 5);
    } else if n >= 1 {
      ManyPairs(4, n);
    }
  }

  lemma WithinLimit(ids: set<string>, orders: seq<seq<string>>)
    requires Enumerates(Lex.Sorted(ids), MAX_ORDERS, orders)
    ensures |orders| <= MAX_ORDERS && |Elements(orders)| == |orders|
  {
    ElementsSize(orders);
  }

  lemma ThreeFactsHaveTriple(ids: set<string>, orders: seq<seq<string>>)
    requires Enumerates(Lex.Sorted(ids), MAX_ORDERS, orders) && |ids| == 3 && |orders| < MAX_ORDERS
    ensures HasTriple(orders)
  {
    hide OrderOf, Earned, AllDifferent, Lex.Sorted;
    var ordered := Lex.Sorted(ids);
    SortedDiffers(ids);
    TripleYielded(ordered);
    assert ordered in orders;
  }

  /** With twelve orders, a three-place order is offered exactly when there are three facts: with fewer there is none, with
      more the pairs alone use up the limit. */
  lemma TripleIff(ids: set<string>, orders: seq<seq<string>>)
    requires Enumerates(Lex.Sorted(ids), MAX_ORDERS, orders)
    ensures HasTriple(orders) <==> |ids| == 3
  {
    hide Pairs, Enumerates, HasTriple, Elements, Lex.Sorted;
    PairTotals(ids);
    WithinLimit(ids, orders);
    if HasTriple(orders) {
      TripleNeedsThree(ids, MAX_ORDERS, orders);
    } else if |ids| == 3 {
      OnlyPairs(ids, MAX_ORDERS, orders);
      SubsetSize(Elements(orders), Pairs(ids));
      ThreeFactsHaveTriple(ids, orders);
    }
  }

  /** With twelve orders, every ordered pair of different facts is offered exactly when there are at most four facts. */
  lemma AllPairsIff(ids: set<string>, orders: seq<seq<string>>)
    requires Enumerates(Lex.Sorted(ids), MAX_ORDERS, orders)
    ensures Pairs(ids) <= Elements(orders) <==> |ids| <= 4
  {
    hide Pairs, Enumerates, HasTriple, Elements, Lex.Sorted;
    PairTotals(ids);
    WithinLimit(ids, orders);
    if Pairs(ids) <= Elements(orders) {
      SubsetSize(Pairs(ids), Elements(orders));
    } else if |ids| <= 4 {
      if |orders| < MAX_ORDERS || HasTriple(orders) {
        TriplesAfterPairs(ids, MAX_ORDERS, orders);
      } else {
        OnlyPairs(ids, MAX_ORDERS, orders);
        SubsetSize(Elements(orders), Pairs(ids));
      }
    }
  }
}
