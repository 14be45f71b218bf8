/** Code-point order on strings, as Python's `sorted` uses it. */
module Lexicographic {
  predicate Less(a: string, b: string) {
    if b == "" then false
    else if a == "" then true
    else a[0] < b[0] || (a[0] == b[0] && Less(a[1..], b[1..]))
  }

  lemma {:induction false} Irreflexive(a: string)
    ensures !Less(a, a)
  {
    if a != "" {
      Irreflexive(a[1..]);
    }
  }

  lemma {:induction false} Transitive(a: string, b: string, c: string)
    requires Less(a, b) && Less(b, c)
    ensures Less(a, c)
  {
    if a != "" && a[0] == b[0] && b[0] == c[0] {
      Transitive(a[1..], b[1..], c[1..]);
    }
  }

  lemma Asymmetric(a: string, b: string)
    ensures !(Less(a, b) && Less(b, a))
  {
    Irreflexive(a);
    if Less(a, b) && Less(b, a) {
      Transitive(a, b, a);
    }
  }

  lemma {:induction false} Total(a: string, b: string)
    ensures a == b || Less(a, b) || Less(b, a)
  {
    if a != "" && b != "" && a[0] == b[0] {
      Total(a[1..], b[1..]);
      assert a == [a[0]] + a[1..] && b == [b[0]] + b[1..];
    }
  }

  predicate IsLeast(m: string, s: set<string>) {
    m in s && forall x :: x in s ==> x == m || Less(m, x)
  }

  lemma {:induction false} LeastExists(s: set<string>)
    requires s != {}
    ensures exists m :: IsLeast(m, s)
  {
    var y :| y in s;
    if s == {y} {
      assert IsLeast(y, s);
    } else {
      LeastExists(s - {y});
      var m :| IsLeast(m, s - {y});
      Total(m, y);
      if Less(y, m) {
        forall x | x in s
          ensures x == y || Less(y, x)
        {
          if x != y && x != m {
            Transitive(y, m, x);
          }
        }
        assert IsLeast(y, s);
      } else {
        assert IsLeast(m, s);
      }
    }
  }

  lemma LeastUnique(a: string, b: string, s: set<string>)
    requires IsLeast(a, s) && IsLeast(b, s)
    ensures a == b
  {
    Asymmetric(a, b);
  }

  function Least(s: set<string>): (m: string)
    requires s != {}
    ensures IsLeast(m, s)
  {
    LeastExists(s);
    assert forall a, b :: IsLeast(a, s) && IsLeast(b, s) ==> a == b by {
      forall a, b | IsLeast(a, s) && IsLeast(b, s)
        ensures a == b
      {
        LeastUnique(a, b, s);
      }
    }
    var m :| m in s && IsLeast(m, s);
    m
  }

  /** `sorted(s)`. */
  function Sorted(s: set<string>): (r: seq<string>)
    ensures |r| == |s|
    ensures forall x :: x in r <==> x in s
  {
    if s == {} then [] else
      var m := Least(s);
      [m] + Sorted(s - {m})
  }

  predicate Ascending(r: seq<string>) {
    forall i, j :: 0 <= i < j < |r| ==> Less(r[i], r[j])
  }

  lemma {:induction false} SortedAscends(s: set<string>)
    ensures Ascending(Sorted(s))
  {
    if s != {} {
      var m := Least(s);
      SortedAscends(s - {m});
      var rest := Sorted(s - {m});
      forall j | 0 <= j < |rest|
        ensures Less(m, rest[j])
      {
        assert rest[j] in s - {m};
      }
    }
  }

  /** An ascending list of the elements is the sorted list. */
  lemma {:induction false} SortedUnique(s: set<string>, r: seq<string>)
    requires Ascending(r)
    requires forall x :: x in r <==> x in s
    ensures Sorted(s) == r
    decreases |r|
  {
    if r == [] {
      assert s == {};
    } else {
      assert r[0] in s;
      var m := Least(s);
      var i :| 0 <= i < |r| && r[i] == m;
      Asymmetric(r[0], m);
      assert i == 0;
      forall x
        ensures x in r[1..] <==> x in s - {m}
      {
        if x in r[1..] {
          var j :| 1 <= j < |r| && r[j] == x;
          Irreflexive(x);
        }
      }
      SortedUnique(s - {m}, r[1..]);
      assert r == [m] + r[1..];
    }
  }

  // ---- Member keys -------------------------------------------------------------------------

  function Digit(d: nat): char
    requires d < 10
  {
    '0' + d as char
  }

  function Decimal(n: nat): string {
    if n < 10 then [Digit(n)] else Decimal(n / 10) + [Digit(n % 10)]
  }

  /** "member-k". */
  function MemberKeyText(k: nat): string {
    "member-" + Decimal(k)
  }

  /** `[f"member-{index}" for index in range(1, n + 1)]`. */
  function ExpectedKeys(n: nat): seq<string> {
    seq(n, i requires 0 <= i => MemberKeyText(i + 1))
  }

  lemma SingleDigitOrder(j: nat, k: nat)
    requires j < k < 10
    ensures Less(MemberKeyText(j), MemberKeyText(k))
  {
    SamePrefix("member-", Decimal(j), Decimal(k));
  }

  lemma {:induction false} SamePrefix(p: string, a: string, b: string)
    ensures Less(p + a, p + b) <==> Less(a, b)
  {
    if p == "" {
      assert p + a == a && p + b == b;
    } else {
      SamePrefix(p[1..], a, b);
      assert (p + a)[1..] == p[1..] + a && (p + b)[1..] == p[1..] + b;
    }
  }

  /** Numeric order and text order of the member keys agree up to nine members and no further:
      "member-10" sorts before "member-2". */
  lemma ExpectedKeysAscendIff(n: nat)
    ensures Ascending(ExpectedKeys(n)) <==> n <= 9
  {
    var e := ExpectedKeys(n);
    if n <= 9 {
      forall i, j | 0 <= i < j < n
        ensures Less(e[i], e[j])
      {
        SingleDigitOrder(i + 1, j + 1);
      }
    } else {
      assert e[1] == "member-" + "2" && e[9] == "member-" + "10" by {
        assert Decimal(10) == Decimal(1) + [Digit(0)] == "10";
      }
      SamePrefix("member-", "2", "10");
      assert !Less("2", "10");
      assert !Less(e[1], e[9]);
    }
  }
}
