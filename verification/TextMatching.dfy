/** How app/application/recommendation_service.py matches a place with a label: on normalised texts, by the provider id,
    by the name holding the label, or by the label holding the name. */
module TextMatching {
  /** Normalisation of a text - NFKC, strip, case folding, single spaces - and whether a label speaks of dining. */
  datatype Texts = Texts(norm: string -> string, diningLabel: string -> bool)

  predicate StandsAt(part: string, whole: string, k: nat) {
    k + |part| <= |whole| && whole[k..k + |part|] == part
  }

  /** `part in whole`. */
  ghost predicate Within(part: string, whole: string) {
    exists k :: StandsAt(part, whole, k)
  }

  /** `_place_matches_label` on normalised texts. */
  ghost predicate Matches(name: string, id: string, wish: string) {
    wish != "" && (wish == id || Within(wish, name) || Within(name, wish))
  }

  /** `_explicit_place_label_matches`. */
  predicate Names(name: string, id: string, wish: string) {
    wish != "" && (wish == name || wish == id)
  }

  /** `_required_place_matches` and `_candidate_matches_label`: a restaurant stands only for a label that names it or that
      speaks of dining. */
  ghost predicate Satisfies(name: string, id: string, dining: bool, wish: string, wishDining: bool) {
    Matches(name, id, wish) && (!dining || Names(name, id, wish) || wishDining)
  }

  // ---- Plain texts ---------------------------------------------------------------------------

  /** A word of lower-case letters. */
  predicate Plain(s: string) {
    s != "" && forall i :: 0 <= i < |s| ==> 'a' <= s[i] <= 'z'
  }

  /** Normalisation leaves words of lower-case letters alone, and none of them speaks of dining. */
  ghost predicate PlainStays(t: Texts) {
    forall s: string :: Plain(s) ==> t.norm(s) == s && !t.diningLabel(s)
  }

  function Letter(i: nat): (c: char)
    requires i < 26
    ensures 'a' <= c <= 'z' && c as int == 'a' as int + i
  {
    ('a' as int + i) as char
  }

  function Repeated(c: char, n: nat): (s: string)
    ensures |s| == n && forall i :: 0 <= i < n ==> s[i] == c
  {
    seq(n, _ => c)
  }

  /** A text that starts with another letter is not within a text of one letter only. */
  lemma NotWithinRepeated(part: string, c: char, n: nat)
    requires part != "" && part[0] != c
    ensures !Within(part, Repeated(c, n))
  {
    var whole := Repeated(c, n);
    forall k: nat | k + |part| <= |whole|
      ensures !StandsAt(part, whole, k)
    {
      assert whole[k..k + |part|][0] == whole[k];
    }
  }

  lemma NotWithinShorter(part: string, whole: string)
    requires |part| > |whole|
    ensures !Within(part, whole)
  {
  }

  /** What holds or is held by a word of one repeated letter does so by the single letter, too. */
  lemma OneLetter(name: string, c: char, k: nat)
    requires k > 0
    ensures Within(Repeated(c, k), name) ==> Within(Repeated(c, 1), name)
    ensures Within(name, Repeated(c, k)) ==> Within(name, Repeated(c, 1)) || Within(Repeated(c, 1), name)
  {
    var one, word := Repeated(c, 1), Repeated(c, k);
    if j: nat :| StandsAt(word, name, j) {
      assert name[j..j + k][0] == name[j];
      assert name[j..j + 1] == one;
      assert StandsAt(one, name, j);
    }
    if j: nat :| StandsAt(name, word, j) {
      if name == "" {
        assert StandsAt(name, one, 0);
      } else {
        assert word[j..j + |name|][0] == word[j];
        assert name[0..1] == one;
        assert StandsAt(one, name, 0);
      }
    }
  }

  function Initials(texts: seq<string>): set<char> {
    set i | 0 <= i < |texts| && texts[i] != "" :: texts[i][0]
  }

  lemma {:induction false} InitialsCount(texts: seq<string>)
    ensures |Initials(texts)| <= |texts|
  {
    if texts != [] {
      var front, last := texts[..|texts| - 1], texts[|texts| - 1];
      InitialsCount(front);
      var added := if last != "" then {last[0]} else {};
      forall c
        ensures c in Initials(texts) ==> c in Initials(front) + added
      {
        if i :| 0 <= i < |texts| && texts[i] != "" && texts[i][0] == c {
          assert i < |front| ==> front[i] == texts[i];
        }
      }
      SubsetCount(Initials(texts), Initials(front) + added);
    }
  }

  function Letters(n: nat): set<char>
    requires n <= 26
  {
    set i | 0 <= i < n :: Letter(i)
  }

  lemma {:induction false} LettersCount(n: nat)
    requires n <= 26
    ensures |Letters(n)| == n
  {
    if n > 0 {
      LettersCount(n - 1);
      assert Letters(n) == Letters(n - 1) + {Letter(n - 1)};
    }
  }

  lemma SubsetCount<T>(a: set<T>, b: set<T>)
    requires a <= b
    ensures |a| <= |b|
  {
    assert b == a + (b - a);
  }

  /** Fewer than 26 texts leave a letter that none of them starts with. */
  lemma FreeLetter(texts: seq<string>) returns (c: char)
    requires |texts| < 26
    ensures 'a' <= c <= 'z' && forall i :: 0 <= i < |texts| && texts[i] != "" ==> texts[i][0] != c
  {
    InitialsCount(texts);
    LettersCount(26);
    if Letters(26) <= Initials(texts) {
      SubsetCount(Letters(26), Initials(texts));
    }
    c :| c in Letters(26) && c !in Initials(texts);
  }

  function TotalLength(texts: seq<string>): (n: nat)
    ensures forall i :: 0 <= i < |texts| ==> |texts[i]| <= n
  {
    if texts == [] then 0
    else
      var rest := TotalLength(texts[1..]);
      assert forall i :: 1 <= i < |texts| ==> texts[i] == texts[1..][i - 1];
      |texts[0]| + rest
  }

  /** A long name of the free letter matches no text of the list, unless the id is that text. */
  lemma OnlyTheIdMatches(texts: seq<string>, c: char, n: nat, id: string, wish: string)
    requires wish in texts && TotalLength(texts) < n
    requires forall i :: 0 <= i < |texts| && texts[i] != "" ==> texts[i][0] != c
    ensures Matches(Repeated(c, n), id, wish) <==> wish != "" && wish == id
  {
    var i :| 0 <= i < |texts| && texts[i] == wish;
    if wish != "" {
      NotWithinRepeated(wish, c, n);
      NotWithinShorter(Repeated(c, n), wish);
    }
  }
}
