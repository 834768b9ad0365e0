/**
 * `count_characters` of main.py: how often each character occurs, most
 * frequent first. `sorted(..., key=lambda item: item[1], reverse=True)` is
 * stable, so it is the stable sort on the negated count.
 */
module CountCharacters {
  import opened Seqs
  import opened StableSort

  /** The characters of `s` in order of first occurrence: the keys of `char_count` in insertion order. */
  function FirstOccurrences(s: string): seq<char>
  {
    if s == [] then []
    else
      var last := s[|s| - 1];
      FirstOccurrences(s[..|s| - 1]) + (if last in s[..|s| - 1] then [] else [last])
  }

  /** `char_count.items()`: each character with its number of occurrences, in first-occurrence order. */
  function Histogram(s: string): seq<(char, nat)>
  {
    var cs := FirstOccurrences(s);
    seq(|cs|, i requires 0 <= i < |cs| => (cs[i], multiset(s)[cs[i]]))
  }

  /** The sort key of `reverse=True` with `key=lambda item: item[1]`. */
  function Descending(item: (char, nat)): int
  {
    -(item.1 as int)
  }

  /** What `count_characters` returns. */
  function CharacterCounts(s: string): seq<(char, nat)>
  {
    SortBy(Histogram(s), Descending)
  }

  method Count(s: string) returns (r: seq<(char, nat)>)
    ensures r == CharacterCounts(s)
  {
    var charCount: map<char, nat> := map[];
    var order: seq<char> := [];
    var i := 0;
    while i < |s|
      invariant 0 <= i <= |s|
      invariant order == FirstOccurrences(s[..i])
      invariant forall c :: c in charCount <==> c in s[..i]
      invariant forall c :: c in charCount ==> charCount[c] == multiset(s[..i])[c]
    {
      var c := s[i];
      assert s[..i + 1] == s[..i] + [c];
      assert s[..i + 1][..i] == s[..i];
      if c in charCount {
        charCount := charCount[c := charCount[c] + 1];
      } else {
        charCount := charCount[c := 1];
        order := order + [c];
      }
      i := i + 1;
    }
    assert s[..|s|] == s;
    FirstOccurrencesMembers(s);
    var items := seq(|order|, k requires 0 <= k < |order| => (order[k], charCount[order[k]]));
    assert items == Histogram(s);
    r := SortBy(items, Descending);
  }

  // ---------------------------------------------------------------- first occurrences

  /** The first-occurrence list holds exactly the characters of `s`. */
  lemma {:induction false} FirstOccurrencesMembers(s: string)
    ensures forall c :: c in FirstOccurrences(s) <==> c in s
  {
    if s != [] {
      var init := s[..|s| - 1];
      FirstOccurrencesMembers(init);
      assert s == init + [s[|s| - 1]];
    }
  }

  /** The first-occurrence list lists no character twice. */
  lemma {:induction false} FirstOccurrencesDistinct(s: string)
    ensures Distinct(FirstOccurrences(s))
  {
    if s != [] {
      var init := s[..|s| - 1];
      var last := s[|s| - 1];
      FirstOccurrencesDistinct(init);
      FirstOccurrencesMembers(init);
      var fo := FirstOccurrences(init);
      if last !in init {
        forall i, j | 0 <= i < j < |fo + [last]| ensures (fo + [last])[i] != (fo + [last])[j] {
          if j == |fo| {
            assert (fo + [last])[i] == fo[i];
          }
        }
      }
    }
  }

  /** No two entries of the histogram are equal. */
  lemma HistogramDistinct(s: string)
    ensures Distinct(Histogram(s))
  {
    FirstOccurrencesDistinct(s);
  }

  // ---------------------------------------------------------------- sums

  /** The sum of the counts of `items`. */
  function Total(items: seq<(char, nat)>): nat
  {
    if items == [] then 0 else items[0].1 + Total(items[1..])
  }

  /** The number of positions of `s` holding one of the characters `cs`. */
  function CountOf(cs: seq<char>, s: string): nat
  {
    if cs == [] then 0 else multiset(s)[cs[0]] + CountOf(cs[1..], s)
  }

  lemma {:induction false} CountOfEmpty(cs: seq<char>)
    ensures CountOf(cs, []) == 0
  {
    if cs != [] {
      CountOfEmpty(cs[1..]);
    }
  }

  /** One more character adds one to the count of a list that holds it once, and nothing otherwise. */
  lemma {:induction false} CountOfSnoc(cs: seq<char>, s: string, x: char)
    requires Distinct(cs)
    ensures CountOf(cs, s + [x]) == CountOf(cs, s) + (if x in cs then 1 else 0)
  {
    if cs != [] {
      assert Distinct(cs[1..]) by {
        forall i, j | 0 <= i < j < |cs[1..]| ensures cs[1..][i] != cs[1..][j] {
          assert cs[1..][i] == cs[i + 1] && cs[1..][j] == cs[j + 1];
        }
      }
      CountOfSnoc(cs[1..], s, x);
      assert cs == [cs[0]] + cs[1..];
      assert x == cs[0] ==> x !in cs[1..];
      assert multiset(s + [x]) == multiset(s) + multiset{x};
    }
  }

  /** A list of distinct characters that contains every character of `s` covers all of `s`. */
  lemma {:induction false} CountOfAll(cs: seq<char>, s: string)
    requires Distinct(cs)
    requires forall c :: c in s ==> c in cs
    ensures CountOf(cs, s) == |s|
  {
    if s == [] {
      CountOfEmpty(cs);
    } else {
      var init := s[..|s| - 1];
      assert s == init + [s[|s| - 1]];
      CountOfAll(cs, init);
      CountOfSnoc(cs, init, s[|s| - 1]);
    }
  }

  /** The counts of a list of characters add up to `CountOf`. */
  lemma {:induction false} TotalCounts(cs: seq<char>, s: string)
    ensures Total(seq(|cs|, i requires 0 <= i < |cs| => (cs[i], multiset(s)[cs[i]]))) == CountOf(cs, s)
  {
    var items := seq(|cs|, i requires 0 <= i < |cs| => (cs[i], multiset(s)[cs[i]]));
    if cs != [] {
      TotalCounts(cs[1..], s);
      assert items[1..] == seq(|cs[1..]|, i requires 0 <= i < |cs[1..]| => (cs[1..][i], multiset(s)[cs[1..][i]]));
    }
  }

  lemma {:induction false} TotalInsertBy(x: (char, nat), items: seq<(char, nat)>)
    ensures Total(InsertBy(x, items, Descending)) == x.1 + Total(items)
  {
    if items != [] && Descending(items[0]) < Descending(x) {
      TotalInsertBy(x, items[1..]);
      assert InsertBy(x, items, Descending)[1..] == InsertBy(x, items[1..], Descending);
    } else if items != [] {
      assert ([x] + items)[1..] == items;
    }
  }

  /** Sorting does not change the total. */
  lemma {:induction false} TotalSortBy(items: seq<(char, nat)>)
    ensures Total(SortBy(items, Descending)) == Total(items)
  {
    if items != [] {
      TotalSortBy(items[1..]);
      TotalInsertBy(items[0], SortBy(items[1..], Descending));
    }
  }

  // ---------------------------------------------------------------- count_characters

  /** Each entry is a character of `s` with its number of occurrences, and every character of `s` has one. */
  lemma CountsExact(s: string)
    ensures forall i :: 0 <= i < |CharacterCounts(s)| ==>
              CharacterCounts(s)[i].0 in s && CharacterCounts(s)[i].1 == multiset(s)[CharacterCounts(s)[i].0]
    ensures forall c :: c in s ==> exists i :: 0 <= i < |CharacterCounts(s)| && CharacterCounts(s)[i].0 == c
  {
    var r := CharacterCounts(s);
    var h := Histogram(s);
    FirstOccurrencesMembers(s);
    assert multiset(r) == multiset(h);
    forall i | 0 <= i < |r|
      ensures r[i].0 in s && r[i].1 == multiset(s)[r[i].0]
    {
      assert r[i] in multiset(h);
      var j :| 0 <= j < |h| && h[j] == r[i];
    }
    forall c | c in s ensures exists i :: 0 <= i < |r| && r[i].0 == c {
      var j :| 0 <= j < |FirstOccurrences(s)| && FirstOccurrences(s)[j] == c;
      assert h[j] in multiset(r);
      var i :| 0 <= i < |r| && r[i] == h[j];
    }
  }

  /** Every character of the input appears exactly once. */
  lemma CountsDistinct(s: string)
    ensures forall i, j :: 0 <= i < j < |CharacterCounts(s)| ==> CharacterCounts(s)[i].0 != CharacterCounts(s)[j].0
  {
    var r := CharacterCounts(s);
    HistogramDistinct(s);
    DistinctPermutation(Histogram(s), r);
    CountsExact(s);
    forall i, j | 0 <= i < j < |r| ensures r[i].0 != r[j].0 {
      assert r[i] != r[j];
    }
  }

  /** The counts never increase along the result. */
  lemma CountsDescending(s: string)
    ensures forall i, j :: 0 <= i < j < |CharacterCounts(s)| ==> CharacterCounts(s)[i].1 >= CharacterCounts(s)[j].1
  {
    var r := CharacterCounts(s);
    SortBySorted(Histogram(s), Descending);
    forall i, j | 0 <= i < j < |r| ensures r[i].1 >= r[j].1 {
      assert Descending(r[i]) <= Descending(r[j]);
    }
  }

  /** Characters with the same count keep their order of first occurrence. */
  lemma CountsStable(s: string, count: nat)
    ensures WithKey(CharacterCounts(s), Descending, -(count as int)) == WithKey(Histogram(s), Descending, -(count as int))
  {
    SortByStable(Histogram(s), Descending, -(count as int));
  }

  /** The counts add up to the length of the input. */
  lemma CountsTotal(s: string)
    ensures Total(CharacterCounts(s)) == |s|
  {
    TotalSortBy(Histogram(s));
    TotalCounts(FirstOccurrences(s), s);
    FirstOccurrencesDistinct(s);
    FirstOccurrencesMembers(s);
    CountOfAll(FirstOccurrences(s), s);
  }

  /** The empty string has no characters to count. */
  lemma CountsOfEmpty()
    ensures CharacterCounts("") == []
  {
  }
}
