/** Sorting cards by word, as `arr.sort((a, b) => a.word.localeCompare(b.word))`.
    `localeCompare` is not modelled; `le(a, b)` stands for
    `a.localeCompare(b) <= 0` and is assumed to be a total preorder only where
    a property needs it. */
module Sorting {
  import opened Types

  ghost predicate TotalPreorder(le: (string, string) -> bool) {
    && (forall a, b :: le(a, b) || le(b, a))
    && (forall a, b, c :: le(a, b) && le(b, c) ==> le(a, c))
  }

  ghost predicate SortedByWord(cs: seq<Flashcard>, le: (string, string) -> bool) {
    forall i, j :: 0 <= i < j < |cs| ==> le(cs[i].word, cs[j].word)
  }

  /** Inserts `c` after every card whose word is not after it, so that equal
      words keep their input order (JavaScript's sort is stable). */
  function Insert(sorted: seq<Flashcard>, c: Flashcard, le: (string, string) -> bool): (r: seq<Flashcard>)
    ensures multiset(r) == multiset(sorted) + multiset{c}
    ensures |r| == |sorted| + 1
  {
    if sorted == [] then [c]
    else
      assert sorted == [sorted[0]] + sorted[1..];
      if le(sorted[0].word, c.word) then [sorted[0]] + Insert(sorted[1..], c, le)
      else [c] + sorted
  }

  /** Stable insertion sort by word. */
  function SortByWord(cs: seq<Flashcard>, le: (string, string) -> bool): (r: seq<Flashcard>)
    ensures multiset(r) == multiset(cs)
    ensures |r| == |cs|
    decreases |cs|
  {
    if cs == [] then []
    else
      assert cs == cs[..|cs| - 1] + [cs[|cs| - 1]];
      Insert(SortByWord(cs[..|cs| - 1], le), cs[|cs| - 1], le)
  }

  lemma {:induction false} InsertSorted(sorted: seq<Flashcard>, c: Flashcard, le: (string, string) -> bool)
    requires TotalPreorder(le) && SortedByWord(sorted, le)
    ensures SortedByWord(Insert(sorted, c, le), le)
    decreases |sorted|
  {
    var r := Insert(sorted, c, le);
    if sorted != [] {
      if le(sorted[0].word, c.word) {
        var tail := sorted[1..];
        assert SortedByWord(tail, le) by {
          forall i, j | 0 <= i < j < |tail|
            ensures le(tail[i].word, tail[j].word)
          {
            assert tail[i] == sorted[i + 1] && tail[j] == sorted[j + 1];
          }
        }
        InsertSorted(tail, c, le);
        var rest := Insert(tail, c, le);
        forall k | 0 <= k < |rest|
          ensures le(sorted[0].word, rest[k].word)
        {
          assert rest[k] in multiset(rest);
          if rest[k] != c {
            assert rest[k] in multiset(tail);
            var m :| 0 <= m < |tail| && tail[m] == rest[k];
            assert sorted[m + 1] == rest[k];
          }
        }
        assert r == [sorted[0]] + rest;
        forall i, j | 0 <= i < j < |r|
          ensures le(r[i].word, r[j].word)
        {
          if i == 0 {
            assert r[j] == rest[j - 1];
          } else {
            assert r[i] == rest[i - 1] && r[j] == rest[j - 1];
          }
        }
      } else {
        assert le(c.word, sorted[0].word);
        assert r == [c] + sorted;
        forall i, j | 0 <= i < j < |r|
          ensures le(r[i].word, r[j].word)
        {
          if i == 0 {
            assert r[j] == sorted[j - 1];
            if j > 1 {
              assert le(sorted[0].word, sorted[j - 1].word);
            }
          } else {
            assert r[i] == sorted[i - 1] && r[j] == sorted[j - 1];
          }
        }
      }
    }
  }

  /** Under a total preorder the result is sorted by word. */
  lemma {:induction false} SortByWordSorted(cs: seq<Flashcard>, le: (string, string) -> bool)
    requires TotalPreorder(le)
    ensures SortedByWord(SortByWord(cs, le), le)
    decreases |cs|
  {
    if cs != [] {
      SortByWordSorted(cs[..|cs| - 1], le);
      InsertSorted(SortByWord(cs[..|cs| - 1], le), cs[|cs| - 1], le);
    }
  }
}
