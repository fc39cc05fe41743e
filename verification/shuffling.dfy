/** The source shuffles with `sort` and a random or constant comparator; the
    ECMAScript specification leaves the resulting order to the engine but keeps
    the elements. The model keeps exactly that: some permutation, chosen by an
    external source of choices `pick`. */
module Shuffling {

  /** Selection shuffle: with n elements left, the one at `pick(n) % n` comes
      next. */
  function Shuffle<T>(s: seq<T>, pick: nat -> nat): (r: seq<T>)
    ensures |r| == |s|
    decreases |s|
  {
    if s == [] then []
    else
      var k := pick(|s|) % |s|;
      [s[k]] + Shuffle(s[..k] + s[k + 1..], pick)
  }

  /** Shuffling keeps every element, as often as it occurs. */
  lemma {:induction false} ShufflePermutes<T>(s: seq<T>, pick: nat -> nat)
    ensures multiset(Shuffle(s, pick)) == multiset(s)
    decreases |s|
  {
    if s != [] {
      var k := pick(|s|) % |s|;
      var rest := s[..k] + s[k + 1..];
      ShufflePermutes(rest, pick);
      assert s == s[..k] + [s[k]] + s[k + 1..];
      assert multiset(s) == multiset{s[k]} + multiset(rest);
    }
  }

  /** A source of choices that always takes the first remaining element
      leaves the sequence as it is. */
  lemma {:induction false} ShuffleFirstIsIdentity<T>(s: seq<T>, pick: nat -> nat)
    requires forall n :: pick(n) == 0
    ensures Shuffle(s, pick) == s
    decreases |s|
  {
    if s != [] {
      assert pick(|s|) == 0;
      assert s[..0] + s[0 + 1..] == s[1..];
      assert Shuffle(s, pick) == [s[0]] + Shuffle(s[1..], pick);
      ShuffleFirstIsIdentity(s[1..], pick);
      assert [s[0]] + s[1..] == s;
    }
  }

  /** One step of the shuffle, unfolded. */
  lemma ShuffleStep<T>(s: seq<T>, pick: nat -> nat, k: nat)
    requires s != [] && k == pick(|s|) % |s|
    ensures Shuffle(s, pick) == [s[k]] + Shuffle(s[..k] + s[k + 1..], pick)
  {
  }

  /** A source of choices that always takes the last remaining element
      reverses the sequence. */
  lemma {:induction false} ShuffleLastReverses<T>(s: seq<T>, pick: nat -> nat)
    requires forall n :: n > 0 ==> pick(n) == n - 1
    ensures var r := Shuffle(s, pick);
      forall i :: 0 <= i < |s| ==> r[i] == s[|s| - 1 - i]
    decreases |s|
  {
    if s != [] {
      var k := |s| - 1;
      var t := s[..k];
      assert pick(|s|) % |s| == k;
      assert s[..k] + s[k + 1..] == t;
      ShuffleStep(s, pick, k);
      var rest := Shuffle(t, pick);
      ShuffleLastReverses(t, pick);
      var r := [s[k]] + rest;
      assert r == Shuffle(s, pick);
      forall i | 0 <= i < |s|
        ensures r[i] == s[|s| - 1 - i]
      {
        if i > 0 {
          assert r[i] == rest[i - 1];
        }
      }
    }
  }
}
