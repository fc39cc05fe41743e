/** What the learn and test screens show (app/wordlists/learn.tsx and
    app/wordlists/test.tsx hold identical copies of `orderedCards`): a
    wordlist's cards resolved through the join sequence and put in the
    wordlist's order, and the wrap-around card index. */
module Review {
  import opened Wrappers
  import opened Types
  import opened Joins
  import Sorting
  import Shuffling
  import Library

  /** The card ids of wordlist `w`, in join order. */
  function MemberIds(joins: seq<Join>, w: string): (ids: seq<string>)
    ensures |ids| == Count(joins, w)
    ensures forall id :: id in ids <==> exists j :: j in joins && j.parent == w && j.child == id
  {
    if joins == [] then []
    else (if joins[0].parent == w then [joins[0].child] else []) + MemberIds(joins[1..], w)
  }

  /** The cards the ids name, in order; ids without a card are dropped. */
  function Present(ids: seq<string>, cards: map<string, Flashcard>): (r: seq<Flashcard>)
    ensures |r| <= |ids|
    ensures (forall id :: id in ids ==> id in cards) ==> |r| == |ids|
    ensures forall c :: c in r <==> exists id :: id in ids && id in cards && cards[id] == c
  {
    if ids == [] then []
    else (if ids[0] in cards then [cards[ids[0]]] else []) + Present(ids[1..], cards)
  }

  /** The cards of wordlist `w`, in join-insertion order, dangling rows dropped. */
  function Resolve(joins: seq<Join>, w: string, cards: map<string, Flashcard>): (r: seq<Flashcard>)
    ensures |r| <= Count(joins, w)
    ensures forall c :: c in r <==> exists j :: j in joins && j.parent == w && j.child in cards && cards[j.child] == c
  {
    var ids := MemberIds(joins, w);
    var r := Present(ids, cards);
    assert forall c :: c in r ==> exists j :: j in joins && j.parent == w && j.child in cards && cards[j.child] == c by {
      forall c | c in r
        ensures exists j :: j in joins && j.parent == w && j.child in cards && cards[j.child] == c
      {
        var id :| id in ids && id in cards && cards[id] == c;
        var j :| j in joins && j.parent == w && j.child == id;
      }
    }
    r
  }

  lemma {:induction false} MemberIdsAppend(joins: seq<Join>, j: Join, w: string)
    ensures MemberIds(joins + [j], w) == MemberIds(joins, w) + (if j.parent == w then [j.child] else [])
    decreases |joins|
  {
    var tail := if j.parent == w then [j.child] else [];
    if joins == [] {
      assert joins + [j] == [j];
      assert MemberIds([j], w) == tail + MemberIds([], w);
    } else {
      var head := if joins[0].parent == w then [joins[0].child] else [];
      var ys := joins + [j];
      assert ys[0] == joins[0];
      assert ys[1..] == joins[1..] + [j];
      MemberIdsAppend(joins[1..], j, w);
      assert MemberIds(ys, w) == head + MemberIds(joins[1..] + [j], w);
      assert MemberIds(ys, w) == head + (MemberIds(joins[1..], w) + tail);
      assert head + (MemberIds(joins[1..], w) + tail) == (head + MemberIds(joins[1..], w)) + tail;
    }
  }

  lemma {:induction false} PresentConcat(a: seq<string>, b: seq<string>, cards: map<string, Flashcard>)
    ensures Present(a + b, cards) == Present(a, cards) + Present(b, cards)
    decreases |a|
  {
    if a == [] {
      assert [] + b == b;
    } else {
      assert (a + b)[0] == a[0];
      assert (a + b)[1..] == a[1..] + b;
      PresentConcat(a[1..], b, cards);
    }
  }

  /** Appending a join row appends its card, if the card exists, at the end:
      the default order is join-insertion order, not card creation time. */
  lemma ResolveAppend(joins: seq<Join>, j: Join, w: string, cards: map<string, Flashcard>)
    ensures Resolve(joins + [j], w, cards)
         == Resolve(joins, w, cards) + (if j.parent == w && j.child in cards then [cards[j.child]] else [])
  {
    MemberIdsAppend(joins, j, w);
    PresentConcat(MemberIds(joins, w), if j.parent == w then [j.child] else [], cards);
  }

  /** The seed actually used: `seed || Math.random()`, where `fallback` is the
      `Math.random()` draw and a zero seed counts as absent. */
  function EffectiveSeed(seed: Option<Seed>, fallback: Seed): Seed {
    if seed.Some? && seed.value != 0.0 then seed.value else fallback
  }

  /** The ordering step of orderedCards, applied to the resolved cards. */
  function Arrange(arr: seq<Flashcard>, order: Option<string>, seed: Option<Seed>,
                   le: (string, string) -> bool, fallback: Seed, draw: (Seed, nat) -> nat)
    : (r: seq<Flashcard>)
    ensures multiset(r) == multiset(arr) && |r| == |arr|
    ensures order == Some(ALPHA) && Sorting.TotalPreorder(le) ==> Sorting.SortedByWord(r, le)
    ensures order != Some(ALPHA) && order != Some(SHUFFLE) ==> r == arr
  {
    if order == Some(ALPHA) then
      assert Sorting.TotalPreorder(le) ==> Sorting.SortedByWord(Sorting.SortByWord(arr, le), le) by {
        if Sorting.TotalPreorder(le) {
          Sorting.SortByWordSorted(arr, le);
        }
      }
      Sorting.SortByWord(arr, le)
    else if order == Some(SHUFFLE) then
      var rng := EffectiveSeed(seed, fallback);
      Shuffling.ShufflePermutes(arr, (k: nat) => draw(rng, k));
      Shuffling.Shuffle(arr, (k: nat) => draw(rng, k))
    else arr
  }

  /** orderedCards. An absent or empty wordlist id gives no cards. "alpha" sorts
      by word, "shuffle" permutes with choices `draw` derives from the seed,
      any other order (also one outside the enum, like "recent") keeps join
      order. */
  function OrderedCards(wordlistId: Option<string>, joins: seq<Join>, cards: map<string, Flashcard>,
                        order: Option<string>, seed: Option<Seed>,
                        le: (string, string) -> bool, fallback: Seed, draw: (Seed, nat) -> nat)
    : (r: seq<Flashcard>)
    ensures wordlistId.None? || wordlistId == Some("") ==> r == []
    ensures wordlistId.Some? && wordlistId.value != "" ==>
      var arr := Resolve(joins, wordlistId.value, cards);
      && multiset(r) == multiset(arr)
      && |r| <= Count(joins, wordlistId.value)
      && (order == Some(ALPHA) && Sorting.TotalPreorder(le) ==> Sorting.SortedByWord(r, le))
      && (order != Some(ALPHA) && order != Some(SHUFFLE) ==> r == arr)
    ensures forall c :: c in r ==> exists j :: j in joins && Some(j.parent) == wordlistId && j.child in cards && cards[j.child] == c
  {
    if wordlistId.None? || wordlistId.value == "" then []
    else
      var w := wordlistId.value;
      var arr := Resolve(joins, w, cards);
      var r := Arrange(arr, order, seed, le, fallback, draw);
      assert forall c :: c in r ==> exists j :: j in joins && Some(j.parent) == wordlistId && j.child in cards && cards[j.child] == c by {
        forall c | c in r
          ensures exists j :: j in joins && Some(j.parent) == wordlistId && j.child in cards && cards[j.child] == c
        {
          assert c in multiset(arr);
          assert c in arr;
          var j :| j in joins && j.parent == w && j.child in cards && cards[j.child] == c;
        }
      }
      r
  }

  /** With a stored non-zero seed the order does not depend on the
      `Math.random()` fallback: resolving twice gives the same sequence. */
  lemma SeededOrderIgnoresFallback(wordlistId: Option<string>, joins: seq<Join>, cards: map<string, Flashcard>,
                                   order: Option<string>, seed: Option<Seed>,
                                   le: (string, string) -> bool, fallback1: Seed, fallback2: Seed,
                                   draw: (Seed, nat) -> nat)
    requires seed.Some? && seed.value != 0.0
    ensures OrderedCards(wordlistId, joins, cards, order, seed, le, fallback1, draw)
         == OrderedCards(wordlistId, joins, cards, order, seed, le, fallback2, draw)
  {
  }

  /** The learn screen's `next`: `(n + 1) % Math.max(cards.length, 1)`. */
  function Next(n: nat, len: nat): (r: nat)
    ensures r < (if len > 0 then len else 1)
    ensures n + 1 < len ==> r == n + 1
    ensures n + 1 == len ==> r == 0
    ensures len == 0 ==> r == 0
  {
    (n + 1) % (if len > 0 then len else 1)
  }

  /** The index after `k` presses of next. */
  function Skip(n: nat, len: nat, k: nat): nat {
    if k == 0 then n else Next(Skip(n, len, k - 1), len)
  }

  /** Before the last card, `k` presses of next move `k` cards on. */
  lemma {:induction false} SkipNoWrap(n: nat, len: nat, k: nat)
    requires n + k < len
    ensures Skip(n, len, k) == n + k
  {
    if k > 0 {
      SkipNoWrap(n, len, k - 1);
    }
  }

  lemma {:induction false} SkipCompose(n: nat, len: nat, a: nat, b: nat)
    ensures Skip(n, len, a + b) == Skip(Skip(n, len, a), len, b)
  {
    if b > 0 {
      SkipCompose(n, len, a, b - 1);
    }
  }

  /** Pressing next as many times as there are cards returns to the same
      card: the last card wraps to the first. */
  lemma NextFullCircle(n: nat, len: nat)
    requires n < len
    ensures Skip(n, len, len) == n
  {
    var toLast := len - 1 - n;
    SkipNoWrap(n, len, toLast);
    assert Skip(n, len, toLast + 1) == 0;
    SkipCompose(n, len, toLast + 1, n);
    SkipNoWrap(0, len, n);
  }

  /** The test screen's review position: the card index and whether its
      meaning is shown. */
  datatype Session = Session(index: nat, revealed: bool)

  /** The test screen's `next`: advance the index as the learn screen does and
      hide the meaning again. */
  function Advance(s: Session, len: nat): (r: Session)
    ensures !r.revealed
    ensures r.index < (if len > 0 then len else 1)
    ensures s.index + 1 < len ==> r.index == s.index + 1
    ensures s.index + 1 == len ==> r.index == 0
  {
    Session(Next(s.index, len), false)
  }

  /** The learn screen's Confirm button: counts a review of the card shown and
      moves to the next card. The card shown must exist in `cards`, as it does
      whenever the screen renders its buttons. */
  function Confirm(index: nat, store: Library.State, cards: seq<Flashcard>, now: Timestamp): (r: (nat, Library.State))
    requires index < |cards|
    ensures r.0 == Next(index, |cards|)
    ensures var id := cards[index].id;
      && r.1.flashcards.Keys == store.flashcards.Keys
      && (id in store.flashcards ==> r.1.flashcards[id].frequency == store.flashcards[id].frequency + 1)
      && (id in store.flashcards ==>
            r.1.flashcards[id] == store.flashcards[id].(frequency := store.flashcards[id].frequency + 1, updatedAt := now))
      && (forall k :: k in store.flashcards && k != id ==> r.1.flashcards[k] == store.flashcards[k])
      && r.1.(flashcards := store.flashcards) == store
  {
    (Next(index, |cards|), Library.BumpFrequency(store, cards[index].id, now))
  }

  /** The test screen's Reveal button: shows the meaning and counts a review of
      the card shown; the index stays. */
  function Reveal(s: Session, store: Library.State, cards: seq<Flashcard>, now: Timestamp): (r: (Session, Library.State))
    requires s.index < |cards|
    ensures r.0.revealed && r.0.index == s.index
    ensures var id := cards[s.index].id;
      && r.1.flashcards.Keys == store.flashcards.Keys
      && (id in store.flashcards ==> r.1.flashcards[id].frequency == store.flashcards[id].frequency + 1)
      && (id in store.flashcards ==>
            r.1.flashcards[id] == store.flashcards[id].(frequency := store.flashcards[id].frequency + 1, updatedAt := now))
      && (forall k :: k in store.flashcards && k != id ==> r.1.flashcards[k] == store.flashcards[k])
      && r.1.(flashcards := store.flashcards) == store
  {
    (s.(revealed := true), Library.BumpFrequency(store, cards[s.index].id, now))
  }

  /** Revealing and then moving on leaves the meaning hidden at the next card,
      with the shown card reviewed once more. */
  lemma RevealThenAdvance(s: Session, store: Library.State, cards: seq<Flashcard>, now: Timestamp)
    requires s.index < |cards|
    requires cards[s.index].id in store.flashcards
    ensures var (shown, t) := Reveal(s, store, cards, now);
      var after := Advance(shown, |cards|);
      && !after.revealed
      && after.index == Next(s.index, |cards|)
      && t.flashcards[cards[s.index].id].frequency == store.flashcards[cards[s.index].id].frequency + 1
  {
  }
}
