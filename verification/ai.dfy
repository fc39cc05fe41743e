/** The placeholder generators of src/lib/ai.ts: example sentences and a quiz
    for the first five cards of a list. The Promise wrapper is dropped; each
    `Math.random()` shuffle of the choices is some permutation picked by `draw`. */
module Ai {
  import opened Wrappers
  import opened Types
  import Shuffling

  const MAX_ITEMS: nat := 5

  datatype ExampleSentence = ExampleSentence(word: string, sentences: seq<string>)

  datatype QuestionType = Mcq | Fill

  datatype QuizQuestion = QuizQuestion(
    id: string,
    kind: QuestionType,
    prompt: string,
    choices: Option<seq<string>>,
    answer: string)

  const DISTRACTORS: seq<string> := ["A random distractor", "Another distractor", "Yet another"]

  function Min(a: nat, b: nat): nat {
    if a <= b then a else b
  }

  /** `w` occurs in `s` as a contiguous piece. */
  predicate Contains(s: string, w: string) {
    exists i :: 0 <= i <= |s| && w <= s[i..]
  }

  lemma ContainsMiddle(a: string, w: string, b: string)
    ensures Contains(a + w + b, w)
  {
    var s := a + w + b;
    assert s[|a|..] == w + b;
  }

  /** The three template sentences for one card. */
  function Sentences(wordlistName: string, word: string): (r: seq<string>)
    ensures |r| == 3
    ensures forall k :: 0 <= k < 3 ==> Contains(r[k], word)
  {
    var r := [
      "In " + wordlistName + ", we often stress the word \"" + word + "\" when presenting.",
      "She stayed " + word + " despite the noisy room.",
      word + " practice keeps your skills sharp."];
    ContainsMiddle("In " + wordlistName + ", we often stress the word \"", word, "\" when presenting.");
    ContainsMiddle("She stayed ", word, " despite the noisy room.");
    ContainsMiddle("", word, " practice keeps your skills sharp.");
    assert "" + word == word;
    r
  }

  /** generateExamples: one entry per card of the first five, in order, each
      with three sentences using the card's word. */
  function GenerateExamples(wordlistName: string, cards: seq<Flashcard>): (r: seq<ExampleSentence>)
    ensures |r| == Min(MAX_ITEMS, |cards|)
    ensures forall i :: 0 <= i < |r| ==> r[i].word == cards[i].word
    ensures forall i :: 0 <= i < |r| ==> |r[i].sentences| == 3
    ensures forall i, k :: 0 <= i < |r| && 0 <= k < |r[i].sentences| ==> Contains(r[i].sentences[k], cards[i].word)
  {
    var first := cards[..Min(MAX_ITEMS, |cards|)];
    seq(|first|, i requires 0 <= i < |first| => ExampleSentence(first[i].word, Sentences(wordlistName, first[i].word)))
  }

  function Digit(d: nat): char
    requires d < 10
  {
    "0123456789"[d]
  }

  /** The decimal rendering of a number, as in a template literal `${idx}`. */
  function DecimalString(n: nat): (r: string)
    ensures |r| >= 1
    ensures forall i :: 0 <= i < |r| ==> '0' <= r[i] <= '9'
    decreases n
  {
    if n < 10 then [Digit(n)] else DecimalString(n / 10) + [Digit(n % 10)]
  }

  /** Reads a string of decimal digits back as a number. */
  function ParseDecimal(s: string): nat
    requires forall i :: 0 <= i < |s| ==> '0' <= s[i] <= '9'
  {
    if s == [] then 0
    else ParseDecimal(s[..|s| - 1]) * 10 + ((s[|s| - 1] as int - '0' as int) as nat)
  }

  /** The rendering is faithful: distinct indices give distinct suffixes. */
  lemma {:induction false} DecimalRoundTrip(n: nat)
    ensures ParseDecimal(DecimalString(n)) == n
    decreases n
  {
    if n >= 10 {
      var s := DecimalString(n);
      DecimalRoundTrip(n / 10);
      assert s[..|s| - 1] == DecimalString(n / 10);
    }
  }

  /** The four answer options of a multiple-choice question, before shuffling. */
  function Options(meaning: string): seq<string> {
    [meaning] + DISTRACTORS
  }

  /** The question for the card at position `idx`; its choices, when it has
      any, are the options in some order. */
  function Question(card: Flashcard, idx: nat, draw: (nat, nat) -> nat): (q: QuizQuestion)
    ensures q.choices.Some? <==> idx % 2 == 0
    ensures q.choices.Some? ==> multiset(q.choices.value) == multiset(Options(card.meaning))
  {
    var mcq := idx % 2 == 0;
    Shuffling.ShufflePermutes(Options(card.meaning), (k: nat) => draw(idx, k));
    QuizQuestion(
      card.id + "-" + DecimalString(idx),
      if mcq then Mcq else Fill,
      if mcq then "Choose the closest meaning of \"" + card.word + "\""
      else "Fill in the blank: She remained ____ under pressure (\"" + card.word + "\").",
      if mcq then Some(Shuffling.Shuffle(Options(card.meaning), (k: nat) => draw(idx, k))) else None,
      card.meaning)
  }

  /** generateQuiz: one question per card of the first five; even positions are
      multiple choice over a permutation of the meaning and three distractors,
      odd positions are fill-in-the-blank without choices. */
  function GenerateQuiz(wordlistName: string, cards: seq<Flashcard>, draw: (nat, nat) -> nat)
    : (r: seq<QuizQuestion>)
    ensures |r| == Min(MAX_ITEMS, |cards|)
    ensures forall i :: 0 <= i < |r| ==>
      && r[i].id == cards[i].id + "-" + DecimalString(i)
      && r[i].answer == cards[i].meaning
    ensures forall i :: 0 <= i < |r| ==> (r[i].kind == Mcq <==> i % 2 == 0)
    ensures forall i :: 0 <= i < |r| ==> (r[i].choices.Some? <==> r[i].kind == Mcq)
    ensures forall i :: 0 <= i < |r| && r[i].choices.Some? ==>
      && multiset(r[i].choices.value) == multiset([cards[i].meaning] + DISTRACTORS)
      && |r[i].choices.value| == 4
      && r[i].answer in r[i].choices.value
  {
    var first := cards[..Min(MAX_ITEMS, |cards|)];
    var r := seq(|first|, i requires 0 <= i < |first| => Question(first[i], i, draw));
    assert forall i :: 0 <= i < |r| && r[i].choices.Some? ==> r[i].answer in multiset(r[i].choices.value);
    r
  }
}
