# Vocabulary library store — a Dafny model

This project models the core of a vocabulary-learning app. The user keeps
flashcards (a word, its meaning, an optional comment and a review count),
groups them into wordlists, and groups wordlists into folders. Two join tables
link them: wordlist→flashcard and folder→wordlist. The model covers:

- the in-memory library store `src/store/useLibrary.ts`: every mutation, the
  per-user and per-parent caps, the error messages and the seed data;
- `orderedCards`, which decides which cards the learn and test screens show
  and in what order. It appears as identical copies in
  `app/wordlists/learn.tsx` and `app/wordlists/test.tsx`;
- the screens' `next` step through the cards;
- the placeholder generators `generateExamples` and `generateQuiz` in
  `src/lib/ai.ts`, including the `shuffle` helper.

Each store operation is a pure function from one state to the next.
Operations that throw in the source return `Failure(error)` here, and the
store keeps its old state (the source throws before it calls `set`). Some
values the source draws from its environment become parameters: the nanoid
ids, the `now()` timestamp, and the `Math.random()` seed.

Modules, one per file:

- `Wrappers`: `Option` and `Result`.
- `Types`: the record types.
- `Joins`: the two join tables, as one generic row type. Covers filtering,
  counting, the "add unless at cap or already present" step, and order and
  uniqueness facts.
- `Library`: the store's state and operations, its invariant `Valid`, and the
  seed state.
- `Invariants`: proves that each operation preserves `Valid`.
- `Commands`: every operation as a command. `Valid` holds for every run of
  commands from the seed state.
- `Laws`: idempotence, round trips and the duplicate and cap rules.
- `Sorting`: sorting by word, the "alpha" order.
- `Shuffling`: the shuffles, modelled as permutations.
- `Review`: `orderedCards` and the card index.
- `Ai`: the generators.
- `Scenarios`: the seed deck and a folder workflow, worked end to end.

## Model

| member | source | states |
|---|---|---|
| Library.Utf16Length | src/store/useLibrary.ts:59 | a string's JavaScript length lies between its character count and twice that, and equals the character count exactly when no character lies outside the Basic Multilingual Plane |
| Library.AddFlashcard | src/store/useLibrary.ts:44-56 | the new card carries the caller's fields, the store's user as creator, and `now` as both timestamps; a missing frequency becomes 0; the card is stored under the new id; every other card and collection is unchanged; the flashcard count becomes the old number of keys plus one |
| Library.UpdateFlashcardComment | src/store/useLibrary.ts:58-71 | fails with the "max length 500" error exactly when the comment exceeds 500 UTF-16 units; an unknown id leaves the store unchanged; otherwise only that card's comment and updatedAt change |
| Library.DeleteFlashcard | src/store/useLibrary.ts:73-84 | the card's key is gone and the other cards are untouched; exactly the membership rows naming the card are dropped, in their original order; the flashcard count becomes the new number of keys |
| Library.AddWordlist | src/store/useLibrary.ts:86-101 | fails with the cap error exactly when 1000 wordlists exist; otherwise stores the new wordlist with the given name, comment and order, and sets the count to the old count plus one |
| Library.DeleteWordlist | src/store/useLibrary.ts:103-115 | removes the wordlist, every card-membership row of it, and every folder row containing it; keeps the other rows in order; recounts the wordlists |
| Library.AddFlashcardToWordlist | src/store/useLibrary.ts:117-125 | fails with the "already has 5000" error exactly when the wordlist has 5000 rows, even if the pair is already present; an existing pair leaves the store unchanged; otherwise appends one row |
| Library.RemoveFlashcardFromWordlist | src/store/useLibrary.ts:127-131 | drops exactly the rows for that wordlist and card, keeping the rest in order; nothing else changes |
| Library.AddFolder | src/store/useLibrary.ts:133-147 | fails with the cap error exactly when 500 folders exist; otherwise stores the new folder and sets the count to the old count plus one |
| Library.DeleteFolder | src/store/useLibrary.ts:149-160 | removes the folder and the rows that put wordlists in it; the wordlists themselves stay |
| Library.AddWordlistToFolder | src/store/useLibrary.ts:162-170 | fails with the "already has 500" error exactly when the folder has 500 rows; a duplicate pair changes nothing; otherwise appends one row |
| Library.RemoveWordlistFromFolder | src/store/useLibrary.ts:172-176 | drops exactly the rows for that folder and wordlist |
| Library.ReorderWordlist | src/store/useLibrary.ts:178-190 | an unknown wordlist leaves the store unchanged; otherwise only that wordlist's order changes, and its shuffle seed becomes the fresh draw only for "shuffle" |
| Library.BumpFrequency | src/store/useLibrary.ts:192-204 | an unknown card leaves the store unchanged; otherwise that card's frequency goes up by exactly one, its updatedAt becomes `now`, and nothing else changes |
| Library.SeedFlashcards | src/store/useLibrary.ts:207-248 | the seed holds the three demo cards (focus, eloquent, resilient), each stored under its own id |
| Library.SeedWordlists | src/store/useLibrary.ts:250-261 | the seed holds one wordlist, "wl-starter", in created_at order |
| Library.SeedWordlistFlashcards | src/store/useLibrary.ts:263-269 | the starter deck has three rows with distinct pairs, all naming seed cards |
| Library.SeedRowsValid | src/store/useLibrary.ts:263-269 | the three seed rows have unique pairs and stay within the per-wordlist cap |
| Library.Initial | src/store/useLibrary.ts:35-42 | the start state satisfies every store invariant; its hard-coded stats 3/1/0 match the seed collections |
| Joins.Select | src/store/useLibrary.ts:119 | a filter never yields more rows than it reads |
| Joins.Drop | src/store/useLibrary.ts:129 | the rows kept plus the rows selected account for every row |
| Joins.SelectMembers | src/store/useLibrary.ts:119 | a row is selected exactly when it is present and matches |
| Joins.DropMembers | src/store/useLibrary.ts:129 | a row survives the filter exactly when it is present and does not match |
| Joins.DropIsSubsequence | src/store/useLibrary.ts:80 | filtering keeps the surviving rows in their original order |
| Joins.DropIdempotent | src/store/useLibrary.ts:129 | filtering twice with the same predicate is filtering once |
| Joins.DropAppend | src/store/useLibrary.ts:124 | filtering a sequence with one appended row keeps that row exactly when it does not match |
| Joins.DropWithinCap | src/store/useLibrary.ts:110-111 | removing rows never pushes a parent over its cap |
| Joins.DropUnique | src/store/useLibrary.ts:129 | removing rows keeps the pairs unique |
| Joins.UniqueAtMostOnce | src/store/useLibrary.ts:121-122 | with unique pairs, a pair is selected at most once, and exactly once when present |
| Joins.Link | src/store/useLibrary.ts:119-124 | refused exactly when the parent already has `cap` rows; an existing pair returns the rows unchanged; otherwise exactly the new row is appended |
| Joins.LinkKeepsUnique | src/store/useLibrary.ts:121-124 | adding a row never creates a duplicate pair |
| Joins.LinkKeepsCap | src/store/useLibrary.ts:119-120 | adding a row never takes a parent past its cap |
| Invariants.AddFlashcardKeepsValid | src/store/useLibrary.ts:54 | adding a card under a fresh id keeps the stats equal to the collection sizes, and keeps every other invariant |
| Invariants.UpdateFlashcardCommentKeepsValid | src/store/useLibrary.ts:58-71 | a successful comment update keeps every invariant |
| Invariants.DeleteFlashcardKeepsValid | src/store/useLibrary.ts:73-84 | deleting a card keeps every invariant |
| Invariants.AddWordlistKeepsValid | src/store/useLibrary.ts:86-101 | a successful wordlist add under a fresh id keeps the per-user cap of 1000 and every other invariant |
| Invariants.DeleteWordlistKeepsValid | src/store/useLibrary.ts:103-115 | deleting a wordlist keeps every invariant |
| Invariants.AddFlashcardToWordlistKeepsValid | src/store/useLibrary.ts:117-125 | a successful add keeps pairs unique and every wordlist within 5000 rows |
| Invariants.RemoveFlashcardFromWordlistKeepsValid | src/store/useLibrary.ts:127-131 | removing a pair keeps every invariant |
| Invariants.AddFolderKeepsValid | src/store/useLibrary.ts:133-147 | a successful folder add under a fresh id keeps the per-user cap of 500 and every other invariant |
| Invariants.DeleteFolderKeepsValid | src/store/useLibrary.ts:149-160 | deleting a folder keeps every invariant |
| Invariants.AddWordlistToFolderKeepsValid | src/store/useLibrary.ts:162-170 | a successful add keeps pairs unique and every folder within 500 rows |
| Invariants.RemoveWordlistFromFolderKeepsValid | src/store/useLibrary.ts:172-176 | removing a pair keeps every invariant |
| Invariants.ReorderWordlistKeepsValid | src/store/useLibrary.ts:178-190 | reordering keeps every invariant |
| Invariants.BumpFrequencyKeepsValid | src/store/useLibrary.ts:192-204 | bumping a frequency keeps every invariant |
| Commands.ApplyKeepsValid | src/store/useLibrary.ts:44-204 | any single store operation with a fresh id keeps every invariant, whether it succeeds or throws |
| Commands.RunKeepsValid | src/store/useLibrary.ts:44-204 | any sequence of operations with fresh ids keeps every invariant |
| Commands.ReachableStatesValid | src/store/useLibrary.ts:35-42 | from the seed state, the stats always equal the collection sizes and every cap holds |
| Laws.DeleteFlashcardIdempotent | src/store/useLibrary.ts:73-84 | deleting a card twice is deleting it once |
| Laws.DeleteFlashcardUnknown | src/store/useLibrary.ts:73-84 | deleting an absent card that no row names changes nothing |
| Laws.DeleteWordlistIdempotent | src/store/useLibrary.ts:103-115 | deleting a wordlist twice is deleting it once |
| Laws.DeleteFolderIdempotent | src/store/useLibrary.ts:149-160 | deleting a folder twice is deleting it once |
| Laws.RemoveFlashcardFromWordlistIdempotent | src/store/useLibrary.ts:127-131 | removing a pair twice is removing it once |
| Laws.RemoveWordlistFromFolderIdempotent | src/store/useLibrary.ts:172-176 | removing a pair twice is removing it once |
| Laws.AddFlashcardToWordlistOnce | src/store/useLibrary.ts:121-124 | after a successful add the pair occurs exactly once; adding it again changes nothing or fails only on the cap |
| Laws.AddWordlistToFolderOnce | src/store/useLibrary.ts:166-169 | after a successful add the pair occurs exactly once; adding it again changes nothing or fails only on the cap |
| Laws.FullWordlistRefusesExistingPair | src/store/useLibrary.ts:119-122 | a full wordlist throws even for a card it already holds: the cap check comes before the duplicate check |
| Laws.FullFolderRefusesExistingPair | src/store/useLibrary.ts:164-167 | a full folder throws even for a wordlist it already holds |
| Laws.AddThenDeleteFlashcard | src/store/useLibrary.ts:44-84 | deleting a just-added card restores the store exactly, stats included |
| Laws.AddThenDeleteWordlist | src/store/useLibrary.ts:86-115 | deleting a just-added wordlist restores the store exactly |
| Laws.AddThenDeleteFolder | src/store/useLibrary.ts:133-160 | deleting a just-added folder restores the store exactly |
| Laws.AddThenRemoveFlashcard | src/store/useLibrary.ts:117-131 | removing a pair that was just added restores the store exactly |
| Laws.AddThenRemoveWordlist | src/store/useLibrary.ts:162-176 | removing a pair that was just added restores the store exactly |
| Laws.UpdateFlashcardCommentIdempotent | src/store/useLibrary.ts:58-71 | setting the same comment again at the same time changes nothing |
| Laws.ReorderAndBack | src/store/useLibrary.ts:178-190 | switching between non-shuffle orders and back restores the wordlist, because the seed is untouched |
| Laws.BumpTimesAdds | src/store/useLibrary.ts:192-204 | k bumps raise a card's frequency by exactly k |
| Sorting.Insert | app/wordlists/learn.tsx:86 | inserting a card yields a sequence with the same cards plus that one |
| Sorting.SortByWord | app/wordlists/learn.tsx:86 | sorting by word permutes the cards |
| Sorting.InsertSorted | app/wordlists/learn.tsx:86 | under a total preorder, inserting into a sorted sequence keeps it sorted |
| Sorting.SortByWordSorted | app/wordlists/test.tsx:75 | under a total preorder, the result is ordered by word |
| Shuffling.Shuffle | src/lib/ai.ts:40-42 | shuffling keeps the length of its input |
| Shuffling.ShuffleFirstIsIdentity | src/lib/ai.ts:40-42 | a choice source that always picks the first element leaves the order unchanged |
| Shuffling.ShuffleLastReverses | src/lib/ai.ts:40-42 | a choice source that always picks the last element reverses the order, so different choices give different orders |
| Review.MemberIds | app/wordlists/learn.tsx:84 | a wordlist's ids are exactly the children of its rows, one id per row |
| Review.Present | app/wordlists/learn.tsx:85 | looking ids up keeps exactly the ids that name a card, so at most as many cards as ids, and as many when every id exists |
| Review.Resolve | app/wordlists/test.tsx:73-74 | the cards shown are exactly those named by the wordlist's rows that still exist, never more than the rows |
| Review.MemberIdsAppend | app/wordlists/learn.tsx:84 | a new row's id lands at the end of the id sequence |
| Review.PresentConcat | app/wordlists/learn.tsx:85 | looking up two id sequences in turn is looking up their concatenation |
| Review.ResolveAppend | app/wordlists/learn.tsx:84-85 | the default order is join-insertion order: a new row's card comes last |
| Review.Arrange | app/wordlists/test.tsx:75-80 | the result is a permutation of the resolved cards; for "alpha" it is sorted by word; any order other than "alpha" or "shuffle" keeps it as is |
| Review.OrderedCards | app/wordlists/learn.tsx:76-92 | an absent or empty wordlist id gives nothing; otherwise the result is a permutation of the wordlist's existing cards, at most one card per row, sorted for "alpha", and in join order for any other order except "shuffle"; every card shown comes from a row of that wordlist |
| Review.SeededOrderIgnoresFallback | app/wordlists/learn.tsx:87-89 | with a stored non-zero seed, the order does not depend on the `Math.random()` fallback |
| Review.Next | app/wordlists/learn.tsx:20 | the next index stays in range; it moves on by one before the last card and wraps to 0 after it |
| Review.SkipNoWrap | app/wordlists/learn.tsx:20 | before the last card, k presses move k cards on |
| Review.SkipCompose | app/wordlists/learn.tsx:20 | a presses followed by b presses are a+b presses |
| Review.NextFullCircle | app/wordlists/learn.tsx:20 | as many presses as there are cards return to the same card |
| Review.Confirm | app/wordlists/learn.tsx:54-57 | the Confirm button adds one to the shown card's frequency and sets its updatedAt to `now`, leaves every other card and collection alone, and moves to the next index |
| Review.Reveal | app/wordlists/test.tsx:51 | the Reveal button shows the meaning at the same index, adds one to the shown card's frequency and sets its updatedAt to `now`; nothing else changes |
| Review.RevealThenAdvance | app/wordlists/test.tsx:19-22 | revealing and then pressing next leaves the answer hidden at the next card, with the shown card reviewed once more |
| Review.Advance | app/wordlists/test.tsx:19-22 | the test screen's next advances the index like the learn screen and hides the answer again |
| Ai.ContainsMiddle | src/lib/ai.ts:21-23 | a word spliced into a template occurs in the result |
| Ai.Sentences | src/lib/ai.ts:20-24 | there are three sentences per card, each containing the card's word |
| Ai.GenerateExamples | src/lib/ai.ts:16-26 | one entry for each of the first five cards, in order, with that card's word and three sentences using it |
| Ai.DecimalString | src/lib/ai.ts:30 | the index renders as a non-empty string of decimal digits |
| Ai.DecimalRoundTrip | src/lib/ai.ts:30 | reading the rendered index back gives the index |
| Ai.Question | src/lib/ai.ts:29-37 | a question has choices exactly at even positions, and its choices are the meaning and the three distractors in some order |
| Shuffling.ShufflePermutes | src/lib/ai.ts:40-42 | a shuffle keeps every element, as often as it occurs |
| Ai.GenerateQuiz | src/lib/ai.ts:28-38 | one question for each of the first five cards, with id `<card id>-<index>` and answer the card's meaning; even positions are multiple choice, with choices that permute the meaning and the three distractors and so contain the answer; odd positions are fill-in with no choices |
| Scenarios.SeedMemberIds | src/store/useLibrary.ts:263-269 | the starter deck's ids are focus, eloquent, resilient, in that order |
| Scenarios.SeedPresent | src/store/useLibrary.ts:207-248 | all three seed ids resolve to their seed cards |
| Scenarios.StarterDeck | app/wordlists/learn.tsx:76-92 | in its created_at order, the seed deck shows focus, eloquent, resilient, and the seed stats are 3/1/0 |
| Scenarios.FolderRows | src/store/useLibrary.ts:162-176 | adding two wordlists to a folder and removing one leaves only the other |
| Scenarios.CoursesFolder | src/store/useLibrary.ts:133-176 | create a folder, add two wordlists, remove one: one remains; deleting the folder then removes its rows but keeps both wordlists |
| Scenarios.NoRowsNoPair | src/store/useLibrary.ts:121 | a parent with no rows holds no pair |
| Scenarios.MemberIdsAreChildren | app/wordlists/learn.tsx:84 | every listed id is the child of some row of that wordlist |

## Left out

- The nanoid ids, the `now()` clock and `Math.random()` are parameters of the operations. Freshness of a new id (nanoid's uniqueness) is required by the invariant lemmas and the add-then-delete laws; the operations themselves overwrite on collision, as the source does.
- Every place the source calls `now()` more than once uses one timestamp in the model: `addFlashcard`, `addWordlist` and `addFolder` (createdAt and updatedAt), and the seed functions (every field and every row). So the model's new records have createdAt equal to updatedAt, and the seed records all share one time; the source guarantees neither.
- `addFlashcard` spreads the caller's payload after the defaults. A payload key present but `undefined`, or extra keys outside the declared type, are not modelled.
- `addFlashcard` validates nothing, the comment included. Only `updateFlashcardComment` enforces the 500-unit limit, and the model keeps that asymmetry.
- Record lookups on inherited keys (`"constructor"`, `"__proto__"`) are not modelled: maps here have only their own keys.
- Frequencies and seeds are JavaScript numbers. The model uses `int` for frequency and `real` for the seed, with no NaN and no float rounding.
- Shuffling.Shuffle: claims only that some permutation results. The engine's sort with a random comparator (`src/lib/ai.ts:40-42`) and with the constant comparator `Math.sin(rng) - 0.5` (`app/wordlists/learn.tsx:87-90`) is left to a choice parameter, so neither the actual order nor its distribution is modelled.
- Sorting.SortByWord: `localeCompare` is an abstract comparison `le`. The result is proved sorted only when `le` is a total preorder. Stability is implemented but not proved.
- Review.OrderedCards: for "shuffle", states only a permutation of the resolved cards, for the reason given for Shuffling.Shuffle.
- The order strategy is a free string, because values outside the declared enum (such as "recent") reach the store. Such values fall through to join order.
- The Zustand store wiring (`create`, `set`, `get`), React state and effects, rendering, theming, navigation and the Supabase placeholder are not modelled. Neither are the Promise wrappers of the AI generators.
- The screens' buttons are modelled as `Review.Confirm` (learn screen: bumpFrequency, then next) and `Review.Reveal` (test screen: sets the flag and calls bumpFrequency). The learn screen's Shuffle button is `Library.ReorderWordlist` with order "shuffle". Rendering and the React state hooks are not modelled.
- `Library.Message` gives the exact error strings. No contract is stated about them.
