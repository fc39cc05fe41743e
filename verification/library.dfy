/** The in-memory library store (src/store/useLibrary.ts) as an explicit state
    value. Every store operation is a pure transition; an operation that throws
    in the source returns `Failure` here and the caller keeps its old state. */
module Library {
  import opened Wrappers
  import opened Types
  import opened Joins

  const MAX_FLASHCARDS_PER_WORDLIST: nat := 5000
  const MAX_WORDLISTS_PER_USER: nat := 1000
  const MAX_FOLDERS_PER_USER: nat := 500
  const MAX_WORDLISTS_PER_FOLDER: nat := 500
  const MAX_COMMENT_LENGTH: nat := 500

  datatype Stats = Stats(flashcards: int, wordlists: int, folders: int)

  datatype State = State(
    userId: string,
    flashcards: map<string, Flashcard>,
    wordlists: map<string, Wordlist>,
    wordlistFlashcards: seq<Join>,
    folders: map<string, Folder>,
    folderWordlists: seq<Join>,
    stats: Stats)

  /** The errors the store throws. */
  datatype Error =
    | CommentTooLong
    | WordlistCapReached
    | FolderCapReached
    | WordlistFull
    | FolderFull

  function Message(e: Error): string {
    match e
    case CommentTooLong => "Comment max length is 500 characters"
    case WordlistCapReached => "Wordlist cap reached (1000)."
    case FolderCapReached => "Folder cap reached (500)."
    case WordlistFull => "This wordlist already has 5000 flashcards."
    case FolderFull => "This folder already has 500 wordlists."
  }

  /** The fields of a new flashcard the caller supplies. `frequency` is None
      when the caller leaves it out. */
  datatype CardDraft = CardDraft(
    word: string,
    dictionaryId: Option<string>,
    meaning: string,
    audioUrl: Option<string>,
    comment: Option<string>,
    frequency: Option<int>)

  /** JavaScript's `length` of a string: its UTF-16 code units, two for each
      character outside the Basic Multilingual Plane. */
  function Utf16Length(s: string): (n: nat)
    ensures |s| <= n <= 2 * |s|
    ensures n == |s| <==> forall i :: 0 <= i < |s| ==> s[i] as int <= 0xFFFF
  {
    if s == [] then 0
    else (if s[0] as int > 0xFFFF then 2 else 1) + Utf16Length(s[1..])
  }

  // ---------------------------------------------------------------------------
  // Invariants
  // ---------------------------------------------------------------------------

  /** `stats` equals the sizes of the three id-keyed collections. */
  ghost predicate StatsConsistent(s: State) {
    s.stats == Stats(|s.flashcards|, |s.wordlists|, |s.folders|)
  }

  /** Every record is stored under its own id. */
  ghost predicate KeysMatch(s: State) {
    && (forall k :: k in s.flashcards ==> s.flashcards[k].id == k)
    && (forall k :: k in s.wordlists ==> s.wordlists[k].id == k)
    && (forall k :: k in s.folders ==> s.folders[k].id == k)
  }

  /** The store's invariants: consistent stats, ids as keys, the per-user caps,
      unique join pairs and the per-parent membership caps. */
  ghost predicate Valid(s: State) {
    && StatsConsistent(s)
    && KeysMatch(s)
    && |s.wordlists| <= MAX_WORDLISTS_PER_USER
    && |s.folders| <= MAX_FOLDERS_PER_USER
    && UniquePairs(s.wordlistFlashcards)
    && WithinCap(s.wordlistFlashcards, MAX_FLASHCARDS_PER_WORDLIST)
    && UniquePairs(s.folderWordlists)
    && WithinCap(s.folderWordlists, MAX_WORDLISTS_PER_FOLDER)
  }

  // ---------------------------------------------------------------------------
  // Operations
  // ---------------------------------------------------------------------------

  /** addFlashcard: stores a new card under the fresh id `id`. No field is
      validated, the comment included. */
  function AddFlashcard(s: State, id: string, draft: CardDraft, now: Timestamp): (r: (State, Flashcard))
    ensures r.1.id == id && r.1.word == draft.word && r.1.meaning == draft.meaning
    ensures r.1.dictionaryId == draft.dictionaryId && r.1.audioUrl == draft.audioUrl
    ensures r.1.comment == draft.comment
    ensures draft.frequency.None? ==> r.1.frequency == 0
    ensures draft.frequency.Some? ==> r.1.frequency == draft.frequency.value
    ensures r.1.createdBy == s.userId && r.1.createdAt == now && r.1.updatedAt == now
    ensures r.0.flashcards.Keys == s.flashcards.Keys + {id} && r.0.flashcards[id] == r.1
    ensures forall k :: k in s.flashcards && k != id ==> r.0.flashcards[k] == s.flashcards[k]
    ensures r.0.stats == s.stats.(flashcards := |s.flashcards| + 1)
    ensures r.0.(flashcards := s.flashcards, stats := s.stats) == s
  {
    var card := Flashcard(id, draft.word, draft.dictionaryId, draft.meaning, draft.audioUrl,
                          draft.comment, draft.frequency.GetOr(0), now, now, s.userId);
    (s.(flashcards := s.flashcards[id := card],
        stats := s.stats.(flashcards := |s.flashcards| + 1)),
     card)
  }

  /** updateFlashcardComment: rejects a comment longer than 500 UTF-16 units;
      otherwise replaces the comment of an existing card. */
  function UpdateFlashcardComment(s: State, id: string, comment: string, now: Timestamp): (r: Result<State, Error>)
    ensures r.Failure? <==> Utf16Length(comment) > MAX_COMMENT_LENGTH
    ensures r.Failure? ==> r.error == CommentTooLong
    ensures r.Success? && id !in s.flashcards ==> r.value == s
    ensures r.Success? && id in s.flashcards ==>
      && r.value.flashcards.Keys == s.flashcards.Keys
      && r.value.flashcards[id] == s.flashcards[id].(comment := Some(comment), updatedAt := now)
      && (forall k :: k in s.flashcards && k != id ==> r.value.flashcards[k] == s.flashcards[k])
      && r.value.(flashcards := s.flashcards) == s
  {
    if Utf16Length(comment) > MAX_COMMENT_LENGTH then Failure(CommentTooLong)
    else if id !in s.flashcards then Success(s)
    else
      var card := s.flashcards[id];
      Success(s.(flashcards := s.flashcards[id := card.(comment := Some(comment), updatedAt := now)]))
  }

  /** deleteFlashcard: removes the card and every wordlist membership of it. */
  function DeleteFlashcard(s: State, id: string): (r: State)
    ensures r.flashcards.Keys == s.flashcards.Keys - {id}
    ensures forall k :: k in r.flashcards ==> r.flashcards[k] == s.flashcards[k]
    ensures forall j :: j in r.wordlistFlashcards <==> j in s.wordlistFlashcards && j.child != id
    ensures IsSubsequence(r.wordlistFlashcards, s.wordlistFlashcards)
    ensures |r.wordlistFlashcards| + |Select(s.wordlistFlashcards, ByChild(id))| == |s.wordlistFlashcards|
    ensures r.stats == s.stats.(flashcards := |r.flashcards|)
    ensures r.(flashcards := s.flashcards, wordlistFlashcards := s.wordlistFlashcards, stats := s.stats) == s
  {
    var cards := s.flashcards - {id};
    DropIsSubsequence(s.wordlistFlashcards, ByChild(id));
    DropMembers(s.wordlistFlashcards, ByChild(id));
    s.(flashcards := cards,
       wordlistFlashcards := Drop(s.wordlistFlashcards, ByChild(id)),
       stats := s.stats.(flashcards := |cards|))
  }

  /** addWordlist: refused once 1000 wordlists exist; otherwise stores a new
      wordlist with no shuffle seed under the fresh id `id`. */
  function AddWordlist(s: State, id: string, name: string, comment: Option<string>, order: string, now: Timestamp)
    : (r: Result<(State, Wordlist), Error>)
    ensures r.Failure? <==> |s.wordlists| >= MAX_WORDLISTS_PER_USER
    ensures r.Failure? ==> r.error == WordlistCapReached
    ensures r.Success? ==>
      && r.value.1 == Wordlist(id, name, comment, now, now, s.userId, None, order, None)
      && r.value.0.wordlists == s.wordlists[id := r.value.1]
      && r.value.0.stats == s.stats.(wordlists := |s.wordlists| + 1)
      && r.value.0.(wordlists := s.wordlists, stats := s.stats) == s
  {
    var count := |s.wordlists|;
    if count >= MAX_WORDLISTS_PER_USER then Failure(WordlistCapReached)
    else
      var wl := Wordlist(id, name, comment, now, now, s.userId, None, order, None);
      Success((s.(wordlists := s.wordlists[id := wl], stats := s.stats.(wordlists := count + 1)), wl))
  }

  /** deleteWordlist: removes the wordlist, its card memberships and its folder
      memberships; cards and folders stay. */
  function DeleteWordlist(s: State, id: string): (r: State)
    ensures r.wordlists.Keys == s.wordlists.Keys - {id}
    ensures forall k :: k in r.wordlists ==> r.wordlists[k] == s.wordlists[k]
    ensures forall j :: j in r.wordlistFlashcards <==> j in s.wordlistFlashcards && j.parent != id
    ensures forall j :: j in r.folderWordlists <==> j in s.folderWordlists && j.child != id
    ensures IsSubsequence(r.wordlistFlashcards, s.wordlistFlashcards)
    ensures |r.wordlistFlashcards| + |Select(s.wordlistFlashcards, ByParent(id))| == |s.wordlistFlashcards|
    ensures IsSubsequence(r.folderWordlists, s.folderWordlists)
    ensures |r.folderWordlists| + |Select(s.folderWordlists, ByChild(id))| == |s.folderWordlists|
    ensures r.stats == s.stats.(wordlists := |r.wordlists|)
    ensures r.flashcards == s.flashcards && r.folders == s.folders && r.userId == s.userId
  {
    var lists := s.wordlists - {id};
    DropIsSubsequence(s.wordlistFlashcards, ByParent(id));
    DropIsSubsequence(s.folderWordlists, ByChild(id));
    DropMembers(s.wordlistFlashcards, ByParent(id));
    DropMembers(s.folderWordlists, ByChild(id));
    s.(wordlists := lists,
       wordlistFlashcards := Drop(s.wordlistFlashcards, ByParent(id)),
       folderWordlists := Drop(s.folderWordlists, ByChild(id)),
       stats := s.stats.(wordlists := |lists|))
  }

  /** addFlashcardToWordlist: refused when the wordlist already has 5000 rows
      (checked before the duplicate check); a pair already present is a no-op;
      otherwise the new row goes at the end. Neither id has to exist. */
  function AddFlashcardToWordlist(s: State, wordlistId: string, flashcardId: string, rowId: string, now: Timestamp)
    : (r: Result<State, Error>)
    ensures r.Failure? <==> Count(s.wordlistFlashcards, wordlistId) >= MAX_FLASHCARDS_PER_WORDLIST
    ensures r.Failure? ==> r.error == WordlistFull
    ensures r.Success? ==> HasPair(r.value.wordlistFlashcards, wordlistId, flashcardId)
    ensures r.Success? && HasPair(s.wordlistFlashcards, wordlistId, flashcardId) ==> r.value == s
    ensures r.Success? && !HasPair(s.wordlistFlashcards, wordlistId, flashcardId) ==>
      && r.value.wordlistFlashcards == s.wordlistFlashcards + [Join(rowId, wordlistId, flashcardId, now)]
      && r.value.(wordlistFlashcards := s.wordlistFlashcards) == s
  {
    match Link(s.wordlistFlashcards, MAX_FLASHCARDS_PER_WORDLIST, Join(rowId, wordlistId, flashcardId, now))
    case None => Failure(WordlistFull)
    case Some(js) => Success(s.(wordlistFlashcards := js))
  }

  /** removeFlashcardFromWordlist: deletes the rows for exactly this pair. */
  function RemoveFlashcardFromWordlist(s: State, wordlistId: string, flashcardId: string): (r: State)
    ensures !HasPair(r.wordlistFlashcards, wordlistId, flashcardId)
    ensures forall j :: j in s.wordlistFlashcards && !Matches(j, ByPair(wordlistId, flashcardId)) ==> j in r.wordlistFlashcards
    ensures forall j :: j in r.wordlistFlashcards ==> j in s.wordlistFlashcards
    ensures IsSubsequence(r.wordlistFlashcards, s.wordlistFlashcards)
    ensures |r.wordlistFlashcards| + |Select(s.wordlistFlashcards, ByPair(wordlistId, flashcardId))| == |s.wordlistFlashcards|
    ensures r.(wordlistFlashcards := s.wordlistFlashcards) == s
  {
    DropIsSubsequence(s.wordlistFlashcards, ByPair(wordlistId, flashcardId));
    DropMembers(s.wordlistFlashcards, ByPair(wordlistId, flashcardId));
    s.(wordlistFlashcards := Drop(s.wordlistFlashcards, ByPair(wordlistId, flashcardId)))
  }

  /** addFolder: refused once 500 folders exist; otherwise stores a new folder
      under the fresh id `id`. */
  function AddFolder(s: State, id: string, name: string, comment: Option<string>, now: Timestamp)
    : (r: Result<(State, Folder), Error>)
    ensures r.Failure? <==> |s.folders| >= MAX_FOLDERS_PER_USER
    ensures r.Failure? ==> r.error == FolderCapReached
    ensures r.Success? ==>
      && r.value.1 == Folder(id, name, comment, now, now, s.userId, None)
      && r.value.0.folders == s.folders[id := r.value.1]
      && r.value.0.stats == s.stats.(folders := |s.folders| + 1)
      && r.value.0.(folders := s.folders, stats := s.stats) == s
  {
    var count := |s.folders|;
    if count >= MAX_FOLDERS_PER_USER then Failure(FolderCapReached)
    else
      var f := Folder(id, name, comment, now, now, s.userId, None);
      Success((s.(folders := s.folders[id := f], stats := s.stats.(folders := count + 1)), f))
  }

  /** deleteFolder: removes the folder and its memberships; the wordlists stay. */
  function DeleteFolder(s: State, id: string): (r: State)
    ensures r.folders.Keys == s.folders.Keys - {id}
    ensures forall k :: k in r.folders ==> r.folders[k] == s.folders[k]
    ensures forall j :: j in r.folderWordlists <==> j in s.folderWordlists && j.parent != id
    ensures IsSubsequence(r.folderWordlists, s.folderWordlists)
    ensures |r.folderWordlists| + |Select(s.folderWordlists, ByParent(id))| == |s.folderWordlists|
    ensures r.stats == s.stats.(folders := |r.folders|)
    ensures r.(folders := s.folders, folderWordlists := s.folderWordlists, stats := s.stats) == s
  {
    var folders := s.folders - {id};
    DropIsSubsequence(s.folderWordlists, ByParent(id));
    DropMembers(s.folderWordlists, ByParent(id));
    s.(folders := folders,
       folderWordlists := Drop(s.folderWordlists, ByParent(id)),
       stats := s.stats.(folders := |folders|))
  }

  /** addWordlistToFolder: as addFlashcardToWordlist, with a cap of 500. */
  function AddWordlistToFolder(s: State, folderId: string, wordlistId: string, rowId: string, now: Timestamp)
    : (r: Result<State, Error>)
    ensures r.Failure? <==> Count(s.folderWordlists, folderId) >= MAX_WORDLISTS_PER_FOLDER
    ensures r.Failure? ==> r.error == FolderFull
    ensures r.Success? ==> HasPair(r.value.folderWordlists, folderId, wordlistId)
    ensures r.Success? && HasPair(s.folderWordlists, folderId, wordlistId) ==> r.value == s
    ensures r.Success? && !HasPair(s.folderWordlists, folderId, wordlistId) ==>
      && r.value.folderWordlists == s.folderWordlists + [Join(rowId, folderId, wordlistId, now)]
      && r.value.(folderWordlists := s.folderWordlists) == s
  {
    match Link(s.folderWordlists, MAX_WORDLISTS_PER_FOLDER, Join(rowId, folderId, wordlistId, now))
    case None => Failure(FolderFull)
    case Some(js) => Success(s.(folderWordlists := js))
  }

  /** removeWordlistFromFolder: deletes the rows for exactly this pair. */
  function RemoveWordlistFromFolder(s: State, folderId: string, wordlistId: string): (r: State)
    ensures !HasPair(r.folderWordlists, folderId, wordlistId)
    ensures forall j :: j in s.folderWordlists && !Matches(j, ByPair(folderId, wordlistId)) ==> j in r.folderWordlists
    ensures forall j :: j in r.folderWordlists ==> j in s.folderWordlists
    ensures IsSubsequence(r.folderWordlists, s.folderWordlists)
    ensures |r.folderWordlists| + |Select(s.folderWordlists, ByPair(folderId, wordlistId))| == |s.folderWordlists|
    ensures r.(folderWordlists := s.folderWordlists) == s
  {
    DropIsSubsequence(s.folderWordlists, ByPair(folderId, wordlistId));
    DropMembers(s.folderWordlists, ByPair(folderId, wordlistId));
    s.(folderWordlists := Drop(s.folderWordlists, ByPair(folderId, wordlistId)))
  }

  /** reorderWordlist: sets the order of an existing wordlist; `seed` (the
      `Math.random()` draw) becomes its shuffle seed only for "shuffle". */
  function ReorderWordlist(s: State, wordlistId: string, order: string, seed: Seed): (r: State)
    ensures wordlistId !in s.wordlists ==> r == s
    ensures wordlistId in s.wordlists ==>
      var before := s.wordlists[wordlistId];
      && r.wordlists.Keys == s.wordlists.Keys
      && r.wordlists[wordlistId].order == order
      && (order == SHUFFLE ==> r.wordlists[wordlistId].shuffleSeed == Some(seed))
      && (order != SHUFFLE ==> r.wordlists[wordlistId].shuffleSeed == before.shuffleSeed)
      && r.wordlists[wordlistId].(order := before.order, shuffleSeed := before.shuffleSeed) == before
      && (forall k :: k in s.wordlists && k != wordlistId ==> r.wordlists[k] == s.wordlists[k])
      && r.(wordlists := s.wordlists) == s
  {
    if wordlistId !in s.wordlists then s
    else
      var wl := s.wordlists[wordlistId];
      var newSeed := if order == SHUFFLE then Some(seed) else wl.shuffleSeed;
      s.(wordlists := s.wordlists[wordlistId := wl.(order := order, shuffleSeed := newSeed)])
  }

  /** bumpFrequency: adds one review to an existing card. */
  function BumpFrequency(s: State, flashcardId: string, now: Timestamp): (r: State)
    ensures flashcardId !in s.flashcards ==> r == s
    ensures flashcardId in s.flashcards ==>
      var before := s.flashcards[flashcardId];
      && r.flashcards.Keys == s.flashcards.Keys
      && r.flashcards[flashcardId].frequency == before.frequency + 1
      && r.flashcards[flashcardId].updatedAt == now
      && r.flashcards[flashcardId].(frequency := before.frequency, updatedAt := before.updatedAt) == before
      && (forall k :: k in s.flashcards && k != flashcardId ==> r.flashcards[k] == s.flashcards[k])
      && r.(flashcards := s.flashcards) == s
  {
    if flashcardId !in s.flashcards then s
    else
      var card := s.flashcards[flashcardId];
      s.(flashcards := s.flashcards[flashcardId := card.(frequency := card.frequency + 1, updatedAt := now)])
  }

  // ---------------------------------------------------------------------------
  // Seed state
  // ---------------------------------------------------------------------------

  function SeedCard(id: string, word: string, meaning: string, comment: string, frequency: int, now: Timestamp): Flashcard {
    Flashcard(id, word, Some("wordnet"), meaning, Some(""), Some(comment), frequency, now, now, "demo-user")
  }

  /** seedFlashcards: the three demo cards, each under its own id. */
  function SeedFlashcards(now: Timestamp): (cards: map<string, Flashcard>)
    ensures cards.Keys == {"card-focus", "card-eloquent", "card-resilient"}
    ensures |cards| == 3
    ensures forall k :: k in cards ==> cards[k].id == k
  {
    var cards := map[
      "card-focus" := SeedCard("card-focus", "focus", "The center of interest or activity.",
                               "Use this often in UI copy.", 3, now),
      "card-eloquent" := SeedCard("card-eloquent", "eloquent", "Fluent or persuasive in speaking or writing.",
                                  "", 1, now),
      "card-resilient" := SeedCard("card-resilient", "resilient",
                                   "Able to withstand or recover quickly from difficult conditions.",
                                   "Appears in tech culture pieces.", 2, now)];
    assert |cards.Keys| == 3;
    cards
  }

  /** seedWordlists: the single "Starter Deck" wordlist. */
  function SeedWordlists(now: Timestamp): (lists: map<string, Wordlist>)
    ensures lists.Keys == {"wl-starter"} && |lists| == 1
    ensures lists["wl-starter"].id == "wl-starter" && lists["wl-starter"].order == CREATED_AT
  {
    map["wl-starter" := Wordlist("wl-starter", "Starter Deck", Some("Ten-minute warmup words"), now, now,
                                 "demo-user", None, CREATED_AT, None)]
  }

  /** seedWordlistFlashcards: the Starter Deck holds the three cards in the
      order focus, eloquent, resilient; the rows get the ids `row1`..`row3`. */
  function SeedWordlistFlashcards(now: Timestamp, row1: string, row2: string, row3: string): (rows: seq<Join>)
    ensures |rows| == 3
    ensures UniquePairs(rows) && WithinCap(rows, MAX_FLASHCARDS_PER_WORDLIST)
    ensures forall j :: j in rows ==> j.parent == "wl-starter" && j.child in SeedFlashcards(now)
  {
    var rows := [
      Join(row1, "wl-starter", "card-focus", now),
      Join(row2, "wl-starter", "card-eloquent", now),
      Join(row3, "wl-starter", "card-resilient", now)];
    SeedRowsValid(rows, now, row1, row2, row3);
    rows
  }

  /** The store as the app starts, with the stats the source hard-codes. */
  function Initial(now: Timestamp, row1: string, row2: string, row3: string): (s: State)
    ensures Valid(s)
    ensures s.stats == Stats(3, 1, 0)
    ensures s.userId == "demo-user"
    ensures s.flashcards.Keys == {"card-focus", "card-eloquent", "card-resilient"}
    ensures s.wordlists.Keys == {"wl-starter"} && s.wordlists["wl-starter"].order == CREATED_AT
    ensures s.folders == map[] && s.folderWordlists == []
    ensures |s.wordlistFlashcards| == 3
    ensures forall j :: j in s.wordlistFlashcards ==> j.parent == "wl-starter" && j.child in s.flashcards
  {
    var s := State("demo-user", SeedFlashcards(now), SeedWordlists(now),
                   SeedWordlistFlashcards(now, row1, row2, row3), map[], [], Stats(3, 1, 0));
    assert UniquePairs(s.folderWordlists);
    s
  }

  lemma SeedRowsValid(rows: seq<Join>, now: Timestamp, row1: string, row2: string, row3: string)
    requires rows == [
      Join(row1, "wl-starter", "card-focus", now),
      Join(row2, "wl-starter", "card-eloquent", now),
      Join(row3, "wl-starter", "card-resilient", now)]
    ensures UniquePairs(rows)
    ensures WithinCap(rows, MAX_FLASHCARDS_PER_WORDLIST)
  {
    assert "card-focus" != "card-eloquent" && "card-focus" != "card-resilient"
      && "card-eloquent" != "card-resilient";
    forall p
      ensures Count(rows, p) <= MAX_FLASHCARDS_PER_WORDLIST
    {
      assert |Select(rows, ByParent(p))| <= |rows|;
    }
  }
}
