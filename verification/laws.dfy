/** Algebraic facts about the store operations: deletes and removes are
    idempotent, an unknown id changes nothing, and re-adding a pair adds no
    second row. */
module Laws {
  import opened Wrappers
  import opened Types
  import opened Joins
  import opened Library

  /** A second deleteFlashcard of the same id changes nothing. */
  lemma DeleteFlashcardIdempotent(s: State, id: string)
    ensures DeleteFlashcard(DeleteFlashcard(s, id), id) == DeleteFlashcard(s, id)
  {
    var once := DeleteFlashcard(s, id);
    DropIdempotent(s.wordlistFlashcards, ByChild(id));
    assert once.flashcards - {id} == once.flashcards;
  }

  /** deleteFlashcard of an id that is neither a card nor referenced by any
      membership row leaves a store with consistent stats unchanged. */
  lemma DeleteFlashcardUnknown(s: State, id: string)
    requires StatsConsistent(s)
    requires id !in s.flashcards
    requires forall j :: j in s.wordlistFlashcards ==> j.child != id
    ensures DeleteFlashcard(s, id) == s
  {
    DropNothing(s.wordlistFlashcards, ByChild(id));
    assert s.flashcards - {id} == s.flashcards;
  }

  lemma DeleteWordlistIdempotent(s: State, id: string)
    ensures DeleteWordlist(DeleteWordlist(s, id), id) == DeleteWordlist(s, id)
  {
    var once := DeleteWordlist(s, id);
    DropIdempotent(s.wordlistFlashcards, ByParent(id));
    DropIdempotent(s.folderWordlists, ByChild(id));
    assert once.wordlists - {id} == once.wordlists;
  }

  lemma DeleteFolderIdempotent(s: State, id: string)
    ensures DeleteFolder(DeleteFolder(s, id), id) == DeleteFolder(s, id)
  {
    var once := DeleteFolder(s, id);
    DropIdempotent(s.folderWordlists, ByParent(id));
    assert once.folders - {id} == once.folders;
  }

  lemma RemoveFlashcardFromWordlistIdempotent(s: State, wordlistId: string, flashcardId: string)
    ensures var once := RemoveFlashcardFromWordlist(s, wordlistId, flashcardId);
      RemoveFlashcardFromWordlist(once, wordlistId, flashcardId) == once
  {
    DropIdempotent(s.wordlistFlashcards, ByPair(wordlistId, flashcardId));
  }

  lemma RemoveWordlistFromFolderIdempotent(s: State, folderId: string, wordlistId: string)
    ensures var once := RemoveWordlistFromFolder(s, folderId, wordlistId);
      RemoveWordlistFromFolder(once, folderId, wordlistId) == once
  {
    DropIdempotent(s.folderWordlists, ByPair(folderId, wordlistId));
  }

  /** Adding a card to a wordlist leaves exactly one row for that pair, and
      adding it again is either a no-op or refused by the cap. */
  lemma AddFlashcardToWordlistOnce(s: State, wordlistId: string, flashcardId: string,
                                   rowId: string, now: Timestamp, rowId2: string, now2: Timestamp)
    requires UniquePairs(s.wordlistFlashcards)
    requires AddFlashcardToWordlist(s, wordlistId, flashcardId, rowId, now).Success?
    ensures var once := AddFlashcardToWordlist(s, wordlistId, flashcardId, rowId, now).value;
      && |Select(once.wordlistFlashcards, ByPair(wordlistId, flashcardId))| == 1
      && (AddFlashcardToWordlist(once, wordlistId, flashcardId, rowId2, now2) == Success(once)
          || AddFlashcardToWordlist(once, wordlistId, flashcardId, rowId2, now2) == Failure(WordlistFull))
  {
    var once := AddFlashcardToWordlist(s, wordlistId, flashcardId, rowId, now).value;
    LinkKeepsUnique(s.wordlistFlashcards, MAX_FLASHCARDS_PER_WORDLIST, Join(rowId, wordlistId, flashcardId, now));
    UniqueAtMostOnce(once.wordlistFlashcards, wordlistId, flashcardId);
  }

  /** The same for folders. */
  lemma AddWordlistToFolderOnce(s: State, folderId: string, wordlistId: string,
                                rowId: string, now: Timestamp, rowId2: string, now2: Timestamp)
    requires UniquePairs(s.folderWordlists)
    requires AddWordlistToFolder(s, folderId, wordlistId, rowId, now).Success?
    ensures var once := AddWordlistToFolder(s, folderId, wordlistId, rowId, now).value;
      && |Select(once.folderWordlists, ByPair(folderId, wordlistId))| == 1
      && (AddWordlistToFolder(once, folderId, wordlistId, rowId2, now2) == Success(once)
          || AddWordlistToFolder(once, folderId, wordlistId, rowId2, now2) == Failure(FolderFull))
  {
    var once := AddWordlistToFolder(s, folderId, wordlistId, rowId, now).value;
    LinkKeepsUnique(s.folderWordlists, MAX_WORDLISTS_PER_FOLDER, Join(rowId, folderId, wordlistId, now));
    UniqueAtMostOnce(once.folderWordlists, folderId, wordlistId);
  }

  /** The cap is checked before the duplicate check: re-adding a pair that is
      already present to a full wordlist throws instead of being a no-op. */
  lemma FullWordlistRefusesExistingPair(s: State, wordlistId: string, flashcardId: string, rowId: string, now: Timestamp)
    requires HasPair(s.wordlistFlashcards, wordlistId, flashcardId)
    requires Count(s.wordlistFlashcards, wordlistId) >= MAX_FLASHCARDS_PER_WORDLIST
    ensures AddFlashcardToWordlist(s, wordlistId, flashcardId, rowId, now) == Failure(WordlistFull)
  {
  }

  lemma FullFolderRefusesExistingPair(s: State, folderId: string, wordlistId: string, rowId: string, now: Timestamp)
    requires HasPair(s.folderWordlists, folderId, wordlistId)
    requires Count(s.folderWordlists, folderId) >= MAX_WORDLISTS_PER_FOLDER
    ensures AddWordlistToFolder(s, folderId, wordlistId, rowId, now) == Failure(FolderFull)
  {
  }

  /** Deleting a card just added, whose id no membership row names, gives
      back the store as it was. */
  lemma AddThenDeleteFlashcard(s: State, id: string, draft: CardDraft, now: Timestamp)
    requires StatsConsistent(s)
    requires id !in s.flashcards
    requires forall j :: j in s.wordlistFlashcards ==> j.child != id
    ensures DeleteFlashcard(AddFlashcard(s, id, draft, now).0, id) == s
  {
    var t := AddFlashcard(s, id, draft, now).0;
    var d := DeleteFlashcard(t, id);
    assert t.wordlistFlashcards == s.wordlistFlashcards;
    DropNothing(s.wordlistFlashcards, ByChild(id));
    assert d.wordlistFlashcards == s.wordlistFlashcards;
    assert d.flashcards == t.flashcards - {id} == s.flashcards;
    assert d.stats == s.stats;
  }

  /** Deleting a wordlist just added, whose id no membership row names, gives
      back the store as it was. */
  lemma AddThenDeleteWordlist(s: State, id: string, name: string, comment: Option<string>, order: string, now: Timestamp)
    requires StatsConsistent(s)
    requires id !in s.wordlists
    requires AddWordlist(s, id, name, comment, order, now).Success?
    requires forall j :: j in s.wordlistFlashcards ==> j.parent != id
    requires forall j :: j in s.folderWordlists ==> j.child != id
    ensures DeleteWordlist(AddWordlist(s, id, name, comment, order, now).value.0, id) == s
  {
    var t := AddWordlist(s, id, name, comment, order, now).value.0;
    assert t.wordlists - {id} == s.wordlists;
    DropNothing(s.wordlistFlashcards, ByParent(id));
    DropNothing(s.folderWordlists, ByChild(id));
  }

  /** Deleting a folder just added, whose id no membership row names, gives
      back the store as it was. */
  lemma AddThenDeleteFolder(s: State, id: string, name: string, comment: Option<string>, now: Timestamp)
    requires StatsConsistent(s)
    requires id !in s.folders
    requires AddFolder(s, id, name, comment, now).Success?
    requires forall j :: j in s.folderWordlists ==> j.parent != id
    ensures DeleteFolder(AddFolder(s, id, name, comment, now).value.0, id) == s
  {
    var t := AddFolder(s, id, name, comment, now).value.0;
    assert t.folders - {id} == s.folders;
    DropNothing(s.folderWordlists, ByParent(id));
  }

  /** Removing a pair just added gives back the store as it was. */
  lemma AddThenRemoveFlashcard(s: State, wordlistId: string, flashcardId: string, rowId: string, now: Timestamp)
    requires !HasPair(s.wordlistFlashcards, wordlistId, flashcardId)
    requires AddFlashcardToWordlist(s, wordlistId, flashcardId, rowId, now).Success?
    ensures RemoveFlashcardFromWordlist(AddFlashcardToWordlist(s, wordlistId, flashcardId, rowId, now).value,
                                        wordlistId, flashcardId) == s
  {
    var sel := ByPair(wordlistId, flashcardId);
    DropAppend(s.wordlistFlashcards, Join(rowId, wordlistId, flashcardId, now), sel);
    DropNothing(s.wordlistFlashcards, sel);
  }

  /** Removing a wordlist just added to a folder gives back the store as it was. */
  lemma AddThenRemoveWordlist(s: State, folderId: string, wordlistId: string, rowId: string, now: Timestamp)
    requires !HasPair(s.folderWordlists, folderId, wordlistId)
    requires AddWordlistToFolder(s, folderId, wordlistId, rowId, now).Success?
    ensures RemoveWordlistFromFolder(AddWordlistToFolder(s, folderId, wordlistId, rowId, now).value,
                                     folderId, wordlistId) == s
  {
    var sel := ByPair(folderId, wordlistId);
    DropAppend(s.folderWordlists, Join(rowId, folderId, wordlistId, now), sel);
    DropNothing(s.folderWordlists, sel);
  }

  /** Setting the same comment twice is setting it once. */
  lemma UpdateFlashcardCommentIdempotent(s: State, id: string, comment: string, now: Timestamp)
    requires UpdateFlashcardComment(s, id, comment, now).Success?
    ensures var once := UpdateFlashcardComment(s, id, comment, now).value;
      UpdateFlashcardComment(once, id, comment, now) == Success(once)
  {
    var once := UpdateFlashcardComment(s, id, comment, now).value;
    if id in s.flashcards {
      var card := once.flashcards[id];
      assert card.(comment := Some(comment), updatedAt := now) == card;
      assert once.flashcards[id := card] == once.flashcards;
    }
  }

  /** Switching to another non-shuffle order and back restores the wordlist:
      the seed is not touched on the way. */
  lemma ReorderAndBack(s: State, wordlistId: string, order: string, seed: Seed, seed2: Seed)
    requires wordlistId in s.wordlists
    requires order != SHUFFLE && s.wordlists[wordlistId].order != SHUFFLE
    ensures ReorderWordlist(ReorderWordlist(s, wordlistId, order, seed), wordlistId,
                            s.wordlists[wordlistId].order, seed2) == s
  {
    var t := ReorderWordlist(ReorderWordlist(s, wordlistId, order, seed), wordlistId,
                             s.wordlists[wordlistId].order, seed2);
    assert t.wordlists == s.wordlists;
  }

  /** Each review bump adds exactly one to the count: k bumps add k. */
  function BumpTimes(s: State, flashcardId: string, now: Timestamp, k: nat): State {
    if k == 0 then s else BumpFrequency(BumpTimes(s, flashcardId, now, k - 1), flashcardId, now)
  }

  lemma {:induction false} BumpTimesAdds(s: State, flashcardId: string, now: Timestamp, k: nat)
    requires flashcardId in s.flashcards
    ensures var t := BumpTimes(s, flashcardId, now, k);
      && flashcardId in t.flashcards
      && t.flashcards[flashcardId].frequency == s.flashcards[flashcardId].frequency + k
      && t.flashcards.Keys == s.flashcards.Keys
  {
    if k > 0 {
      BumpTimesAdds(s, flashcardId, now, k - 1);
    }
  }
}
