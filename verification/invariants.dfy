/** Each store operation keeps `Library.Valid`: stats equal to the collection
    sizes, records under their own ids, the per-user caps, unique join pairs
    and the per-parent membership caps. Creating operations need a fresh id. */
module Invariants {
  import opened Wrappers
  import opened Types
  import opened Joins
  import opened Library

  lemma AddFlashcardKeepsValid(s: State, id: string, draft: CardDraft, now: Timestamp)
    requires Valid(s) && id !in s.flashcards
    ensures Valid(AddFlashcard(s, id, draft, now).0)
  {
    var t := AddFlashcard(s, id, draft, now).0;
    assert |t.flashcards| == |s.flashcards| + 1;
    assert t.wordlistFlashcards == s.wordlistFlashcards && t.folderWordlists == s.folderWordlists;
  }

  lemma UpdateFlashcardCommentKeepsValid(s: State, id: string, comment: string, now: Timestamp)
    requires Valid(s)
    requires UpdateFlashcardComment(s, id, comment, now).Success?
    ensures Valid(UpdateFlashcardComment(s, id, comment, now).value)
  {
    var t := UpdateFlashcardComment(s, id, comment, now).value;
    assert t.wordlistFlashcards == s.wordlistFlashcards && t.folderWordlists == s.folderWordlists;
  }

  lemma DeleteFlashcardKeepsValid(s: State, id: string)
    requires Valid(s)
    ensures Valid(DeleteFlashcard(s, id))
  {
    DropUnique(s.wordlistFlashcards, ByChild(id));
    DropWithinCap(s.wordlistFlashcards, ByChild(id), MAX_FLASHCARDS_PER_WORDLIST);
  }

  lemma AddWordlistKeepsValid(s: State, id: string, name: string, comment: Option<string>, order: string, now: Timestamp)
    requires Valid(s) && id !in s.wordlists
    requires AddWordlist(s, id, name, comment, order, now).Success?
    ensures Valid(AddWordlist(s, id, name, comment, order, now).value.0)
  {
    var t := AddWordlist(s, id, name, comment, order, now).value.0;
    assert |t.wordlists| == |s.wordlists| + 1;
    assert t.wordlistFlashcards == s.wordlistFlashcards && t.folderWordlists == s.folderWordlists;
  }

  lemma DeleteWordlistKeepsValid(s: State, id: string)
    requires Valid(s)
    ensures Valid(DeleteWordlist(s, id))
  {
    DropUnique(s.wordlistFlashcards, ByParent(id));
    DropWithinCap(s.wordlistFlashcards, ByParent(id), MAX_FLASHCARDS_PER_WORDLIST);
    DropUnique(s.folderWordlists, ByChild(id));
    DropWithinCap(s.folderWordlists, ByChild(id), MAX_WORDLISTS_PER_FOLDER);
    RemoveKeySmaller(s.wordlists, id);
  }

  lemma AddFlashcardToWordlistKeepsValid(s: State, wordlistId: string, flashcardId: string, rowId: string, now: Timestamp)
    requires Valid(s)
    requires AddFlashcardToWordlist(s, wordlistId, flashcardId, rowId, now).Success?
    ensures Valid(AddFlashcardToWordlist(s, wordlistId, flashcardId, rowId, now).value)
  {
    var row := Join(rowId, wordlistId, flashcardId, now);
    LinkKeepsUnique(s.wordlistFlashcards, MAX_FLASHCARDS_PER_WORDLIST, row);
    LinkKeepsCap(s.wordlistFlashcards, MAX_FLASHCARDS_PER_WORDLIST, row);
  }

  lemma RemoveFlashcardFromWordlistKeepsValid(s: State, wordlistId: string, flashcardId: string)
    requires Valid(s)
    ensures Valid(RemoveFlashcardFromWordlist(s, wordlistId, flashcardId))
  {
    DropUnique(s.wordlistFlashcards, ByPair(wordlistId, flashcardId));
    DropWithinCap(s.wordlistFlashcards, ByPair(wordlistId, flashcardId), MAX_FLASHCARDS_PER_WORDLIST);
  }

  lemma AddFolderKeepsValid(s: State, id: string, name: string, comment: Option<string>, now: Timestamp)
    requires Valid(s) && id !in s.folders
    requires AddFolder(s, id, name, comment, now).Success?
    ensures Valid(AddFolder(s, id, name, comment, now).value.0)
  {
    var t := AddFolder(s, id, name, comment, now).value.0;
    assert |t.folders| == |s.folders| + 1;
    assert t.wordlistFlashcards == s.wordlistFlashcards && t.folderWordlists == s.folderWordlists;
  }

  lemma DeleteFolderKeepsValid(s: State, id: string)
    requires Valid(s)
    ensures Valid(DeleteFolder(s, id))
  {
    DropUnique(s.folderWordlists, ByParent(id));
    DropWithinCap(s.folderWordlists, ByParent(id), MAX_WORDLISTS_PER_FOLDER);
    RemoveKeySmaller(s.folders, id);
  }

  lemma AddWordlistToFolderKeepsValid(s: State, folderId: string, wordlistId: string, rowId: string, now: Timestamp)
    requires Valid(s)
    requires AddWordlistToFolder(s, folderId, wordlistId, rowId, now).Success?
    ensures Valid(AddWordlistToFolder(s, folderId, wordlistId, rowId, now).value)
  {
    var row := Join(rowId, folderId, wordlistId, now);
    LinkKeepsUnique(s.folderWordlists, MAX_WORDLISTS_PER_FOLDER, row);
    LinkKeepsCap(s.folderWordlists, MAX_WORDLISTS_PER_FOLDER, row);
  }

  lemma RemoveWordlistFromFolderKeepsValid(s: State, folderId: string, wordlistId: string)
    requires Valid(s)
    ensures Valid(RemoveWordlistFromFolder(s, folderId, wordlistId))
  {
    DropUnique(s.folderWordlists, ByPair(folderId, wordlistId));
    DropWithinCap(s.folderWordlists, ByPair(folderId, wordlistId), MAX_WORDLISTS_PER_FOLDER);
  }

  lemma ReorderWordlistKeepsValid(s: State, wordlistId: string, order: string, seed: Seed)
    requires Valid(s)
    ensures Valid(ReorderWordlist(s, wordlistId, order, seed))
  {
  }

  lemma BumpFrequencyKeepsValid(s: State, flashcardId: string, now: Timestamp)
    requires Valid(s)
    ensures Valid(BumpFrequency(s, flashcardId, now))
  {
  }

  /** Removing a key never makes a map larger. */
  lemma RemoveKeySmaller<V>(m: map<string, V>, k: string)
    ensures |m - {k}| <= |m|
  {
    if k in m {
      assert m == (m - {k})[k := m[k]];
    } else {
      assert m - {k} == m;
    }
  }
}
