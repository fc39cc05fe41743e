/** Every store operation as one command type, so that the invariants can be
    stated once for any sequence of operations the UI may issue. A command that
    throws leaves the store as it was (the source throws before calling `set`). */
module Commands {
  import opened Wrappers
  import opened Types
  import opened Joins
  import L = Library
  import I = Invariants

  datatype Command =
    | AddFlashcard(id: string, draft: L.CardDraft, now: Timestamp)
    | UpdateFlashcardComment(id: string, newComment: string, now: Timestamp)
    | DeleteFlashcard(id: string)
    | AddWordlist(id: string, name: string, comment: Option<string>, order: string, now: Timestamp)
    | DeleteWordlist(id: string)
    | AddFlashcardToWordlist(wordlistId: string, flashcardId: string, rowId: string, now: Timestamp)
    | RemoveFlashcardFromWordlist(wordlistId: string, flashcardId: string)
    | AddFolder(id: string, name: string, comment: Option<string>, now: Timestamp)
    | DeleteFolder(id: string)
    | AddWordlistToFolder(folderId: string, wordlistId: string, rowId: string, now: Timestamp)
    | RemoveWordlistFromFolder(folderId: string, wordlistId: string)
    | ReorderWordlist(wordlistId: string, order: string, seed: Seed)
    | BumpFrequency(flashcardId: string, now: Timestamp)

  function Apply(s: L.State, c: Command): Result<L.State, L.Error> {
    match c
    case AddFlashcard(id, draft, now) => Success(L.AddFlashcard(s, id, draft, now).0)
    case UpdateFlashcardComment(id, comment, now) => L.UpdateFlashcardComment(s, id, comment, now)
    case DeleteFlashcard(id) => Success(L.DeleteFlashcard(s, id))
    case AddWordlist(id, name, comment, order, now) =>
      var r := L.AddWordlist(s, id, name, comment, order, now);
      if r.Failure? then Failure(r.error) else Success(r.value.0)
    case DeleteWordlist(id) => Success(L.DeleteWordlist(s, id))
    case AddFlashcardToWordlist(w, f, rowId, now) => L.AddFlashcardToWordlist(s, w, f, rowId, now)
    case RemoveFlashcardFromWordlist(w, f) => Success(L.RemoveFlashcardFromWordlist(s, w, f))
    case AddFolder(id, name, comment, now) =>
      var r := L.AddFolder(s, id, name, comment, now);
      if r.Failure? then Failure(r.error) else Success(r.value.0)
    case DeleteFolder(id) => Success(L.DeleteFolder(s, id))
    case AddWordlistToFolder(f, w, rowId, now) => L.AddWordlistToFolder(s, f, w, rowId, now)
    case RemoveWordlistFromFolder(f, w) => Success(L.RemoveWordlistFromFolder(s, f, w))
    case ReorderWordlist(w, order, seed) => Success(L.ReorderWordlist(s, w, order, seed))
    case BumpFrequency(id, now) => Success(L.BumpFrequency(s, id, now))
  }

  /** The state after a command: a thrown error leaves it unchanged. */
  function Step(s: L.State, c: Command): L.State {
    var r := Apply(s, c);
    if r.Success? then r.value else s
  }

  function Run(s: L.State, cs: seq<Command>): L.State
    decreases |cs|
  {
    if cs == [] then s else Run(Step(s, cs[0]), cs[1..])
  }

  /** The id a creating command uses is not yet a key (nanoid's uniqueness). */
  ghost predicate Fresh(s: L.State, c: Command) {
    match c
    case AddFlashcard(id, _, _) => id !in s.flashcards
    case AddWordlist(id, _, _, _, _) => id !in s.wordlists
    case AddFolder(id, _, _, _) => id !in s.folders
    case _ => true
  }

  ghost predicate FreshRun(s: L.State, cs: seq<Command>)
    decreases |cs|
  {
    cs == [] || (Fresh(s, cs[0]) && FreshRun(Step(s, cs[0]), cs[1..]))
  }

  /** Every operation keeps the store's invariants, `stats` equal to the
      collection sizes among them. */
  lemma ApplyKeepsValid(s: L.State, c: Command)
    requires L.Valid(s) && Fresh(s, c)
    ensures L.Valid(Step(s, c))
  {
    match c
    case AddFlashcard(id, draft, now) =>
      I.AddFlashcardKeepsValid(s, id, draft, now);
    case UpdateFlashcardComment(id, comment, now) =>
      if Apply(s, c).Success? {
        I.UpdateFlashcardCommentKeepsValid(s, id, comment, now);
      }
    case DeleteFlashcard(id) =>
      I.DeleteFlashcardKeepsValid(s, id);
    case AddWordlist(id, name, comment, order, now) =>
      if Apply(s, c).Success? {
        I.AddWordlistKeepsValid(s, id, name, comment, order, now);
      }
    case DeleteWordlist(id) =>
      I.DeleteWordlistKeepsValid(s, id);
    case AddFlashcardToWordlist(w, f, rowId, now) =>
      if Apply(s, c).Success? {
        I.AddFlashcardToWordlistKeepsValid(s, w, f, rowId, now);
      }
    case RemoveFlashcardFromWordlist(w, f) =>
      I.RemoveFlashcardFromWordlistKeepsValid(s, w, f);
    case AddFolder(id, name, comment, now) =>
      if Apply(s, c).Success? {
        I.AddFolderKeepsValid(s, id, name, comment, now);
      }
    case DeleteFolder(id) =>
      I.DeleteFolderKeepsValid(s, id);
    case AddWordlistToFolder(f, w, rowId, now) =>
      if Apply(s, c).Success? {
        I.AddWordlistToFolderKeepsValid(s, f, w, rowId, now);
      }
    case RemoveWordlistFromFolder(f, w) =>
      I.RemoveWordlistFromFolderKeepsValid(s, f, w);
    case ReorderWordlist(w, order, seed) =>
      I.ReorderWordlistKeepsValid(s, w, order, seed);
    case BumpFrequency(id, now) =>
      I.BumpFrequencyKeepsValid(s, id, now);
  }

  /** Any run of operations with fresh ids keeps the invariants. */
  lemma {:induction false} RunKeepsValid(s: L.State, cs: seq<Command>)
    requires L.Valid(s) && FreshRun(s, cs)
    ensures L.Valid(Run(s, cs))
    decreases |cs|
  {
    if cs != [] {
      ApplyKeepsValid(s, cs[0]);
      RunKeepsValid(Step(s, cs[0]), cs[1..]);
    }
  }

  /** From the seed state, `stats` always equals the collection sizes and the
      caps always hold. */
  lemma ReachableStatesValid(now: Timestamp, row1: string, row2: string, row3: string, cs: seq<Command>)
    requires FreshRun(L.Initial(now, row1, row2, row3), cs)
    ensures var s := Run(L.Initial(now, row1, row2, row3), cs);
      && L.StatsConsistent(s)
      && |s.wordlists| <= L.MAX_WORDLISTS_PER_USER
      && |s.folders| <= L.MAX_FOLDERS_PER_USER
      && (forall w :: Count(s.wordlistFlashcards, w) <= L.MAX_FLASHCARDS_PER_WORDLIST)
      && (forall f :: Count(s.folderWordlists, f) <= L.MAX_WORDLISTS_PER_FOLDER)
  {
    RunKeepsValid(L.Initial(now, row1, row2, row3), cs);
  }
}
