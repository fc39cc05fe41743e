/** The record shapes of the library (src/types/index.ts). Ids, timestamps and
    shuffle seeds are produced outside the model and appear here as plain values. */
module Types {
  import opened Wrappers

  /** An ISO-8601 wall-clock reading; the model never inspects it. */
  type Timestamp = string

  /** A shuffle seed drawn from `Math.random()`. */
  type Seed = real

  /** The order strategies the app knows. At run time `order` is any string
      (one screen passes "recent"), so the field is a plain string. */
  const CREATED_AT: string := "created_at"
  const ALPHA: string := "alpha"
  const SHUFFLE: string := "shuffle"

  datatype Flashcard = Flashcard(
    id: string,
    word: string,
    dictionaryId: Option<string>,
    meaning: string,
    audioUrl: Option<string>,
    comment: Option<string>,
    frequency: int,
    createdAt: Timestamp,
    updatedAt: Timestamp,
    createdBy: string)

  datatype Wordlist = Wordlist(
    id: string,
    name: string,
    comment: Option<string>,
    createdAt: Timestamp,
    updatedAt: Timestamp,
    createdBy: string,
    updatedBy: Option<string>,
    order: string,
    shuffleSeed: Option<Seed>)

  datatype Folder = Folder(
    id: string,
    name: string,
    comment: Option<string>,
    createdAt: Timestamp,
    updatedAt: Timestamp,
    createdBy: string,
    updatedBy: Option<string>)

  /** A membership row of a many-to-many relation. Both join collections of the
      store share this shape:
        - a WordlistFlashcard row has parent = wordlistId, child = flashcardId;
        - a FolderWordlist row has parent = folderId, child = wordlistId. */
  datatype Join = Join(id: string, parent: string, child: string, createdAt: Timestamp)
}
