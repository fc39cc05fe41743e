/** End-to-end runs of the store and the review ordering. */
module Scenarios {
  import opened Wrappers
  import opened Types
  import opened Joins
  import opened Library
  import Review

  lemma SeedMemberIds(now: Timestamp, row1: string, row2: string, row3: string)
    ensures Review.MemberIds(SeedWordlistFlashcards(now, row1, row2, row3), "wl-starter")
         == ["card-focus", "card-eloquent", "card-resilient"]
  {
    var js := SeedWordlistFlashcards(now, row1, row2, row3);
    assert js[2..] == [js[2]] && js[2..][1..] == [];
    assert js[1..] == [js[1], js[2]] && js[1..][1..] == js[2..];
    assert Review.MemberIds(js[2..], "wl-starter") == ["card-resilient"];
    assert Review.MemberIds(js[1..], "wl-starter") == ["card-eloquent", "card-resilient"];
  }

  lemma SeedPresent(now: Timestamp)
    ensures var cs := Review.Present(["card-focus", "card-eloquent", "card-resilient"], SeedFlashcards(now));
      |cs| == 3 && cs[0].word == "focus" && cs[1].word == "eloquent" && cs[2].word == "resilient"
  {
    var ids: seq<string> := ["card-focus", "card-eloquent", "card-resilient"];
    var cards := SeedFlashcards(now);
    assert ids[2..] == ["card-resilient"] && ids[2..][1..] == [];
    assert ids[1..] == ["card-eloquent", "card-resilient"] && ids[1..][1..] == ids[2..];
    assert Review.Present(ids[2..], cards) == [cards["card-resilient"]];
    assert Review.Present(ids[1..], cards) == [cards["card-eloquent"], cards["card-resilient"]];
    assert Review.Present(ids, cards) == [cards["card-focus"], cards["card-eloquent"], cards["card-resilient"]];
  }

  /** The seed Starter Deck, reviewed in its stored order, shows focus,
      eloquent and resilient in that order; the stats read 3/1/0. */
  lemma StarterDeck(now: Timestamp, row1: string, row2: string, row3: string,
                    le: (string, string) -> bool, fallback: Seed, draw: (Seed, nat) -> nat)
    ensures var s := Initial(now, row1, row2, row3);
      var cs := Review.OrderedCards(Some("wl-starter"), s.wordlistFlashcards, s.flashcards,
                                    Some(s.wordlists["wl-starter"].order), s.wordlists["wl-starter"].shuffleSeed,
                                    le, fallback, draw);
      && s.stats == Stats(3, 1, 0)
      && |cs| == 3
      && cs[0].word == "focus" && cs[1].word == "eloquent" && cs[2].word == "resilient"
  {
    var s := Initial(now, row1, row2, row3);
    assert s.wordlistFlashcards == SeedWordlistFlashcards(now, row1, row2, row3);
    assert s.flashcards == SeedFlashcards(now);
    assert s.wordlists["wl-starter"].order == CREATED_AT;
    SeedMemberIds(now, row1, row2, row3);
    SeedPresent(now);
  }

  /** The join-level part of the folder scenario: a parent with no rows gets
      two, loses the first, then loses all. */
  lemma FolderRows(js: seq<Join>, f: string, row1: Join, row2: Join)
    requires Count(js, f) == 0
    requires row1.parent == f && row2.parent == f && row1.child != row2.child
    ensures Select(Drop(js + [row1] + [row2], ByPair(f, row1.child)), ByParent(f)) == [row2]
    ensures Select(Drop(Drop(js + [row1] + [row2], ByPair(f, row1.child)), ByParent(f)), ByParent(f)) == []
  {
    SelectAppend(js, row1, ByParent(f));
    SelectAppend(js + [row1], row2, ByParent(f));
    var js2 := js + [row1] + [row2];
    assert Select(js2, ByParent(f)) == [row1, row2];
    SelectDropCommute(js2, ByPair(f, row1.child), ByParent(f));
    DropCons(row1, [row2], ByPair(f, row1.child));
    DropCons(row2, [], ByPair(f, row1.child));
    assert [row1] + [row2] == [row1, row2];
    var js3 := Drop(js2, ByPair(f, row1.child));
    SelectDropCommute(js3, ByParent(f), ByParent(f));
    DropCons(row2, [], ByParent(f));
  }

  /** A folder gets two wordlists, loses one again and keeps the other; deleting
      the folder removes its membership rows and no wordlist. */
  lemma CoursesFolder(s: State, f: string, w1: string, w2: string, r1: string, r2: string, now: Timestamp)
    requires f !in s.folders && |s.folders| < MAX_FOLDERS_PER_USER
    requires Count(s.folderWordlists, f) == 0
    requires w1 in s.wordlists && w2 in s.wordlists && w1 != w2
    ensures AddFolder(s, f, "Courses", None, now).Success?
    ensures var s1 := AddFolder(s, f, "Courses", None, now).value.0;
      && AddWordlistToFolder(s1, f, w1, r1, now).Success?
      && AddWordlistToFolder(AddWordlistToFolder(s1, f, w1, r1, now).value, f, w2, r2, now).Success?
    ensures var s1 := AddFolder(s, f, "Courses", None, now).value.0;
      var s2 := AddWordlistToFolder(s1, f, w1, r1, now).value;
      var s3 := AddWordlistToFolder(s2, f, w2, r2, now).value;
      var s4 := RemoveWordlistFromFolder(s3, f, w1);
      var s5 := DeleteFolder(s4, f);
      && Review.MemberIds(s4.folderWordlists, f) == [w2]
      && Count(s5.folderWordlists, f) == 0
      && f !in s5.folders
      && w1 in s5.wordlists && w2 in s5.wordlists
  {
    var s1 := AddFolder(s, f, "Courses", None, now).value.0;
    var js := s.folderWordlists;
    var row1, row2 := Join(r1, f, w1, now), Join(r2, f, w2, now);
    NoRowsNoPair(js, f, w1);
    var s2 := AddWordlistToFolder(s1, f, w1, r1, now).value;
    assert s2.folderWordlists == js + [row1];
    SelectAppend(js, row1, ByParent(f));
    NoRowsNoPair(js, f, w2);
    assert !HasPair(js + [row1], f, w2);
    var s3 := AddWordlistToFolder(s2, f, w2, r2, now).value;
    assert s3.folderWordlists == js + [row1] + [row2];
    FolderRows(js, f, row1, row2);
    var s4 := RemoveWordlistFromFolder(s3, f, w1);
    MemberIdsAreChildren(s4.folderWordlists, f);
  }

  lemma NoRowsNoPair(js: seq<Join>, p: string, c: string)
    requires Count(js, p) == 0
    ensures !HasPair(js, p, c)
  {
    SelectMembers(js, ByParent(p));
    assert Select(js, ByParent(p)) == [];
  }

  /** MemberIds lists the children of a parent's selected rows. */
  lemma {:induction false} MemberIdsAreChildren(js: seq<Join>, p: string)
    ensures var rows := Select(js, ByParent(p));
      Review.MemberIds(js, p) == seq(|rows|, i requires 0 <= i < |rows| => rows[i].child)
    decreases |js|
  {
    if js != [] {
      MemberIdsAreChildren(js[1..], p);
    }
  }
}
