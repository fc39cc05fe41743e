/** Operations on the ordered join sequences (`wordlistFlashcards`,
    `folderWordlists`): the filters the store's deletes and removes perform,
    per-parent counting, and the pair-uniqueness and per-parent cap invariants. */
module Joins {
  import opened Wrappers
  import opened Types

  /** Which rows a filter is about. */
  datatype Selector =
    | ByParent(parent: string)
    | ByChild(child: string)
    | ByPair(parent: string, child: string)

  predicate Matches(j: Join, sel: Selector) {
    match sel
    case ByParent(p) => j.parent == p
    case ByChild(c) => j.child == c
    case ByPair(p, c) => j.parent == p && j.child == c
  }

  /** The rows matching `sel`, in their original order
      (`joins.filter((j) => j.wordlistId === id)`). */
  function Select(js: seq<Join>, sel: Selector): (r: seq<Join>)
    ensures |r| <= |js|
  {
    if js == [] then []
    else (if Matches(js[0], sel) then [js[0]] else []) + Select(js[1..], sel)
  }

  /** The rows NOT matching `sel`, in their original order (the cascade and
      remove filters, e.g. `filter((wfc) => wfc.flashcardId !== id)`). */
  function Drop(js: seq<Join>, sel: Selector): (r: seq<Join>)
    ensures |r| + |Select(js, sel)| == |js|
  {
    if js == [] then []
    else (if Matches(js[0], sel) then [] else [js[0]]) + Drop(js[1..], sel)
  }

  /** A row is selected exactly when it is in the sequence and matches. */
  lemma {:induction false} SelectMembers(js: seq<Join>, sel: Selector)
    ensures forall j :: j in Select(js, sel) <==> j in js && Matches(j, sel)
    decreases |js|
  {
    if js != [] {
      SelectMembers(js[1..], sel);
      assert js == [js[0]] + js[1..];
    }
  }

  /** A row survives a drop exactly when it is in the sequence and does not match. */
  lemma {:induction false} DropMembers(js: seq<Join>, sel: Selector)
    ensures forall j :: j in Drop(js, sel) <==> j in js && !Matches(j, sel)
    decreases |js|
  {
    if js != [] {
      DropMembers(js[1..], sel);
      assert js == [js[0]] + js[1..];
    }
  }

  /** Number of rows whose parent is `parent`. */
  function Count(js: seq<Join>, parent: string): nat {
    |Select(js, ByParent(parent))|
  }

  /** Some row links `parent` to `child` (`joins.some(...)`). */
  predicate HasPair(js: seq<Join>, parent: string, child: string) {
    exists j :: j in js && j.parent == parent && j.child == child
  }

  /** No (parent, child) pair occurs in two rows. */
  ghost predicate UniquePairs(js: seq<Join>) {
    forall i, k :: 0 <= i < k < |js| ==> !SamePair(js[i], js[k])
  }

  predicate SamePair(a: Join, b: Join) {
    a.parent == b.parent && a.child == b.child
  }

  /** No parent has more than `cap` rows. */
  ghost predicate WithinCap(js: seq<Join>, cap: nat) {
    forall p :: Count(js, p) <= cap
  }

  /** `a` is `b` with some elements deleted: the relative order of the
      elements kept is unchanged. */
  predicate IsSubsequence<T(==)>(a: seq<T>, b: seq<T>)
    decreases |b|
  {
    if a == [] then true
    else if b == [] then false
    else if a[0] == b[0] then IsSubsequence(a[1..], b[1..])
    else IsSubsequence(a, b[1..])
  }

  lemma {:induction false} SubsequenceOfTail<T>(a: seq<T>, b: seq<T>)
    requires a != [] && IsSubsequence(a, b)
    ensures IsSubsequence(a[1..], b)
    decreases |b|, 1
  {
    assert [b[0]] + b[1..] == b;
    if a[0] == b[0] {
      SubsequenceSkip(a[1..], b[1..], b[0]);
    } else {
      SubsequenceOfTail(a, b[1..]);
      SubsequenceSkip(a[1..], b[1..], b[0]);
    }
  }

  lemma {:induction false} SubsequenceSkip<T>(a: seq<T>, b: seq<T>, x: T)
    requires IsSubsequence(a, b)
    ensures IsSubsequence(a, [x] + b)
    decreases |b|, 2
  {
    if a != [] && a[0] == x {
      assert ([x] + b)[1..] == b;
      SubsequenceOfTail(a, b);
    } else if a != [] {
      assert ([x] + b)[1..] == b;
    }
  }

  /** Dropping rows keeps the relative order of the rows that remain. */
  lemma {:induction false} DropIsSubsequence(js: seq<Join>, sel: Selector)
    ensures IsSubsequence(Drop(js, sel), js)
    decreases |js|
  {
    if js != [] {
      DropIsSubsequence(js[1..], sel);
      var rest := Drop(js[1..], sel);
      if Matches(js[0], sel) {
        assert Drop(js, sel) == rest;
        SubsequenceSkip(rest, js[1..], js[0]);
        assert [js[0]] + js[1..] == js;
      } else {
        assert Drop(js, sel) == [js[0]] + rest;
        assert ([js[0]] + rest)[1..] == rest;
      }
    }
  }

  /** Filtering twice by the same selector is filtering once. */
  lemma {:induction false} DropIdempotent(js: seq<Join>, sel: Selector)
    ensures Drop(Drop(js, sel), sel) == Drop(js, sel)
    decreases |js|
  {
    if js != [] {
      DropIdempotent(js[1..], sel);
      var d := Drop(js, sel);
      var rest := Drop(js[1..], sel);
      if !Matches(js[0], sel) {
        assert d == [js[0]] + rest;
        assert d[0] == js[0] && d[1..] == rest;
        assert Drop(d, sel) == [js[0]] + Drop(rest, sel);
      } else {
        assert d == rest;
      }
    }
  }

  /** A filter that matches nothing leaves the sequence as it is. */
  lemma {:induction false} DropNothing(js: seq<Join>, sel: Selector)
    requires forall j :: j in js ==> !Matches(j, sel)
    ensures Drop(js, sel) == js
    decreases |js|
  {
    if js != [] {
      assert js[0] in js;
      assert forall j :: j in js[1..] ==> j in js;
      DropNothing(js[1..], sel);
      assert [js[0]] + js[1..] == js;
    }
  }

  /** Appending a row appends it to every selection it matches: selections are
      in insertion order. */
  lemma {:induction false} SelectAppend(js: seq<Join>, x: Join, sel: Selector)
    ensures Select(js + [x], sel) == Select(js, sel) + (if Matches(x, sel) then [x] else [])
    decreases |js|
  {
    var tail := if Matches(x, sel) then [x] else [];
    if js == [] {
      assert js + [x] == [x];
      assert Select([x], sel) == tail + Select([], sel);
    } else {
      var head := if Matches(js[0], sel) then [js[0]] else [];
      var ys := js + [x];
      assert ys[0] == js[0];
      assert ys[1..] == js[1..] + [x];
      SelectAppend(js[1..], x, sel);
      assert Select(ys, sel) == head + Select(js[1..] + [x], sel);
      assert Select(ys, sel) == head + (Select(js[1..], sel) + tail);
      assert head + (Select(js[1..], sel) + tail) == (head + Select(js[1..], sel)) + tail;
    }
  }

  /** Appending a row keeps it unless it matches the filter. */
  lemma {:induction false} DropAppend(js: seq<Join>, x: Join, sel: Selector)
    ensures Drop(js + [x], sel) == Drop(js, sel) + (if Matches(x, sel) then [] else [x])
    decreases |js|
  {
    var tail := if Matches(x, sel) then [] else [x];
    if js == [] {
      assert js + [x] == [x];
      assert Drop([x], sel) == tail + Drop([], sel);
    } else {
      var head := if Matches(js[0], sel) then [] else [js[0]];
      var ys := js + [x];
      assert ys[0] == js[0];
      assert ys[1..] == js[1..] + [x];
      DropAppend(js[1..], x, sel);
      assert Drop(ys, sel) == head + Drop(js[1..] + [x], sel);
      assert Drop(ys, sel) == head + (Drop(js[1..], sel) + tail);
      assert head + (Drop(js[1..], sel) + tail) == (head + Drop(js[1..], sel)) + tail;
    }
  }

  /** Dropping rows never makes a selection longer. */
  lemma {:induction false} SelectAfterDrop(js: seq<Join>, dropped: Selector, sel: Selector)
    ensures |Select(Drop(js, dropped), sel)| <= |Select(js, sel)|
    decreases |js|
  {
    if js != [] {
      SelectAfterDrop(js[1..], dropped, sel);
      var d := Drop(js, dropped);
      if !Matches(js[0], dropped) {
        assert d[0] == js[0] && d[1..] == Drop(js[1..], dropped);
      } else {
        assert d == Drop(js[1..], dropped);
      }
    }
  }

  lemma SelectCons(x: Join, t: seq<Join>, sel: Selector)
    ensures Select([x] + t, sel) == (if Matches(x, sel) then [x] else []) + Select(t, sel)
  {
    assert ([x] + t)[0] == x && ([x] + t)[1..] == t;
  }

  lemma DropCons(x: Join, t: seq<Join>, sel: Selector)
    ensures Drop([x] + t, sel) == (if Matches(x, sel) then [] else [x]) + Drop(t, sel)
  {
    assert ([x] + t)[0] == x && ([x] + t)[1..] == t;
  }

  /** Selecting and dropping commute. */
  lemma {:induction false} SelectDropCommute(js: seq<Join>, dropped: Selector, sel: Selector)
    ensures Select(Drop(js, dropped), sel) == Drop(Select(js, sel), dropped)
    decreases |js|
  {
    if js != [] {
      var x, t := js[0], js[1..];
      SelectDropCommute(t, dropped, sel);
      if Matches(x, sel) {
        assert Select(js, sel) == [x] + Select(t, sel);
        DropCons(x, Select(t, sel), dropped);
      } else {
        assert Select(js, sel) == Select(t, sel);
      }
      if Matches(x, dropped) {
        assert Drop(js, dropped) == Drop(t, dropped);
      } else {
        assert Drop(js, dropped) == [x] + Drop(t, dropped);
        SelectCons(x, Drop(t, dropped), sel);
      }
    }
  }

  /** Dropping rows keeps every per-parent cap. */
  lemma DropWithinCap(js: seq<Join>, sel: Selector, cap: nat)
    requires WithinCap(js, cap)
    ensures WithinCap(Drop(js, sel), cap)
  {
    forall p
      ensures Count(Drop(js, sel), p) <= cap
    {
      assert Count(js, p) <= cap;
      SelectAfterDrop(js, sel, ByParent(p));
    }
  }

  /** Dropping rows keeps pairs unique. */
  lemma {:induction false} DropUnique(js: seq<Join>, sel: Selector)
    requires UniquePairs(js)
    ensures UniquePairs(Drop(js, sel))
    decreases |js|
  {
    if js != [] {
      assert UniquePairs(js[1..]) by {
        forall i, k | 0 <= i < k < |js[1..]|
          ensures !SamePair(js[1..][i], js[1..][k])
        {
          assert js[1..][i] == js[i + 1] && js[1..][k] == js[k + 1];
        }
      }
      DropUnique(js[1..], sel);
      var rest := Drop(js[1..], sel);
      if !Matches(js[0], sel) {
        DropMembers(js[1..], sel);
        forall y | y in rest
          ensures !SamePair(js[0], y)
        {
          var k :| 1 <= k < |js| && js[k] == y;
        }
        ConsUnique(js[0], rest);
      }
    }
  }

  lemma ConsUnique(x: Join, t: seq<Join>)
    requires UniquePairs(t)
    requires forall y :: y in t ==> !SamePair(x, y)
    ensures UniquePairs([x] + t)
  {
    var s := [x] + t;
    forall i, k | 0 <= i < k < |s|
      ensures !SamePair(s[i], s[k])
    {
      assert s[k] == t[k - 1];
      if i > 0 {
        assert s[i] == t[i - 1];
      }
    }
  }

  /** Appending a row whose pair is absent keeps pairs unique. */
  lemma AppendUnique(js: seq<Join>, x: Join)
    requires UniquePairs(js)
    requires !HasPair(js, x.parent, x.child)
    ensures UniquePairs(js + [x])
  {
    var s := js + [x];
    forall i, k | 0 <= i < k < |s|
      ensures !SamePair(s[i], s[k])
    {
      if k == |js| {
        assert s[i] in js;
      }
    }
  }

  /** Under uniqueness a pair occurs in at most one row. */
  lemma {:induction false} UniqueAtMostOnce(js: seq<Join>, parent: string, child: string)
    requires UniquePairs(js)
    ensures |Select(js, ByPair(parent, child))| <= 1
    ensures HasPair(js, parent, child) <==> |Select(js, ByPair(parent, child))| == 1
    decreases |js|
  {
    var sel := ByPair(parent, child);
    if js != [] {
      assert UniquePairs(js[1..]) by {
        forall i, k | 0 <= i < k < |js[1..]|
          ensures !SamePair(js[1..][i], js[1..][k])
        {
          assert js[1..][i] == js[i + 1] && js[1..][k] == js[k + 1];
        }
      }
      UniqueAtMostOnce(js[1..], parent, child);
      SelectMembers(js[1..], sel);
      SelectMembers(js, sel);
      if Matches(js[0], sel) {
        if Select(js[1..], sel) != [] {
          var y := Select(js[1..], sel)[0];
          assert y in js[1..];
          var k :| 1 <= k < |js| && js[k] == y;
          assert SamePair(js[0], js[k]);
          assert false;
        }
      }
      if HasPair(js, parent, child) {
        var j :| j in js && j.parent == parent && j.child == child;
        assert j in Select(js, sel);
      }
    }
  }

  /** Adds the row `row` for the pair (row.parent, row.child) unless the parent
      already has `cap` rows (None: the caller throws) or the pair is already
      present (the sequence is returned as it is). The cap is checked first. */
  function Link(js: seq<Join>, cap: nat, row: Join): (r: Option<seq<Join>>)
    ensures r.None? <==> Count(js, row.parent) >= cap
    ensures r.Some? ==> HasPair(r.value, row.parent, row.child)
    ensures r.Some? && HasPair(js, row.parent, row.child) ==> r.value == js
    ensures r.Some? && !HasPair(js, row.parent, row.child) ==> r.value == js + [row]
  {
    if Count(js, row.parent) >= cap then None
    else if HasPair(js, row.parent, row.child) then Some(js)
    else Some(js + [row])
  }

  /** Linking keeps pairs unique. */
  lemma LinkKeepsUnique(js: seq<Join>, cap: nat, row: Join)
    requires UniquePairs(js)
    requires Link(js, cap, row).Some?
    ensures UniquePairs(Link(js, cap, row).value)
  {
    if !HasPair(js, row.parent, row.child) {
      AppendUnique(js, row);
    }
  }

  /** Linking keeps every parent within the cap. */
  lemma LinkKeepsCap(js: seq<Join>, cap: nat, row: Join)
    requires WithinCap(js, cap)
    requires Link(js, cap, row).Some?
    ensures WithinCap(Link(js, cap, row).value, cap)
  {
    if !HasPair(js, row.parent, row.child) {
      forall p
        ensures Count(js + [row], p) <= cap
      {
        SelectAppend(js, row, ByParent(p));
        assert Count(js, p) <= cap;
      }
    }
  }
}
