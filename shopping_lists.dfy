/**
 * The collection behind the "your shopping lists" screen: an ordered sequence
 * of `{id, title}` records, and the new sequence each of the three handlers
 * computes from it (spread-append, `map` and `filter`).
 */
module ShoppingLists {
  import opened ListText

  /** One shopping list as the home page holds it. */
  datatype ListRecord = ListRecord(id: string, title: string)

  predicate HasId(lists: seq<ListRecord>, id: string) {
    exists k :: 0 <= k < |lists| && lists[k].id == id
  }

  /** No two records share an id. */
  predicate DistinctIds(lists: seq<ListRecord>) {
    forall i, j :: 0 <= i < j < |lists| ==> lists[i].id != lists[j].id
  }

  /** `a` occurs in `b` in order, possibly with other records between (greedy left-to-right matching). */
  predicate IsSubsequence(a: seq<ListRecord>, b: seq<ListRecord>)
    decreases |b|
  {
    a == [] || (b != [] && if a[0] == b[0] then IsSubsequence(a[1..], b[1..]) else IsSubsequence(a, b[1..]))
  }

  // ---------------------------------------------------------------------------
  // The three handlers' transforms

  /**
   * `handleAddItem`: a blank name is refused; otherwise a record with the
   * supplied id and the name exactly as typed (not trimmed) goes at the end.
   */
  function Add(lists: seq<ListRecord>, id: string, title: string): (r: seq<ListRecord>)
    ensures IsBlank(title) ==> r == lists
    ensures !IsBlank(title) ==> |r| == |lists| + 1 && r[..|lists|] == lists && r[|lists|] == ListRecord(id, title)
  {
    if IsBlank(title) then lists else lists + [ListRecord(id, title)]
  }

  /**
   * `handleEdit`: every record whose id equals `id` gets `title`; the others are
   * kept as they are. No blank check is made.
   */
  function Rename(lists: seq<ListRecord>, id: string, title: string): (r: seq<ListRecord>)
    ensures |r| == |lists|
    ensures forall k :: 0 <= k < |lists| ==>
              r[k].id == lists[k].id && r[k].title == (if lists[k].id == id then title else lists[k].title)
  {
    if lists == [] then []
    else [if lists[0].id == id then lists[0].(title := title) else lists[0]] + Rename(lists[1..], id, title)
  }

  /** `handleDeleteItem`: keeps exactly the records whose id differs from `id`. */
  function Delete(lists: seq<ListRecord>, id: string): (r: seq<ListRecord>)
    ensures |r| <= |lists|
    ensures forall x :: x in r <==> x in lists && x.id != id
  {
    if lists == [] then []
    else (if lists[0].id == id then [] else [lists[0]]) + Delete(lists[1..], id)
  }

  // ---------------------------------------------------------------------------
  // Add

  /** With a fresh id, adding keeps the ids pairwise distinct. */
  lemma AddKeepsIdsDistinct(lists: seq<ListRecord>, id: string, title: string)
    requires DistinctIds(lists) && !HasId(lists, id)
    ensures DistinctIds(Add(lists, id, title))
  {
  }

  /** Adding changes the sequence exactly when the name is not blank, i.e. not all white space. */
  lemma AddChangesIffNotBlank(lists: seq<ListRecord>, id: string, title: string)
    ensures Add(lists, id, title) != lists <==> exists i :: 0 <= i < |title| && !IsJsWhitespace(title[i])
  {
    if !IsBlank(title) {
      assert |Add(lists, id, title)| != |lists|;
    }
  }

  /** Deleting the freshly added id undoes the add, whatever the name. */
  lemma {:induction false} DeleteUndoesAdd(lists: seq<ListRecord>, id: string, title: string)
    requires !HasId(lists, id)
    ensures Delete(Add(lists, id, title), id) == lists
  {
    DeleteAbsent(lists, id);
    if !IsBlank(title) {
      DeleteConcat(lists, [ListRecord(id, title)], id);
      assert Add(lists, id, title) == lists + [ListRecord(id, title)];
      assert Delete([ListRecord(id, title)], id) == [] + Delete([], id);
    }
  }

  // ---------------------------------------------------------------------------
  // Rename

  /** Renaming keeps the set of present ids and their distinctness. */
  lemma RenameKeepsIds(lists: seq<ListRecord>, id: string, title: string)
    ensures DistinctIds(Rename(lists, id, title)) <==> DistinctIds(lists)
    ensures forall other :: HasId(Rename(lists, id, title), other) <==> HasId(lists, other)
  {
    var r := Rename(lists, id, title);
    forall other ensures HasId(r, other) <==> HasId(lists, other) {
      if HasId(r, other) {
        var k :| 0 <= k < |r| && r[k].id == other;
        assert lists[k].id == other;
      }
      if HasId(lists, other) {
        var k :| 0 <= k < |lists| && lists[k].id == other;
        assert r[k].id == other;
      }
    }
  }

  /** Renaming leaves the sequence identical exactly when every record with that id already has that title (in particular when the id is absent). */
  lemma RenameIdentityIff(lists: seq<ListRecord>, id: string, title: string)
    ensures Rename(lists, id, title) == lists <==>
            forall k :: 0 <= k < |lists| && lists[k].id == id ==> lists[k].title == title
    ensures !HasId(lists, id) ==> Rename(lists, id, title) == lists
  {
    var r := Rename(lists, id, title);
    if forall k :: 0 <= k < |lists| && lists[k].id == id ==> lists[k].title == title {
      assert forall k :: 0 <= k < |lists| ==> r[k] == lists[k];
    } else {
      var k :| 0 <= k < |lists| && lists[k].id == id && lists[k].title != title;
      assert r[k] != lists[k];
    }
  }

  /** The second rename of the same id wins. */
  lemma RenameLastWins(lists: seq<ListRecord>, id: string, first: string, second: string)
    ensures Rename(Rename(lists, id, first), id, second) == Rename(lists, id, second)
  {
    var a := Rename(Rename(lists, id, first), id, second);
    var b := Rename(lists, id, second);
    assert forall k :: 0 <= k < |lists| ==> a[k] == b[k];
  }

  /** Renaming back to the old title restores the sequence when the id is unique. */
  lemma RenameBack(lists: seq<ListRecord>, k: nat, title: string)
    requires DistinctIds(lists) && k < |lists|
    ensures Rename(Rename(lists, lists[k].id, title), lists[k].id, lists[k].title) == lists
  {
    var id := lists[k].id;
    var r := Rename(Rename(lists, id, title), id, lists[k].title);
    assert forall j :: 0 <= j < |lists| ==> r[j] == lists[j];
  }

  /**
   * Unlike adding, renaming performs no blank check: an empty or all-white-space
   * title is stored as given for a present id, while adding it changes nothing.
   */
  lemma RenameStoresBlankTitle(lists: seq<ListRecord>, k: nat, blank: string, newId: string)
    requires k < |lists| && AllWhitespace(blank)
    ensures Rename(lists, lists[k].id, blank)[k] == ListRecord(lists[k].id, blank)
    ensures Add(lists, newId, blank) == lists
  {
  }

  // ---------------------------------------------------------------------------
  // Delete

  /** Deleting distributes over concatenation: the kept records stay in their original relative order. */
  lemma {:induction false} DeleteConcat(a: seq<ListRecord>, b: seq<ListRecord>, id: string)
    ensures Delete(a + b, id) == Delete(a, id) + Delete(b, id)
  {
    if a == [] {
      assert a + b == b;
    } else {
      assert (a + b)[1..] == a[1..] + b;
      DeleteConcat(a[1..], b, id);
    }
  }

  /** What remains after deleting is a subsequence of the original. */
  lemma {:induction false} DeleteIsSubsequence(lists: seq<ListRecord>, id: string)
    ensures IsSubsequence(Delete(lists, id), lists)
  {
    if lists != [] {
      DeleteIsSubsequence(lists[1..], id);
      var rest := Delete(lists[1..], id);
      if lists[0].id != id {
        assert Delete(lists, id) == [lists[0]] + rest;
        assert ([lists[0]] + rest)[1..] == rest;
      } else {
        assert Delete(lists, id) == rest;
        SubsequenceSkip(rest, lists);
      }
    }
  }

  /** Helper: a subsequence of the tail is a subsequence of the whole. */
  lemma {:induction false} SubsequenceSkip(a: seq<ListRecord>, b: seq<ListRecord>)
    requires b != [] && IsSubsequence(a, b[1..])
    ensures IsSubsequence(a, b)
    decreases |a| + |b|
  {
    if a != [] && a[0] == b[0] {
      SubsequenceDrop(a, b[1..]);
    }
  }

  /** Helper: dropping the first record of a subsequence keeps it a subsequence. */
  lemma {:induction false} SubsequenceDrop(a: seq<ListRecord>, b: seq<ListRecord>)
    requires a != [] && IsSubsequence(a, b)
    ensures IsSubsequence(a[1..], b)
    decreases |a| + |b|
  {
    if a[0] != b[0] {
      SubsequenceDrop(a, b[1..]);
    }
    SubsequenceSkip(a[1..], b);
  }

  /** Deleting leaves the sequence identical exactly when the id is absent. */
  lemma {:induction false} DeleteAbsent(lists: seq<ListRecord>, id: string)
    ensures Delete(lists, id) == lists <==> !HasId(lists, id)
  {
    if HasId(lists, id) {
      var k :| 0 <= k < |lists| && lists[k].id == id;
      assert lists[k] in lists && lists[k] !in Delete(lists, id);
    } else if lists != [] {
      DeleteAbsent(lists[1..], id);
      assert lists == [lists[0]] + lists[1..];
    }
  }

  /** Deleting twice equals deleting once. */
  lemma DeleteIdempotent(lists: seq<ListRecord>, id: string)
    ensures Delete(Delete(lists, id), id) == Delete(lists, id)
  {
    var r := Delete(lists, id);
    DeleteAbsent(r, id);
  }

  /** Helper: the ids of a sequence with a record in front. */
  lemma HasIdCons(x: ListRecord, s: seq<ListRecord>, id: string)
    ensures HasId([x] + s, id) <==> x.id == id || HasId(s, id)
  {
    var c := [x] + s;
    assert c[0] == x;
    if HasId(c, id) && x.id != id {
      var k :| 0 <= k < |c| && c[k].id == id;
      assert c[k] == s[k - 1];
      assert HasId(s, id);
    }
    if HasId(s, id) {
      var k :| 0 <= k < |s| && s[k].id == id;
      assert c[k + 1] == s[k];
      assert HasId(c, id);
    }
  }

  /** Helper: distinctness of a sequence with a record in front. */
  lemma DistinctCons(x: ListRecord, s: seq<ListRecord>)
    ensures DistinctIds([x] + s) <==> DistinctIds(s) && !HasId(s, x.id)
  {
    var c := [x] + s;
    if DistinctIds(c) {
      forall i, j | 0 <= i < j < |s| ensures s[i].id != s[j].id {
        assert s[i] == c[i + 1] && s[j] == c[j + 1];
      }
      forall k | 0 <= k < |s| ensures s[k].id != x.id {
        assert c[k + 1] == s[k] && c[0] == x;
      }
    }
    if DistinctIds(s) && !HasId(s, x.id) {
      forall i, j | 0 <= i < j < |c| ensures c[i].id != c[j].id {
        if i == 0 {
          assert c[j] == s[j - 1];
        } else {
          assert c[i] == s[i - 1] && c[j] == s[j - 1];
        }
      }
    }
  }

  /** Deleting keeps the ids distinct. */
  lemma {:induction false} DeleteKeepsIdsDistinct(lists: seq<ListRecord>, id: string)
    requires DistinctIds(lists)
    ensures DistinctIds(Delete(lists, id))
  {
    if lists != [] {
      var tail := lists[1..];
      assert lists == [lists[0]] + tail;
      DistinctCons(lists[0], tail);
      DeleteKeepsIdsDistinct(tail, id);
      var rest := Delete(tail, id);
      if lists[0].id != id {
        DistinctCons(lists[0], rest);
      }
    }
  }

  /** With unique ids, deleting a present id removes exactly one record; an absent id removes none. */
  lemma {:induction false} DeleteRemovesOne(lists: seq<ListRecord>, id: string)
    requires DistinctIds(lists)
    ensures |Delete(lists, id)| == if HasId(lists, id) then |lists| - 1 else |lists|
  {
    if lists != [] {
      var tail := lists[1..];
      assert lists == [lists[0]] + tail;
      DistinctCons(lists[0], tail);
      HasIdCons(lists[0], tail, id);
      DeleteRemovesOne(tail, id);
      if lists[0].id == id {
        DeleteAbsent(tail, id);
      }
    }
  }

  /** Renaming a record and then deleting it is the same as deleting it. */
  lemma {:induction false} DeleteAfterRename(lists: seq<ListRecord>, id: string, title: string)
    ensures Delete(Rename(lists, id, title), id) == Delete(lists, id)
  {
    if lists != [] {
      DeleteAfterRename(lists[1..], id, title);
      assert Rename(lists, id, title)[1..] == Rename(lists[1..], id, title);
    }
  }
}
