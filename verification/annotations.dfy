/** The saved / liked / read lists of article ids and the toggle that the
    three handlers `handleSaveArticle`, `handleLikeArticle` and
    `handleMarkAsRead` share: remove every copy of the id when it is
    present, append it otherwise. */
module Annotations {
  import opened Seqs

  /** `prev.filter((x) => x !== id)`: every copy of `id` is dropped, every
      other id keeps its order and its number of copies. */
  function Remove<T(==,!new)>(ids: seq<T>, id: T): (r: seq<T>)
    ensures forall x :: x in r <==> x in ids && x != id
    ensures forall x :: x != id ==> multiset(r)[x] == multiset(ids)[x]
    ensures IsSubseq(r, ids)
  {
    FilterIsSubseq(x => x != id, ids);
    Filter(x => x != id, ids)
  }

  /** One toggle: the id's membership flips, no other id's membership
      changes, removal keeps the order of the rest, and an absent id goes
      to the end. */
  function Toggle<T(==,!new)>(ids: seq<T>, id: T): (r: seq<T>)
    ensures id in r <==> id !in ids
    ensures forall x :: x != id ==> (x in r <==> x in ids)
    ensures id in ids ==> IsSubseq(r, ids) && |r| < |ids|
    ensures id in ids ==> forall x :: x != id ==> multiset(r)[x] == multiset(ids)[x]
    ensures id !in ids ==> |r| == |ids| + 1 && r[..|ids|] == ids && r[|ids|] == id
  {
    if id in ids then
      var k :| 0 <= k < |ids| && ids[k] == id;
      FilterShrinks(x => x != id, ids, k);
      Remove(ids, id)
    else
      ids + [id]
  }

  /** Two toggles of the same id restore its membership, and leave every
      other id's membership as it was. */
  lemma ToggleTwiceRestoresMembership<T(!new)>(ids: seq<T>, id: T)
    ensures forall x :: x in Toggle(Toggle(ids, id), id) <==> x in ids
  {
  }

  /** Toggling an absent id twice gives back exactly the list it started
      from: the appended copy is the only one, and removing it restores
      the rest in order. */
  lemma {:induction false} ToggleTwiceAbsentIsIdentity<T(!new)>(ids: seq<T>, id: T)
    requires id !in ids
    ensures Toggle(Toggle(ids, id), id) == ids
  {
    var once := ids + [id];
    assert Toggle(ids, id) == once;
    FilterAllPass(x => x != id, ids);
    assert Filter(x => x != id, once) == Filter(x => x != id, ids) by {
      FilterAppendRejected(x => x != id, ids, id);
    }
  }

  lemma {:induction false} FilterAppendRejected<T(!new)>(p: T -> bool, xs: seq<T>, y: T)
    requires !p(y)
    ensures Filter(p, xs + [y]) == Filter(p, xs)
    decreases |xs|
  {
    if |xs| == 0 {
      assert xs + [y] == [y];
      assert [y][1..] == [];
    } else {
      assert (xs + [y])[1..] == xs[1..] + [y];
      FilterAppendRejected(p, xs[1..], y);
    }
  }

  /** A list without duplicates stays without duplicates: an id is only
      appended when it is absent. */
  lemma {:induction false} ToggleKeepsNoDup<T(!new)>(ids: seq<T>, id: T)
    requires NoDup(ids)
    ensures NoDup(Toggle(ids, id))
  {
    if id in ids {
      FilterNoDup(x => x != id, ids);
    } else {
      var r := ids + [id];
      forall i, j | 0 <= i < j < |r|
        ensures r[i] != r[j]
      {
        if j == |ids| {
          assert r[i] == ids[i];
        } else {
          assert r[i] == ids[i] && r[j] == ids[j];
        }
      }
    }
  }

  /** Toggling a present id twice drops all of its copies and appends a
      single one, so on a duplicate-free list it moves the id to the end. */
  lemma ToggleTwicePresentMovesToEnd<T(!new)>(ids: seq<T>, id: T)
    requires id in ids
    ensures Toggle(Toggle(ids, id), id) == Remove(ids, id) + [id]
  {
  }
}
