/** The comparison selection: the product identifiers picked for side-by-side comparison. */
module Comparison {
  import opened SeqUtil

  /** The last (at most) two entries, as `Array.prototype.slice(-2)` returns them. */
  function LastTwo<T>(s: seq<T>): seq<T>
  {
    if |s| <= 2 then s else s[|s| - 2..]
  }

  /** The update a product card's compare button applies: an identifier already selected is
      removed; otherwise it is appended and only the two most recent entries are kept. */
  function Toggle(prev: seq<string>, id: string): (r: seq<string>)
    ensures id in prev ==> id !in r && IsSubsequence(r, prev)
    ensures id !in prev ==> |r| <= 2 && r != [] && r[|r| - 1] == id
  {
    if id in prev then WithoutIsSubsequence(prev, id); Without(prev, id) else LastTwo(prev + [id])
  }

  /** The shape every reachable selection has: at most two identifiers, none twice. */
  ghost predicate WellFormed(sel: seq<string>)
  {
    |sel| <= 2 && NoDuplicates(sel)
  }

  /** Toggling a selected identifier deselects it and keeps the others in their relative order. */
  lemma ToggleSelectedRemoves(prev: seq<string>, id: string)
    requires id in prev
    ensures id !in Toggle(prev, id)
    ensures forall x :: x in Toggle(prev, id) <==> x in prev && x != id
    ensures IsSubsequence(Toggle(prev, id), prev)
  {
    WithoutIsSubsequence(prev, id);
  }

  /** Toggling an unselected identifier keeps the last two of `prev + [id]`: the new identifier is
      last, and on a full selection the oldest entry is evicted. */
  lemma ToggleUnselectedAppends(prev: seq<string>, id: string)
    requires id !in prev
    ensures var r := Toggle(prev, id);
      |r| == (if |prev| + 1 <= 2 then |prev| + 1 else 2) && r != [] && r[|r| - 1] == id
    ensures |prev| < 2 ==> Toggle(prev, id) == prev + [id]
    ensures |prev| >= 2 ==> Toggle(prev, id) == [prev[|prev| - 1], id]
  {
  }

  /** A well-formed selection stays well-formed under every toggle. */
  lemma ToggleKeepsWellFormed(prev: seq<string>, id: string)
    requires WellFormed(prev)
    ensures WellFormed(Toggle(prev, id))
  {
    if id in prev {
      assert Toggle(prev, id) == Without(prev, id);
      WithoutNoDuplicates(prev, id);
      WithoutPresentLength(prev, id);
    } else {
      var q := prev + [id];
      assert Toggle(prev, id) == LastTwo(q);
      if |prev| == 2 {
        assert LastTwo(q) == [prev[1], id];
        assert prev[1] != id;
      } else {
        assert LastTwo(q) == q;
        forall i, j | 0 <= i < j < |q| ensures q[i] != q[j] {
          assert j == |prev| && q[i] == prev[i] && q[j] == id;
        }
      }
    }
  }

  /** The selection after a series of clicks, starting from the empty selection. */
  function AfterToggles(ids: seq<string>): seq<string>
    decreases |ids|
  {
    if ids == [] then [] else Toggle(AfterToggles(ids[..|ids| - 1]), ids[|ids| - 1])
  }

  /** From the empty selection, every series of toggles keeps at most two identifiers, none twice. */
  lemma {:induction false} AfterTogglesWellFormed(ids: seq<string>)
    ensures WellFormed(AfterToggles(ids))
    decreases |ids|
  {
    if ids != [] {
      AfterTogglesWellFormed(ids[..|ids| - 1]);
      ToggleKeepsWellFormed(AfterToggles(ids[..|ids| - 1]), ids[|ids| - 1]);
    }
  }

  /** Every selected identifier was clicked: toggles never invent an identifier. */
  lemma {:induction false} AfterTogglesFromClicks(ids: seq<string>)
    ensures forall x :: x in AfterToggles(ids) ==> x in ids
    decreases |ids|
  {
    if ids != [] {
      var front := ids[..|ids| - 1];
      AfterTogglesFromClicks(front);
      forall x | x in AfterToggles(ids) ensures x in ids {
        var prev := AfterToggles(front);
        if ids[|ids| - 1] !in prev && |prev + [ids[|ids| - 1]]| > 2 {
          assert x in prev + [ids[|ids| - 1]];
        }
        assert x in prev || x == ids[|ids| - 1];
        if x in prev {
          assert x in front;
          var k :| 0 <= k < |front| && front[k] == x;
          assert ids[k] == x;
        }
      }
    }
  }

  /** Selecting A, then B, then C evicts A: the selection is [B, C]. */
  lemma EvictsOldest(a: string, b: string, c: string)
    requires a != b && b != c && a != c
    ensures AfterToggles([a, b, c]) == [b, c]
  {
    assert [a, b, c][..2] == [a, b] && [a, b][..1] == [a] && [a][..0] == [];
    ToggleUnselectedAppends([], a);
    assert AfterToggles([a]) == [a];
    ToggleUnselectedAppends([a], b);
    assert AfterToggles([a, b]) == [a, b];
    ToggleUnselectedAppends([a, b], c);
  }

  /** Clicking the same card twice on a selection that is not full restores the selection. */
  lemma ToggleTwiceRestores(prev: seq<string>, id: string)
    requires WellFormed(prev) && id !in prev && |prev| < 2
    ensures Toggle(Toggle(prev, id), id) == prev
  {
    var q := prev + [id];
    ToggleUnselectedAppends(prev, id);
    assert Toggle(prev, id) == q;
    assert Toggle(q, id) == Without(q, id) by { assert q[|q| - 1] == id; }
    assert [id][1..] == [];
    if prev == [] {
      assert q == [id];
    } else {
      assert q == [prev[0], id] && q[1..] == [id];
    }
  }

  /** On a full selection the same double click does not restore it: the evicted entry is lost. */
  lemma ToggleTwiceOnFullLosesOldest(x: string, y: string, id: string)
    requires x != y && id != x && id != y
    ensures Toggle(Toggle([x, y], id), id) == [y]
  {
    assert [x, y] + [id] == [x, y, id];
    assert Toggle([x, y], id) == [y, id];
    assert Without([y, id], id) == [y] + Without([id], id);
  }
}
