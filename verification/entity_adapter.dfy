/**
 * The part of Redux Toolkit's entity adapter the store slices use: an
 * ordered list of ids next to an id → entity dictionary, with `upsertOne`,
 * `removeOne` and `selectAll`, and the slices' own id-list reordering, which
 * is written with JavaScript's `indexOf` and `splice`.
 */
module EntityAdapter {
  import opened Wrappers

  datatype EntityState<T> = EntityState(ids: seq<string>, entities: map<string, T>)

  /** Each id occurs at most once. */
  predicate Distinct(ids: seq<string>) {
    forall i, j :: 0 <= i < j < |ids| ==> ids[i] != ids[j]
  }

  /** The adapter's invariant: the id list names every stored entity exactly once. */
  ghost predicate Valid<T>(s: EntityState<T>) {
    Distinct(s.ids) && (forall id :: id in s.ids <==> id in s.entities)
  }

  /** `getInitialState()`. */
  function Empty<T>(): (s: EntityState<T>)
    ensures Valid(s) && |s.ids| == 0
  {
    EntityState([], map[])
  }

  /**
   * `upsertOne` once the caller has merged the payload into any existing
   * entity: a new id is appended, an existing one keeps its place.
   */
  function UpsertOne<T>(s: EntityState<T>, id: string, value: T): (r: EntityState<T>)
    requires Valid(s)
    ensures Valid(r)
    ensures r.entities == s.entities[id := value]
    ensures id in s.entities ==> r.ids == s.ids
    ensures id !in s.entities ==> r.ids == s.ids + [id]
  {
    if id in s.entities then s.(entities := s.entities[id := value])
    else EntityState(s.ids + [id], s.entities[id := value])
  }

  /** `ids.filter(i => i !== id)`. */
  function Without(ids: seq<string>, id: string): (r: seq<string>)
    ensures forall x :: x in r <==> x in ids && x != id
    ensures Distinct(ids) ==> Distinct(r)
    ensures id !in ids ==> r == ids
  {
    if |ids| == 0 then []
    else
      var rest := Without(ids[1..], id);
      if ids[0] == id then rest
      else
        assert Distinct(ids) ==> Distinct(ids[1..]) && ids[0] !in ids[1..];
        var r := [ids[0]] + rest;
        assert forall i :: 1 <= i < |r| ==> r[i] == rest[i - 1];
        r
  }

  /** `removeOne`: the entity and its id go; everything else stays in order. */
  function RemoveOne<T>(s: EntityState<T>, id: string): (r: EntityState<T>)
    requires Valid(s)
    ensures Valid(r)
    ensures r.ids == Without(s.ids, id)
    ensures r.entities == s.entities - {id}
  {
    EntityState(Without(s.ids, id), s.entities - {id})
  }

  /** The entities the ids name, in id order. */
  function Lookup<T>(ids: seq<string>, entities: map<string, T>): (r: seq<T>)
    requires forall id :: id in ids ==> id in entities
    ensures |r| == |ids|
    ensures forall i :: 0 <= i < |r| ==> r[i] == entities[ids[i]]
  {
    if |ids| == 0 then [] else [entities[ids[0]]] + Lookup(ids[1..], entities)
  }

  /** `selectAll`: the entities in id-list order. */
  function SelectAll<T>(s: EntityState<T>): (r: seq<T>)
    requires Valid(s)
    ensures |r| == |s.ids|
    ensures forall i :: 0 <= i < |r| ==> r[i] == s.entities[s.ids[i]]
  {
    Lookup(s.ids, s.entities)
  }

  /** `Array.prototype.indexOf`: the first position of `x`, or -1. */
  function IndexOf(ids: seq<string>, x: string): (i: int)
    ensures -1 <= i < |ids|
    ensures i == -1 <==> x !in ids
    ensures i >= 0 ==> ids[i] == x && forall k :: 0 <= k < i ==> ids[k] != x
  {
    if |ids| == 0 then -1
    else if ids[0] == x then 0
    else
      var i := IndexOf(ids[1..], x);
      assert forall k :: 1 <= k < |ids| ==> ids[k] == ids[1..][k - 1];
      if i == -1 then -1 else i + 1
  }

  /** Exchanges positions `i` and `j`. */
  function Swap(ids: seq<string>, i: nat, j: nat): (r: seq<string>)
    requires i < |ids| && j < |ids|
    ensures |r| == |ids| && r[i] == ids[j] && r[j] == ids[i]
    ensures forall k :: 0 <= k < |ids| && k != i && k != j ==> r[k] == ids[k]
  {
    ids[i := ids[j]][j := ids[i]]
  }

  /** Swapping two positions keeps the same ids with the same multiplicities. */
  lemma SwapIsPermutation(ids: seq<string>, i: nat, j: nat)
    requires i < |ids| && j < |ids|
    ensures multiset(Swap(ids, i, j)) == multiset(ids)
  {
    var r := Swap(ids, i, j);
    if i != j {
      var m := ids[i := ids[j]];
      assert multiset(m) == multiset(ids) - multiset{ids[i]} + multiset{ids[j]};
      assert multiset(r) == multiset(m) - multiset{m[j]} + multiset{ids[i]};
    }
  }

  /** `Array.prototype.splice(start, 1)` removes one element; a negative start counts from the end. */
  function SpliceOut(ids: seq<string>, start: int): (r: (seq<string>, Option<string>))
    ensures |ids| == 0 ==> r == (ids, None)
    ensures |ids| > 0 && 0 <= start < |ids| ==> r == (ids[..start] + ids[start + 1..], Some(ids[start]))
    ensures |ids| > 0 && start < 0 && |ids| + start >= 0 ==>
      r == (ids[..|ids| + start] + ids[|ids| + start + 1..], Some(ids[|ids| + start]))
  {
    var k := if start < 0 then (if |ids| + start < 0 then 0 else |ids| + start) else start;
    if k >= |ids| then (ids, None) else (ids[..k] + ids[k + 1..], Some(ids[k]))
  }

  /** `Array.prototype.splice(start, 0, x)` inserts `x` before position `start`. */
  function SpliceIn(ids: seq<string>, start: nat, x: string): (r: seq<string>)
    ensures |r| == |ids| + 1
    ensures start <= |ids| ==> r == ids[..start] + [x] + ids[start..]
  {
    if start <= |ids| then ids[..start] + [x] + ids[start..] else ids + [x]
  }

  /**
   * `moveServerUp` / `moveAccountUp`: take the id out and put it back one
   * place earlier, when it is present and not first.
   */
  function MoveUp(ids: seq<string>, id: string): (r: seq<string>)
  {
    var index := IndexOf(ids, id);
    if index > 0 then
      var (rest, element) := SpliceOut(ids, index);
      SpliceIn(rest, index - 1, element.value)
    else ids
  }

  /**
   * `moveServerDown` / `moveAccountDown`: take the id out and put it back one
   * place later. For an absent id `indexOf` gives -1, so `splice(-1, 1)`
   * takes out the LAST id and `splice(0, 0, ...)` puts it first.
   */
  function MoveDown(ids: seq<string>, id: string): (r: seq<string>)
  {
    var index := IndexOf(ids, id);
    if index < |ids| - 1 then
      var (rest, element) := SpliceOut(ids, index);
      SpliceIn(rest, index + 1, element.value)
    else ids
  }

  /** Two neighbours exchanged, written as slices. */
  lemma SwapNeighbours(ids: seq<string>, i: nat)
    requires i + 1 < |ids|
    ensures Swap(ids, i, i + 1) == ids[..i] + [ids[i + 1], ids[i]] + ids[i + 2..]
    ensures multiset(Swap(ids, i, i + 1)) == multiset(ids)
  {
    SwapIsPermutation(ids, i, i + 1);
  }

  /** Taking out position `i + 1` and reinserting it at `i` exchanges the two neighbours. */
  lemma SpliceUpIsSwap(ids: seq<string>, i: nat)
    requires i + 1 < |ids|
    ensures var rest := ids[..i + 1] + ids[i + 2..];
      rest[..i] + [ids[i + 1]] + rest[i..] == Swap(ids, i, i + 1)
  {
    var rest := ids[..i + 1] + ids[i + 2..];
    assert rest[..i] == ids[..i];
    assert rest[i..] == [ids[i]] + ids[i + 2..];
    SwapNeighbours(ids, i);
  }

  /** Taking out position `i` and reinserting it at `i + 1` exchanges the two neighbours. */
  lemma SpliceDownIsSwap(ids: seq<string>, i: nat)
    requires i + 1 < |ids|
    ensures var rest := ids[..i] + ids[i + 1..];
      rest[..i + 1] + [ids[i]] + rest[i + 1..] == Swap(ids, i, i + 1)
  {
    var rest := ids[..i] + ids[i + 1..];
    assert rest[..i + 1] == ids[..i] + [ids[i + 1]];
    assert rest[i + 1..] == ids[i + 2..];
    SwapNeighbours(ids, i);
  }

  /**
   * The reference rule for moving `id` up: it swaps places with its
   * predecessor when it is present and not first; otherwise nothing changes.
   */
  predicate MovedUp(ids: seq<string>, r: seq<string>, id: string) {
    multiset(r) == multiset(ids) &&
    (IndexOf(ids, id) > 0 ==> r == Swap(ids, IndexOf(ids, id) - 1, IndexOf(ids, id))) &&
    (IndexOf(ids, id) <= 0 ==> r == ids)
  }

  /**
   * The reference rule for moving `id` down: a present, non-last id swaps
   * places with its successor; an absent id in a non-empty list brings the
   * last id to the front; a last id changes nothing.
   */
  predicate MovedDown(ids: seq<string>, r: seq<string>, id: string) {
    multiset(r) == multiset(ids) &&
    (0 <= IndexOf(ids, id) < |ids| - 1 ==> r == Swap(ids, IndexOf(ids, id), IndexOf(ids, id) + 1)) &&
    (id !in ids && |ids| > 0 ==> r == [ids[|ids| - 1]] + ids[..|ids| - 1]) &&
    (IndexOf(ids, id) == |ids| - 1 ==> r == ids)
  }

  /** Moving up swaps the id with its predecessor, or changes nothing. */
  lemma MoveUpSwaps(ids: seq<string>, id: string)
    ensures IndexOf(ids, id) > 0 ==> MoveUp(ids, id) == Swap(ids, IndexOf(ids, id) - 1, IndexOf(ids, id))
    ensures IndexOf(ids, id) <= 0 ==> MoveUp(ids, id) == ids
    ensures id !in ids ==> MoveUp(ids, id) == ids
    ensures multiset(MoveUp(ids, id)) == multiset(ids)
    ensures MovedUp(ids, MoveUp(ids, id), id)
  {
    var i := IndexOf(ids, id);
    if i > 0 {
      SpliceUpIsSwap(ids, i - 1);
      SwapNeighbours(ids, i - 1);
    }
  }

  /**
   * Moving down swaps a present, non-last id with its successor; an absent id
   * in a non-empty list moves the last id to the front; otherwise nothing
   * changes. The ids are always permuted.
   */
  lemma MoveDownSwaps(ids: seq<string>, id: string)
    ensures 0 <= IndexOf(ids, id) < |ids| - 1 ==>
      MoveDown(ids, id) == Swap(ids, IndexOf(ids, id), IndexOf(ids, id) + 1)
    ensures id !in ids && |ids| > 0 ==> MoveDown(ids, id) == [ids[|ids| - 1]] + ids[..|ids| - 1]
    ensures IndexOf(ids, id) == |ids| - 1 ==> MoveDown(ids, id) == ids
    ensures multiset(MoveDown(ids, id)) == multiset(ids)
    ensures MovedDown(ids, MoveDown(ids, id), id)
  {
    var i := IndexOf(ids, id);
    if 0 <= i < |ids| - 1 {
      SpliceDownIsSwap(ids, i);
      SwapNeighbours(ids, i);
    } else if i == -1 && |ids| > 0 {
      MoveDownAbsent(ids, id);
    }
  }

  /** An absent id makes `splice(-1, 1)` take the last id, which `splice(0, 0, ...)` puts first. */
  lemma MoveDownAbsent(ids: seq<string>, id: string)
    requires id !in ids && |ids| > 0
    ensures MoveDown(ids, id) == [ids[|ids| - 1]] + ids[..|ids| - 1]
    ensures multiset(MoveDown(ids, id)) == multiset(ids)
  {
    var n := |ids|;
    var (rest, element) := SpliceOut(ids, -1);
    assert rest == ids[..n - 1] && element == Some(ids[n - 1]);
    assert SpliceIn(rest, 0, ids[n - 1]) == [ids[n - 1]] + ids[..n - 1];
    assert ids == ids[..n - 1] + [ids[n - 1]];
  }

  /** The first position holding `x` is where `IndexOf` finds it. */
  lemma IndexOfIs(ids: seq<string>, x: string, j: nat)
    requires j < |ids| && ids[j] == x
    requires forall k :: 0 <= k < j ==> ids[k] != x
    ensures IndexOf(ids, x) == j
  {
  }

  /** Exchanging the same two positions twice restores the list. */
  lemma SwapTwice(ids: seq<string>, i: nat, j: nat)
    requires i < |ids| && j < |ids|
    ensures Swap(Swap(ids, i, j), i, j) == ids
  {
    var r := Swap(Swap(ids, i, j), i, j);
    assert forall k :: 0 <= k < |ids| ==> r[k] == ids[k];
  }

  /** Moving an id up and then down again restores the list. */
  lemma MoveUpThenDown(ids: seq<string>, id: string)
    requires IndexOf(ids, id) > 0
    ensures MoveDown(MoveUp(ids, id), id) == ids
  {
    var i := IndexOf(ids, id);
    MoveUpSwaps(ids, id);
    var up := Swap(ids, i - 1, i);
    assert MoveUp(ids, id) == up;
    forall k | 0 <= k < i - 1 ensures up[k] != id {
      assert up[k] == ids[k];
    }
    IndexOfIs(up, id, i - 1);
    MoveDownSwaps(up, id);
    assert MoveDown(up, id) == Swap(up, i - 1, i);
    SwapTwice(ids, i - 1, i);
  }

  /** Moving a present, non-last id down and then up restores a list without repeats. */
  lemma MoveDownThenUp(ids: seq<string>, id: string)
    requires Distinct(ids) && 0 <= IndexOf(ids, id) < |ids| - 1
    ensures MoveUp(MoveDown(ids, id), id) == ids
  {
    var i := IndexOf(ids, id);
    MoveDownSwaps(ids, id);
    var down := Swap(ids, i, i + 1);
    assert MoveDown(ids, id) == down;
    forall k | 0 <= k < i + 1 ensures down[k] != id {
      if k == i {
        assert down[k] == ids[i + 1] != ids[i];
      } else {
        assert down[k] == ids[k];
      }
    }
    IndexOfIs(down, id, i + 1);
    MoveUpSwaps(down, id);
    assert MoveUp(down, id) == Swap(down, i, i + 1);
    SwapTwice(ids, i, i + 1);
  }

  /** Reordering the ids keeps the adapter's invariant. */
  lemma MovesKeepValid<T>(s: EntityState<T>, id: string)
    requires Valid(s)
    ensures Valid(s.(ids := MoveUp(s.ids, id)))
    ensures Valid(s.(ids := MoveDown(s.ids, id)))
  {
    MoveUpSwaps(s.ids, id);
    MoveDownSwaps(s.ids, id);
    PermutationKeepsValid(s, MoveUp(s.ids, id));
    PermutationKeepsValid(s, MoveDown(s.ids, id));
  }

  /** `moveXUp` on a whole adapter state: only the id list changes. */
  function MoveIdUp<T>(s: EntityState<T>, id: string): (r: EntityState<T>)
    requires Valid(s)
    ensures Valid(r) && r.entities == s.entities
    ensures MovedUp(s.ids, r.ids, id)
  {
    MoveUpSwaps(s.ids, id);
    MovesKeepValid(s, id);
    s.(ids := MoveUp(s.ids, id))
  }

  /** `moveXDown` on a whole adapter state: only the id list changes. */
  function MoveIdDown<T>(s: EntityState<T>, id: string): (r: EntityState<T>)
    requires Valid(s)
    ensures Valid(r) && r.entities == s.entities
    ensures MovedDown(s.ids, r.ids, id)
  {
    MoveDownSwaps(s.ids, id);
    MovesKeepValid(s, id);
    s.(ids := MoveDown(s.ids, id))
  }

  /** Permuting the id list keeps the adapter's invariant. */
  lemma PermutationKeepsValid<T>(s: EntityState<T>, ids: seq<string>)
    requires Valid(s)
    requires multiset(ids) == multiset(s.ids)
    ensures Valid(s.(ids := ids))
  {
    forall x ensures x in ids <==> x in s.ids {
      assert x in ids <==> x in multiset(ids);
      assert x in s.ids <==> x in multiset(s.ids);
    }
    forall i, j | 0 <= i < j < |ids| ensures ids[i] != ids[j] {
      if ids[i] == ids[j] {
        var x := ids[i];
        assert multiset(ids)[x] >= 2 by {
          assert ids == ids[..j] + ids[j..];
          assert x in ids[..j];
          assert multiset(ids) == multiset(ids[..j]) + multiset(ids[j..]);
        }
        DistinctCountsOne(s.ids, x);
      }
    }
  }

  /** In a list without repeats every id occurs once. */
  lemma {:induction false} DistinctCountsOne(ids: seq<string>, x: string)
    requires Distinct(ids)
    ensures multiset(ids)[x] <= 1
  {
    if |ids| > 0 {
      assert ids == [ids[0]] + ids[1..];
      assert Distinct(ids[1..]);
      DistinctCountsOne(ids[1..], x);
      if ids[0] == x {
        assert x !in ids[1..];
      }
    }
  }
}
