/** The frontend's list transforms over the overlay array: `[...overlays, o]`,
    `overlays.map(o => o._id === u._id ? u : o)`, `overlays.filter(o => o._id !== id)`
    and `overlays.find(o => o._id === id)`. */
module OverlayList {
  import opened Common
  import opened Records

  predicate HasId(list: seq<Overlay>, id: string) {
    exists i :: 0 <= i < |list| && list[i].id == id
  }

  /** `[...list, o]`: the old elements, unchanged and in order, then `o`. */
  function Append(list: seq<Overlay>, o: Overlay): (r: seq<Overlay>)
    ensures |r| == |list| + 1
    ensures r[..|list|] == list && r[|list|] == o
  {
    list + [o]
  }

  /** Index of the first overlay whose `_id` is `id`, or `|list|` when none is. */
  function IndexOfId(list: seq<Overlay>, id: string): (k: nat)
    ensures k <= |list|
    ensures k < |list| ==> list[k].id == id
    ensures forall j :: 0 <= j < k ==> list[j].id != id
  {
    if |list| == 0 then 0
    else if list[0].id == id then 0
    else 1 + IndexOfId(list[1..], id)
  }

  /** `list.find(o => o._id === id)`: the first overlay with that id, if any. */
  function FindById(list: seq<Overlay>, id: string): (r: Option<Overlay>)
    ensures r.None? <==> !HasId(list, id)
    ensures r.Some? ==> r.value.id == id && r.value == list[IndexOfId(list, id)]
  {
    var k := IndexOfId(list, id);
    if k < |list| then Some(list[k]) else None
  }

  /** `list.map(o => o._id === u._id ? u : o)`. */
  function ReplaceById(list: seq<Overlay>, u: Overlay): (r: seq<Overlay>)
    ensures |r| == |list|
    ensures forall i :: 0 <= i < |list| && list[i].id == u.id ==> r[i] == u
    ensures forall i :: 0 <= i < |list| && list[i].id != u.id ==> r[i] == list[i]
  {
    if |list| == 0 then []
    else [if list[0].id == u.id then u else list[0]] + ReplaceById(list[1..], u)
  }

  /** `list.filter(o => o._id !== id)`. */
  function RemoveById(list: seq<Overlay>, id: string): (r: seq<Overlay>)
    ensures |r| <= |list|
    ensures forall o :: o in r <==> o in list && o.id != id
  {
    if |list| == 0 then []
    else if list[0].id == id then RemoveById(list[1..], id)
    else [list[0]] + RemoveById(list[1..], id)
  }

  /** An update whose id is not in the list leaves the list identical. */
  lemma ReplaceAbsent(list: seq<Overlay>, u: Overlay)
    requires !HasId(list, u.id)
    ensures ReplaceById(list, u) == list
  {
  }

  /** Applying the same update twice is applying it once. */
  lemma ReplaceIdempotent(list: seq<Overlay>, u: Overlay)
    ensures ReplaceById(ReplaceById(list, u), u) == ReplaceById(list, u)
  {
  }

  /** After an update of a present id, looking that id up yields the new record. */
  lemma FindAfterReplace(list: seq<Overlay>, u: Overlay)
    requires HasId(list, u.id)
    ensures FindById(ReplaceById(list, u), u.id) == Some(u)
  {
    var r := ReplaceById(list, u);
    var k := IndexOfId(list, u.id);
    assert r[k] == u;
    forall j | 0 <= j < k ensures r[j].id != u.id {
      assert r[j] == list[j];
    }
    var m := IndexOfId(r, u.id);
    assert m <= k && !(m < k);
  }

  /** Filtering commutes with concatenation: the survivors keep their relative order. */
  lemma {:induction false} RemoveConcat(a: seq<Overlay>, b: seq<Overlay>, id: string)
    ensures RemoveById(a + b, id) == RemoveById(a, id) + RemoveById(b, id)
    decreases |a|
  {
    if |a| == 0 {
      assert a + b == b;
    } else {
      assert (a + b)[1..] == a[1..] + b;
      RemoveConcat(a[1..], b, id);
    }
  }

  /** Deleting an id that is not in the list leaves the list identical. */
  lemma {:induction false} RemoveAbsent(list: seq<Overlay>, id: string)
    requires !HasId(list, id)
    ensures RemoveById(list, id) == list
    decreases |list|
  {
    if |list| > 0 {
      assert list[0].id != id;
      assert !HasId(list[1..], id) by {
        forall i | 0 <= i < |list| - 1 ensures list[1..][i].id != id {
          assert list[1..][i] == list[i + 1];
        }
      }
      RemoveAbsent(list[1..], id);
      assert list == [list[0]] + list[1..];
    }
  }

  /** Deleting twice is deleting once. */
  lemma RemoveIdempotent(list: seq<Overlay>, id: string)
    ensures RemoveById(RemoveById(list, id), id) == RemoveById(list, id)
  {
    var r := RemoveById(list, id);
    assert !HasId(r, id) by {
      forall i | 0 <= i < |r| ensures r[i].id != id {
        assert r[i] in r;
      }
    }
    RemoveAbsent(r, id);
  }

  /** Delete removes every copy of a matching record and keeps every other record
      as often as it occurred. */
  lemma {:induction false} RemoveCounts(list: seq<Overlay>, id: string, o: Overlay)
    ensures multiset(RemoveById(list, id))[o] == if o.id == id then 0 else multiset(list)[o]
    decreases |list|
  {
    if |list| > 0 {
      RemoveCounts(list[1..], id, o);
      assert list == [list[0]] + list[1..];
    }
  }
}
