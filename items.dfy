/**
  The home-screen items and the three list operations the view performs on
  them: finding an item by id, scanning for the items near the pointer, and
  removing the items whose ids are collected.
 */
module Items {
  import opened Geometry

  datatype Option<T> = None | Some(value: T)

  /** An item identity. The app draws a fresh UUID per item; here it is opaque. */
  datatype ItemId = ItemId(uuid: nat)

  /**
    One icon of the home screen. `position` is the last on-screen centre
    reported for it; it is the origin until its layout has been reported.
   */
  datatype HomeScreenItem = HomeScreenItem(id: ItemId, name: string, imageName: string, position: Point)

  /** The ids that occur in a list of items. */
  function IdsOf(items: seq<HomeScreenItem>): set<ItemId>
  {
    set x | x in items :: x.id
  }

  /** No two positions of the list hold the same id. */
  predicate DistinctIds(items: seq<HomeScreenItem>)
  {
    forall i, j :: 0 <= i < j < |items| ==> items[i].id != items[j].id
  }

  /** Two lists that agree on the id at every position have the same ids. */
  lemma SameIds(a: seq<HomeScreenItem>, b: seq<HomeScreenItem>)
    requires |a| == |b| && forall j :: 0 <= j < |a| ==> a[j].id == b[j].id
    ensures IdsOf(a) == IdsOf(b)
  {
    forall id | id in IdsOf(a) ensures id in IdsOf(b) {
      var x :| x in a && x.id == id;
      var j :| 0 <= j < |a| && a[j] == x;
      assert b[j] in b;
    }
    forall id | id in IdsOf(b) ensures id in IdsOf(a) {
      var x :| x in b && x.id == id;
      var j :| 0 <= j < |b| && b[j] == x;
      assert a[j] in a;
    }
  }

  /** `items.firstIndex(where: { $0.id == id })`. */
  function FirstIndex(items: seq<HomeScreenItem>, id: ItemId): (r: Option<nat>)
    ensures r.Some? ==> r.value < |items| && items[r.value].id == id
    ensures r.Some? ==> forall j :: 0 <= j < r.value ==> items[j].id != id
    ensures r.None? <==> id !in IdsOf(items)
  {
    if |items| == 0 then None
    else if items[0].id == id then Some(0)
    else
      match FirstIndex(items[1..], id)
      case None =>
        assert items == [items[0]] + items[1..];
        None
      case Some(k) => Some(k + 1)
  }

  /** With distinct ids, the first index of an id is its only index. */
  lemma FirstIndexOfDistinct(items: seq<HomeScreenItem>, i: nat)
    requires DistinctIds(items) && i < |items|
    ensures FirstIndex(items, items[i].id) == Some(i)
  {
    assert items[i] in items;
  }

  /**
    The ids of the items whose centre is within reach of the pointer: what one
    pass of the drag handler's `for item in items` loop collects.
   */
  function Reached(items: seq<HomeScreenItem>, pointer: Point): set<ItemId>
  {
    if |items| == 0 then {}
    else
      var last := items[|items| - 1];
      Reached(items[..|items| - 1], pointer) + (if WithinReach(pointer, last.position) then {last.id} else {})
  }

  /**
    An id is reached exactly when some item with that id has its centre
    within reach of the pointer.
   */
  lemma {:induction false} ReachedMembers(items: seq<HomeScreenItem>, pointer: Point)
    ensures forall id :: id in Reached(items, pointer) <==>
      exists i :: 0 <= i < |items| && items[i].id == id && WithinReach(pointer, items[i].position)
  {
    if |items| > 0 {
      var init := items[..|items| - 1];
      ReachedMembers(init, pointer);
      assert forall i :: 0 <= i < |init| ==> init[i] == items[i];
    }
  }

  /** Only ids of present items are reached. */
  lemma ReachedPresent(items: seq<HomeScreenItem>, pointer: Point)
    ensures Reached(items, pointer) <= IdsOf(items)
  {
    ReachedMembers(items, pointer);
    forall id | id in Reached(items, pointer) ensures id in IdsOf(items) {
      var i :| 0 <= i < |items| && items[i].id == id && WithinReach(pointer, items[i].position);
      assert items[i] in items;
    }
  }

  /** Scanning one more item adds that item's id exactly when it is within reach. */
  lemma ReachedStep(items: seq<HomeScreenItem>, k: nat, pointer: Point)
    requires k < |items|
    ensures Reached(items[..k + 1], pointer) ==
      Reached(items[..k], pointer) + (if WithinReach(pointer, items[k].position) then {items[k].id} else {})
  {
    assert items[..k + 1][..k] == items[..k];
  }

  /** `items.removeAll { ids.contains($0.id) }`: drop the items whose id is in `ids`. */
  function Without(items: seq<HomeScreenItem>, ids: set<ItemId>): (r: seq<HomeScreenItem>)
    ensures |r| <= |items|
  {
    if |items| == 0 then []
    else
      var rest := Without(items[1..], ids);
      if items[0].id in ids then rest else [items[0]] + rest
  }

  /** The kept items are exactly the items whose id is not removed. */
  lemma {:induction false} WithoutMembers(items: seq<HomeScreenItem>, ids: set<ItemId>)
    ensures forall x :: x in Without(items, ids) <==> x in items && x.id !in ids
  {
    if |items| > 0 {
      WithoutMembers(items[1..], ids);
      assert items == [items[0]] + items[1..];
    }
  }

  /** The ids left after removal are the old ids minus the removed ones. */
  lemma WithoutIds(items: seq<HomeScreenItem>, ids: set<ItemId>)
    ensures IdsOf(Without(items, ids)) == IdsOf(items) - ids
  {
    var r := Without(items, ids);
    WithoutMembers(items, ids);
    forall id | id in IdsOf(items) - ids ensures id in IdsOf(r) {
      var x :| x in items && x.id == id;
      assert x in r;
    }
  }

  /** Removal keeps ids distinct. */
  lemma {:induction false} WithoutDistinct(items: seq<HomeScreenItem>, ids: set<ItemId>)
    requires DistinctIds(items)
    ensures DistinctIds(Without(items, ids))
  {
    if |items| > 0 {
      var rest := items[1..];
      assert DistinctIds(rest) by {
        forall i, j | 0 <= i < j < |rest| ensures rest[i].id != rest[j].id {
          assert rest[i] == items[i + 1] && rest[j] == items[j + 1];
        }
      }
      WithoutDistinct(rest, ids);
      if items[0].id !in ids {
        var wr := Without(rest, ids);
        WithoutMembers(rest, ids);
        assert Without(items, ids) == [items[0]] + wr;
        forall j | 0 <= j < |wr| ensures wr[j].id != items[0].id {
          assert wr[j] in rest;
          var m :| 0 <= m < |rest| && rest[m] == wr[j];
          assert items[m + 1] == rest[m];
        }
      }
    }
  }

  /** Removal keeps the relative order: it distributes over concatenation. */
  lemma {:induction false} WithoutConcat(a: seq<HomeScreenItem>, b: seq<HomeScreenItem>, ids: set<ItemId>)
    ensures Without(a + b, ids) == Without(a, ids) + Without(b, ids)
  {
    if |a| > 0 {
      var head := if a[0].id in ids then [] else [a[0]];
      assert (a + b)[0] == a[0];
      assert (a + b)[1..] == a[1..] + b;
      assert Without(a + b, ids) == head + Without(a[1..] + b, ids);
      assert Without(a, ids) == head + Without(a[1..], ids);
      WithoutConcat(a[1..], b, ids);
    } else {
      assert a + b == b;
    }
  }

  /** Removing ids that occur in no item removes nothing. */
  lemma {:induction false} WithoutAbsent(items: seq<HomeScreenItem>, ids: set<ItemId>)
    requires forall x :: x in items ==> x.id !in ids
    ensures Without(items, ids) == items
  {
    if |items| > 0 {
      var rest := items[1..];
      assert items[0] in items;
      assert forall x :: x in rest ==> x in items;
      WithoutAbsent(rest, ids);
      assert items == [items[0]] + rest;
    }
  }

  /** Removing the same ids a second time changes nothing. */
  lemma WithoutIdempotent(items: seq<HomeScreenItem>, ids: set<ItemId>)
    ensures Without(Without(items, ids), ids) == Without(items, ids)
  {
    WithoutMembers(items, ids);
    WithoutAbsent(Without(items, ids), ids);
  }
}
