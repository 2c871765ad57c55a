/**
  The drag-to-collect-and-delete controller of the home screen.

  `ViewState` is the value of the view's five pieces of state; the functions
  AppearAt, OnChanged, OnEnded and Delete are its four transitions, each with
  the properties it promises, and `Inv` is the invariant they all keep. The
  class HomeScreenView holds the same state in mutable fields, and each of its
  methods is proved to move its state exactly as the matching transition does.
 */
module Controller {
  import opened Geometry
  import opened Items

  /** A release less than this many points above the bottom edge of the screen is over the trash. */
  const TrashBand: real := 150.0

  /** Name and image of each icon of the initial home screen, in grid order. */
  const SeedApps: seq<(string, string)> := [
    ("Calendar", "GoogleCalendar"), ("Safari", "safari"), ("Flighty", "flighty"), ("Instagram", "instagram"),
    ("Find My", "findmy"), ("Facebook", "facebook"), ("Messenger", "messenger"), ("ChatGPT", "chatgpt"),
    ("Spotify", "spotify"), ("TV", "tv")
  ]

  datatype ViewState = ViewState(
    items: seq<HomeScreenItem>,
    dragLocation: Point,
    isDragging: bool,
    collectedItems: set<ItemId>,
    showTrashZone: bool)

  /**
    What holds between gestures and during them: ids are distinct, only ids
    of present items are collected, the trash zone shows exactly while
    something is collected, and nothing stays collected once the drag is over.
   */
  predicate Inv(s: ViewState)
  {
    && DistinctIds(s.items)
    && s.collectedItems <= IdsOf(s.items)
    && (s.showTrashZone <==> s.collectedItems != {})
    && (!s.isDragging ==> s.collectedItems == {})
  }

  /** The release point lies in the band at the bottom of the screen. */
  predicate OverTrash(location: Point, screenHeight: real)
  {
    location.y > screenHeight - TrashBand
  }

  /**
    The `onAppear` of an icon with id `id` whose centre is `center`: the first
    item with that id takes that position; nothing else changes.
   */
  function AppearAt(s: ViewState, id: ItemId, center: Point): (t: ViewState)
    ensures t.(items := s.items) == s
    ensures |t.items| == |s.items|
    ensures forall j :: 0 <= j < |t.items| ==>
      t.items[j] == if FirstIndex(s.items, id) == Some(j) then s.items[j].(position := center) else s.items[j]
    ensures id !in IdsOf(s.items) ==> t == s
    ensures IdsOf(t.items) == IdsOf(s.items)
    ensures Inv(s) ==> Inv(t)
  {
    match FirstIndex(s.items, id)
    case None => s
    case Some(k) =>
      var items' := s.items[k := s.items[k].(position := center)];
      SameIds(s.items, items');
      s.(items := items')
  }

  /**
    The drag handler's `onChanged` for the pointer at `location`: the drag is
    on, the pointer is recorded, every item within reach is collected, and the
    trash zone is raised once anything is collected.
   */
  function OnChanged(s: ViewState, location: Point): (t: ViewState)
    ensures t.isDragging && t.dragLocation == location
    ensures t.items == s.items
    ensures s.collectedItems <= t.collectedItems
    ensures forall id :: id in t.collectedItems <==>
      || id in s.collectedItems
      || exists i :: 0 <= i < |s.items| && s.items[i].id == id && WithinReach(location, s.items[i].position)
    ensures t.showTrashZone <==> s.showTrashZone || t.collectedItems != {}
    ensures Inv(s) ==> Inv(t)
  {
    var collected := s.collectedItems + Reached(s.items, location);
    ReachedMembers(s.items, location);
    ReachedPresent(s.items, location);
    ViewState(s.items, location, true, collected, s.showTrashZone || collected != {})
  }

  /**
    `deleteCollectedItems`: the items whose id is collected are removed, the
    rest keep their order (WithoutConcat), the collection is emptied and the
    trash zone hidden.
   */
  function Delete(s: ViewState): (t: ViewState)
    ensures t.dragLocation == s.dragLocation && t.isDragging == s.isDragging
    ensures t.collectedItems == {} && !t.showTrashZone
    ensures forall x :: x in t.items <==> x in s.items && x.id !in s.collectedItems
    ensures |t.items| <= |s.items|
    ensures IdsOf(t.items) == IdsOf(s.items) - s.collectedItems
    ensures t.items == s.items <==> s.collectedItems !! IdsOf(s.items)
    ensures DistinctIds(s.items) ==> Inv(t)
  {
    var items' := Without(s.items, s.collectedItems);
    WithoutMembers(s.items, s.collectedItems);
    WithoutIds(s.items, s.collectedItems);
    assert s.collectedItems !! IdsOf(s.items) ==> items' == s.items by {
      if s.collectedItems !! IdsOf(s.items) {
        assert forall x :: x in s.items ==> x.id in IdsOf(s.items);
        WithoutAbsent(s.items, s.collectedItems);
      }
    }
    assert DistinctIds(s.items) ==> DistinctIds(items') by {
      if DistinctIds(s.items) {
        WithoutDistinct(s.items, s.collectedItems);
      }
    }
    ViewState(items', s.dragLocation, s.isDragging, {}, false)
  }

  /**
    The drag handler's `onEnded` for a release at `location` on a screen
    `screenHeight` high: a release over the trash band with something collected
    deletes; any other release gives the collection up. Either way the drag is
    over, nothing is collected and the trash zone is hidden.
   */
  function OnEnded(s: ViewState, location: Point, screenHeight: real): (t: ViewState)
    ensures !t.isDragging && t.collectedItems == {} && !t.showTrashZone
    ensures t.dragLocation == s.dragLocation
    ensures !OverTrash(location, screenHeight) || s.collectedItems == {} ==> t.items == s.items
    ensures OverTrash(location, screenHeight) && s.collectedItems != {} ==> t.items == Delete(s).items
    ensures Inv(s) ==> Inv(t)
  {
    var s' := s.(isDragging := false);
    if OverTrash(location, screenHeight) && s'.collectedItems != {} then Delete(s')
    else s'.(collectedItems := {}, showTrashZone := false)
  }

  /** The state after a run of `onChanged` events, one per pointer location in `path`. */
  function AfterMoves(s: ViewState, path: seq<Point>): ViewState
    decreases |path|
  {
    if |path| == 0 then s else AfterMoves(OnChanged(s, path[0]), path[1..])
  }

  /**
    During one drag the items stay as they are, the collection only grows,
    the pointer is the last location seen, and the invariant holds throughout.
   */
  lemma {:induction false} MovesOnlyGrow(s: ViewState, path: seq<Point>)
    ensures AfterMoves(s, path).items == s.items
    ensures s.collectedItems <= AfterMoves(s, path).collectedItems
    ensures |path| > 0 ==> AfterMoves(s, path).isDragging && AfterMoves(s, path).dragLocation == path[|path| - 1]
    ensures Inv(s) ==> Inv(AfterMoves(s, path))
    decreases |path|
  {
    if |path| > 0 {
      MovesOnlyGrow(OnChanged(s, path[0]), path[1..]);
      if |path| > 1 {
        assert path[1..][|path[1..]| - 1] == path[|path| - 1];
      }
    }
  }

  /**
    After a run of moves, the collection holds exactly what it held before
    plus the ids of items that came within reach of some location of the path.
   */
  lemma {:induction false} MovesCollectExactly(s: ViewState, path: seq<Point>, id: ItemId)
    ensures id in AfterMoves(s, path).collectedItems <==>
      || id in s.collectedItems
      || exists k, i :: 0 <= k < |path| && 0 <= i < |s.items| &&
           s.items[i].id == id && WithinReach(path[k], s.items[i].position)
    decreases |path|
  {
    if |path| > 0 {
      var s1 := OnChanged(s, path[0]);
      MovesCollectExactly(s1, path[1..], id);
      if id in AfterMoves(s, path).collectedItems && id !in s.collectedItems {
        if id in s1.collectedItems {
          var i :| 0 <= i < |s.items| && s.items[i].id == id && WithinReach(path[0], s.items[i].position);
        } else {
          var k, i :| 0 <= k < |path[1..]| && 0 <= i < |s1.items| &&
            s1.items[i].id == id && WithinReach(path[1..][k], s1.items[i].position);
          assert path[k + 1] == path[1..][k];
        }
      }
      if exists k, i :: 0 <= k < |path| && 0 <= i < |s.items| &&
           s.items[i].id == id && WithinReach(path[k], s.items[i].position) {
        var k, i :| 0 <= k < |path| && 0 <= i < |s.items| &&
          s.items[i].id == id && WithinReach(path[k], s.items[i].position);
        if k > 0 {
          assert path[1..][k - 1] == path[k];
        }
      }
    }
  }

  /**
    A whole gesture — a run of moves and a release — always ends with the
    drag over, nothing collected and the trash zone hidden; the items are
    exactly those whose id the drag collected removed when the release is
    over the trash with something collected, and untouched otherwise.
   */
  lemma Gesture(s: ViewState, path: seq<Point>, release: Point, screenHeight: real)
    requires Inv(s)
    ensures var moved := AfterMoves(s, path);
      var t := OnEnded(moved, release, screenHeight);
      && Inv(t) && !t.isDragging && t.collectedItems == {} && !t.showTrashZone
      && t.items == if OverTrash(release, screenHeight) && moved.collectedItems != {}
                    then Without(s.items, moved.collectedItems) else s.items
  {
    MovesOnlyGrow(s, path);
  }

  /** A second delete finds nothing collected and removes nothing. */
  lemma DeleteIdempotent(s: ViewState)
    ensures Delete(Delete(s)) == Delete(s)
  {
    WithoutAbsent(Delete(s).items, {});
  }

  /**
    A worked gesture: two icons 40 and 5 points from the pointer. Only the
    nearer one is collected; releasing 10 points above the bottom edge deletes
    it and keeps the other.
   */
  lemma CollectNearerAndDrop(a: ItemId, b: ItemId, screenHeight: real)
    requires a != b
    ensures var far := HomeScreenItem(a, "Calendar", "GoogleCalendar", Point(100.0, 100.0));
      var near := HomeScreenItem(b, "Safari", "safari", Point(135.0, 100.0));
      var s := ViewState([far, near], Origin, false, {}, false);
      var moved := OnChanged(s, Point(140.0, 100.0));
      && moved.collectedItems == {b} && moved.showTrashZone
      && OnEnded(moved, Point(200.0, screenHeight - 10.0), screenHeight).items == [far]
  {
    var far := HomeScreenItem(a, "Calendar", "GoogleCalendar", Point(100.0, 100.0));
    var near := HomeScreenItem(b, "Safari", "safari", Point(135.0, 100.0));
    assert !WithinReach(Point(140.0, 100.0), far.position);
    assert WithinReach(Point(140.0, 100.0), near.position);
    var moved := OnChanged(ViewState([far, near], Origin, false, {}, false), Point(140.0, 100.0));
    assert moved.collectedItems == {b};
    assert Without([far, near], {b}) == [far] by {
      assert [far, near] == [far] + [near];
      WithoutConcat([far], [near], {b});
    }
  }

  /** The view object: the five `@State` fields and the handlers that update them. */
  class HomeScreenView {
    var items: seq<HomeScreenItem>
    var dragLocation: Point
    var isDragging: bool
    var collectedItems: set<ItemId>
    var showTrashZone: bool

    function State(): ViewState
      reads this
    {
      ViewState(items, dragLocation, isDragging, collectedItems, showTrashZone)
    }

    predicate Valid()
      reads this
    {
      Inv(State())
    }

    /**
      The initial home screen: the seed icons in order, with the given
      distinct ids (fresh UUIDs in the app), all at the origin, no drag.
     */
    constructor (ids: seq<ItemId>)
      requires |ids| == |SeedApps|
      requires forall i, j :: 0 <= i < j < |ids| ==> ids[i] != ids[j]
      ensures Valid()
      ensures |items| == |SeedApps|
      ensures forall i :: 0 <= i < |items| ==>
        items[i] == HomeScreenItem(ids[i], SeedApps[i].0, SeedApps[i].1, Origin)
      ensures dragLocation == Origin && !isDragging && collectedItems == {} && !showTrashZone
    {
      items := seq(|ids|, i requires 0 <= i < |ids| => HomeScreenItem(ids[i], SeedApps[i].0, SeedApps[i].1, Origin));
      dragLocation := Origin;
      isDragging := false;
      collectedItems := {};
      showTrashZone := false;
    }

    /** An icon reports its on-screen centre when it appears. */
    method RegisterPosition(id: ItemId, center: Point)
      requires Valid()
      modifies this
      ensures State() == AppearAt(old(State()), id, center)
      ensures Valid()
    {
      var index := FirstIndex(items, id);
      if index.Some? {
        items := items[index.value := items[index.value].(position := center)];
      }
    }

    /** The drag gesture's `onChanged` handler. */
    method DragChanged(location: Point)
      requires Valid()
      modifies this
      ensures State() == OnChanged(old(State()), location)
      ensures Valid()
    {
      isDragging := true;
      dragLocation := location;
      var scan := items;
      for k := 0 to |scan|
        invariant items == scan == old(items) && dragLocation == location
        invariant isDragging && showTrashZone == old(showTrashZone)
        invariant collectedItems == old(collectedItems) + Reached(scan[..k], location)
      {
        var item := scan[k];
        ghost var before := collectedItems;
        if WithinReach(location, item.position) && item.id !in collectedItems {
          collectedItems := collectedItems + {item.id};
        }
        assert collectedItems == before + (if WithinReach(location, item.position) then {item.id} else {});
        ReachedStep(scan, k, location);
      }
      assert scan[..|scan|] == scan;
      if collectedItems != {} {
        showTrashZone := true;
      }
    }

    /** The drag gesture's `onEnded` handler, given the screen height. */
    method DragEnded(location: Point, screenHeight: real)
      requires Valid()
      modifies this
      ensures State() == OnEnded(old(State()), location, screenHeight)
      ensures Valid()
    {
      isDragging := false;
      if OverTrash(location, screenHeight) && collectedItems != {} {
        DeleteCollectedItems();
      } else {
        collectedItems := {};
        showTrashZone := false;
      }
    }

    /** Removes every collected item and clears the collection. */
    method DeleteCollectedItems()
      modifies this
      ensures State() == Delete(old(State()))
    {
      items := Without(items, collectedItems);
      collectedItems := {};
      showTrashZone := false;
    }
  }
}
