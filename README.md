# DragDelete home screen: drag-to-collect-and-delete, in Dafny

This project models the controller of the iOS-style home screen in
`DragDelete/ContentView.swift`. The user drags a finger across the icon
grid. Every icon whose centre comes within 35 points of the finger is
collected, and a trash zone appears. Releasing in the bottom 150 points of
the screen deletes the collected icons. Releasing anywhere else gives the
collection up.

The view state has five parts (`items`, `dragLocation`, `isDragging`,
`collectedItems`, `showTrashZone`). Four handlers change it:

- an icon's `onAppear`, which records the icon's centre;
- the drag gesture's `onChanged`;
- the drag gesture's `onEnded`;
- `deleteCollectedItems`.

Layout:

- `geometry.dfy` (module `Geometry`): points with `real` coordinates and the
  proximity test. The app's `sqrt(dx² + dy²) < 35` becomes the exact test
  `dx*dx + dy*dy < 35*35`, and a lemma proves the two agree.
- `items.dfy` (module `Items`): the item record and the list operations the
  handlers use. These are `firstIndex(where:)`, the scan of the items near
  the pointer, and `removeAll(where:)`.
- `controller.dfy` (module `Controller`): the state as a value
  (`ViewState`), with one function per handler; the invariant `Inv` they all
  keep; lemmas about whole gestures; and the class `HomeScreenView`. The class
  has the same five fields, and one method per handler. Each method is proved
  to change the state exactly as the matching function says.
  `DragChanged` keeps the source's `for item in items` loop, with invariants.

The screen height (`UIScreen.main.bounds.height`) is a parameter of
`OnEnded`/`DragEnded`. An icon's on-screen centre (from `GeometryReader`) is
a parameter of `AppearAt`/`RegisterPosition`. The items' UUIDs are a
parameter of the constructor. Icons not yet laid out sit at the origin, as
`position = .zero` leaves them. They really can be collected when the finger
is near the origin.

The invariant `Inv` holds:

- item ids are distinct;
- only ids of present items are collected;
- the trash zone is shown exactly when something is collected;
- nothing is collected while no drag is in progress.

Any drag collects; there is no edit mode and no anchor item. The
collection radius is a fixed 35 points, and a release counts as over the
trash when `y > screenHeight - 150`.

## Model

| member | source | states |
|---|---|---|
| `Geometry.SquaredDistance` | DragDelete/ContentView.swift:172-175 | the sum of the squared coordinate differences, `pow(dx, 2) + pow(dy, 2)` without the square root; never negative, and zero for a point and itself |
| `Geometry.WithinReach` | DragDelete/ContentView.swift:172-177 | its definition: the squared distance is below 35², the square-root-free form of `distance < 35` |
| `Geometry.WithinReachIffDistanceBelowRadius` | DragDelete/ContentView.swift:172-177 | for the Euclidean distance d (d ≥ 0, d² = squared distance), the squared test holds iff d < 35; the threshold is exact and strict |
| `Geometry.WithinReachSymmetric` | DragDelete/ContentView.swift:172-175 | proximity does not depend on which point is the pointer |
| `Items.FirstIndex` | DragDelete/ContentView.swift:61 | the result is the least index holding the id; None exactly when no item has the id |
| `Items.FirstIndexOfDistinct` | DragDelete/ContentView.swift:61 | with distinct ids (fresh UUIDs), the first index of an item's id is that item's own index |
| `Items.ReachedMembers` | DragDelete/ContentView.swift:171-179 | an id is collected by one scan iff some item with that id has its centre within reach of the pointer |
| `Items.ReachedPresent` | DragDelete/ContentView.swift:171-179 | one scan collects only ids of present items |
| `Items.Reached` | DragDelete/ContentView.swift:171-179 | its definition: the ids of the items whose centre is within reach of the pointer, accumulated item by item in list order as the `for item in items` loop inserts them |
| `Items.ReachedStep` | DragDelete/ContentView.swift:171-179 | the one-step unfolding of `Reached` that the `DragChanged` loop invariant uses: scanning one more item adds its id exactly when it is within reach |
| `Items.Without` | DragDelete/ContentView.swift:210 | removal never makes the list longer |
| `Items.WithoutMembers` | DragDelete/ContentView.swift:210 | the kept items are exactly the old items whose id is not in the set |
| `Items.WithoutIds` | DragDelete/ContentView.swift:210 | the ids left after removal are the old ids minus the removed ones |
| `Items.WithoutDistinct` | DragDelete/ContentView.swift:210 | removal keeps ids distinct |
| `Items.WithoutConcat` | DragDelete/ContentView.swift:210 | removal distributes over concatenation, so the kept items keep their relative order |
| `Items.WithoutAbsent` | DragDelete/ContentView.swift:210 | removing ids that no item carries leaves the list unchanged |
| `Items.WithoutIdempotent` | DragDelete/ContentView.swift:210 | removing the same ids twice equals removing them once |
| `Controller.OverTrash` | DragDelete/ContentView.swift:195 | its definition: the release point's `y` is greater than `screenHeight - 150` |
| `Controller.AppearAt` | DragDelete/ContentView.swift:61-66 | only the position of the first item with the id changes; ids, names, image names, other items, length and order are kept; an unknown id is a no-op; the invariant is kept |
| `Controller.OnChanged` | DragDelete/ContentView.swift:166-191 | the drag is on and the pointer recorded; items unchanged; the new collection is the old one plus exactly the ids of items within reach; the trash zone shows iff it already did or something is collected; the invariant is kept |
| `Controller.OnEnded` | DragDelete/ContentView.swift:192-203 | on either branch the drag is off, nothing is collected and the trash zone is hidden; items unchanged unless the release is below screenHeight − 150 with something collected, in which case they are what Delete leaves; the invariant is kept |
| `Controller.Delete` | DragDelete/ContentView.swift:208-217 | the kept items are exactly those whose id is not collected; the count never grows; ids are the old ids minus the collected ones; the collection is emptied and the trash zone hidden; distinct ids give the invariant |
| `Controller.DeleteIdempotent` | DragDelete/ContentView.swift:208-212 | a second delete removes nothing: deleting twice equals deleting once |
| `Controller.MovesOnlyGrow` | DragDelete/ContentView.swift:166-191 | over any run of drag changes, items stay unchanged, the collection never shrinks, the pointer is the last location, and the invariant holds throughout |
| `Controller.MovesCollectExactly` | DragDelete/ContentView.swift:171-179 | after a run of drag changes, an id is collected iff it was collected before or some item with that id came within reach of some location on the path |
| `Controller.Gesture` | DragDelete/ContentView.swift:166-203 | a whole gesture (moves then release) ends with the invariant, no drag, nothing collected and no trash zone; the items are exactly those the drag did not collect when the release is over the trash with something collected, and untouched otherwise |
| `Controller.CollectNearerAndDrop` | DragDelete/ContentView.swift:171-196 | worked example: with icons 40 and 5 points away, only the nearer one is collected, and a release 10 points above the bottom deletes it alone |
| `Controller.HomeScreenView.constructor` | DragDelete/ContentView.swift:3-31 | the ten seed icons in order, with the given ids, at the origin; no drag, nothing collected, no trash zone; the invariant holds |
| `Controller.HomeScreenView.RegisterPosition` | DragDelete/ContentView.swift:59-66 | the new state is AppearAt of the old one; the invariant is kept |
| `Controller.HomeScreenView.DragChanged` | DragDelete/ContentView.swift:166-191 | the loop over the items leaves the state equal to OnChanged of the old one; the invariant is kept |
| `Controller.HomeScreenView.DragEnded` | DragDelete/ContentView.swift:192-203 | the new state is OnEnded of the old one; the invariant is kept |
| `Controller.HomeScreenView.DeleteCollectedItems` | DragDelete/ContentView.swift:208-217 | the new state is Delete of the old one |

## Left out

- SwiftUI layout and rendering are not modelled (DragDelete/ContentView.swift:36-163, 220-258). This covers the background, the grid, the search pill and its console message, the dock, the trash-zone and pointer-indicator views, and the opacity and scale of collected icons. They only present the state.
- Animations (`withAnimation`, springs) are not modelled, and neither are the haptic generators. The model keeps the state changes these calls wrap. It keeps the `!collectedItems.contains` guard that fires the haptic once per newly collected item, but not the haptic itself.
- `GeometryReader` frames and `UIScreen.main.bounds` are framework queries. The icon centre and the screen height are inputs instead.
- Coordinate spaces are not modelled. The app takes icon centres from `frame(in: .global)` (DragDelete/ContentView.swift:63-64), while the drag location is in the gesture's default local space (lines 165-168) and is compared with the screen height (line 195). The model assumes all three share one coordinate system.
- `CGFloat` floating point, `sqrt` and `pow` are not modelled. Coordinates are exact reals, so rounding right at the 35-point boundary is not captured.
- `UUID()` generation is not modelled. Ids are an opaque `ItemId`, and the constructor takes distinct ids as input.
- The `isCollected` field of the item is not modelled, because nothing ever writes it. Collection is shown from `collectedItems` alone.
- `HomeScreenView.DeleteCollectedItems` has no precondition and does not promise `Valid()`. The source calls it after `isDragging` has already been cleared while something is still collected, which is a state `Inv` excludes. The invariant is re-established by `DragEnded`, its only caller.
