# Career world map — a Dafny model of the page, the map and the card

The repository is a single-page interactive resume. Career entries ("attractions") are listed as
cards and plotted as markers on an illustrated map. The user can search them, filter them by
category, sort them, and focus one to pan and zoom the map to it. This project models the three
pieces of that page that hold logic, and proves what they promise:

- **The page controller** (`app/page.tsx`), module `Page` in `page.dfy`. It covers the filtering
  effect (a text search and a category selector), the `sorted` memo, the category options and the
  state handlers. The filter is a pure function. The sort copies the filtered entries into a fresh
  array and sorts that array in place (`SortedView`, `SortInPlace`). The handlers are record updates
  on a `PageState` value.
- **The map view** (`components/Map.tsx`), module `WorldMap` in `worldmap.dfy`. It covers the
  hotspot table, the pan/zoom state machine and the marker list. Each transition is stated once, as
  the pure function `Step` over `ViewState`. The class `MapView` keeps the component's mutable state
  (`scale`, `position`, `isDragging`, `dragStart`). Each of its handlers is proved to perform that
  `Step` and to keep the invariant `Valid()`: the scale stays in [0.5, 4], and the minimap never
  drags. The lemmas about `Step` and `Run` state the properties of the state machine.
- **The card** (`components/AttractionCard.tsx`), module `Card` in `card.dfy`. It is a pure
  view-model: which optional sections the card shows, and how it shortens the achievement list.

These modules support them:

- `Sequences` (`sequences.dfy`): `Select` models `Array.prototype.filter`. It also defines
  order-preserving subsequences, and `Distinct`, which models `[...new Set(xs)]`.
- `Text` (`text.dfy`): lower-casing, `includes`, and the order used for names.
- `Career` (`career.dfy`): the entry and filter records.
- `Optional` (`optional.dfy`): the optional-value type.

Notes on the source's behaviour that the model keeps:

- The zoom buttons clamp only on one side. Zoom-in caps the scale at 4, and zoom-out holds it at
  0.5, but neither applies the other bound (`components/Map.tsx:188`, `:197`).
- A wheel event with `deltaY = 0` zooms in (factor 1.1), because the test
  is `deltaY > 0`.
- A marker's click handler stops the *click* from propagating. It does not stop the container's
  mouse-down, so pressing a marker in the full view still starts a drag. That drag ends at
  mouse-up, as any other drag does.
- `duration && …` and `company && …` hide the section for an empty string as well as for a missing
  prop (JavaScript truthiness).

## Model

| member | source | states |
|---|---|---|
| `Sequences.Select` | app/page.tsx:82-91 | `filter` keeps exactly the elements satisfying the predicate, and never grows the list |
| `Sequences.SelectIsSubsequence` | app/page.tsx:82-91 | a filtered list is an order-preserving subsequence of its input |
| `Sequences.SelectFusion` | app/page.tsx:82-92 | two filters in sequence equal one filter by the conjunction |
| `Sequences.SelectKeepsAll` | app/page.tsx:82-91 | filtering a list whose elements all pass returns it unchanged |
| `Sequences.SubsequenceIsShorter` | app/page.tsx:82-91 | a subsequence of a list, such as a filtered one, is no longer than the list it comes from |
| `Sequences.Distinct` | app/page.tsx:116-117 | the Set spread holds no duplicates and holds exactly the values of its input |
| `Sequences.DistinctFirstSeenOrder` | app/page.tsx:116-117 | the Set spread lists values in the order of their first occurrence |
| `Sequences.FirstIndex` | app/page.tsx:116 | the first occurrence of a value: it is there and nowhere earlier |
| `Text.ToLower` | app/page.tsx:81-85 | `toLowerCase` keeps the length, maps each ASCII upper-case letter to its lower-case letter (code + 32), leaves every other character as it was, and so leaves no upper-case ASCII letter |
| `Text.ToLowerIdempotent` | app/page.tsx:81-85 | lower-casing an already lower-cased string changes nothing |
| `Text.Includes` | app/page.tsx:83-85 | `includes` can hold only when the needle is no longer than the haystack; the empty needle and the haystack itself are always found |
| `Text.IncludesIffOccurs` | app/page.tsx:83-85 | `includes` holds iff the needle occurs at some position of the haystack |
| `Text.LexLe` | app/page.tsx:70 | a prefix is ordered before the longer name, and a non-empty name ordered before another starts with a character no greater than the other's first |
| `Text.LexLeTotal` | app/page.tsx:70 | any two names are comparable under the name order |
| `Text.LexLeTransitive` | app/page.tsx:70 | the name order is transitive |
| `Text.LexLeAntisymmetric` | app/page.tsx:70 | names that are ordered both ways are equal |
| `Page.MatchesQuery` | app/page.tsx:82-86 | the empty query matches every entry, and an entry's own lower-cased name matches it |
| `Page.Kept` | app/page.tsx:80-92 | with an empty query and "all" every entry is kept; with a concrete category an entry is kept only if it has that category, and one of another category is never kept |
| `Page.FilterEntries` | app/page.tsx:76-95 | the filtering effect never shows more entries than are loaded |
| `Page.FilterIsSinglePass` | app/page.tsx:80-92 | the text filter followed by the category filter equals one filter by the combined rule `Kept` |
| `Page.FilterKeepsExactly` | app/page.tsx:80-92 | an entry is shown iff it is loaded, the query is empty or occurs case-insensitively in its name, location or category, and the selector is "all" or equals its category |
| `Page.FilterIsSubsequence` | app/page.tsx:82-91 | the shown entries are an order-preserving subsequence of the loaded ones |
| `Page.FilterIdempotent` | app/page.tsx:82-91 | filtering the filtered list again with the same settings returns it unchanged |
| `Page.EmptyFilterShowsAll` | app/page.tsx:77-94 | an empty query with the "all" selector shows the whole loaded list |
| `Page.Precedes` | app/page.tsx:64-70 | every entry precedes itself under both comparators; chronologically, x precedes y iff y starts no later than x (later entries first) |
| `Page.PrecedesTotal` | app/page.tsx:62-71 | both comparators order any two entries one way or the other |
| `Page.PrecedesTransitive` | app/page.tsx:62-71 | both comparators are transitive |
| `Page.SortInPlace` | app/page.tsx:64-70 | the in-place sort leaves the array sorted by the chosen comparator and a permutation of what it held; an array already sorted is left exactly as it was |
| `Page.InsertIntoSortedPrefix` | app/page.tsx:64-70 | one insertion round leaves `a[..i + 1]` sorted and a permutation of the old prefix (the old sorted prefix plus the old `a[i]`), leaves everything past `i` as it was, and moves nothing when the new element is already in place |
| `Page.SinkLeft` | app/page.tsx:64-70 | the swaps of one round stop where the moved entry is preceded by its left neighbour (or at the front), leave the entries up to `i` sorted around it, keep the contents as a multiset, and leave everything past `i` as it was |
| `Page.SortedView` | app/page.tsx:60-73 | the sorted view is a permutation of the filtered list with the same length; start dates are non-increasing in chronological mode, and names are non-decreasing in name mode; a filtered list already in order comes back unchanged |
| `Page.CategoryColumn` | app/page.tsx:116 | `attractions.map(a => a.category)`, position by position |
| `Page.Categories` | app/page.tsx:115-118 | the options start with "all", include every loaded category, and hold only loaded categories after it |
| `Page.CategoriesAreDistinct` | app/page.tsx:115-118 | when no category is literally "all", every option appears exactly once |
| `Page.CategoriesInFirstSeenOrder` | app/page.tsx:115-118 | the categories after "all" are in first-seen order |
| `Page.Loaded` | app/page.tsx:24-32 | the initial page holds the loaded entries with query "", minimum rating 0, selector "all", no skill filter, chronological sort and nothing focused, and so shows every entry |
| `Page.HandleSearch` | app/page.tsx:98-100 | only the query changes; the selector, `minRating`, the skill filter and the rest of the page state stay |
| `Page.HandleCategoryFilter` | app/page.tsx:106-108 | only the selector changes; the query, `minRating`, the skill filter and the rest of the page state stay |
| `Page.HandleSortChange` | app/page.tsx:102-104 | only the sort option changes, so the filtered list is the same |
| `Page.FocusAttraction` | app/page.tsx:110-112 | the focused entry is set, and the filters and the filtered list stay |
| `Page.HandlersCommute` | app/page.tsx:98-108 | a search and a category change give the same state in either order |
| `Page.CategorySelectionNarrows` | app/page.tsx:89-92 | after a concrete category is chosen, every shown entry is a loaded entry of that category |
| `Page.ClearingFiltersShowsAll` | app/page.tsx:80-92 | clearing the query and choosing "all" shows every loaded entry again |
| `Page.CardFor` | app/page.tsx:203-213 | the props each card gets are the entry's own title, image and location; its company line and duration badge appear iff the entry's field is non-empty and then show that field; its achievements section appears iff the entry has achievements and is then their summary |
| `Page.CountReadout` | app/page.tsx:179 | the readout's first number is the filtered count, the second is the loaded count, and the first is at most the second, because the filtered list is a subsequence of the loaded one |
| `WorldMap.HotspotsWithinImage` | components/Map.tsx:16-29 | every hotspot coordinate lies in [0, 100] |
| `WorldMap.WheelScale` | components/Map.tsx:89-94 | the wheel result is in [0.5, 4]; from an in-range scale it never grows when `deltaY > 0` and never shrinks otherwise; strictly between the bounds it is exactly 0.9 or 1.1 times the old scale, at or below 0.5 it is 0.5, and at or above 4 it is 4 |
| `WorldMap.ZoomInScale` | components/Map.tsx:188 | zoom-in gives 1.2 times the scale when that is below 4, and 4 otherwise; from an in-range scale it stays in range and does not shrink |
| `WorldMap.ZoomOutScale` | components/Map.tsx:197 | zoom-out gives 0.8 times the scale when that is above 0.5, and 0.5 otherwise; from an in-range scale it stays in range and does not grow |
| `WorldMap.OverviewPercent` | components/Map.tsx:230-231 | the overview rectangle's size is the inverse of the scale (size × scale = 100), so it lies between 25% and 200% |
| `WorldMap.Recenter` | components/Map.tsx:53-62 | the recentring offset is the one from which the hotspot's percentage coordinates are recovered: hx = (cw/2 − x)·50/iw and hy = (ch/2 − y)·50/ih |
| `WorldMap.Focus` | components/Map.tsx:46-67 | the focus effect never touches the dragging flag or the drag anchor, and either leaves the view as it was or sets the scale to exactly 2 for a focused entry that has a hotspot |
| `WorldMap.Step` | components/Map.tsx:46-100 | every single transition keeps an in-range scale in [0.5, 4], and in the minimap a view that is not dragging is still not dragging afterwards |
| `WorldMap.RunKeepsScaleInRange` | components/Map.tsx:93 | every sequence of transitions keeps the scale in [0.5, 4] |
| `WorldMap.ScaleAlwaysInRange` | components/Map.tsx:40 | from the initial scale 1, the scale is in [0.5, 4] after any sequence of events |
| `WorldMap.SmallNeverDrags` | components/Map.tsx:70-74 | in the minimap, no sequence of events starts a drag |
| `WorldMap.SmallIgnoresMouseDownAndWheel` | components/Map.tsx:70-94 | in the minimap, mouse-down and wheel leave the state unchanged |
| `WorldMap.DragShiftsByPointerDelta` | components/Map.tsx:70-82 | pressing at p and moving to p + d shifts the offset by exactly d; moving back to p leaves it unchanged |
| `WorldMap.MoveWithoutDragAndRelease` | components/Map.tsx:76-86 | a move with no drag in progress changes nothing; mouse-up and mouse-leave only clear the dragging flag |
| `WorldMap.ResetIsIdempotent` | components/Map.tsx:97-100 | reset gives scale 1 and offset (0, 0) from any state, and a second reset changes nothing |
| `WorldMap.FocusRecenters` | components/Map.tsx:46-67 | focusing an entry in the hotspot table gives scale exactly 2 and offset (cw/2 − 2·(hx/100)·iw, ch/2 − 2·(hy/100)·ih), whatever the prior state, and leaves the dragging flag alone |
| `WorldMap.FocusIsIdempotent` | components/Map.tsx:46-67 | applying the same focus change twice gives the same view as applying it once |
| `WorldMap.FocusWithoutHotspotIsNoOp` | components/Map.tsx:47-50 | clearing the focus, or focusing an entry without a hotspot, leaves the view state unchanged |
| `WorldMap.PlotMarkers` | components/Map.tsx:142-157 | there is one marker per input entry with a hotspot, in input order, at that hotspot; the marker is on layer 1000 if it is the focused entry and on layer 10 otherwise |
| `WorldMap.Markers` | components/Map.tsx:142-144 | the minimap has no markers; the full view has the plotted ones |
| `WorldMap.OnlyFocusedIsRaised` | components/Map.tsx:146-157 | a marker is on layer 1000 iff its id is the focused entry's id; every other marker is on layer 10 |
| `WorldMap.MapView.constructor` | components/Map.tsx:40-43 | the view starts at scale 1 with offset (0, 0), not dragging, with the drag anchor at (0, 0) |
| `WorldMap.MapView.HandleMouseDown` | components/Map.tsx:70-74 | performs the mouse-down step: it records the drag anchor as the pointer minus the offset, and is a no-op in the minimap |
| `WorldMap.MapView.HandleMouseMove` | components/Map.tsx:76-82 | performs the move step: while dragging, the offset becomes the pointer minus the anchor |
| `WorldMap.MapView.HandleMouseUp` | components/Map.tsx:84-86 | performs the release step, which clears the dragging flag |
| `WorldMap.MapView.HandleWheel` | components/Map.tsx:89-94 | performs the wheel step and keeps the scale in range |
| `WorldMap.MapView.ZoomIn` | components/Map.tsx:188 | performs the zoom-in step and keeps the scale in range |
| `WorldMap.MapView.ZoomOut` | components/Map.tsx:197 | performs the zoom-out step and keeps the scale in range |
| `WorldMap.MapView.ResetView` | components/Map.tsx:97-100 | performs the reset step |
| `WorldMap.MapView.FocusOn` | components/Map.tsx:46-67 | performs the focus step |
| `Card.Truthy` | components/AttractionCard.tsx:35 | a conditional section shows iff its prop is present and not the empty string, and it then shows that prop |
| `Card.Summarise` | components/AttractionCard.tsx:62-72 | at most two achievements are listed, and they are the first ones in order; a "+N more" line appears iff there are more than two, and then listed + N = total |
| `Card.SummaryLosesNothing` | components/AttractionCard.tsx:62-70 | the listed achievements followed by the N hidden ones give back the whole list |
| `Card.RenderCard` | components/AttractionCard.tsx:35-75 | the title, image and location are the props; the duration badge appears iff the duration is non-empty and then shows it; the company line appears iff the company is non-empty and then shows it; the achievements section appears iff achievements are given and non-empty, and is then their summary (the first two and the "+N more" count), listing at least one |

## Left out

- Data loading is not modelled. This covers `lib/fetchAttractions.ts`, the concurrent load, and the loading and error flags in `app/page.tsx:40-57`. The skills accessor's fallback to an empty list is left out too. All of these are network I/O and asynchronous plumbing.
- Rendering is not modelled: the markup, the styling classes, the CSS transitions, the legend, `app/layout.tsx` and `tailwind.config.js`. The no-op `mapRef` callback is left out as well.
- DOM measurement and event plumbing are not modelled. Container and image sizes and pointer coordinates are parameters. `preventDefault` and `stopPropagation` are browser calls.
- Where the recentred hotspot appears on screen is not modelled. That depends on the CSS transform origin and the flex layout of the image. The model states the offset the code computes, not the on-screen position.
- The `containerRef.current`/`imageRef.current` null check is not modelled (`components/Map.tsx:47`). The refs are set once the component is mounted, which is when the effect runs.
- The image size given to `FocusChanged` is taken as given. In the browser it is the image rectangle measured with the current transform already applied (`components/Map.tsx:54`), so it depends on the prior scale. "Whatever the prior state" in `WorldMap.FocusRecenters` and "the same measurements" in `WorldMap.FocusIsIdempotent` hold for the measurements as passed in.
- The focus effect runs only when the focused entry changes. The model applies `FocusChanged` as an event, and the caller decides when it happens.
- Each handler is modelled as acting on the latest state. React's batching, and handlers that read values from the last render, are not modelled.
- JavaScript numbers are modelled as `real`, so there is no floating-point rounding.
- Start dates are modelled as integer time values. Parsing ISO strings with `new Date`, and invalid dates (which give NaN), are out of scope.
- `Text.ToLower`: does not model `toLowerCase` beyond ASCII letters, because Unicode case mapping is a foreign string function.
- `Text.LexLe`: does not model `localeCompare`'s locale rules. It orders names by character codes. Only a total, transitive order is needed for the sort's guarantees.
- `Page.SortedView`, `Page.SortInPlace`: do not state that the JavaScript sort is stable (entries that compare equal keep their filtered order). Sortedness, permutation and that an already sorted list is unchanged are proved.
- The entry fields no logic reads are left out: `endDate`, `description`, `skills`, `technologies`, `coordinates` and `gtmLink`. So are the `Zone` and `Skill` records, the unused sort option "duration", `ViewMode` and `MapInstance` from `types/attractions.ts`.
- The hotspot lookup `attractionHotspots[id]` is modelled as membership of the table's own keys. In JavaScript, ids such as `constructor`, `toString` or `__proto__` also hit properties inherited from `Object.prototype`, which gives NaN offsets and `undefined%` marker positions. Those ids are out of scope: the model treats them as having no hotspot.
- The zoom buttons are rendered only in the full view. The model does not restrict `MapView.ZoomIn` and `MapView.ZoomOut` to it, because the handlers themselves do not check.
