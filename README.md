# SwiftyPhotoMoments: the moments loader and the thumbnail preheat window

SwiftyPhotoMoments shows a user's photo library as a grid of "moments". Each moment is a group of photos that the photo library makes by time and place. This project models the non-UI logic of the screen's controller, `MomentsViewController`, and proves properties of that model.

The controller has two parts:

- **The moments loader.** The table `momentsFetchResults` has one slot per moment, oldest first. A slot is absent until that moment's assets have been fetched. The first pass fetches the newest `batchSize` (25) moments, newest first. A background pass then fetches the slots below that batch, also newest first. The flags `backgroundFetchInProgress` and `completedBackgroundFetch` gate the chain. The grid reads the table: the number of sections, the items per section, and the last non-empty section that `scrollToBottom` scrolls to.
- **The thumbnail preheat window.** On every update, the visible bounds are extended by half their height above and below. When the centre of that rectangle has moved by more than a third of the visible height from the stored one, the rectangle difference yields full-width bands. Added bands become start-caching requests and removed bands become stop-caching requests. The new rectangle is then stored. A reset stops all caching and stores `CGRect.zero`.

Files:

- `wrappers.dfy`: `Option`.
- `geometry.dfy`: rectangles, the preheat rectangle, the hysteresis test and the band difference, with lemmas.
- `moment_table.dfy`: the table, the functions that specify each loader pass, the index-path lookup, and lemmas about them.
- `moments.dfy`: the class `MomentsViewController`, whose methods are the controller's operations, plus the update-window specification and lemmas about it.

Modelling choices:

- **Outside world as parameters.** The number of moment collections is a parameter. PhotoKit's per-moment asset fetch is a function `fetch` from a moment's index to its assets. The grid layout's lookup of the index paths in a rectangle is a function `layout`. That lookup is `indexPathsForElementsInRect` in `UICollectionView+Extension.swift`; it returns `nil` when the layout reports no elements in the rectangle (`UICollectionView+Extension.swift` lines 16-18), and `nil` appends nothing, exactly as an empty list does.
- **Calls into PhotoKit become logs.** The asset fetches are recorded in `assetFetches`, by moment index and in order. The caching manager's requests are recorded in `cachingLog`.
- **Coordinates are reals** and sizes are non-negative. `CGRect.intersects` is taken as "the rectangles share an area of positive size". So `CGRect.zero` intersects nothing. The first update after a reset adds the whole preheat rectangle when the view is visible and the bounds' centre is more than a third of their height from y = 0 (`MovedFromZeroIffCentreFar`). Otherwise the hysteresis test still holds the update back (`QuietUpdateAfterReset`).
- **The lookup's precondition.** Reading `moment[indexPath.item]` past a present moment's assets traps in the source. So `AssetsAtIndexPaths` and `UpdateCachedAssets` require the layout's index paths to be readable from the table, and only in the cases where they are read. This is an assumption about the layout, recorded under "## Left out".

Behaviours of the code that the model keeps as written:

- With no more moments than `batchSize`, `performBackgroundFetch` refetches every slot (`momentsRemaining` is `N`, not 0). It does not skip the work and mark the pass completed.
- With no moments, the background pass returns before it sets either flag or runs its completion. `completedBackgroundFetch` then stays false.
- The in-progress/completed guard is in `fetchPhotoLibrary`, not in the background pass. `fetchPhotoLibrary` refetches the collections, and so empties the table, before it checks the guard. A second `fetchPhotoLibrary` after a completed load therefore leaves every slot absent (`FetchPhotoLibrary`'s second ensures).
- Start or stop caching is skipped only when its list of index paths is empty. A request can still carry an empty asset list when none of its paths names a loaded moment.

## Model

| member | source | states |
|---|---|---|
| Moments.MomentsViewController.constructor | SwiftyPhotoMoments/MomentsViewController.swift:19-27 | initial state: no collections, empty table, both flags false, batch size 25, stored preheat rectangle `CGRect.zero` |
| Moments.MomentsViewController.FetchPhotoLibrary | SwiftyPhotoMoments/MomentsViewController.swift:87-110 | always refetches the collections (every slot absent). The chain runs only when neither flag is set. It then leaves every slot holding its fetched assets, in-progress false and completed iff there is a moment. The fetch log is the recent range newest-first, then the background range newest-first. The window is updated on the recent table. If a flag was set, the table is emptied and nothing else changes |
| Moments.MomentsViewController.FetchMomentCollections | SwiftyPhotoMoments/MomentsViewController.swift:112-117 | the table has exactly one slot per moment and every slot is absent |
| Moments.MomentsViewController.FetchMostRecentMoments | SwiftyPhotoMoments/MomentsViewController.swift:119-132 | fills exactly slots [RecentStart, N), in descending index order, with the fetched assets. Every other slot and the length are unchanged. Each remove/insert pair is an in-place replacement. The completion runs iff collections were fetched |
| Moments.MomentsViewController.FetchAllMoments | SwiftyPhotoMoments/MomentsViewController.swift:134-147 | with moments: fills [0, Remaining) newest first, then in-progress false and completed true. With none: flags and table untouched |
| Moments.MomentsViewController.PerformBackgroundFetch | SwiftyPhotoMoments/MomentsViewController.swift:149-168 | Remaining is N - batchSize or N. When it is 0, returns without the flag or the completion. Otherwise sets in-progress and fills [0, Remaining) in descending order, leaving the length and the other slots unchanged |
| Moments.MomentsViewController.NumberOfSections | SwiftyPhotoMoments/MomentsViewController.swift:223-229 | the section count equals the table length (0 before any fetch) |
| Moments.MomentsViewController.NumberOfItemsInSection | SwiftyPhotoMoments/MomentsViewController.swift:231-233 | item k is shown iff its index path resolves to an asset; an absent slot shows 0 items |
| Moments.MomentsViewController.ScrollToBottom | SwiftyPhotoMoments/MomentsViewController.swift:178-197 | the last section defaults to 0. With more than one section, it is the greatest index whose slot is present and non-empty. The target is that section's last item, and a target exists iff some moment has assets |
| Moments.MomentsViewController.ResetCachedAssets | SwiftyPhotoMoments/MomentsViewController.swift:325-328 | logs one stop-caching-all request and stores `CGRect.zero` |
| Moments.MomentsViewController.UpdateCachedAssets | SwiftyPhotoMoments/MomentsViewController.swift:330-375 | the stored rectangle and the appended requests are those of `UpdateWindow` on the current table: nothing when invisible or within hysteresis, else the bands' lookups and the new preheat rectangle |
| Moments.MomentsViewController.AssetsAtIndexPaths | SwiftyPhotoMoments/MomentsViewController.swift:410-424 | none for an empty list. Otherwise the assets of the paths that name a present slot, in input order |
| Geometry.Preheat | SwiftyPhotoMoments/MomentsViewController.swift:337-339 | same x, width and midY as the visible rect, twice its height, extended by half its height above and below |
| Geometry.MovedEnough | SwiftyPhotoMoments/MomentsViewController.swift:341-343 | the window is recomputed iff the preheat centre moved down or up by more than a third of the visible height |
| Geometry.MovedEnoughIffScrolledAThird | SwiftyPhotoMoments/MomentsViewController.swift:341-343 | for bounds of one height, the window is recomputed iff the bounds moved by more than a third of that height |
| Geometry.Difference | SwiftyPhotoMoments/MomentsViewController.swift:377-408 | at most two added and two removed bands. When the rectangles do not intersect, exactly the whole new rect is added and the whole old rect removed |
| Geometry.DifferenceBands | SwiftyPhotoMoments/MomentsViewController.swift:384-402 | for intersecting rects every band has positive height and the new rect's x and width; added bands lie in the new y-range and outside the old one, removed bands the reverse |
| Geometry.AddedBandsAreExact | SwiftyPhotoMoments/MomentsViewController.swift:384-392 | for intersecting rects a y position is in an added band iff the new rect covers it and the old one does not |
| Geometry.RemovedBandsAreExact | SwiftyPhotoMoments/MomentsViewController.swift:394-402 | for intersecting rects a y position is in a removed band iff the old rect covers it and the new one does not |
| Geometry.DifferenceOfSameRect | SwiftyPhotoMoments/MomentsViewController.swift:378-403 | equal rects of positive size yield no bands |
| Geometry.DifferenceWhenScrollingDown | SwiftyPhotoMoments/MomentsViewController.swift:384-402 | old [0,100) to new [50,150) adds [100,150) and removes [0,50) |
| Geometry.DifferenceWhenJumping | SwiftyPhotoMoments/MomentsViewController.swift:404-407 | old [0,10) to new [500,510) adds the whole new rect and removes the whole old one |
| Geometry.MovedFromZeroIffCentreFar | SwiftyPhotoMoments/MomentsViewController.swift:327-343 | after a reset stores `CGRect.zero`, the next window is recomputed iff the bounds' centre is more than a third of their height from y = 0 |
| Geometry.FromZeroWholeWindowIsAdded | SwiftyPhotoMoments/MomentsViewController.swift:327-343 | from `CGRect.zero`, bounds whose centre is more than a third of their height from y = 0 pass the hysteresis test, and the whole preheat rect is added |
| MomentTable.Descending | SwiftyPhotoMoments/MomentsViewController.swift:124 | the reversed range visits hi-1 down to lo, each index once |
| MomentTable.DescendingSplit | SwiftyPhotoMoments/MomentsViewController.swift:151-158 | the reversed upper range followed by the reversed lower range is the reversed whole range |
| MomentTable.RemoveThenInsertReplaces | SwiftyPhotoMoments/MomentsViewController.swift:127-128 | `remove(at: i)` then `insert(x, at: i)` equals replacing element i |
| MomentTable.RecentBatchLoadsNewest | SwiftyPhotoMoments/MomentsViewController.swift:122-129 | on a fresh table, a slot is present iff it is among the newest min(batchSize, N), and holds its fetched assets |
| MomentTable.RecentStart | SwiftyPhotoMoments/MomentsViewController.swift:122 | the recent batch [RecentStart, N) has exactly min(batchSize, N) slots |
| MomentTable.Remaining | SwiftyPhotoMoments/MomentsViewController.swift:151 | the background count is 0 iff N is 0; it is N - batchSize (the slots below the recent batch) when N > batchSize, and N otherwise |
| MomentTable.BackfillRange | SwiftyPhotoMoments/MomentsViewController.swift:151-153 | Remaining is 0 iff N is 0. For N > batchSize it is the exact complement of the recent batch; for N <= batchSize it covers every slot |
| MomentTable.BothPassesLoadEverything | SwiftyPhotoMoments/MomentsViewController.swift:122-162 | the recent batch then the background pass leave every slot 0..N-1 present with its assets |
| MomentTable.BothPassesFetchNewestFirst | SwiftyPhotoMoments/MomentsViewController.swift:122-162 | for N > batchSize the two passes fetch every moment exactly once, from N-1 down to 0 |
| MomentTable.AssetsFor | SwiftyPhotoMoments/MomentsViewController.swift:414-423 | never more assets than paths, and exactly as many iff every path resolves |
| MomentTable.AssetsForAppend | SwiftyPhotoMoments/MomentsViewController.swift:415-422 | the lookup of a concatenation is the concatenation of the lookups |
| MomentTable.AssetsForMembers | SwiftyPhotoMoments/MomentsViewController.swift:415-422 | an asset is returned iff some path resolves to it (nothing invented, nothing resolving dropped) |
| MomentTable.AssetsForInOrder | SwiftyPhotoMoments/MomentsViewController.swift:415-422 | when every path resolves, the k-th asset is the asset at the k-th path |
| Moments.IndexPathsIn | SwiftyPhotoMoments/MomentsViewController.swift:349-362 | the index paths of no band are none, and those of one band are exactly the layout's paths for it |
| Moments.IndexPathsInMembers | SwiftyPhotoMoments/MomentsViewController.swift:349-362 | an index path is collected for a list of bands iff the layout reports it for some band of the list |
| Moments.CollectIndexPaths | SwiftyPhotoMoments/MomentsViewController.swift:349-362 | the loop appending each band's index paths collects the bands' index paths in band order |
| Moments.UpdateWindow | SwiftyPhotoMoments/MomentsViewController.swift:330-375 | the stored rectangle becomes the preheat rect exactly when the view is visible and the window moved enough, and stays otherwise; at most two requests, issued only by a recomputed window |
| Moments.QuietUpdateChangesNothing | SwiftyPhotoMoments/MomentsViewController.swift:332-343 | an invisible view or a move within a third of the height issues nothing and keeps the stored rectangle |
| Moments.AssetsOfBands | SwiftyPhotoMoments/MomentsViewController.swift:349-370 | the assets looked up for the bands are exactly those some band's index path resolves to |
| Moments.CachingRequests | SwiftyPhotoMoments/MomentsViewController.swift:365-370 | at most two requests, none iff both path lists are empty; a non-empty added list puts the start request for its assets first, a non-empty removed list puts the stop request for its assets last |
| Moments.CachingRequestsShape | SwiftyPhotoMoments/MomentsViewController.swift:365-370 | at most one start then at most one stop, no stop-all. Each is skipped only for an empty index-path list; an asset is started iff the lookup of the added paths yields it, and stopped iff the lookup of the removed paths does |
| Moments.MomentsViewController.UpdateCaching | SwiftyPhotoMoments/MomentsViewController.swift:365-370 | appends exactly the start request for the added paths' assets and then the stop request for the removed paths' assets, each skipped for an empty list |
| Moments.RecomputedWindow | SwiftyPhotoMoments/MomentsViewController.swift:343-373 | a recomputed window stores the preheat rectangle and issues the requests for the index paths of its difference's bands |
| Moments.RequestsForBands | SwiftyPhotoMoments/MomentsViewController.swift:345-370 | for any added and removed bands, the requests start exactly the assets some added band's index path resolves to and stop exactly those of the removed bands |
| Moments.RequestedAssetsComeFromBands | SwiftyPhotoMoments/MomentsViewController.swift:345-373 | a recomputed window starts caching exactly the assets of the added bands and stops exactly those of the removed bands |
| Moments.RepeatedUpdateIsQuiet | SwiftyPhotoMoments/MomentsViewController.swift:342-373 | a second update with the same bounds issues no caching request |
| Moments.UpdateWithKnownBands | SwiftyPhotoMoments/MomentsViewController.swift:343-373 | when the difference is known, the update issues the requests for exactly those bands' index paths |
| Moments.ResetWindowFits | SwiftyPhotoMoments/MomentsViewController.swift:327-343 | after a reset, visible bounds whose centre is more than a third of their height from y = 0 recompute the window, whose difference is the whole preheat rect added and the zero rect removed |
| Moments.QuietUpdateAfterReset | SwiftyPhotoMoments/MomentsViewController.swift:327-343 | a reset does not force the next update: bounds at y = -140 with height 700 (centre 210, within a third of the height of y = 0) leave `CGRect.zero` stored and issue no request |
| Moments.UpdateAfterResetAddsWholeWindow | SwiftyPhotoMoments/MomentsViewController.swift:327-407 | after a reset, when the view is visible and the bounds' centre is more than a third of their height from y = 0, the next update starts the whole preheat rectangle's assets and stops those at `CGRect.zero` |

## Left out

- Authorization (`requestPhotoLibraryAuthorization`, lines 70-85): a PhotoKit call. The model starts at `fetchPhotoLibrary`.
- Dispatch queues (lines 123, 157-166, 304): the loader runs as a sequential state machine. The interleaving of the background pass with other events, and its unsynchronised writes to the table, are not modelled.
- PhotoKit itself: `fetch` is a fixed function, so library changes during a session are not modelled. `photoLibraryDidChange` (lines 314-317) is an empty stub.
- Thumbnail size, target size and content mode (lines 90-92, 288-292, 366-369): floating-point UI geometry. The caching requests record only their assets.
- Moments.MomentsViewController.FetchPhotoLibrary: of the completion's UI work (lines 102-104), it models only `updateCachedAssets`. `reloadData` is a UI effect. The scroll of `checkScrollPosition` (`scrollToItem`, line 196) fires `scrollViewDidScroll`, which calls `updateCachedAssets` again with the scrolled bounds (line 300). That second update is not modelled, so the ensures on `previousPreheatRect` and `cachingLog` describe a run in which no scroll happens.
- Moments.MomentsViewController.ScrollToBottom: returns the section and item to scroll to, instead of calling `scrollToItem`. `checkScrollPosition`'s `scrollFlag` (lines 172-176) only decides whether it runs.
- `reloadDataAndRestoreScrollPosition`, the `performBatchUpdates` wrapper and `scrollViewDidScroll` (lines 135, 142-146, 199-213, 299-307): reload, selection and scroll-restoration UI. They are callers of `updateCachedAssets`, which is modelled.
- Cell rendering, image requests and section headers (lines 235-281): UI and locale-dependent date formatting.
- Moments.MomentsViewController.AssetsAtIndexPaths and Moments.MomentsViewController.UpdateCachedAssets: every index path the layout reports must be readable from the table (`PathsFit`). The trap of an out-of-range `moment[indexPath.item]` (line 418) is excluded by a requires, not modelled. UIKit does not guarantee this: its layout reflects the item counts as of the last `reloadData`, while the background pass (lines 157-163) and `fetchMomentCollections` change slots without a reload. Section headers also report index path (section, 0).
- `isViewVisible` (line 332) is a parameter of `UpdateCachedAssets`.
- Geometry: `CGFloat` rounding and rectangles of negative width or height are not modelled.
