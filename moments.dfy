/**
 * The moments screen's controller, without its UI: the two-pass loader of
 * the moments table (the newest batch first, then a background pass over the
 * rest), the readers the grid asks for section and item counts, and the
 * thumbnail preheat window that turns scrolling into start/stop caching
 * requests.
 *
 * PhotoKit is outside the model: the number of moments is a parameter, the
 * per-moment asset fetch is a function `fetch` from a moment's index to its
 * assets, and the grid layout's lookup of the index paths in a rectangle is a
 * function `layout`. Calls the controller makes into PhotoKit are recorded in
 * two logs: `assetFetches` (which moment's assets were fetched, in order) and
 * `cachingLog` (the caching image manager's requests, in order).
 */
module Moments {
  import opened Wrappers
  import opened Geometry
  import opened MomentTable

  /** A request to the caching image manager. */
  datatype CachingRequest =
    | StartCaching(assets: seq<Asset>)
    | StopCaching(assets: seq<Asset>)
    | StopCachingAll

  /** What one preheat update leaves behind: the rectangle to store and the requests issued. */
  datatype WindowStep = WindowStep(preheatRect: Rect, requests: seq<CachingRequest>)

  /**
   * The index paths the layout reports for each band in turn, concatenated:
   * none for no band, and exactly the layout's paths for a single band.
   */
  function IndexPathsIn(layout: Rect -> seq<IndexPath>, bands: seq<Rect>): (r: seq<IndexPath>)
    ensures bands == [] ==> r == []
    ensures |bands| == 1 ==> r == layout(bands[0])
    decreases |bands|
  {
    if bands == [] then []
    else IndexPathsIn(layout, bands[..|bands| - 1]) + layout(bands[|bands| - 1])
  }

  /** The collected index paths are exactly the paths the layout reports for some band. */
  lemma {:induction false} IndexPathsInMembers(layout: Rect -> seq<IndexPath>, bands: seq<Rect>, p: IndexPath)
    ensures p in IndexPathsIn(layout, bands) <==> exists b :: b in bands && p in layout(b)
    decreases |bands|
  {
    if bands != [] {
      var init, last := bands[..|bands| - 1], bands[|bands| - 1];
      IndexPathsInMembers(layout, init, p);
      assert bands == init + [last];
      if p in IndexPathsIn(layout, bands) && p !in layout(last) {
        var b :| b in init && p in layout(b);
        assert b in bands;
      }
    }
  }

  /**
   * The handlers `updateCachedAssets` passes to the rectangle difference:
   * append the layout's index paths for each band in turn.
   */
  method CollectIndexPaths(layout: Rect -> seq<IndexPath>, bands: seq<Rect>) returns (paths: seq<IndexPath>)
    ensures paths == IndexPathsIn(layout, bands)
  {
    paths := [];
    for k := 0 to |bands|
      invariant paths == IndexPathsIn(layout, bands[..k])
    {
      assert bands[..k + 1][..k] == bands[..k];
      paths := paths + layout(bands[k]);
    }
    assert bands[..|bands|] == bands;
  }

  /** Every index path the layout reports for the bands can be read from the table. */
  ghost predicate BandsFit(t: Table, layout: Rect -> seq<IndexPath>, bands: seq<Rect>)
  {
    forall b :: b in bands ==> PathsFit(t, layout(b))
  }

  lemma BandPathsFit(t: Table, layout: Rect -> seq<IndexPath>, bands: seq<Rect>)
    requires BandsFit(t, layout, bands)
    ensures PathsFit(t, IndexPathsIn(layout, bands))
  {
    forall p | p in IndexPathsIn(layout, bands)
      ensures PathFits(t, p)
    {
      IndexPathsInMembers(layout, bands, p);
    }
  }

  /** The preheat window is recomputed: the view is on screen and has scrolled far enough. */
  predicate NeedsWindowUpdate(previous: Rect, viewVisible: bool, bounds: Rect)
  {
    viewVisible && MovedEnough(Preheat(bounds), previous, bounds.height)
  }

  /**
   * What an update demands of the layout: when it recomputes the window, every
   * index path reported for an added or removed band can be read from the
   * table (reading past a present moment's assets traps).
   */
  ghost predicate WindowFits(t: Table, previous: Rect, viewVisible: bool, bounds: Rect,
                             layout: Rect -> seq<IndexPath>)
  {
    NeedsWindowUpdate(previous, viewVisible, bounds) ==>
      var d := Difference(previous, Preheat(bounds));
      BandsFit(t, layout, d.added) && BandsFit(t, layout, d.removed)
  }

  /**
   * The caching requests for the added and removed index paths: start
   * caching, then stop caching, each skipped only when its list of index
   * paths is empty.
   */
  function CachingRequests(t: Table, added: seq<IndexPath>, removed: seq<IndexPath>): (r: seq<CachingRequest>)
    requires PathsFit(t, added) && PathsFit(t, removed)
    ensures |r| <= 2
    ensures r == [] <==> added == [] && removed == []
    ensures added != [] ==> r[0] == StartCaching(AssetsFor(t, added))
    ensures removed != [] ==> r[|r| - 1] == StopCaching(AssetsFor(t, removed))
  {
    (if added == [] then [] else [StartCaching(AssetsFor(t, added))]) +
    (if removed == [] then [] else [StopCaching(AssetsFor(t, removed))])
  }

  /** The effect of `updateCachedAssets` on the stored rectangle and on the caching requests. */
  function UpdateWindow(t: Table, previous: Rect, viewVisible: bool, bounds: Rect,
                        layout: Rect -> seq<IndexPath>): (s: WindowStep)
    requires WindowFits(t, previous, viewVisible, bounds, layout)
    ensures s.preheatRect == (if NeedsWindowUpdate(previous, viewVisible, bounds) then Preheat(bounds) else previous)
    ensures |s.requests| <= 2
    ensures s.requests != [] ==> NeedsWindowUpdate(previous, viewVisible, bounds)
  {
    if !NeedsWindowUpdate(previous, viewVisible, bounds) then WindowStep(previous, [])
    else
      var d := Difference(previous, Preheat(bounds));
      BandPathsFit(t, layout, d.added);
      BandPathsFit(t, layout, d.removed);
      WindowStep(Preheat(bounds),
                 CachingRequests(t, IndexPathsIn(layout, d.added), IndexPathsIn(layout, d.removed)))
  }

  /** Some index path the layout reports for one of the bands resolves to asset `a`. */
  ghost predicate AssetInBands(t: Table, layout: Rect -> seq<IndexPath>, bands: seq<Rect>, a: Asset)
  {
    exists b, p :: b in bands && p in layout(b) && Resolves(t, p) && PathFits(t, p) && AssetAt(t, p) == a
  }

  /**
   * Hysteresis: an update that does not recompute the window stores nothing
   * and issues nothing. This is one branch of `UpdateWindow`; what the test
   * means in terms of the scroll offset is `MovedEnoughIffScrolledAThird`.
   */
  lemma QuietUpdateChangesNothing(t: Table, previous: Rect, viewVisible: bool, bounds: Rect,
                                  layout: Rect -> seq<IndexPath>)
    requires !NeedsWindowUpdate(previous, viewVisible, bounds)
    ensures WindowFits(t, previous, viewVisible, bounds, layout)
    ensures UpdateWindow(t, previous, viewVisible, bounds, layout) == WindowStep(previous, [])
  {
  }

  /** The assets looked up for the bands' index paths are exactly the assets the bands resolve to. */
  lemma {:induction false} AssetsOfBands(t: Table, layout: Rect -> seq<IndexPath>, bands: seq<Rect>, a: Asset)
    requires BandsFit(t, layout, bands)
    ensures PathsFit(t, IndexPathsIn(layout, bands))
    ensures a in AssetsFor(t, IndexPathsIn(layout, bands)) <==> AssetInBands(t, layout, bands, a)
  {
    var paths := IndexPathsIn(layout, bands);
    BandPathsFit(t, layout, bands);
    AssetsForMembers(t, paths, a);
    if AssetInBands(t, layout, bands, a) {
      var b, p :| b in bands && p in layout(b) && Resolves(t, p) && PathFits(t, p) && AssetAt(t, p) == a;
      IndexPathsInMembers(layout, bands, p);
      var k :| 0 <= k < |paths| && paths[k] == p;
    }
    if a in AssetsFor(t, paths) {
      var k :| 0 <= k < |paths| && Resolves(t, paths[k]) && AssetAt(t, paths[k]) == a;
      IndexPathsInMembers(layout, bands, paths[k]);
    }
  }

  /** At most one start request followed by at most one stop request, and no stop-all. */
  predicate StartThenStop(r: seq<CachingRequest>)
  {
    |r| <= 2 &&
    (forall i :: 0 <= i < |r| ==> !r[i].StopCachingAll?) &&
    (forall i, j :: 0 <= i < j < |r| ==> r[i].StartCaching? && r[j].StopCaching?)
  }

  /** Some request of `r` starts caching asset `a`. */
  predicate Started(r: seq<CachingRequest>, a: Asset)
  {
    exists q :: q in r && q.StartCaching? && a in q.assets
  }

  /** Some request of `r` stops caching asset `a`. */
  predicate Stopped(r: seq<CachingRequest>, a: Asset)
  {
    exists q :: q in r && q.StopCaching? && a in q.assets
  }

  /**
   * The requests made for two lists of index paths: at most one start and
   * then at most one stop; an asset is started iff the lookup of the added
   * paths yields it, and stopped iff the lookup of the removed paths does.
   */
  lemma CachingRequestsShape(t: Table, added: seq<IndexPath>, removed: seq<IndexPath>, a: Asset)
    requires PathsFit(t, added) && PathsFit(t, removed)
    ensures var r := CachingRequests(t, added, removed);
      StartThenStop(r) &&
      (Started(r, a) <==> a in AssetsFor(t, added)) &&
      (Stopped(r, a) <==> a in AssetsFor(t, removed))
  {
    var r := CachingRequests(t, added, removed);
    if added != [] {
      assert StartCaching(AssetsFor(t, added)) in r;
    }
    if removed != [] {
      assert StopCaching(AssetsFor(t, removed)) in r;
    }
  }

  /**
   * A recomputed window stores the preheat rectangle and issues the requests
   * for the index paths of the bands of its difference. This is the other
   * branch of `UpdateWindow`, stated for use by the lemmas below; what the
   * hysteresis test means is `MovedEnoughIffScrolledAThird`.
   */
  lemma RecomputedWindow(t: Table, previous: Rect, bounds: Rect, layout: Rect -> seq<IndexPath>)
    requires NeedsWindowUpdate(previous, true, bounds)
    requires WindowFits(t, previous, true, bounds, layout)
    ensures var d := Difference(previous, Preheat(bounds));
      PathsFit(t, IndexPathsIn(layout, d.added)) && PathsFit(t, IndexPathsIn(layout, d.removed)) &&
      UpdateWindow(t, previous, true, bounds, layout)
        == WindowStep(Preheat(bounds), CachingRequests(t, IndexPathsIn(layout, d.added), IndexPathsIn(layout, d.removed)))
  {
    var d := Difference(previous, Preheat(bounds));
    assert BandsFit(t, layout, d.added) && BandsFit(t, layout, d.removed);
    BandPathsFit(t, layout, d.added);
    BandPathsFit(t, layout, d.removed);
  }

  /**
   * Requests `r` made for an added and a removed list of bands: at most one
   * start and then at most one stop, no stop-all; an asset is started iff
   * some index path in an added band resolves to it, and stopped iff some
   * index path in a removed band does.
   */
  ghost predicate RequestsMatchBands(t: Table, layout: Rect -> seq<IndexPath>, r: seq<CachingRequest>,
                                     added: seq<Rect>, removed: seq<Rect>, a: Asset)
  {
    StartThenStop(r) &&
    (Started(r, a) <==> AssetInBands(t, layout, added, a)) &&
    (Stopped(r, a) <==> AssetInBands(t, layout, removed, a))
  }

  /** The requests for the index paths of two lists of bands match those bands. */
  lemma RequestsForBands(t: Table, layout: Rect -> seq<IndexPath>, added: seq<Rect>, removed: seq<Rect>, a: Asset)
    requires BandsFit(t, layout, added) && BandsFit(t, layout, removed)
    ensures PathsFit(t, IndexPathsIn(layout, added)) && PathsFit(t, IndexPathsIn(layout, removed))
    ensures RequestsMatchBands(t, layout, CachingRequests(t, IndexPathsIn(layout, added), IndexPathsIn(layout, removed)),
                               added, removed, a)
  {
    var addedPaths, removedPaths := IndexPathsIn(layout, added), IndexPathsIn(layout, removed);
    AssetsOfBands(t, layout, added, a);
    AssetsOfBands(t, layout, removed, a);
    CachingRequestsShape(t, addedPaths, removedPaths, a);
  }

  /** The requests of a recomputed window match the bands of its difference. */
  lemma RequestedAssetsComeFromBands(t: Table, previous: Rect, bounds: Rect,
                                     layout: Rect -> seq<IndexPath>, a: Asset)
    requires NeedsWindowUpdate(previous, true, bounds)
    requires WindowFits(t, previous, true, bounds, layout)
    ensures var d := Difference(previous, Preheat(bounds));
      RequestsMatchBands(t, layout, UpdateWindow(t, previous, true, bounds, layout).requests, d.added, d.removed, a)
  {
    var d := Difference(previous, Preheat(bounds));
    RecomputedWindow(t, previous, bounds, layout);
    assert BandsFit(t, layout, d.added) && BandsFit(t, layout, d.removed);
    RequestsForBands(t, layout, d.added, d.removed, a);
  }

  /**
   * Updating twice with the same bounds: the second update issues no
   * caching request and keeps the stored rectangle.
   */
  lemma RepeatedUpdateIsQuiet(t: Table, previous: Rect, viewVisible: bool, bounds: Rect,
                              layout: Rect -> seq<IndexPath>)
    requires WindowFits(t, previous, viewVisible, bounds, layout)
    ensures var s := UpdateWindow(t, previous, viewVisible, bounds, layout);
      WindowFits(t, s.preheatRect, viewVisible, bounds, layout) &&
      UpdateWindow(t, s.preheatRect, viewVisible, bounds, layout) == WindowStep(s.preheatRect, [])
  {
  }

  /** A recomputed window issues the requests for the index paths of the bands of its difference. */
  lemma UpdateWithKnownBands(t: Table, previous: Rect, bounds: Rect, layout: Rect -> seq<IndexPath>,
                             added: seq<Rect>, removed: seq<Rect>)
    requires NeedsWindowUpdate(previous, true, bounds)
    requires Difference(previous, Preheat(bounds)) == Diff(added, removed)
    requires BandsFit(t, layout, added) && BandsFit(t, layout, removed)
    ensures WindowFits(t, previous, true, bounds, layout)
    ensures PathsFit(t, IndexPathsIn(layout, added)) && PathsFit(t, IndexPathsIn(layout, removed))
    ensures UpdateWindow(t, previous, true, bounds, layout)
         == WindowStep(Preheat(bounds), CachingRequests(t, IndexPathsIn(layout, added), IndexPathsIn(layout, removed)))
  {
    BandPathsFit(t, layout, added);
    BandPathsFit(t, layout, removed);
  }

  /** A difference of one added and one removed band fits when both bands' index paths do. */
  lemma SingleBandsFit(t: Table, previous: Rect, viewVisible: bool, bounds: Rect,
                       layout: Rect -> seq<IndexPath>, added: Rect, removed: Rect)
    requires Difference(previous, Preheat(bounds)) == Diff([added], [removed])
    requires PathsFit(t, layout(added)) && PathsFit(t, layout(removed))
    ensures WindowFits(t, previous, viewVisible, bounds, layout)
  {
    assert BandsFit(t, layout, [added]);
    assert BandsFit(t, layout, [removed]);
  }

  /**
   * After a reset, visible bounds whose centre is more than a third of their
   * height from y = 0 recompute the window, whose difference adds the whole preheat rectangle and removes
   * the zero rectangle; so the window fits when the layout's index paths for
   * those two rectangles do.
   */
  lemma ResetWindowFits(t: Table, bounds: Rect, layout: Rect -> seq<IndexPath>)
    requires Abs(bounds.MidY()) > bounds.height / 3.0
    requires PathsFit(t, layout(Preheat(bounds))) && PathsFit(t, layout(Zero))
    ensures NeedsWindowUpdate(Zero, true, bounds)
    ensures Difference(Zero, Preheat(bounds)) == Diff([Preheat(bounds)], [Zero])
    ensures WindowFits(t, Zero, true, bounds, layout)
  {
    FromZeroWholeWindowIsAdded(bounds);
    SingleBandsFit(t, Zero, true, bounds, layout, Preheat(bounds), Zero);
  }

  /**
   * After a reset, visible bounds whose centre is more than a third of their
   * height from y = 0 recompute the window and treat the whole preheat rectangle as added: every index
   * path the layout reports for it is started.
   */
  lemma UpdateAfterResetAddsWholeWindow(t: Table, bounds: Rect, layout: Rect -> seq<IndexPath>)
    requires Abs(bounds.MidY()) > bounds.height / 3.0
    requires PathsFit(t, layout(Preheat(bounds))) && PathsFit(t, layout(Zero))
    ensures WindowFits(t, Zero, true, bounds, layout)
    ensures UpdateWindow(t, Zero, true, bounds, layout)
         == WindowStep(Preheat(bounds), CachingRequests(t, layout(Preheat(bounds)), layout(Zero)))
  {
    var preheat := Preheat(bounds);
    ResetWindowFits(t, bounds, layout);
    UpdateWithKnownBands(t, Zero, bounds, layout, [preheat], [Zero]);
  }

  /**
   * A reset does not force the next update: bounds scrolled to a negative
   * offset under a navigation bar (y = -140, height 700, centre 210, within a
   * third of the height of y = 0) leave the zero rectangle stored and issue
   * no caching request.
   */
  lemma QuietUpdateAfterReset(t: Table, layout: Rect -> seq<IndexPath>)
    ensures WindowFits(t, Zero, true, Rect(0.0, -140.0, 375.0, 700.0), layout)
    ensures UpdateWindow(t, Zero, true, Rect(0.0, -140.0, 375.0, 700.0), layout) == WindowStep(Zero, [])
  {
    MovedFromZeroIffCentreFar(Rect(0.0, -140.0, 375.0, 700.0));
    QuietUpdateChangesNothing(t, Zero, true, Rect(0.0, -140.0, 375.0, 700.0), layout);
  }

  class MomentsViewController {
    /** How many of the newest moments the first pass loads. */
    const batchSize: nat
    /** The number of moment collections fetched, `None` before the first fetch. */
    var collectionCount: Option<nat>
    /** One slot per moment, oldest first; `None` until the moment's assets are fetched. */
    var momentsFetchResults: Table
    var backgroundFetchInProgress: bool
    var completedBackgroundFetch: bool
    /** The preheat rectangle of the last recomputed window. */
    var previousPreheatRect: Rect
    /** Indices of the moments whose assets were fetched, in fetch order. */
    var assetFetches: seq<nat>
    /** Requests made to the caching image manager, in order. */
    var cachingLog: seq<CachingRequest>

    /** The table has one slot per fetched moment collection, and none before the first fetch. */
    ghost predicate Valid()
      reads this
    {
      match collectionCount
      case None => momentsFetchResults == []
      case Some(n) => |momentsFetchResults| == n
    }

    constructor ()
      ensures Valid()
      ensures batchSize == 25 && collectionCount == None && momentsFetchResults == []
      ensures !backgroundFetchInProgress && !completedBackgroundFetch
      ensures previousPreheatRect == Zero && assetFetches == [] && cachingLog == []
    {
      batchSize := 25;
      collectionCount := None;
      momentsFetchResults := [];
      backgroundFetchInProgress, completedBackgroundFetch := false, false;
      previousPreheatRect := Zero;
      assetFetches, cachingLog := [], [];
    }

    /**
     * `fetchPhotoLibrary`: fetch the moment collections, then, unless a
     * background pass is running or has completed, load the newest batch,
     * update the preheat window and run the background pass.
     */
    method FetchPhotoLibrary(count: nat, fetch: nat -> seq<Asset>, viewVisible: bool, bounds: Rect,
                             layout: Rect -> seq<IndexPath>)
      requires Valid()
      requires !backgroundFetchInProgress && !completedBackgroundFetch ==>
        WindowFits(Refreshed(Absent(count), RecentStart(count, batchSize), count, fetch),
                   previousPreheatRect, viewVisible, bounds, layout)
      modifies this
      ensures Valid() && collectionCount == Some(count)
      ensures old(backgroundFetchInProgress || completedBackgroundFetch) ==>
        momentsFetchResults == Absent(count) &&
        backgroundFetchInProgress == old(backgroundFetchInProgress) &&
        completedBackgroundFetch == old(completedBackgroundFetch) &&
        assetFetches == old(assetFetches) && cachingLog == old(cachingLog) &&
        previousPreheatRect == old(previousPreheatRect)
      ensures !old(backgroundFetchInProgress || completedBackgroundFetch) ==>
        var recent := Refreshed(Absent(count), RecentStart(count, batchSize), count, fetch);
        var step := UpdateWindow(recent, old(previousPreheatRect), viewVisible, bounds, layout);
        momentsFetchResults == Loaded(count, fetch) &&
        !backgroundFetchInProgress && completedBackgroundFetch == (count > 0) &&
        assetFetches == old(assetFetches) + Descending(RecentStart(count, batchSize), count)
                                          + Descending(0, Remaining(count, batchSize)) &&
        previousPreheatRect == step.preheatRect && cachingLog == old(cachingLog) + step.requests
    {
      FetchMomentCollections(count);
      if !backgroundFetchInProgress && !completedBackgroundFetch {
        var completionCalled := FetchMostRecentMoments(fetch);
        if completionCalled {
          UpdateCachedAssets(viewVisible, bounds, layout);
          FetchAllMoments(fetch);
          BackfillRange(count, batchSize);
          BothPassesLoadEverything(count, batchSize, fetch);
        }
      }
    }

    /** `fetchMomentCollections`: one absent slot per moment collection. */
    method FetchMomentCollections(count: nat)
      modifies this`collectionCount, this`momentsFetchResults
      ensures Valid()
      ensures collectionCount == Some(count) && momentsFetchResults == Absent(count)
    {
      collectionCount := Some(count);
      momentsFetchResults := Absent(count);
    }

    /**
     * `fetchMostRecentMoments`: fetch the newest min(batchSize, n) moments,
     * newest first, replacing each slot in place; the completion runs iff
     * the moment collections have been fetched.
     */
    method FetchMostRecentMoments(fetch: nat -> seq<Asset>) returns (completionCalled: bool)
      requires Valid()
      modifies this`momentsFetchResults, this`assetFetches
      ensures Valid()
      ensures completionCalled <==> collectionCount.Some?
      ensures !completionCalled ==>
        momentsFetchResults == old(momentsFetchResults) && assetFetches == old(assetFetches)
      ensures completionCalled ==>
        var n := collectionCount.value;
        momentsFetchResults == Refreshed(old(momentsFetchResults), RecentStart(n, batchSize), n, fetch) &&
        assetFetches == old(assetFetches) + Descending(RecentStart(n, batchSize), n)
    {
      if collectionCount.None? {
        return false;
      }
      var n := collectionCount.value;
      var count := RecentStart(n, batchSize);
      var i := n;
      while i > count
        invariant count <= i <= n == |momentsFetchResults|
        invariant momentsFetchResults == Refreshed(old(momentsFetchResults), i, n, fetch)
        invariant assetFetches == old(assetFetches) + Descending(i, n)
      {
        i := i - 1;
        var assets := fetch(i);
        assetFetches := assetFetches + [i];
        RemoveThenInsertReplaces(momentsFetchResults, i, Some(assets));
        momentsFetchResults := momentsFetchResults[..i] + momentsFetchResults[i + 1..];
        momentsFetchResults := momentsFetchResults[..i] + [Some(assets)] + momentsFetchResults[i..];
      }
      return true;
    }

    /**
     * `fetchAllMoments`: the background pass, whose completion marks it no
     * longer in progress and completed. With no moments the completion never
     * runs and both flags keep their values.
     */
    method FetchAllMoments(fetch: nat -> seq<Asset>)
      requires Valid()
      modifies this`momentsFetchResults, this`assetFetches, this`backgroundFetchInProgress,
               this`completedBackgroundFetch
      ensures Valid()
      ensures old(|momentsFetchResults|) == 0 ==>
        momentsFetchResults == old(momentsFetchResults) && assetFetches == old(assetFetches) &&
        backgroundFetchInProgress == old(backgroundFetchInProgress) &&
        completedBackgroundFetch == old(completedBackgroundFetch)
      ensures old(|momentsFetchResults|) > 0 ==>
        var rest := Remaining(|momentsFetchResults|, batchSize);
        !backgroundFetchInProgress && completedBackgroundFetch &&
        momentsFetchResults == Refreshed(old(momentsFetchResults), 0, rest, fetch) &&
        assetFetches == old(assetFetches) + Descending(0, rest)
    {
      var completionCalled := PerformBackgroundFetch(fetch);
      if completionCalled {
        backgroundFetchInProgress := false;
        completedBackgroundFetch := true;
      }
    }

    /**
     * `performBackgroundFetch`: unless there is nothing to fetch, mark the
     * pass in progress and fetch slots [0, Remaining) newest first, replacing
     * each in place; the completion runs iff there are moments.
     */
    method PerformBackgroundFetch(fetch: nat -> seq<Asset>) returns (completionCalled: bool)
      requires Valid()
      modifies this`momentsFetchResults, this`assetFetches, this`backgroundFetchInProgress
      ensures Valid()
      ensures completionCalled <==> |momentsFetchResults| > 0
      ensures !completionCalled ==>
        momentsFetchResults == old(momentsFetchResults) && assetFetches == old(assetFetches) &&
        backgroundFetchInProgress == old(backgroundFetchInProgress)
      ensures completionCalled ==> backgroundFetchInProgress
      ensures completionCalled ==>
        momentsFetchResults == Refreshed(old(momentsFetchResults), 0, Remaining(|momentsFetchResults|, batchSize), fetch)
      ensures completionCalled ==>
        assetFetches == old(assetFetches) + Descending(0, Remaining(|momentsFetchResults|, batchSize))
    {
      if collectionCount.None? {
        return false;
      }
      var n := collectionCount.value;
      var momentsRemaining := Remaining(n, batchSize);
      BackfillRange(n, batchSize);
      if momentsRemaining == 0 {
        return false;
      }
      backgroundFetchInProgress := true;
      var i := momentsRemaining;
      while i > 0
        invariant 0 <= i <= momentsRemaining <= n == |momentsFetchResults|
        invariant backgroundFetchInProgress
        invariant momentsFetchResults == Refreshed(old(momentsFetchResults), i, momentsRemaining, fetch)
        invariant assetFetches == old(assetFetches) + Descending(i, momentsRemaining)
      {
        i := i - 1;
        var assets := fetch(i);
        assetFetches := assetFetches + [i];
        RemoveThenInsertReplaces(momentsFetchResults, i, Some(assets));
        momentsFetchResults := momentsFetchResults[..i] + momentsFetchResults[i + 1..];
        momentsFetchResults := momentsFetchResults[..i] + [Some(assets)] + momentsFetchResults[i..];
      }
      return true;
    }

    /** `numberOfSections(in:)`: one section per moment, none before the first fetch. */
    function NumberOfSections(): (n: nat)
      reads this
      requires Valid()
      ensures n == |momentsFetchResults|
    {
      collectionCount.GetOr(0)
    }

    /**
     * `collectionView(_:numberOfItemsInSection:)`: the items shown are exactly
     * those whose index paths the asset lookup can read (none for an absent slot).
     */
    function NumberOfItemsInSection(section: nat): (r: nat)
      reads this
      requires section < |momentsFetchResults|
      ensures forall item: nat :: item < r <==>
        Resolves(momentsFetchResults, IndexPath(section, item)) &&
        PathFits(momentsFetchResults, IndexPath(section, item))
    {
      Count(momentsFetchResults[section])
    }

    /**
     * The section search of `scrollToBottom` and the item it scrolls to: with
     * more than one section, the last section is the greatest one whose
     * moment has assets, defaulting to 0; the scroll target is that section's
     * last item, and there is one iff some moment has assets.
     */
    method ScrollToBottom() returns (lastSection: nat, target: Option<IndexPath>)
      requires Valid()
      ensures |momentsFetchResults| > 1 &&
              (exists j :: 0 <= j < |momentsFetchResults| && Count(momentsFetchResults[j]) > 0) ==>
        lastSection < |momentsFetchResults| && Count(momentsFetchResults[lastSection]) > 0 &&
        forall j :: lastSection < j < |momentsFetchResults| ==> Count(momentsFetchResults[j]) == 0
      ensures |momentsFetchResults| <= 1 ||
              (forall j :: 0 <= j < |momentsFetchResults| ==> Count(momentsFetchResults[j]) == 0) ==>
        lastSection == 0
      ensures target.Some? <==> exists j :: 0 <= j < |momentsFetchResults| && Count(momentsFetchResults[j]) > 0
      ensures target.Some? ==>
        lastSection < |momentsFetchResults| &&
        target.value == IndexPath(lastSection, Count(momentsFetchResults[lastSection]) - 1)
    {
      var sections := NumberOfSections();
      if sections == 0 {
        return 0, None;
      }
      lastSection := 0;
      if sections > 1 {
        var index := |momentsFetchResults|;
        while index > 0
          invariant 0 <= index <= |momentsFetchResults|
          invariant lastSection == 0
          invariant forall j :: index <= j < |momentsFetchResults| ==> Count(momentsFetchResults[j]) == 0
        {
          index := index - 1;
          if Count(momentsFetchResults[index]) > 0 && index < sections {
            lastSection := index;
            break;
          }
        }
      }
      var items := NumberOfItemsInSection(lastSection);
      if items == 0 {
        return lastSection, None;
      }
      target := Some(IndexPath(lastSection, items - 1));
    }

    /** `resetCachedAssets`: stop caching everything and forget the stored window. */
    method ResetCachedAssets()
      modifies this`previousPreheatRect, this`cachingLog
      ensures previousPreheatRect == Zero
      ensures cachingLog == old(cachingLog) + [StopCachingAll]
    {
      cachingLog := cachingLog + [StopCachingAll];
      previousPreheatRect := Zero;
    }

    /**
     * `updateCachedAssets`: when the view is visible and the preheat rectangle
     * has moved far enough, look up the index paths of the added and removed
     * bands, request start and stop caching of their assets and store the new
     * rectangle.
     */
    method UpdateCachedAssets(viewVisible: bool, bounds: Rect, layout: Rect -> seq<IndexPath>)
      requires WindowFits(momentsFetchResults, previousPreheatRect, viewVisible, bounds, layout)
      modifies this`previousPreheatRect, this`cachingLog
      ensures var step := UpdateWindow(momentsFetchResults, old(previousPreheatRect), viewVisible, bounds, layout);
        previousPreheatRect == step.preheatRect && cachingLog == old(cachingLog) + step.requests
    {
      if !viewVisible {
        return;
      }
      var preheatRect := Preheat(bounds);
      var delta := Abs(preheatRect.MidY() - previousPreheatRect.MidY());
      if delta > bounds.height / 3.0 {
        var diff := Difference(previousPreheatRect, preheatRect);
        RecomputedWindow(momentsFetchResults, previousPreheatRect, bounds, layout);
        var addedIndexPaths := CollectIndexPaths(layout, diff.added);
        var removedIndexPaths := CollectIndexPaths(layout, diff.removed);

        UpdateCaching(addedIndexPaths, removedIndexPaths);
        previousPreheatRect := preheatRect;
      }
    }

    /**
     * The caching step of `updateCachedAssets`: start caching the assets at
     * the added index paths, then stop caching those at the removed ones,
     * skipping a request whose list of index paths is empty.
     */
    method UpdateCaching(addedIndexPaths: seq<IndexPath>, removedIndexPaths: seq<IndexPath>)
      requires PathsFit(momentsFetchResults, addedIndexPaths) && PathsFit(momentsFetchResults, removedIndexPaths)
      modifies this`cachingLog
      ensures cachingLog == old(cachingLog) + CachingRequests(momentsFetchResults, addedIndexPaths, removedIndexPaths)
    {
      var assetsToStartCaching := AssetsAtIndexPaths(addedIndexPaths);
      if assetsToStartCaching.Some? {
        cachingLog := cachingLog + [StartCaching(assetsToStartCaching.value)];
      }
      var assetsToStopCaching := AssetsAtIndexPaths(removedIndexPaths);
      if assetsToStopCaching.Some? {
        cachingLog := cachingLog + [StopCaching(assetsToStopCaching.value)];
      }
    }

    /**
     * `assetsAtIndexPaths`: nothing for an empty list; otherwise the assets at
     * the paths that name a present moment, in order.
     */
    method AssetsAtIndexPaths(indexPaths: seq<IndexPath>) returns (assets: Option<seq<Asset>>)
      requires PathsFit(momentsFetchResults, indexPaths)
      ensures assets == if indexPaths == [] then None else Some(AssetsFor(momentsFetchResults, indexPaths))
    {
      if |indexPaths| == 0 {
        return None;
      }
      var result: seq<Asset> := [];
      for k := 0 to |indexPaths|
        invariant PathsFit(momentsFetchResults, indexPaths[..k])
        invariant result == AssetsFor(momentsFetchResults, indexPaths[..k])
      {
        assert indexPaths[..k + 1][..k] == indexPaths[..k];
        var indexPath := indexPaths[k];
        assert indexPath in indexPaths;
        if indexPath.section < |momentsFetchResults| {
          match momentsFetchResults[indexPath.section]
          case Some(moment) =>
            result := result + [moment[indexPath.item]];
          case None =>
        }
      }
      assert indexPaths[..|indexPaths|] == indexPaths;
      return Some(result);
    }
  }
}
