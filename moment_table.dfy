/**
 * The table of moments (`momentsFetchResults`): one slot per moment, oldest
 * first, each slot absent (not loaded yet) or holding the moment's assets.
 * This module holds the functions that specify the loader's passes and the
 * index-path lookup, and the lemmas about them.
 */
module MomentTable {
  import opened Wrappers

  /** A photo asset, identified as PhotoKit identifies it. */
  datatype Asset = Asset(localIdentifier: string)

  /** A grid position: `item` within moment `section`. */
  datatype IndexPath = IndexPath(section: nat, item: nat)

  /** One moment's slot: `None` until its assets have been fetched. */
  type Slot = Option<seq<Asset>>

  type Table = seq<Slot>

  /** Items shown for a slot: an absent slot shows none. */
  function Count(slot: Slot): nat
  {
    match slot
    case None => 0
    case Some(assets) => |assets|
  }

  /** A table of `n` absent slots. */
  function Absent(n: nat): Table
  {
    seq(n, _ => None)
  }

  /** A table of `n` slots, each holding what `fetch` returns for it. */
  function Loaded(n: nat, fetch: nat -> seq<Asset>): Table
  {
    seq(n, (i: nat) => Some(fetch(i)))
  }

  /** `t` with the slots [lo, hi) replaced by freshly fetched assets. */
  function Refreshed(t: Table, lo: nat, hi: nat, fetch: nat -> seq<Asset>): Table
    requires lo <= hi <= |t|
  {
    seq(|t|, i requires 0 <= i < |t| => if lo <= i < hi then Some(fetch(i)) else t[i])
  }

  /** First slot of the recent batch: the newest `batchSize` moments, or all of them. */
  function RecentStart(n: nat, batchSize: nat): (r: nat)
    ensures r <= n
    ensures n - r == if batchSize < n then batchSize else n
  {
    if n > batchSize then n - batchSize else 0
  }

  /**
   * Number of slots the background pass fetches, counted from slot 0: the
   * moments before the recent batch, or all `n` moments when there is no
   * remainder.
   */
  function Remaining(n: nat, batchSize: nat): (r: nat)
    ensures r <= n
    ensures r == 0 <==> n == 0
    ensures n > batchSize ==> r + batchSize == n
    ensures n <= batchSize ==> r == n
  {
    if n > batchSize then n - batchSize else n
  }

  /** The indices hi - 1, hi - 2, ..., lo: a reversed range. */
  function Descending(lo: nat, hi: nat): (r: seq<nat>)
    requires lo <= hi
    ensures |r| == hi - lo
    ensures forall k :: 0 <= k < |r| ==> r[k] == hi - 1 - k
    decreases hi - lo
  {
    if lo == hi then [] else Descending(lo + 1, hi) + [lo]
  }

  /** Two adjacent reversed ranges, the upper one first, make one reversed range. */
  lemma {:induction false} DescendingSplit(lo: nat, mid: nat, hi: nat)
    requires lo <= mid <= hi
    ensures Descending(mid, hi) + Descending(lo, mid) == Descending(lo, hi)
    decreases mid - lo
  {
    if lo < mid {
      DescendingSplit(lo + 1, mid, hi);
      calc {
        Descending(mid, hi) + Descending(lo, mid);
        Descending(mid, hi) + (Descending(lo + 1, mid) + [lo]);
        (Descending(mid, hi) + Descending(lo + 1, mid)) + [lo];
        Descending(lo + 1, hi) + [lo];
      }
    }
  }

  /**
   * `remove(at: i)` followed by `insert(x, at: i)` on a Swift array replaces
   * element `i` and changes nothing else.
   */
  lemma RemoveThenInsertReplaces(s: Table, i: nat, x: Slot)
    requires i < |s|
    ensures var removed := s[..i] + s[i + 1..]; removed[..i] + [x] + removed[i..] == s[i := x]
  {
    var removed := s[..i] + s[i + 1..];
    assert removed[..i] == s[..i];
    assert removed[i..] == s[i + 1..];
  }

  /**
   * The recent batch on a fresh table leaves exactly the newest
   * min(batchSize, n) moments present, each with its fetched assets.
   */
  lemma RecentBatchLoadsNewest(n: nat, batchSize: nat, fetch: nat -> seq<Asset>)
    ensures var t := Refreshed(Absent(n), RecentStart(n, batchSize), n, fetch);
      var newest := if batchSize < n then batchSize else n;
      |t| == n &&
      (forall i :: 0 <= i < n ==> (t[i].Some? <==> n - newest <= i)) &&
      (forall i :: n - newest <= i < n ==> t[i] == Some(fetch(i)))
  {
  }

  /**
   * The background pass either fetches exactly the slots the recent batch
   * left absent (more moments than the batch) or refetches every slot (no
   * more moments than the batch); it fetches nothing only when there are no
   * moments.
   */
  lemma BackfillRange(n: nat, batchSize: nat)
    ensures Remaining(n, batchSize) == 0 <==> n == 0
    ensures n > batchSize ==> Remaining(n, batchSize) == RecentStart(n, batchSize)
    ensures n <= batchSize ==> RecentStart(n, batchSize) == 0 && Remaining(n, batchSize) == n
  {
  }

  /**
   * The recent batch followed by the background pass, both fetching with the
   * same `fetch`, leave every slot of a fresh table present.
   */
  lemma BothPassesLoadEverything(n: nat, batchSize: nat, fetch: nat -> seq<Asset>)
    ensures Refreshed(Refreshed(Absent(n), RecentStart(n, batchSize), n, fetch),
                      0, Remaining(n, batchSize), fetch) == Loaded(n, fetch)
  {
    var recent := Refreshed(Absent(n), RecentStart(n, batchSize), n, fetch);
    var both := Refreshed(recent, 0, Remaining(n, batchSize), fetch);
    forall i | 0 <= i < n
      ensures both[i] == Loaded(n, fetch)[i]
    {
      if i >= Remaining(n, batchSize) {
        assert i >= RecentStart(n, batchSize);
      }
    }
  }

  /**
   * With more moments than the batch, the two passes fetch every moment
   * exactly once, from the newest to the oldest.
   */
  lemma BothPassesFetchNewestFirst(n: nat, batchSize: nat)
    requires n > batchSize
    ensures Descending(RecentStart(n, batchSize), n) + Descending(0, Remaining(n, batchSize))
         == Descending(0, n)
  {
    DescendingSplit(0, n - batchSize, n);
  }

  /** Reading `moment[indexPath.item]` is in range whenever the slot is present. */
  predicate PathFits(t: Table, p: IndexPath)
  {
    p.section < |t| && t[p.section].Some? ==> p.item < |t[p.section].value|
  }

  predicate PathsFit(t: Table, paths: seq<IndexPath>)
  {
    forall p :: p in paths ==> PathFits(t, p)
  }

  /** The index path names a present slot of the table. */
  predicate Resolves(t: Table, p: IndexPath)
  {
    p.section < |t| && t[p.section].Some?
  }

  /** The asset at a resolving index path. */
  function AssetAt(t: Table, p: IndexPath): Asset
    requires Resolves(t, p) && PathFits(t, p)
  {
    t[p.section].value[p.item]
  }

  /**
   * The assets at `paths`, in order, skipping every path that names a
   * section past the table or an absent slot: never more assets than paths,
   * and as many exactly when every path resolves.
   */
  function AssetsFor(t: Table, paths: seq<IndexPath>): (r: seq<Asset>)
    requires PathsFit(t, paths)
    ensures |r| <= |paths|
    ensures |r| == |paths| <==> forall k :: 0 <= k < |paths| ==> Resolves(t, paths[k])
    decreases |paths|
  {
    if paths == [] then []
    else
      var init, last := paths[..|paths| - 1], paths[|paths| - 1];
      assert forall p :: p in init ==> p in paths;
      AssetsFor(t, init) + (if Resolves(t, last) then [AssetAt(t, last)] else [])
  }

  /** Looking up a concatenation looks up each part. */
  lemma {:induction false} AssetsForAppend(t: Table, a: seq<IndexPath>, b: seq<IndexPath>)
    requires PathsFit(t, a) && PathsFit(t, b)
    ensures PathsFit(t, a + b)
    ensures AssetsFor(t, a + b) == AssetsFor(t, a) + AssetsFor(t, b)
    decreases |b|
  {
    assert forall p :: p in a + b ==> p in a || p in b;
    if b != [] {
      var init := b[..|b| - 1];
      assert forall p :: p in init ==> p in b;
      AssetsForAppend(t, a, init);
      assert (a + b)[..|a + b| - 1] == a + init;
    } else {
      assert a + b == a;
    }
  }

  /**
   * An asset is looked up iff some path resolves to it: nothing is invented
   * and no resolving path is dropped.
   */
  lemma {:induction false} AssetsForMembers(t: Table, paths: seq<IndexPath>, a: Asset)
    requires PathsFit(t, paths)
    ensures a in AssetsFor(t, paths) <==>
      exists k :: 0 <= k < |paths| && Resolves(t, paths[k]) && AssetAt(t, paths[k]) == a
    decreases |paths|
  {
    if paths != [] {
      var init, last := paths[..|paths| - 1], paths[|paths| - 1];
      assert forall p :: p in init ==> p in paths;
      AssetsForMembers(t, init, a);
      if a in AssetsFor(t, paths) {
        if a in AssetsFor(t, init) {
          var k :| 0 <= k < |init| && Resolves(t, init[k]) && AssetAt(t, init[k]) == a;
          assert paths[k] == init[k];
        } else {
          assert Resolves(t, paths[|paths| - 1]);
        }
      } else {
        forall k | 0 <= k < |paths| && Resolves(t, paths[k])
          ensures AssetAt(t, paths[k]) != a
        {
          if k < |init| {
            assert paths[k] == init[k];
          }
        }
      }
    }
  }

  /** When every path resolves, the k-th asset is the asset at the k-th path. */
  lemma {:induction false} AssetsForInOrder(t: Table, paths: seq<IndexPath>, k: nat)
    requires PathsFit(t, paths)
    requires forall j :: 0 <= j < |paths| ==> Resolves(t, paths[j])
    requires k < |paths|
    ensures |AssetsFor(t, paths)| == |paths|
    ensures AssetsFor(t, paths)[k] == AssetAt(t, paths[k])
    decreases |paths|
  {
    var init := paths[..|paths| - 1];
    assert forall p :: p in init ==> p in paths;
    if k < |init| {
      AssetsForInOrder(t, init, k);
    }
  }
}
