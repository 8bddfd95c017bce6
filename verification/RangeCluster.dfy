/** GenRangeCluster: the regions of a key range, collected page by page. */
module RangeCluster {
  import opened Keys
  import opened RegionTree
  import opened RegionMap
  import opened RegionsInfo

  const SCAN_LIMIT := 128

  /** The regions that start in [start, end). */
  ghost function Within(m: map<nat, RegionInfo>, start: Key, end: Key): map<nat, RegionInfo> {
    map id | id in m && AtMost(start, m[id].meta.start) && Less(m[id].meta.start, end) :: m[id]
  }

  /** The regions of a stretch of the tree. */
  ghost function Picked(m: map<nat, RegionInfo>, items: seq<Meta>, lo: nat, hi: nat): map<nat, RegionInfo>
    requires lo <= hi <= |items|
  {
    map id | id in m && m[id].meta in items[lo..hi] :: m[id]
  }

  /** The next region of the tree is apart from those before it. */
  lemma PickedApart(m: map<nat, RegionInfo>, items: seq<Meta>, lo: nat, hi: nat, r: RegionInfo)
    requires Ordered(items) && Keyed(m) && lo <= hi < |items|
    requires Has(m, r) && r.meta == items[hi]
    ensures forall id :: id in Picked(m, items, lo, hi) ==> id != r.meta.id && !Overlaps(m[id].meta, r.meta)
  {
    forall id | id in Picked(m, items, lo, hi) ensures id != r.meta.id && !Overlaps(m[id].meta, r.meta) {
      var k :| lo <= k < hi && items[k] == m[id].meta;
      assert Before(items[k], r.meta);
    }
  }

  /** Setting the next region of the tree displaces nothing. */
  lemma PickedMore(m: map<nat, RegionInfo>, items: seq<Meta>, lo: nat, hi: nat, r: RegionInfo)
    requires Ordered(items) && Keyed(m) && lo <= hi < |items|
    requires Has(m, r) && r.meta == items[hi]
    ensures Updated(Picked(m, items, lo, hi), r) == Picked(m, items, lo, hi + 1)
    ensures Clears(Picked(m, items, lo, hi), r)
  {
    PickedApart(m, items, lo, hi, r);
    assert items[lo..hi + 1] == items[lo..hi] + [items[hi]];
  }

  /** A key has one place in the tree. */
  lemma OnePlace(items: seq<Meta>, key: Key, i: nat, j: nat)
    requires SplitAt(items, key, i) && SplitAt(items, key, j)
    ensures i == j
  {
    assert i < |items| ==> (Less(items[i].start, key) <==> i < j);
    assert j < |items| ==> (Less(items[j].start, key) <==> j < i);
  }

  lemma InStretch(items: seq<Meta>, lo: nat, hi: nat, k: nat)
    requires lo <= k < hi <= |items|
    ensures items[k] in items[lo..hi]
  {
    assert items[lo..hi][k - lo] == items[k];
  }

  /** The end key of an item comes right after it. */
  lemma EndSplits(items: seq<Meta>, k: nat)
    requires Ordered(items) && k < |items| && items[k].end != []
    ensures SplitAt(items, items[k].end, k + 1)
  {
    forall j | 0 <= j <= k ensures Less(items[j].start, items[k].end) {
      if j < k {
        StartsIncrease(items, j, k);
        Chain(items[j].start, items[k].start, items[k].end);
      }
    }
  }

  /** The collected stretch is the key range once nothing after it starts before the end. */
  lemma PickedIsWithin(m: map<nat, RegionInfo>, items: seq<Meta>, start: Key, end: Key, lo: nat, hi: nat)
    requires Ordered(items) && TreeAgrees(items, m) && SplitAt(items, start, lo) && lo <= hi <= |items|
    requires forall k :: lo <= k < hi ==> Less(items[k].start, end)
    requires hi == |items| || AtMost(end, items[hi].start)
    ensures Picked(m, items, lo, hi) == Within(m, start, end)
  {
    forall k | hi <= k < |items| ensures AtMost(end, items[k].start) {
      if hi < k {
        StartsIncrease(items, hi, k);
        Chain(end, items[hi].start, items[k].start);
      }
    }
    forall id | id in m
      ensures m[id].meta in items[lo..hi] <==> AtMost(start, m[id].meta.start) && Less(m[id].meta.start, end)
    {
      var k :| 0 <= k < |items| && items[k] == m[id].meta;
      if lo <= k < hi {
        InStretch(items, lo, hi, k);
      }
      if m[id].meta in items[lo..hi] {
        var j :| lo <= j < hi && items[j] == m[id].meta;
      }
    }
  }

  /** How far a page brought the collection: up to item pos, and on from there unless it ended. */
  ghost predicate Progress(items: seq<Meta>, endKey: Key, lo: nat, pos: nat, scanKey: Key, loopEnd: bool) {
    && lo <= pos <= |items|
    && (forall k :: lo <= k < pos ==> Less(items[k].start, endKey))
    && if loopEnd then pos == |items| || AtMost(endKey, items[pos].start) else SplitAt(items, scanKey, pos)
  }

  /** The inner loop, over one page. */
  method TakePage(regions: RegionsInfo, collect: seq<RegionInfo>, endKey: Key, scanKey: Key,
                  ghost m: map<nat, RegionInfo>, ghost items: seq<Meta>, ghost lo: nat, ghost pos: nat)
    returns (scanKey': Key, loopEnd: bool, ghost pos': nat)
    requires regions.Agreed() && Ordered(items) && Keyed(m)
    requires Progress(items, endKey, lo, pos, scanKey, false) && pos + |collect| <= |items|
    requires forall k :: 0 <= k < |collect| ==> Has(m, collect[k]) && collect[k].meta == items[pos + k]
    requires regions.Contents() == Picked(m, items, lo, pos)
    modifies regions, regions.tree, regions.regions
    ensures regions.Agreed() && Progress(items, endKey, lo, pos', scanKey', loopEnd)
    ensures regions.Contents() == Picked(m, items, lo, pos')
    ensures loopEnd || pos' == pos + |collect|
  {
    scanKey', loopEnd, pos' := scanKey, false, pos;
    for n := 0 to |collect|
      invariant regions.Agreed() && pos' == pos + n && !loopEnd
      invariant Progress(items, endKey, lo, pos', scanKey', false)
      invariant regions.Contents() == Picked(m, items, lo, pos')
    {
      var r := collect[n];
      if Less(r.meta.start, endKey) {
        PickedMore(m, items, lo, pos', r);
        var _ := regions.SetRegion(r);
        pos' := pos' + 1;
      } else {
        loopEnd := true;
        break;
      }
      if r.meta.end == [] {
        loopEnd := true;
        LastIsOpen(items, pos' - 1);
        break;
      }
      EndSplits(items, pos' - 1);
      scanKey' := r.meta.end;
    }
  }

  /** Only the last item has no upper end. */
  lemma LastIsOpen(items: seq<Meta>, k: nat)
    requires Ordered(items) && k < |items| && items[k].end == []
    ensures k == |items| - 1
  {
    assert k + 1 < |items| ==> Before(items[k], items[k + 1]);
  }

  /** GenRangeCluster: exactly the regions that start in the range, whatever the number of pages. */
  method GenRangeCluster(cluster: RegionsInfo, startKey: Key, endKey: Key) returns (regions: RegionsInfo)
    requires cluster.Agreed()
    ensures fresh(regions) && regions.Agreed()
    ensures regions.Contents() == Within(cluster.Contents(), startKey, endKey)
  {
    regions := new RegionsInfo();
    CollectPages(cluster, regions, startKey, endKey);
  }

  /** The outer loop. */
  method CollectPages(cluster: RegionsInfo, regions: RegionsInfo, startKey: Key, endKey: Key)
    requires cluster.Listed() && Keyed(cluster.Contents()) && regions.Agreed() && regions.Contents() == map[]
    requires {cluster as object, cluster.tree, cluster.regions} !! {regions as object, regions.tree, regions.regions}
    modifies regions, regions.tree, regions.regions
    ensures regions.Agreed() && regions.Contents() == Within(cluster.Contents(), startKey, endKey)
  {
    var scanKey, loopEnd := startKey, false;
    ghost var m, items := cluster.Contents(), cluster.tree.items;
    ghost var lo := Place(items, startKey);
    ghost var pos := lo;
    assert Picked(m, items, lo, lo) == map[];
    while !loopEnd
      invariant cluster.Listed() && cluster.Contents() == m && cluster.tree.items == items
      invariant Progress(items, endKey, lo, pos, scanKey, loopEnd)
      invariant regions.Agreed() && regions.Contents() == Picked(m, items, lo, pos)
      decreases !loopEnd, |items| - pos
    {
      var last;
      scanKey, loopEnd, last, pos := NextPage(cluster, regions, endKey, scanKey, lo, pos);
      if last {
        break;
      }
    }
    PickedIsWithin(m, items, startKey, endKey, lo, pos);
  }

  /** One round of the outer loop; last tells that nothing was left to scan. */
  method NextPage(cluster: RegionsInfo, regions: RegionsInfo, endKey: Key, scanKey: Key, ghost lo: nat, ghost pos: nat)
    returns (scanKey': Key, loopEnd: bool, last: bool, ghost pos': nat)
    requires cluster.Listed() && Keyed(cluster.Contents()) && regions.Agreed()
    requires {cluster as object, cluster.tree, cluster.regions} !! {regions as object, regions.tree, regions.regions}
    requires Progress(cluster.tree.items, endKey, lo, pos, scanKey, false)
    requires regions.Contents() == Picked(cluster.Contents(), cluster.tree.items, lo, pos)
    modifies regions, regions.tree, regions.regions
    ensures regions.Agreed() && Progress(cluster.tree.items, endKey, lo, pos', scanKey', loopEnd)
    ensures regions.Contents() == Picked(cluster.Contents(), cluster.tree.items, lo, pos')
    ensures last ==> pos' == |cluster.tree.items|
    ensures loopEnd || last || pos' > pos
  {
    var collect, i := cluster.ScanRange(scanKey, SCAN_LIMIT);
    OnePlace(cluster.tree.items, scanKey, i, pos);
    if |collect| == 0 {
      return scanKey, false, true, pos;
    }
    last := false;
    scanKey', loopEnd, pos' :=
      TakePage(regions, collect, endKey, scanKey, cluster.Contents(), cluster.tree.items, lo, pos);
  }

  /** Where a key belongs in the tree. */
  ghost function Place(items: seq<Meta>, key: Key): (i: nat)
    requires Ordered(items)
    ensures SplitAt(items, key, i)
  {
    if items == [] || Less(items[|items| - 1].start, key) then
      PlaceEnd(items, key);
      |items|
    else
      var n := |items| - 1;
      var i := Place(items[..n], key);
      assert SplitAt(items, key, i) by { assert forall j :: 0 <= j < n ==> items[..n][j] == items[j]; }
      i
  }

  lemma PlaceEnd(items: seq<Meta>, key: Key)
    requires Ordered(items) && (items == [] || Less(items[|items| - 1].start, key))
    ensures SplitAt(items, key, |items|)
  {
    var n := |items| - 1;
    forall j | 0 <= j < |items| ensures Less(items[j].start, key) {
      if j < n {
        StartsIncrease(items, j, n);
        Chain(items[j].start, items[n].start, key);
      }
    }
  }
}
