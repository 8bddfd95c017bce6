/**
  The tree of region ranges: regions ordered by start key. The B-tree is a strictly ordered
  sequence; a range with an empty end key has no upper end.
*/
module RegionTree {
  import opened Options
  import opened Keys
  import OperatorSteps

  type Peer = OperatorSteps.Peer

  /** metapb.Region. */
  datatype Meta = Meta(id: nat, start: Key, end: Key, peers: seq<Peer>)

  predicate Contains(m: Meta, key: Key) {
    AtMost(m.start, key) && (m.end == [] || Less(key, m.end))
  }

  /** The range is not empty. */
  predicate Ranged(m: Meta) {
    m.end == [] || Less(m.start, m.end)
  }

  /** All of a lies before b. */
  predicate Before(a: Meta, b: Meta) {
    a.end != [] && AtMost(a.end, b.start)
  }

  predicate Overlaps(a: Meta, b: Meta) {
    !Before(a, b) && !Before(b, a)
  }

  ghost predicate Ordered(items: seq<Meta>) {
    && (forall i :: 0 <= i < |items| ==> Ranged(items[i]))
    && (forall i, j :: 0 <= i < j < |items| ==> Before(items[i], items[j]))
  }

  /** Two ranges overlap exactly if they share a key. */
  lemma OverlapsMeansSharing(a: Meta, b: Meta)
    requires Ranged(a) && Ranged(b)
    ensures Overlaps(a, b) <==> exists key :: Contains(a, key) && Contains(b, key)
  {
    Irreflexive(a.start);
    Irreflexive(b.start);
    if Overlaps(a, b) {
      var key := if Less(a.start, b.start) then b.start else a.start;
      Chain(a.start, b.start, a.end);
      Chain(b.start, a.start, b.end);
      assert Contains(a, key) && Contains(b, key);
    }
    if key :| Contains(a, key) && Contains(b, key) {
      Chain(a.end, b.start, key);
      Chain(b.end, a.start, key);
    }
  }

  lemma StartsBefore(a: Meta, b: Meta)
    requires Before(a, b) && Ranged(a)
    ensures Less(a.start, b.start)
  {
    Chain(a.start, a.end, b.start);
  }

  lemma BeforeThrough(a: Meta, b: Meta, c: Meta)
    requires Before(a, b) && Before(b, c) && Ranged(b)
    ensures Before(a, c)
  {
    Chain(b.start, b.end, c.start);
    Chain(a.end, b.start, c.start);
  }

  /** Start keys increase along the tree. */
  lemma StartsIncrease(items: seq<Meta>, i: nat, j: nat)
    requires Ordered(items) && i < j < |items|
    ensures Less(items[i].start, items[j].start) && AtMost(items[i].start, items[j].start)
  {
    StartsBefore(items[i], items[j]);
    Chain(items[i].start, items[j].start, items[j].start);
  }

  /** The regions that overlap a range, by a scan of all of them. */
  function Scan(items: seq<Meta>, region: Meta): seq<Meta> {
    if items == [] then []
    else
      var n := |items| - 1;
      Scan(items[..n], region) + if Overlaps(items[n], region) then [items[n]] else []
  }

  /** If the overlapping regions are those from lo to hi, the scan finds that slice. */
  lemma {:induction false} ScanSlice(items: seq<Meta>, region: Meta, lo: nat, hi: nat)
    requires lo <= hi <= |items|
    requires forall k :: 0 <= k < |items| ==> (Overlaps(items[k], region) <==> lo <= k < hi)
    ensures Scan(items, region) == items[lo..hi]
  {
    if items != [] {
      var n := |items| - 1;
      if hi == |items| && lo < hi {
        ScanSlice(items[..n], region, lo, n);
      } else {
        ScanSlice(items[..n], region, if lo == |items| then n else lo, if hi == |items| then n else hi);
      }
    }
  }

  /** Items that start before key come first, then the others. */
  ghost predicate SplitAt(items: seq<Meta>, key: Key, i: nat) {
    && i <= |items|
    && (forall j :: 0 <= j < i ==> Less(items[j].start, key))
    && (forall j :: i <= j < |items| ==> AtMost(key, items[j].start))
  }

  /** Items that start at or before key come first, then the others. */
  ghost predicate SplitAfter(items: seq<Meta>, key: Key, k: nat) {
    && k <= |items|
    && (forall j :: 0 <= j < k ==> AtMost(items[j].start, key))
    && (forall j :: k <= j < |items| ==> Less(key, items[j].start))
  }

  /** What an ascending scan from key visits first. */
  method Ascend(items: seq<Meta>, key: Key) returns (i: nat)
    requires Ordered(items)
    ensures SplitAt(items, key, i)
    ensures forall j :: 0 <= j < i ==> AtMost(items[j].start, key)
  {
    i := 0;
    while i < |items| && Less(items[i].start, key)
      invariant i <= |items|
      invariant forall j :: 0 <= j < i ==> Less(items[j].start, key) && AtMost(items[j].start, key)
    {
      Chain(items[i].start, key, key);
      i := i + 1;
    }
    forall j | i <= j < |items| ensures AtMost(key, items[j].start) {
      if i < j {
        StartsIncrease(items, i, j);
        Chain(key, items[i].start, items[j].start);
      }
    }
  }

  /** What a descending scan from key visits first is item k - 1. */
  method Descend(items: seq<Meta>, key: Key) returns (k: nat)
    requires Ordered(items)
    ensures SplitAfter(items, key, k)
    ensures forall j :: k <= j < |items| ==> AtMost(key, items[j].start)
  {
    k := |items|;
    while k > 0 && Less(key, items[k - 1].start)
      invariant k <= |items|
      invariant forall j :: k <= j < |items| ==> Less(key, items[j].start) && AtMost(key, items[j].start)
    {
      Chain(key, items[k - 1].start, key);
      k := k - 1;
    }
    forall j | 0 <= j < k ensures AtMost(items[j].start, key) {
      if j < k - 1 {
        StartsIncrease(items, j, k - 1);
        Chain(items[j].start, items[k - 1].start, key);
      }
    }
  }

  /** Only the last item that starts at or before key can contain it. */
  lemma OnlyLast(items: seq<Meta>, key: Key, k: nat, j: nat)
    requires Ordered(items) && SplitAfter(items, key, k) && j < |items| && Contains(items[j], key)
    ensures j == k - 1
  {
    if j < k - 1 {
      Chain(items[j].end, items[k - 1].start, key);
    }
  }

  /** Where the overlapping regions of a range start: at the one that contains its start key, if any. */
  lemma OverlapFrom(items: seq<Meta>, region: Meta, k: nat, i: nat)
    requires Ordered(items) && Ranged(region) && SplitAfter(items, region.start, k)
    requires if k > 0 && Contains(items[k - 1], region.start) then i == k - 1 else SplitAt(items, region.start, i)
    ensures i <= |items|
    ensures forall j :: 0 <= j < i ==> Before(items[j], region)
    ensures forall j :: i <= j < |items| ==> !Before(items[j], region)
  {
    forall j | 0 <= j < i ensures Before(items[j], region) {
      Chain(items[j].start, region.start, region.start);
      if j < k - 1 {
        assert Before(items[j], items[k - 1]);
        Chain(items[j].end, items[k - 1].start, region.start);
      }
    }
    forall j | i <= j < |items| ensures !Before(items[j], region) {
      Chain(items[j].start, items[j].end, region.start);
      Chain(items[j].start, region.start, region.start);
    }
  }

  lemma SplitAtItem(items: seq<Meta>, n: nat, i: nat)
    requires Ordered(items) && n < |items| && SplitAt(items, items[n].start, i)
    ensures i == n
  {
    Irreflexive(items[n].start);
    if i < n {
      StartsIncrease(items, i, n);
    }
  }

  /** A tree keeps its order when a stretch of it is cut out. */
  lemma CutOrdered(items: seq<Meta>, i: nat, j: nat)
    requires Ordered(items) && i <= j <= |items|
    ensures Ordered(items[..i] + items[j..])
  {
  }

  /** A range that overlaps nothing fits in front of the first item that starts after it. */
  lemma InsertOrdered(items: seq<Meta>, region: Meta, i: nat)
    requires Ordered(items) && Ranged(region) && SplitAt(items, region.start, i)
    requires forall j :: 0 <= j < |items| ==> !Overlaps(items[j], region)
    ensures Ordered(items[..i] + [region] + items[i..])
    ensures forall j :: i <= j < |items| ==> items[j].start != region.start
  {
    forall j | 0 <= j < |items| ensures if j < i then Before(items[j], region) else Before(region, items[j]) {
      FitsBeside(items[j], region);
    }
    forall j | i <= j < |items| ensures items[j].start != region.start {
      StartsBefore(region, items[j]);
      Irreflexive(region.start);
    }
  }

  lemma FitsBeside(a: Meta, b: Meta)
    requires Ranged(a) && Ranged(b) && !Overlaps(a, b)
    ensures if Less(a.start, b.start) then Before(a, b) else Before(b, a)
  {
    Chain(b.start, a.start, b.start);
    if Before(b, a) {
      StartsBefore(b, a);
    } else {
      StartsBefore(a, b);
    }
  }

  /** The callback of getOverlaps: collect items until one starts at or after the range's end. */
  method AscendWhile(items: seq<Meta>, region: Meta, i: nat) returns (overlaps: seq<Meta>)
    requires i <= |items|
    ensures i + |overlaps| <= |items| && overlaps == items[i..i + |overlaps|]
    ensures forall n :: i <= n < i + |overlaps| ==> !Before(region, items[n])
    ensures i + |overlaps| < |items| ==> Before(region, items[i + |overlaps|])
  {
    overlaps := [];
    var j := i;
    while j < |items| && !(region.end != [] && AtMost(region.end, items[j].start))
      invariant i <= j <= |items| && overlaps == items[i..j]
      invariant forall n :: i <= n < j ==> !Before(region, items[n])
    {
      overlaps := overlaps + [items[j]];
      j := j + 1;
    }
  }

  /** The collected slice is what overlaps. */
  lemma OverlapSlice(items: seq<Meta>, region: Meta, i: nat, j: nat)
    requires Ordered(items) && i <= j <= |items|
    requires forall n :: 0 <= n < i ==> Before(items[n], region)
    requires forall n :: i <= n < |items| ==> !Before(items[n], region)
    requires forall n :: i <= n < j ==> !Before(region, items[n])
    requires j < |items| ==> Before(region, items[j])
    ensures forall n :: 0 <= n < |items| ==> (Overlaps(items[n], region) <==> i <= n < j)
    ensures Scan(items, region) == items[i..j]
  {
    forall n | j < n < |items| ensures Before(region, items[n]) {
      BeforeThrough(region, items[j], items[n]);
    }
    ScanSlice(items, region, i, j);
  }

  /** r is the last item that starts before key. */
  ghost predicate LastBefore(items: seq<Meta>, key: Key, r: Option<Meta>) {
    match r
    case None => forall m :: m in items ==> AtMost(key, m.start)
    case Some(p) =>
      && p in items && Less(p.start, key)
      && (forall m :: m in items && Less(m.start, key) ==> AtMost(m.start, p.start))
  }

  /** r is the first item that starts after key. */
  ghost predicate FirstAfter(items: seq<Meta>, key: Key, r: Option<Meta>) {
    match r
    case None => forall m :: m in items ==> AtMost(m.start, key)
    case Some(p) =>
      && p in items && Less(key, p.start)
      && (forall m :: m in items && Less(key, m.start) ==> AtMost(p.start, m.start))
  }

  /** Of two different items, one is before the other. */
  lemma OneIsBefore(items: seq<Meta>, a: Meta, b: Meta)
    requires Ordered(items) && a in items && b in items && a != b
    ensures Before(a, b) || Before(b, a)
  {
    var i :| 0 <= i < |items| && items[i] == a;
    var j :| 0 <= j < |items| && items[j] == b;
    assert i != j;
  }

  /** The region that ends where another one starts is found by looking at the last one that starts before it. */
  lemma PrevAdjoins(items: seq<Meta>, key: Key, prev: Option<Meta>, m: Meta)
    requires Ordered(items) && LastBefore(items, key, prev)
    ensures m in items && m.end != [] && m.end == key <==> prev == Some(m) && m.end == key
  {
    if m in items && m.end != [] && m.end == key {
      Chain(m.start, m.end, key);
      var p := prev.value;
      Irreflexive(key);
      if p != m {
        OneIsBefore(items, p, m);
        if Before(p, m) {
          StartsBefore(p, m);
        } else {
          Chain(m.end, p.start, key);
        }
      }
    }
  }

  /** Some item starts strictly inside the range. */
  ghost predicate StartsInside(items: seq<Meta>, region: Meta) {
    exists x :: x in items && Less(region.start, x.start) && Less(x.start, region.end)
  }

  /** The region that starts where another one ends is found unless a third one starts in between. */
  lemma NextAdjoins(items: seq<Meta>, region: Meta, next: Option<Meta>, m: Meta)
    requires Ordered(items) && Ranged(region) && FirstAfter(items, region.start, next)
    ensures next == Some(m) && m.start == region.end <==>
            m in items && region.end != [] && m.start == region.end && !StartsInside(items, region)
  {
    if m in items && region.end != [] && m.start == region.end {
      var p := next.value;
      Irreflexive(m.start);
      if p != m {
        OneIsBefore(items, p, m);
        if Before(p, m) {
          StartsBefore(p, m);
        } else {
          StartsBefore(m, p);
        }
      }
    }
  }

  /** Nothing starts inside a region of the tree. */
  lemma NothingInside(items: seq<Meta>, region: Meta)
    requires Ordered(items) && region in items
    ensures !StartsInside(items, region)
  {
    forall x | x in items && Less(region.start, x.start) ensures AtMost(region.end, x.start) {
      Irreflexive(x.start);
      OneIsBefore(items, region, x);
      if Before(x, region) {
        StartsBefore(x, region);
        Chain(x.start, region.start, x.start);
      }
    }
  }

  /** An ascending scan from key that skips the item starting right there. */
  method SeekNext(items: seq<Meta>, key: Key) returns (next: Option<Meta>)
    requires Ordered(items)
    ensures FirstAfter(items, key, next)
  {
    var i := Ascend(items, key);
    Irreflexive(key);
    while i < |items| && items[i].start == key
      invariant i <= |items|
      invariant forall j :: 0 <= j < i ==> AtMost(items[j].start, key)
      invariant forall j :: i <= j < |items| ==> AtMost(key, items[j].start)
    {
      i := i + 1;
    }
    if i == |items| {
      return None;
    }
    next := Some(items[i]);
    Total(key, items[i].start);
    forall j | i <= j < |items| ensures AtMost(items[i].start, items[j].start) {
      Irreflexive(items[i].start);
      if i < j {
        StartsIncrease(items, i, j);
      }
    }
  }

  /** A descending scan from key that skips the item starting right there. */
  method SeekPrev(items: seq<Meta>, key: Key) returns (prev: Option<Meta>)
    requires Ordered(items)
    ensures LastBefore(items, key, prev)
  {
    var k := Descend(items, key);
    Irreflexive(key);
    while k > 0 && items[k - 1].start == key
      invariant 0 <= k <= |items|
      invariant forall j :: 0 <= j < k ==> AtMost(items[j].start, key)
      invariant forall j :: k <= j < |items| ==> AtMost(key, items[j].start)
    {
      k := k - 1;
    }
    if k == 0 {
      return None;
    }
    prev := Some(items[k - 1]);
    Total(key, items[k - 1].start);
    forall j | 0 <= j < k ensures AtMost(items[j].start, items[k - 1].start) {
      Irreflexive(items[j].start);
      if j < k - 1 {
        StartsIncrease(items, j, k - 1);
      }
    }
  }

  class Tree {
    var items: seq<Meta>

    ghost predicate Valid()
      reads this
    {
      Ordered(items)
    }

    constructor ()
      ensures Valid() && items == []
    {
      items := [];
    }

    /** find: the item that contains the key. */
    method Find(key: Key) returns (r: Option<Meta>, ghost k: nat)
      requires Valid()
      ensures SplitAfter(items, key, k)
      ensures r == if k > 0 && Contains(items[k - 1], key) then Some(items[k - 1]) else None
      ensures r.Some? ==> r.value in items && Contains(r.value, key)
      ensures r.None? ==> forall m :: m in items ==> !Contains(m, key)
    {
      var last := Descend(items, key);
      k := last;
      if last == 0 || !Contains(items[last - 1], key) {
        r := None;
      } else {
        r := Some(items[last - 1]);
      }
      forall j | 0 <= j < |items| && Contains(items[j], key) ensures j == k - 1 {
        OnlyLast(items, key, k, j);
      }
    }

    /** search: the one region that contains the key, if there is one. */
    method Search(key: Key) returns (r: Option<Meta>)
      requires Valid()
      ensures forall m :: m in items && Contains(m, key) <==> r == Some(m)
    {
      ghost var k;
      r, k := Find(key);
      forall j | 0 <= j < |items| && Contains(items[j], key) ensures j == k - 1 {
        OnlyLast(items, key, k, j);
      }
    }

    /** getOverlaps: what a scan of all regions finds, in key order. */
    method GetOverlaps(region: Meta) returns (overlaps: seq<Meta>, ghost lo: nat)
      requires Valid() && Ranged(region)
      ensures overlaps == Scan(items, region)
      ensures lo + |overlaps| <= |items| && overlaps == items[lo..lo + |overlaps|]
      ensures forall k :: 0 <= k < |items| ==> (Overlaps(items[k], region) <==> lo <= k < lo + |overlaps|)
    {
      var found, k := Find(region.start);
      var i := Ascend(items, if found.Some? then found.value.start else region.start);
      if found.Some? {
        SplitAtItem(items, k - 1, i);
      }
      OverlapFrom(items, region, k, i);
      lo := i;
      overlaps := AscendWhile(items, region, i);
      OverlapSlice(items, region, i, i + |overlaps|);
    }

    /** getAdjacentRegions: the neighbours in start-key order. */
    method GetAdjacent(key: Key) returns (prev: Option<Meta>, next: Option<Meta>)
      requires Valid()
      ensures LastBefore(items, key, prev) && FirstAfter(items, key, next)
    {
      next := SeekNext(items, key);
      prev := SeekPrev(items, key);
    }

    /** searchPrev: the region that ends where the one containing the key starts. */
    method SearchPrev(key: Key) returns (r: Option<Meta>)
      requires Valid()
      ensures forall m :: r == Some(m) <==>
                m in items && m.end != [] && (exists cur :: cur in items && Contains(cur, key) && m.end == cur.start)
    {
      var cur := Search(key);
      if cur == None {
        return None;
      }
      var prev, _ := GetAdjacent(cur.value.start);
      forall m ensures m in items && m.end != [] && m.end == cur.value.start <==>
        prev == Some(m) && m.end == cur.value.start {
        PrevAdjoins(items, cur.value.start, prev, m);
      }
      if prev == None {
        return None;
      }
      if prev.value.end != cur.value.start {
        return None;
      }
      return prev;
    }

    /** scanRange with the callback of ScanRange: it stops once limit items are collected, but takes one in any case. */
    method ScanRange(key: Key, limit: nat) returns (r: seq<Meta>, ghost i: nat)
      requires Valid()
      ensures SplitAt(items, key, i)
      ensures i + |r| <= |items| && r == items[i..i + |r|]
      ensures i + |r| == |items| || |r| == if limit == 0 then 1 else limit
      ensures |r| <= if limit == 0 then 1 else limit
    {
      var from := Ascend(items, key);
      i := from;
      r := [];
      var j := from;
      while j < |items|
        invariant from <= j <= |items| && r == items[from..j]
        invariant |r| < if limit == 0 then 1 else limit
      {
        r := r + [items[j]];
        j := j + 1;
        if !(|r| < limit) {
          break;
        }
      }
    }

    /** Delete the item with the given start key from the B-tree. */
    method Delete(start: Key)
      requires Valid()
      modifies this
      ensures Valid()
      ensures forall i :: 0 <= i < |old(items)| && old(items)[i].start == start ==>
                items == old(items)[..i] + old(items)[i + 1..]
      ensures (forall m :: m in old(items) ==> m.start != start) ==> items == old(items)
    {
      var i := Ascend(items, start);
      forall n | 0 <= n < |items| && items[n].start == start ensures n == i {
        SplitAtItem(items, n, i);
      }
      if i < |items| && items[i].start == start {
        CutOrdered(items, i, i + 1);
        items := items[..i] + items[i + 1..];
      }
    }

    /** update: the overlapping regions go, the new one comes. */
    method Update(region: Meta) returns (overlaps: seq<Meta>)
      requires Valid() && Ranged(region)
      modifies this
      ensures Valid()
      ensures overlaps == Scan(old(items), region)
      ensures forall m :: m in items <==> m == region || (m in old(items) && !Overlaps(m, region))
    {
      ghost var lo;
      overlaps, lo := GetOverlaps(region);
      KeptOutside(items, region, lo, lo + |overlaps|);
      DeleteAll(overlaps, lo);
      ReplaceOrInsert(region);
    }

    /** The deleting loop of update, for a slice of the tree. */
    method DeleteAll(overlaps: seq<Meta>, ghost lo: nat)
      requires Valid() && lo + |overlaps| <= |items| && overlaps == items[lo..lo + |overlaps|]
      modifies this
      ensures Valid() && items == old(items)[..lo] + old(items)[lo + |overlaps|..]
    {
      ghost var was := items;
      for n := 0 to |overlaps|
        invariant Valid() && items == was[..lo] + was[lo + n..]
      {
        assert items[lo] == was[lo + n] == overlaps[n];
        Delete(overlaps[n].start);
      }
    }

    /** ReplaceOrInsert, for a range that overlaps nothing. */
    method ReplaceOrInsert(region: Meta)
      requires Valid() && Ranged(region) && (forall m :: m in items ==> !Overlaps(m, region))
      modifies this
      ensures Valid()
      ensures forall m :: m in items <==> m == region || m in old(items)
    {
      var i := Ascend(items, region.start);
      InsertOrdered(items, region, i);
      var skip := if i < |items| && items[i].start == region.start then 1 else 0;
      assert items == items[..i] + items[i..];
      items := items[..i] + [region] + items[i + skip..];
    }

    /** remove: the item that contains the region's start key goes if it has the region's id. */
    method Remove(region: Meta)
      requires Valid()
      modifies this
      ensures Valid()
      ensures forall m :: m in items <==> m in old(items) && !(Contains(m, region.start) && m.id == region.id)
    {
      var found, k := Find(region.start);
      forall j | 0 <= j < |items| && Contains(items[j], region.start) ensures j == k - 1 {
        OnlyLast(items, region.start, k, j);
      }
      if found.None? || found.value.id != region.id {
        return;
      }
      CutDistinct(items, k - 1);
      Delete(found.value.start);
    }
  }

  /** Cutting out the overlapping slice leaves exactly the regions that do not overlap. */
  lemma KeptOutside(items: seq<Meta>, region: Meta, lo: nat, hi: nat)
    requires lo <= hi <= |items|
    requires forall k :: 0 <= k < |items| ==> (Overlaps(items[k], region) <==> lo <= k < hi)
    ensures forall m :: m in items[..lo] + items[hi..] <==> m in items && !Overlaps(m, region)
  {
    var kept := items[..lo] + items[hi..];
    forall m | m in items && !Overlaps(m, region) ensures m in kept {
      var k :| 0 <= k < |items| && items[k] == m;
      assert k < lo || hi <= k;
      assert kept[if k < lo then k else k - (hi - lo)] == m;
    }
  }

  /** No region is in the tree twice. */
  lemma CutDistinct(items: seq<Meta>, i: nat)
    requires Ordered(items) && i < |items|
    ensures forall m :: m in items[..i] + items[i + 1..] <==> m in items && m != items[i]
  {
    var kept := items[..i] + items[i + 1..];
    forall k | 0 <= k < |items| && k != i ensures items[k] != items[i] && items[k] in kept {
      StartsIncrease(items, if k < i then k else i, if k < i then i else k);
      Irreflexive(items[i].start);
      assert kept[if k < i then k else k - 1] == items[k];
    }
  }
}
