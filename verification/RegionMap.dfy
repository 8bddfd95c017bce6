/**
  regionMap: regions by id, with a dense list of the ids for random picks and running totals of
  size and keys. A deleted id's place in the list is taken by the last id.
*/
module RegionMap {
  import opened Options
  import opened RegionTree

  /** core.RegionInfo. */
  datatype RegionInfo = RegionInfo(meta: Meta, leader: Option<Peer>, pending: seq<Peer>, size: int, keys: int)

  datatype Entry = Entry(region: RegionInfo, pos: nat)

  /** The sizes of all regions, added up afresh. */
  ghost function TotalSize(m: map<nat, RegionInfo>): int {
    if m == map[] then 0
    else
      var id :| id in m;
      m[id].size + TotalSize(m - {id})
  }

  /** The keys of all regions, added up afresh. */
  ghost function TotalKeys(m: map<nat, RegionInfo>): int {
    if m == map[] then 0
    else
      var id :| id in m;
      m[id].keys + TotalKeys(m - {id})
  }

  /** The totals do not depend on the order of addition. */
  lemma {:induction false} TotalWithout(m: map<nat, RegionInfo>, id: nat)
    requires id in m
    ensures TotalSize(m) == m[id].size + TotalSize(m - {id})
    ensures TotalKeys(m) == m[id].keys + TotalKeys(m - {id})
    decreases m
  {
    SizeWithout(m, id);
    KeysWithout(m, id);
  }

  lemma {:induction false} SizeWithout(m: map<nat, RegionInfo>, id: nat)
    requires id in m
    ensures TotalSize(m) == m[id].size + TotalSize(m - {id})
    decreases |m|
  {
    var first :| first in m && TotalSize(m) == m[first].size + TotalSize(m - {first});
    if first != id {
      SizeWithout(m - {first}, id);
      SizeWithout(m - {id}, first);
      assert m - {first} - {id} == m - {id} - {first};
    }
  }

  lemma {:induction false} KeysWithout(m: map<nat, RegionInfo>, id: nat)
    requires id in m
    ensures TotalKeys(m) == m[id].keys + TotalKeys(m - {id})
    decreases |m|
  {
    var first :| first in m && TotalKeys(m) == m[first].keys + TotalKeys(m - {first});
    if first != id {
      KeysWithout(m - {first}, id);
      KeysWithout(m - {id}, first);
      assert m - {first} - {id} == m - {id} - {first};
    }
  }

  lemma TotalWith(m: map<nat, RegionInfo>, id: nat, r: RegionInfo)
    ensures TotalSize(m[id := r]) == TotalSize(m - {id}) + r.size
    ensures TotalKeys(m[id := r]) == TotalKeys(m - {id}) + r.keys
    ensures id !in m ==> m - {id} == m
  {
    TotalWithout(m[id := r], id);
    assert m[id := r] - {id} == m - {id};
  }

  function Regions(m: map<nat, Entry>): map<nat, RegionInfo> {
    map id | id in m :: m[id].region
  }

  /** Every id knows its place in the list and every place holds an id. */
  ghost predicate Dense(m: map<nat, Entry>, ids: seq<nat>) {
    && (forall id :: id in m ==> m[id].pos < |ids| && ids[m[id].pos] == id)
    && (forall i :: 0 <= i < |ids| ==> ids[i] in m && m[ids[i]].pos == i)
  }

  lemma {:induction false} DenseCount(m: map<nat, Entry>, ids: seq<nat>)
    requires Dense(m, ids)
    ensures |m| == |ids|
  {
    Bijection(m, ids, |ids|);
    assert (set i | 0 <= i < |ids| :: ids[i]) == m.Keys;
  }

  lemma {:induction false} Bijection(m: map<nat, Entry>, ids: seq<nat>, n: nat)
    requires Dense(m, ids) && n <= |ids|
    ensures |set i | 0 <= i < n :: ids[i]| == n
  {
    if n > 0 {
      Bijection(m, ids, n - 1);
      assert (set i | 0 <= i < n :: ids[i]) == (set i | 0 <= i < n - 1 :: ids[i]) + {ids[n - 1]};
    }
  }

  lemma DenseReplace(m: map<nat, Entry>, ids: seq<nat>, id: nat, r: RegionInfo)
    requires Dense(m, ids) && id in m
    ensures Dense(m[id := m[id].(region := r)], ids)
    ensures Regions(m[id := m[id].(region := r)]) == Regions(m)[id := r]
  {
  }

  lemma DenseAppend(m: map<nat, Entry>, ids: seq<nat>, id: nat, r: RegionInfo)
    requires Dense(m, ids) && id !in m
    ensures Dense(m[id := Entry(r, |ids|)], ids + [id])
    ensures Regions(m[id := Entry(r, |ids|)]) == Regions(m)[id := r]
  {
  }

  /** The entries after a deletion: the last id of the list moves to the free place. */
  function Moved(m: map<nat, Entry>, last: nat, pos: nat, id: nat): map<nat, Entry>
    requires last in m
  {
    m[last := m[last].(pos := pos)] - {id}
  }

  lemma DenseMove(m: map<nat, Entry>, ids: seq<nat>, id: nat)
    requires Dense(m, ids) && id in m
    ensures var n := |ids| - 1;
            Dense(Moved(m, ids[n], m[id].pos, id), ids[m[id].pos := ids[n]][..n])
  {
    var n, pos := |ids| - 1, m[id].pos;
    var last := ids[n];
    var left, list := Moved(m, last, pos, id), ids[pos := last][..n];
    forall x | x in left ensures left[x].pos < n && list[left[x].pos] == x {
      assert x == last || (x in m && m[x].pos != n);
    }
    forall i | 0 <= i < n ensures list[i] in left && left[list[i]].pos == i {
      assert i != pos ==> ids[i] != id && ids[i] != last;
    }
  }

  lemma MovedRegions(m: map<nat, Entry>, last: nat, pos: nat, id: nat)
    requires last in m
    ensures Regions(Moved(m, last, pos, id)) == Regions(m) - {id}
  {
  }

  /** The fields of a regionMap. */
  datatype Rep = Rep(m: map<nat, Entry>, ids: seq<nat>, totalSize: int, totalKeys: int)

  const EMPTY := Rep(map[], [], 0, 0)

  ghost predicate Sound(r: Rep) {
    && Dense(r.m, r.ids)
    && r.totalSize == TotalSize(Regions(r.m))
    && r.totalKeys == TotalKeys(Regions(r.m))
  }

  function Stored(r: Rep, region: RegionInfo): Rep {
    var id := region.meta.id;
    if id in r.m then
      var entry := r.m[id];
      Rep(r.m[id := entry.(region := region)], r.ids,
          r.totalSize + region.size - entry.region.size, r.totalKeys + region.keys - entry.region.keys)
    else
      Rep(r.m[id := Entry(region, |r.ids|)], r.ids + [id], r.totalSize + region.size, r.totalKeys + region.keys)
  }

  function Dropped(r: Rep, id: nat): Rep
    requires Sound(r)
  {
    if id !in r.m then r
    else
      var entry, n := r.m[id], |r.ids| - 1;
      Rep(Moved(r.m, r.ids[n], entry.pos, id), r.ids[entry.pos := r.ids[n]][..n],
          r.totalSize - entry.region.size, r.totalKeys - entry.region.keys)
  }

  /** Putting a region keeps the list dense and the totals right. */
  lemma StoredSound(r: Rep, region: RegionInfo)
    requires Sound(r)
    ensures Sound(Stored(r, region))
    ensures Regions(Stored(r, region).m) == Regions(r.m)[region.meta.id := region]
  {
    var id, was := region.meta.id, Regions(r.m);
    TotalWith(was, id, region);
    if id in r.m {
      TotalWithout(was, id);
      DenseReplace(r.m, r.ids, id, region);
    } else {
      DenseAppend(r.m, r.ids, id, region);
    }
  }

  /** So does deleting one. */
  lemma DroppedSound(r: Rep, id: nat)
    requires Sound(r)
    ensures Sound(Dropped(r, id))
    ensures Regions(Dropped(r, id).m) == Regions(r.m) - {id}
  {
    if id in r.m {
      TotalWithout(Regions(r.m), id);
      DenseMove(r.m, r.ids, id);
      MovedRegions(r.m, r.ids[|r.ids| - 1], r.m[id].pos, id);
    } else {
      assert Regions(r.m) - {id} == Regions(r.m);
    }
  }

  class Map {
    var m: map<nat, Entry>
    var ids: seq<nat>
    var totalSize: int
    var totalKeys: int

    ghost function State(): Rep
      reads this
    {
      Rep(m, ids, totalSize, totalKeys)
    }

    ghost predicate Valid()
      reads this
    {
      Sound(State())
    }

    ghost function Contents(): map<nat, RegionInfo>
      reads this
    {
      Regions(m)
    }

    constructor ()
      ensures Valid() && State() == EMPTY
    {
      m, ids, totalSize, totalKeys := map[], [], 0, 0;
    }

    method Get(id: nat) returns (r: Option<RegionInfo>)
      ensures r == if id in Contents() then Some(Contents()[id]) else None
    {
      if id in m {
        return Some(m[id].region);
      }
      return None;
    }

    method Put(region: RegionInfo)
      requires Valid()
      modifies this
      ensures Valid() && State() == Stored(old(State()), region)
      ensures Contents() == old(Contents())[region.meta.id := region]
    {
      StoredSound(State(), region);
      var id := region.meta.id;
      if id in m {
        var entry := m[id];
        totalSize := totalSize + region.size - entry.region.size;
        totalKeys := totalKeys + region.keys - entry.region.keys;
        m := m[id := entry.(region := region)];
        return;
      }
      m := m[id := Entry(region, |ids|)];
      ids := ids + [id];
      totalSize := totalSize + region.size;
      totalKeys := totalKeys + region.keys;
    }

    method Delete(id: nat)
      requires Valid()
      modifies this
      ensures Valid() && State() == Dropped(old(State()), id)
      ensures Contents() == old(Contents()) - {id}
    {
      DroppedSound(State(), id);
      if id in m {
        DenseCount(m, ids);
        var entry, n := m[id], |m|;
        var last := ids[n - 1];
        m := m[last := m[last].(pos := entry.pos)];
        ids := ids[m[last].pos := last];
        m := m - {id};
        ids := ids[..n - 1];
        totalSize := totalSize - entry.region.size;
        totalKeys := totalKeys - entry.region.keys;
      }
    }

    method Len() returns (n: nat)
      requires Valid()
      ensures n == |Contents()| == |ids|
    {
      DenseCount(m, ids);
      assert Contents().Keys == m.Keys;
      return |m|;
    }

    /** RandomRegion, for any random number below the number of regions. */
    method RandomRegion(pick: nat) returns (r: Option<RegionInfo>)
      requires Valid() && (Contents() == map[] || pick < |Contents()|)
      ensures r.None? <==> Contents() == map[]
      ensures r.Some? ==> pick < |ids| && ids[pick] in Contents() && r.value == Contents()[ids[pick]]
    {
      var n := Len();
      if n == 0 {
        return None;
      }
      r := Get(ids[pick]);
    }

    method GetTotalSize() returns (n: int)
      requires Valid()
      ensures n == TotalSize(Contents())
    {
      var len := Len();
      if len == 0 {
        return 0;
      }
      return totalSize;
    }
  }
}
