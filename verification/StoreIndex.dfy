/**
  The per-store maps of RegionsInfo: for every store, the regions that play one role there.
  A store's regionMap is a value here, replaced at every change.
*/
module StoreIndex {
  import opened RegionMap

  /** map[uint64]*regionMap. */
  type Index = map<nat, Rep>

  ghost predicate SoundIndex(index: Index) {
    forall s :: s in index ==> Sound(index[s])
  }

  /** The regions listed for a store; a store without a map lists none. */
  function At(index: Index, store: nat): map<nat, RegionInfo> {
    if store in index then Regions(index[store].m) else map[]
  }

  /** Look the store's map up, create it if it is missing, and put the region. */
  function IndexPut(index: Index, store: nat, region: RegionInfo): Index {
    index[store := Stored(if store in index then index[store] else EMPTY, region)]
  }

  /** Deleting from the map of an unknown store does nothing. */
  function IndexDelete(index: Index, store: nat, id: nat): Index
    requires SoundIndex(index)
  {
    if store in index then index[store := Dropped(index[store], id)] else index
  }

  /** The region is added to the maps of the given stores, and nothing else changes. */
  ghost predicate AddedTo(was: Index, now: Index, stores: set<nat>, r: RegionInfo) {
    forall s :: At(now, s) == if s in stores then At(was, s)[r.meta.id := r] else At(was, s)
  }

  /** The id is dropped from the maps of the given stores, and nothing else changes. */
  ghost predicate DroppedFrom(was: Index, now: Index, stores: set<nat>, id: nat) {
    forall s :: At(now, s) == if s in stores then At(was, s) - {id} else At(was, s)
  }

  lemma PutAdds(index: Index, store: nat, r: RegionInfo)
    requires SoundIndex(index)
    ensures SoundIndex(IndexPut(index, store, r))
    ensures AddedTo(index, IndexPut(index, store, r), {store}, r)
  {
    StoredSound(if store in index then index[store] else EMPTY, r);
  }

  lemma DeleteDrops(index: Index, store: nat, id: nat)
    requires SoundIndex(index)
    ensures SoundIndex(IndexDelete(index, store, id))
    ensures DroppedFrom(index, IndexDelete(index, store, id), {store}, id)
  {
    if store in index {
      DroppedSound(index[store], id);
    } else {
      assert At(index, store) - {id} == At(index, store);
    }
  }

  lemma AddedMore(was: Index, mid: Index, now: Index, stores: set<nat>, more: set<nat>, r: RegionInfo)
    requires AddedTo(was, mid, stores, r) && AddedTo(mid, now, more, r)
    ensures AddedTo(was, now, stores + more, r)
  {
    forall s ensures At(now, s) == if s in stores + more then At(was, s)[r.meta.id := r] else At(was, s) {
      assert At(mid, s) == if s in stores then At(was, s)[r.meta.id := r] else At(was, s);
    }
  }

  lemma DroppedMore(was: Index, mid: Index, now: Index, stores: set<nat>, more: set<nat>, id: nat)
    requires DroppedFrom(was, mid, stores, id) && DroppedFrom(mid, now, more, id)
    ensures DroppedFrom(was, now, stores + more, id)
  {
    forall s ensures At(now, s) == if s in stores + more then At(was, s) - {id} else At(was, s) {
      assert At(mid, s) == if s in stores then At(was, s) - {id} else At(was, s);
    }
  }
}
