/**
  RegionsInfo: one set of regions, indexed by key range, by id and by store and role.
*/
module RegionsInfo {
  import opened Options
  import opened Keys
  import opened RegionTree
  import opened RegionMap
  import opened StoreIndex

  /** What a region can be to a store. */
  datatype Role = Leads | Follows | Learns | Pends

  /** The id of the leader; without a leader it reads as zero. */
  function LeaderId(r: RegionInfo): nat {
    if r.leader.None? then 0 else r.leader.value.id
  }

  /** The stores on which a region plays a role. */
  function HoldStores(role: Role, r: RegionInfo): set<nat> {
    match role
    case Leads => set p | p in r.meta.peers && !p.learner && p.id == LeaderId(r) :: p.store
    case Follows => set p | p in r.meta.peers && !p.learner && p.id != LeaderId(r) :: p.store
    case Learns => set p | p in r.meta.peers && p.learner :: p.store
    case Pends => set p | p in r.pending :: p.store
  }

  /** Pending peers are on stores of the region, as RemoveRegion expects. */
  ghost predicate Tidy(r: RegionInfo) {
    HoldStores(Pends, r) <= PeerStores(r.meta.peers)
  }

  ghost predicate AllTidy(m: map<nat, RegionInfo>) {
    forall id :: id in m ==> Tidy(m[id])
  }

  /** What has to make room for a region can be removed. */
  ghost predicate Clears(m: map<nat, RegionInfo>, r: RegionInfo) {
    forall id :: id in m && (id == r.meta.id || Overlaps(m[id].meta, r.meta)) ==> Tidy(m[id])
  }

  function PeerStores(peers: seq<Peer>): set<nat> {
    set p | p in peers :: p.store
  }

  /** The regions that play a role on a store, counted afresh from all regions. */
  ghost function Recount(m: map<nat, RegionInfo>, role: Role, store: nat): map<nat, RegionInfo> {
    map id | id in m && store in HoldStores(role, m[id]) :: m[id]
  }

  ghost predicate Counted(index: Index, m: map<nat, RegionInfo>, role: Role) {
    forall s :: At(index, s) == Recount(m, role, s)
  }

  lemma CountedAdd(was: Index, now: Index, m: map<nat, RegionInfo>, role: Role, r: RegionInfo)
    requires Counted(was, m, role) && r.meta.id !in m && AddedTo(was, now, HoldStores(role, r), r)
    ensures Counted(now, m[r.meta.id := r], role)
  {
    forall s ensures At(now, s) == Recount(m[r.meta.id := r], role, s) {
      RecountAdd(m, role, r, s);
      assert At(was, s) == Recount(m, role, s);
    }
  }

  lemma RecountAdd(m: map<nat, RegionInfo>, role: Role, r: RegionInfo, s: nat)
    requires r.meta.id !in m
    ensures Recount(m[r.meta.id := r], role, s) ==
            if s in HoldStores(role, r) then Recount(m, role, s)[r.meta.id := r] else Recount(m, role, s)
  {
  }

  /** Deleting an id from the maps of some stores leaves the index right exactly if these are all it is listed on. */
  lemma CountedDrop(was: Index, now: Index, m: map<nat, RegionInfo>, role: Role, id: nat, stores: set<nat>)
    requires Counted(was, m, role) && id in m && DroppedFrom(was, now, stores, id)
    ensures Counted(now, m - {id}, role) <==> HoldStores(role, m[id]) <= stores
  {
    forall s ensures At(now, s) == Recount(m - {id}, role, s) <==> s !in HoldStores(role, m[id]) || s in stores {
      RecountDrop(m, role, id, s);
      assert At(was, s) == Recount(m, role, s);
      assert s in HoldStores(role, m[id]) ==> id in Recount(m, role, s);
    }
    if !(HoldStores(role, m[id]) <= stores) {
      var s :| s in HoldStores(role, m[id]) && s !in stores;
      assert At(now, s) != Recount(m - {id}, role, s);
    }
  }

  lemma CountedAbsent(was: Index, now: Index, m: map<nat, RegionInfo>, role: Role, id: nat, stores: set<nat>)
    requires Counted(was, m, role) && id !in m && DroppedFrom(was, now, stores, id)
    ensures Counted(now, m, role)
  {
    forall s ensures At(now, s) == Recount(m, role, s) {
      assert At(was, s) == Recount(m, role, s);
      assert Recount(m, role, s) - {id} == Recount(m, role, s);
    }
  }

  lemma RecountDrop(m: map<nat, RegionInfo>, role: Role, id: nat, s: nat)
    requires id in m
    ensures Recount(m - {id}, role, s) == Recount(m, role, s) - {id}
    ensures s !in HoldStores(role, m[id]) ==> Recount(m - {id}, role, s) == Recount(m, role, s)
  {
  }

  /** All four indexes are sound and agree with a recount. */
  ghost predicate AllCounted(m: map<nat, RegionInfo>, leaders: Index, followers: Index, learners: Index,
                             pending: Index) {
    && SoundIndex(leaders) && Counted(leaders, m, Leads)
    && SoundIndex(followers) && Counted(followers, m, Follows)
    && SoundIndex(learners) && Counted(learners, m, Learns)
    && SoundIndex(pending) && Counted(pending, m, Pends)
  }

  // ---------------------------------------------------------------------------------------
  // The loops over the peers of a region

  /** classifyVoterAndLearner: the voters, in order. */
  function Voters(peers: seq<Peer>): seq<Peer>
    ensures forall p :: p in Voters(peers) <==> p in peers && !p.learner
  {
    if peers == [] then []
    else
      var n := |peers| - 1;
      assert peers == peers[..n] + [peers[n]];
      Voters(peers[..n]) + if peers[n].learner then [] else [peers[n]]
  }

  /** classifyVoterAndLearner: the learners, in order. */
  function Learners(peers: seq<Peer>): seq<Peer>
    ensures forall p :: p in Learners(peers) <==> p in peers && p.learner
  {
    if peers == [] then []
    else
      var n := |peers| - 1;
      assert peers == peers[..n] + [peers[n]];
      Learners(peers[..n]) + if peers[n].learner then [peers[n]] else []
  }

  function LeadStores(voters: seq<Peer>, leader: nat): set<nat> {
    set p | p in voters && p.id == leader :: p.store
  }

  function FollowStores(voters: seq<Peer>, leader: nat): set<nat> {
    set p | p in voters && p.id != leader :: p.store
  }

  /** The loop over the voters. */
  method IndexVoters(leaders: Index, followers: Index, voters: seq<Peer>, region: RegionInfo)
    returns (leaders': Index, followers': Index)
    requires SoundIndex(leaders) && SoundIndex(followers)
    ensures SoundIndex(leaders') && AddedTo(leaders, leaders', LeadStores(voters, LeaderId(region)), region)
    ensures SoundIndex(followers') && AddedTo(followers, followers', FollowStores(voters, LeaderId(region)), region)
  {
    leaders', followers' := leaders, followers;
    var id := LeaderId(region);
    for i := 0 to |voters|
      invariant SoundIndex(leaders') && AddedTo(leaders, leaders', LeadStores(voters[..i], id), region)
      invariant SoundIndex(followers') && AddedTo(followers, followers', FollowStores(voters[..i], id), region)
    {
      var peer := voters[i];
      VoterStep(voters, id, i);
      ghost var l, f := leaders', followers';
      PutAdds(l, peer.store, region);
      PutAdds(f, peer.store, region);
      if peer.id == id {
        leaders' := IndexPut(leaders', peer.store, region);
        AddedMore(leaders, l, leaders', LeadStores(voters[..i], id), {peer.store}, region);
      } else {
        followers' := IndexPut(followers', peer.store, region);
        AddedMore(followers, f, followers', FollowStores(voters[..i], id), {peer.store}, region);
      }
    }
    assert voters[..|voters|] == voters;
  }

  lemma VoterStep(voters: seq<Peer>, id: nat, i: nat)
    requires i < |voters|
    ensures LeadStores(voters[..i + 1], id) ==
            LeadStores(voters[..i], id) + if voters[i].id == id then {voters[i].store} else {}
    ensures FollowStores(voters[..i + 1], id) ==
            FollowStores(voters[..i], id) + if voters[i].id == id then {} else {voters[i].store}
  {
    assert voters[..i + 1] == voters[..i] + [voters[i]];
  }

  lemma PeerStep(peers: seq<Peer>, i: nat)
    requires i < |peers|
    ensures PeerStores(peers[..i + 1]) == PeerStores(peers[..i]) + {peers[i].store}
  {
    assert peers[..i + 1] == peers[..i] + [peers[i]];
  }

  /** The loops over the learners and over the pending peers. */
  method IndexPeers(index: Index, peers: seq<Peer>, region: RegionInfo) returns (index': Index)
    requires SoundIndex(index)
    ensures SoundIndex(index') && AddedTo(index, index', PeerStores(peers), region)
  {
    index' := index;
    for i := 0 to |peers|
      invariant SoundIndex(index') && AddedTo(index, index', PeerStores(peers[..i]), region)
    {
      PeerStep(peers, i);
      PutAdds(index', peers[i].store, region);
      ghost var mid := index';
      index' := IndexPut(index', peers[i].store, region);
      AddedMore(index, mid, index', PeerStores(peers[..i]), {peers[i].store}, region);
    }
    assert peers[..|peers|] == peers;
  }

  lemma ClassifiedStores(r: RegionInfo)
    ensures LeadStores(Voters(r.meta.peers), LeaderId(r)) == HoldStores(Leads, r)
    ensures FollowStores(Voters(r.meta.peers), LeaderId(r)) == HoldStores(Follows, r)
    ensures PeerStores(Learners(r.meta.peers)) == HoldStores(Learns, r)
    ensures PeerStores(r.pending) == HoldStores(Pends, r)
  {
  }

  /** The three loops of AddRegion. */
  method IndexRegion(leaders: Index, followers: Index, learners: Index, pending: Index, region: RegionInfo)
    returns (leaders': Index, followers': Index, learners': Index, pending': Index)
    requires SoundIndex(leaders) && SoundIndex(followers) && SoundIndex(learners) && SoundIndex(pending)
    ensures SoundIndex(leaders') && AddedTo(leaders, leaders', HoldStores(Leads, region), region)
    ensures SoundIndex(followers') && AddedTo(followers, followers', HoldStores(Follows, region), region)
    ensures SoundIndex(learners') && AddedTo(learners, learners', HoldStores(Learns, region), region)
    ensures SoundIndex(pending') && AddedTo(pending, pending', HoldStores(Pends, region), region)
  {
    ClassifiedStores(region);
    leaders', followers' := IndexVoters(leaders, followers, Voters(region.meta.peers), region);
    learners' := IndexPeers(learners, Learners(region.meta.peers), region);
    pending' := IndexPeers(pending, region.pending, region);
  }

  lemma DropOne(was: Index, index: Index, peers: seq<Peer>, i: nat, id: nat)
    requires i < |peers| && SoundIndex(index) && DroppedFrom(was, index, PeerStores(peers[..i]), id)
    ensures var now := IndexDelete(index, peers[i].store, id);
            SoundIndex(now) && DroppedFrom(was, now, PeerStores(peers[..i + 1]), id)
  {
    PeerStep(peers, i);
    DeleteDrops(index, peers[i].store, id);
    DroppedMore(was, index, IndexDelete(index, peers[i].store, id), PeerStores(peers[..i]), {peers[i].store}, id);
  }

  /** The loop of RemoveRegion. */
  method UnindexPeers(leaders: Index, followers: Index, learners: Index, pending: Index, peers: seq<Peer>, id: nat)
    returns (leaders': Index, followers': Index, learners': Index, pending': Index)
    requires SoundIndex(leaders) && SoundIndex(followers) && SoundIndex(learners) && SoundIndex(pending)
    ensures SoundIndex(leaders') && DroppedFrom(leaders, leaders', PeerStores(peers), id)
    ensures SoundIndex(followers') && DroppedFrom(followers, followers', PeerStores(peers), id)
    ensures SoundIndex(learners') && DroppedFrom(learners, learners', PeerStores(peers), id)
    ensures SoundIndex(pending') && DroppedFrom(pending, pending', PeerStores(peers), id)
  {
    leaders', followers', learners', pending' := leaders, followers, learners, pending;
    for i := 0 to |peers|
      invariant SoundIndex(leaders') && DroppedFrom(leaders, leaders', PeerStores(peers[..i]), id)
      invariant SoundIndex(followers') && DroppedFrom(followers, followers', PeerStores(peers[..i]), id)
      invariant SoundIndex(learners') && DroppedFrom(learners, learners', PeerStores(peers[..i]), id)
      invariant SoundIndex(pending') && DroppedFrom(pending, pending', PeerStores(peers[..i]), id)
    {
      DropOne(leaders, leaders', peers, i, id);
      DropOne(followers, followers', peers, i, id);
      DropOne(learners, learners', peers, i, id);
      DropOne(pending, pending', peers, i, id);
      leaders' := IndexDelete(leaders', peers[i].store, id);
      followers' := IndexDelete(followers', peers[i].store, id);
      learners' := IndexDelete(learners', peers[i].store, id);
      pending' := IndexDelete(pending', peers[i].store, id);
    }
    assert peers[..|peers|] == peers;
  }

  // ---------------------------------------------------------------------------------------
  // The set of regions

  /** Ids are keys and no range is empty. */
  ghost predicate Keyed(m: map<nat, RegionInfo>) {
    forall id :: id in m ==> m[id].meta.id == id && Ranged(m[id].meta)
  }

  /** The tree holds exactly the ranges of the regions. */
  ghost predicate TreeAgrees(items: seq<Meta>, m: map<nat, RegionInfo>) {
    && (forall x :: x in items ==> x.id in m && m[x.id].meta == x)
    && (forall id :: id in m ==> m[id].meta in items)
  }

  /** Reference: the set after a region is set. What overlaps it and what has its id goes. */
  ghost function Updated(m: map<nat, RegionInfo>, r: RegionInfo): map<nat, RegionInfo> {
    (map id | id in m && id != r.meta.id && !Overlaps(m[id].meta, r.meta) :: m[id])[r.meta.id := r]
  }

  /** The regions whose range is not listed. */
  ghost function Kept(m: map<nat, RegionInfo>, gone: seq<Meta>): map<nat, RegionInfo> {
    map id | id in m && m[id].meta !in gone :: m[id]
  }

  lemma KeptMore(m: map<nat, RegionInfo>, gone: seq<Meta>, n: nat)
    requires Keyed(m) && n < |gone| && gone[n].id in m && m[gone[n].id].meta == gone[n]
    ensures Kept(m, gone[..n + 1]) == Kept(m, gone[..n]) - {gone[n].id}
  {
    assert gone[..n + 1] == gone[..n] + [gone[n]];
  }

  lemma {:induction false} ScanMembers(items: seq<Meta>, region: Meta)
    ensures forall x :: x in Scan(items, region) <==> x in items && Overlaps(x, region)
  {
    if items != [] {
      var n := |items| - 1;
      assert items == items[..n] + [items[n]];
      ScanMembers(items[..n], region);
    }
  }

  /** The ranges of a scan are in order, without repetition. */
  lemma {:induction false} ScanOrdered(items: seq<Meta>, region: Meta)
    requires Ordered(items)
    ensures Ordered(Scan(items, region))
  {
    if items != [] {
      var n := |items| - 1;
      ScanOrdered(items[..n], region);
      ScanMembers(items[..n], region);
      var init := Scan(items[..n], region);
      assert forall k :: 0 <= k < |init| ==> init[k] in items[..n];
      assert forall x :: x in items[..n] ==> Before(x, items[n]);
    }
  }

  /** The other regions whose range overlaps a region, in key order, each once. */
  ghost predicate Displaced(m: map<nat, RegionInfo>, r: RegionInfo, overlaps: seq<Meta>) {
    && Ordered(overlaps)
    && (forall x :: x in overlaps <==> x.id in m && x.id != r.meta.id && m[x.id].meta == x && Overlaps(x, r.meta))
  }

  lemma InTree(m: map<nat, RegionInfo>, items: seq<Meta>, id: nat, x: Meta)
    requires TreeAgrees(items, m - {id})
    ensures x in items <==> x.id in m && x.id != id && m[x.id].meta == x
  {
    assert x.id in m && x.id != id <==> x.id in m - {id};
  }

  lemma UpdatedTidy(m: map<nat, RegionInfo>, r: RegionInfo)
    requires AllTidy(m)
    ensures AllTidy(Updated(m, r)) <==> Tidy(r)
  {
    assert Updated(m, r)[r.meta.id] == r;
  }

  lemma UpdatedWithout(m: map<nat, RegionInfo>, r: RegionInfo)
    ensures Updated(m - {r.meta.id}, r) == Updated(m, r)
  {
  }

  /** What SetRegion reports once the region's own old entry is gone. */
  lemma SetOutcome(m: map<nat, RegionInfo>, items: seq<Meta>, r: RegionInfo)
    requires Ordered(items) && TreeAgrees(items, m - {r.meta.id})
    ensures Displaced(m, r, Scan(items, r.meta))
  {
    ScanMembers(items, r.meta);
    ScanOrdered(items, r.meta);
    forall x ensures x in items <==> x.id in m && x.id != r.meta.id && m[x.id].meta == x {
      InTree(m, items, r.meta.id, x);
    }
  }

  lemma IndexesAdd(m: map<nat, RegionInfo>, r: RegionInfo, l: Index, f: Index, e: Index, p: Index,
                   l': Index, f': Index, e': Index, p': Index)
    requires AllCounted(m, l, f, e, p) && r.meta.id !in m
    requires SoundIndex(l') && AddedTo(l, l', HoldStores(Leads, r), r)
    requires SoundIndex(f') && AddedTo(f, f', HoldStores(Follows, r), r)
    requires SoundIndex(e') && AddedTo(e, e', HoldStores(Learns, r), r)
    requires SoundIndex(p') && AddedTo(p, p', HoldStores(Pends, r), r)
    ensures AllCounted(m[r.meta.id := r], l', f', e', p')
  {
    CountedAdd(l, l', m, Leads, r);
    CountedAdd(f, f', m, Follows, r);
    CountedAdd(e, e', m, Learns, r);
    CountedAdd(p, p', m, Pends, r);
  }

  /** An id is deleted from the maps of some stores, in all four indexes. */
  ghost predicate AllDropped(l: Index, f: Index, e: Index, p: Index, l': Index, f': Index, e': Index, p': Index,
                             stores: set<nat>, id: nat)
  {
    && SoundIndex(l') && DroppedFrom(l, l', stores, id)
    && SoundIndex(f') && DroppedFrom(f, f', stores, id)
    && SoundIndex(e') && DroppedFrom(e, e', stores, id)
    && SoundIndex(p') && DroppedFrom(p, p', stores, id)
  }

  /** Every store on which the region plays a role. */
  function AllStores(r: RegionInfo): set<nat> {
    PeerStores(r.meta.peers) + HoldStores(Pends, r)
  }

  lemma RolesCover(r: RegionInfo, stores: set<nat>)
    ensures AllStores(r) <= stores <==>
              && HoldStores(Leads, r) <= stores && HoldStores(Follows, r) <= stores
              && HoldStores(Learns, r) <= stores && HoldStores(Pends, r) <= stores
  {
    assert PeerStores(r.meta.peers) == HoldStores(Leads, r) + HoldStores(Follows, r) + HoldStores(Learns, r);
  }

  lemma IndexesDrop(m: map<nat, RegionInfo>, id: nat, l: Index, f: Index, e: Index, p: Index,
                    l': Index, f': Index, e': Index, p': Index, stores: set<nat>)
    requires AllCounted(m, l, f, e, p) && AllDropped(l, f, e, p, l', f', e', p', stores, id)
    ensures AllCounted(m - {id}, l', f', e', p') <==> (id in m ==> AllStores(m[id]) <= stores)
  {
    if id in m {
      RolesCover(m[id], stores);
      CountedDrop(l, l', m, Leads, id, stores);
      CountedDrop(f, f', m, Follows, id, stores);
      CountedDrop(e, e', m, Learns, id, stores);
      CountedDrop(p, p', m, Pends, id, stores);
    } else {
      assert m - {id} == m;
      CountedAbsent(l, l', m, Leads, id, stores);
      CountedAbsent(f, f', m, Follows, id, stores);
      CountedAbsent(e, e', m, Learns, id, stores);
      CountedAbsent(p, p', m, Pends, id, stores);
    }
  }

  /** What is left of the tree after remove. */
  ghost predicate Unlisted(was: seq<Meta>, items: seq<Meta>, region: Meta) {
    forall x :: x in items <==> x in was && !(RegionTree.Contains(x, region.start) && x.id == region.id)
  }

  lemma TreeDrop(was: seq<Meta>, items: seq<Meta>, m: map<nat, RegionInfo>, region: Meta)
    requires TreeAgrees(was, m) && Keyed(m) && Unlisted(was, items, region)
    ensures TreeAgrees(items, m - {region.id})
            <==> (region.id in m ==> RegionTree.Contains(m[region.id].meta, region.start))
  {
    if region.id in m && !RegionTree.Contains(m[region.id].meta, region.start) {
      assert m[region.id].meta in items;
    }
  }

  /** The value r names all that RemoveRegion has to find of the region with its id. */
  predicate Locates(r: RegionInfo, was: RegionInfo) {
    RegionTree.Contains(was.meta, r.meta.start) && AllStores(was) <= PeerStores(r.meta.peers)
  }

  class RegionsInfo {
    const tree: Tree
    const regions: Map
    var leaders: Index
    var followers: Index
    var learners: Index
    var pendingPeers: Index

    /** The regions by id. */
    ghost function Contents(): map<nat, RegionInfo>
      reads regions
    {
      regions.Contents()
    }

    /** The id map and the store indexes agree. */
    ghost predicate Indexed()
      reads this, regions
    {
      && regions.Valid()
      && Keyed(Contents())
      && AllCounted(Contents(), leaders, followers, learners, pendingPeers)
    }

    /** The tree and the id map agree. */
    ghost predicate Listed()
      reads regions, tree
    {
      tree.Valid() && TreeAgrees(tree.items, Contents())
    }

    /** Everything agrees. */
    ghost predicate Agreed()
      reads this, regions, tree
    {
      Indexed() && Listed()
    }

    /** Everything agrees, and every region can be removed again. */
    ghost predicate Valid()
      reads this, regions, tree
    {
      Agreed() && AllTidy(Contents())
    }

    /** The parts are well formed, each for itself. */
    ghost predicate Sane()
      reads this, regions, tree
    {
      && regions.Valid() && tree.Valid()
      && SoundIndex(leaders) && SoundIndex(followers) && SoundIndex(learners) && SoundIndex(pendingPeers)
    }

    constructor ()
      ensures Valid() && Contents() == map[]
      ensures fresh(tree) && fresh(regions)
    {
      tree := new Tree();
      regions := new Map();
      leaders, followers, learners, pendingPeers := map[], map[], map[], map[];
    }

    method GetRegion(id: nat) returns (r: Option<RegionInfo>)
      ensures r == if id in Contents() then Some(Contents()[id]) else None
    {
      r := regions.Get(id);
    }

    /** What RemoveRegion does to each part, for any region value. */
    method Detach(region: RegionInfo)
      requires Sane()
      modifies this, tree, regions
      ensures Sane()
      ensures Contents() == old(Contents()) - {region.meta.id}
      ensures Unlisted(old(tree.items), tree.items, region.meta)
      ensures AllDropped(old(leaders), old(followers), old(learners), old(pendingPeers),
                         leaders, followers, learners, pendingPeers, PeerStores(region.meta.peers), region.meta.id)
    {
      tree.Remove(region.meta);
      regions.Delete(region.meta.id);
      leaders, followers, learners, pendingPeers :=
        UnindexPeers(leaders, followers, learners, pendingPeers, region.meta.peers, region.meta.id);
    }

    /** RemoveRegion: all agrees afterwards exactly if the given value locates the region that has its id. */
    method RemoveRegion(region: RegionInfo)
      requires Agreed()
      modifies this, tree, regions
      ensures Contents() == old(Contents()) - {region.meta.id}
      ensures Agreed() <==> (region.meta.id in old(Contents()) ==> Locates(region, old(Contents())[region.meta.id]))
    {
      ghost var m := Contents();
      ghost var items, l, f, e, p := tree.items, leaders, followers, learners, pendingPeers;
      Detach(region);
      IndexesDrop(m, region.meta.id, l, f, e, p, leaders, followers, learners, pendingPeers,
                  PeerStores(region.meta.peers));
      TreeDrop(items, tree.items, m, region.meta);
    }

    /** The part of AddRegion after the tree: the id map and the store indexes. */
    method Enter(region: RegionInfo)
      requires Indexed() && Ranged(region.meta)
      modifies this, regions
      ensures Contents() == old(Contents())[region.meta.id := region]
      ensures region.meta.id !in old(Contents()) ==> Indexed()
    {
      ghost var m := Contents();
      regions.Put(region);
      var l, f, e, p := IndexRegion(leaders, followers, learners, pendingPeers, region);
      if region.meta.id !in m {
        IndexesAdd(m, region, leaders, followers, learners, pendingPeers, l, f, e, p);
      }
      leaders, followers, learners, pendingPeers := l, f, e, p;
    }

    /** The loop of AddRegion over the regions that lost their range; the tree has moved on already. */
    method RemoveOverlaps(overlaps: seq<Meta>)
      requires Indexed() && tree.Valid()
      requires forall x :: x in overlaps ==> x.id in Contents() && Contents()[x.id].meta == x && Tidy(Contents()[x.id])
      requires forall i, j :: 0 <= i < j < |overlaps| ==> overlaps[i] != overlaps[j]
      modifies this, tree, regions
      ensures Indexed() && tree.Valid()
      ensures Contents() == Kept(old(Contents()), overlaps)
      ensures forall x :: x in tree.items <==> x in old(tree.items) && !Struck(x, overlaps)
    {
      ghost var m := Contents();
      assert Kept(m, []) == m;
      for n := 0 to |overlaps|
        invariant Indexed() && tree.Valid()
        invariant Contents() == Kept(m, overlaps[..n])
        invariant forall x :: x in tree.items <==> x in old(tree.items) && !Struck(x, overlaps[..n])
      {
        KeptMore(m, overlaps, n);
        assert overlaps[n] !in overlaps[..n];
        StruckMore(overlaps, n);
        var r := GetRegion(overlaps[n].id);
        ghost var kept, l, f, e, p := Contents(), leaders, followers, learners, pendingPeers;
        Detach(r.value);
        IndexesDrop(kept, r.value.meta.id, l, f, e, p, leaders, followers, learners, pendingPeers,
                    PeerStores(r.value.meta.peers));
      }
      assert overlaps[..|overlaps|] == overlaps;
    }

    /**
      AddRegion. For an id that is in the set already, all agrees afterwards exactly if the old
      range overlaps the new one and starts before it; that is why SetRegion removes it first.
    */
    method AddRegion(region: RegionInfo) returns (overlaps: seq<Meta>)
      requires Agreed() && Ranged(region.meta) && Clears(Contents(), region)
      modifies this, tree, regions
      ensures Contents() == Updated(old(Contents()), region)
      ensures overlaps == Scan(old(tree.items), region.meta)
      ensures Agreed() <==> (region.meta.id in old(Contents()) ==>
                             Yields(old(Contents())[region.meta.id].meta, region.meta))
    {
      ghost var m, items := Contents(), tree.items;
      overlaps := tree.Update(region.meta);
      ghost var updated := tree.items;
      OverlapsOnce(items, m, region.meta);
      ScanMembers(items, region.meta);
      RemoveOverlaps(overlaps);
      KeptIsUpdated(items, m, region);
      Enter(region);
      NowAgrees(items, updated, tree.items, m, region);
    }

    /** SetRegion. */
    method SetRegion(region: RegionInfo) returns (overlaps: seq<Meta>)
      requires Agreed() && Ranged(region.meta) && Clears(Contents(), region)
      modifies this, tree, regions
      ensures Agreed()
      ensures old(Valid()) ==> (Valid() <==> Tidy(region))
      ensures Contents() == Updated(old(Contents()), region)
      ensures Displaced(old(Contents()), region, overlaps)
    {
      ghost var m := Contents();
      var origin := GetRegion(region.meta.id);
      if origin.Some? {
        Irreflexive(origin.value.meta.start);
        RemoveRegion(origin.value);
      } else {
        assert m - {region.meta.id} == m;
      }
      SetOutcome(m, tree.items, region);
      UpdatedWithout(m, region);
      if AllTidy(m) {
        UpdatedTidy(m, region);
      }
      overlaps := AddRegion(region);
    }

    // -------------------------------------------------------------------------------------
    // Queries, each against a scan of all regions

    /** SearchRegion: the region that contains the key. */
    method SearchRegion(key: Key) returns (r: Option<RegionInfo>)
      requires Agreed()
      ensures forall x :: r == Some(x) <==> Has(Contents(), x) && RegionTree.Contains(x.meta, key)
    {
      var found := tree.Search(key);
      if found.None? {
        return None;
      }
      r := GetRegion(found.value.id);
    }

    /** SearchPrevRegion: the region that ends where the one containing the key starts. */
    method SearchPrevRegion(key: Key) returns (r: Option<RegionInfo>)
      requires Agreed()
      ensures forall x :: r == Some(x) <==> Has(Contents(), x) && x.meta.end != [] && Home(Contents(), key, x.meta.end)
    {
      var found := tree.SearchPrev(key);
      forall x ensures found == Some(x) <==> x in tree.items && x.end != [] && Home(Contents(), key, x.end) {
        HomeInTree(tree.items, Contents(), key, x);
      }
      if found.None? {
        return None;
      }
      r := GetRegion(found.value.id);
    }

    /** GetOverlaps: the ranges that overlap a region's, in key order. */
    method GetOverlaps(region: RegionInfo) returns (overlaps: seq<Meta>)
      requires Agreed() && Ranged(region.meta)
      ensures Ordered(overlaps)
      ensures forall x :: x in overlaps <==>
                x.id in Contents() && Contents()[x.id].meta == x && Overlaps(x, region.meta)
    {
      ghost var lo;
      overlaps, lo := tree.GetOverlaps(region.meta);
      ScanMembers(tree.items, region.meta);
      ScanOrdered(tree.items, region.meta);
    }

    /** GetAdjacentRegions: the regions that end where this one starts and start where it ends. */
    method GetAdjacentRegions(region: RegionInfo) returns (prev: Option<RegionInfo>, next: Option<RegionInfo>)
      requires Agreed() && Ranged(region.meta)
      ensures forall x :: prev == Some(x) <==> Has(Contents(), x) && x.meta.end != [] && x.meta.end == region.meta.start
      ensures forall x :: next == Some(x) <==>
                Has(Contents(), x) && region.meta.end != [] && x.meta.start == region.meta.end
                                               && !StartsInside(tree.items, region.meta)
      ensures region.meta in tree.items ==> !StartsInside(tree.items, region.meta)
    {
      prev, next := None, None;
      var metaPrev, metaNext := tree.GetAdjacent(region.meta.start);
      forall x ensures x in tree.items && x.end != [] && x.end == region.meta.start <==>
                       metaPrev == Some(x) && x.end == region.meta.start
      {
        PrevAdjoins(tree.items, region.meta.start, metaPrev, x);
      }
      forall x ensures metaNext == Some(x) && x.start == region.meta.end <==>
                       x in tree.items && region.meta.end != [] && x.start == region.meta.end
                       && !StartsInside(tree.items, region.meta)
      {
        NextAdjoins(tree.items, region.meta, metaNext, x);
      }
      if region.meta in tree.items {
        NothingInside(tree.items, region.meta);
      }
      if metaPrev.Some? && metaPrev.value.end == region.meta.start {
        prev := GetRegion(metaPrev.value.id);
      }
      if metaNext.Some? && metaNext.value.start == region.meta.end {
        next := GetRegion(metaNext.value.id);
      }
    }

    /** ScanRange: the next regions from a key on, in key order. */
    method ScanRange(key: Key, limit: nat) returns (r: seq<RegionInfo>, ghost i: nat)
      requires Listed()
      ensures SplitAt(tree.items, key, i) && i + |r| <= |tree.items|
      ensures forall k :: 0 <= k < |r| ==> Has(Contents(), r[k]) && r[k].meta == tree.items[i + k]
      ensures i + |r| == |tree.items| || |r| == if limit == 0 then 1 else limit
      ensures |r| <= if limit == 0 then 1 else limit
    {
      var metas;
      metas, i := tree.ScanRange(key, limit);
      r := [];
      for k := 0 to |metas|
        invariant |r| == k
        invariant forall n :: 0 <= n < k ==> Has(Contents(), r[n]) && r[n].meta == metas[n]
      {
        assert metas[k] in tree.items;
        var one := GetRegion(metas[k].id);
        r := r + [one.value];
      }
    }

    /** GetStoreRegionCount: leaders, followers and learners on a store. */
    method GetStoreRegionCount(store: nat) returns (n: nat)
      requires Agreed()
      ensures n == |Recount(Contents(), Leads, store)| + |Recount(Contents(), Follows, store)|
                   + |Recount(Contents(), Learns, store)|
    {
      var l, f, e := CountAt(leaders, store), CountAt(followers, store), CountAt(learners, store);
      IndexCount(leaders, store);
      IndexCount(followers, store);
      IndexCount(learners, store);
      return l + f + e;
    }

    /** GetStoreRegionSize: the sizes of leaders, followers and learners on a store. */
    method GetStoreRegionSize(store: nat) returns (n: int)
      requires Agreed()
      ensures n == TotalSize(Recount(Contents(), Leads, store)) + TotalSize(Recount(Contents(), Follows, store))
                   + TotalSize(Recount(Contents(), Learns, store))
    {
      IndexCount(leaders, store);
      IndexCount(followers, store);
      IndexCount(learners, store);
      return SizeAt(leaders, store) + SizeAt(followers, store) + SizeAt(learners, store);
    }
  }

  /** The region is in the set. */
  predicate Has(m: map<nat, RegionInfo>, r: RegionInfo) {
    r.meta.id in m && m[r.meta.id] == r
  }

  /** regionMap.Len, zero for a missing map. */
  function CountAt(index: Index, store: nat): nat {
    if store in index then |index[store].m| else 0
  }

  /** regionMap.TotalSize, zero for a missing or an empty map. */
  function SizeAt(index: Index, store: nat): int {
    if store !in index || |index[store].m| == 0 then 0 else index[store].totalSize
  }

  lemma IndexCount(index: Index, store: nat)
    requires SoundIndex(index)
    ensures CountAt(index, store) == |At(index, store)|
    ensures SizeAt(index, store) == TotalSize(At(index, store))
  {
    if store in index {
      assert At(index, store).Keys == index[store].m.Keys;
      assert |At(index, store)| == |At(index, store).Keys|;
    }
  }

  /** No key is in two regions of the set. */
  lemma OneOwner(items: seq<Meta>, m: map<nat, RegionInfo>, a: nat, b: nat, key: Key)
    requires Ordered(items) && TreeAgrees(items, m) && Keyed(m) && a in m && b in m
    requires RegionTree.Contains(m[a].meta, key) && RegionTree.Contains(m[b].meta, key)
    ensures a == b
  {
    var x, y := m[a].meta, m[b].meta;
    OverlapsMeansSharing(x, y);
    if x != y {
      OneIsBefore(items, x, y);
    }
  }

  /** The region of the set that contains key starts at start. */
  ghost predicate Home(m: map<nat, RegionInfo>, key: Key, start: Key) {
    exists cur :: Has(m, cur) && RegionTree.Contains(cur.meta, key) && start == cur.meta.start
  }

  /** A range of the tree belongs to a region of the set. */
  lemma HomeInTree(items: seq<Meta>, m: map<nat, RegionInfo>, key: Key, x: Meta)
    requires TreeAgrees(items, m) && Keyed(m)
    ensures Home(m, key, x.end) <==> exists cur :: cur in items && RegionTree.Contains(cur, key) && x.end == cur.start
  {
    if cur :| cur in items && RegionTree.Contains(cur, key) && x.end == cur.start {
      assert Has(m, m[cur.id]);
    }
  }

  /** The ranges that overlap a new region are in the set and listed once. */
  lemma OverlapsOnce(items: seq<Meta>, m: map<nat, RegionInfo>, region: Meta)
    requires Ordered(items) && TreeAgrees(items, m)
    ensures var overlaps := Scan(items, region);
            && (forall x :: x in overlaps ==> x.id in m && m[x.id].meta == x)
            && (forall i, j :: 0 <= i < j < |overlaps| ==> overlaps[i] != overlaps[j])
  {
    var overlaps := Scan(items, region);
    ScanMembers(items, region);
    ScanOrdered(items, region);
    forall i, j | 0 <= i < j < |overlaps| ensures overlaps[i] != overlaps[j] {
      StartsIncrease(overlaps, i, j);
      Irreflexive(overlaps[i].start);
    }
  }

  lemma KeptIsUpdated(items: seq<Meta>, m: map<nat, RegionInfo>, r: RegionInfo)
    requires TreeAgrees(items, m) && Keyed(m)
    ensures Kept(m, Scan(items, r.meta))[r.meta.id := r] == Updated(m, r)
    ensures r.meta.id in Kept(m, Scan(items, r.meta)) <==> r.meta.id in m && !Overlaps(m[r.meta.id].meta, r.meta)
  {
    ScanMembers(items, r.meta);
  }

  /** One of the regions that lost their range is found by its start key in the item. */
  ghost predicate Struck(x: Meta, gone: seq<Meta>) {
    exists y :: y in gone && RegionTree.Contains(x, y.start) && x.id == y.id
  }

  lemma StruckMore(gone: seq<Meta>, n: nat)
    requires n < |gone|
    ensures forall x :: Struck(x, gone[..n + 1]) <==>
              Struck(x, gone[..n]) || (RegionTree.Contains(x, gone[n].start) && x.id == gone[n].id)
  {
    assert gone[..n + 1] == gone[..n] + [gone[n]];
    forall x ensures Struck(x, gone[..n + 1]) <==>
                     Struck(x, gone[..n]) || (RegionTree.Contains(x, gone[n].start) && x.id == gone[n].id)
    {
      if Struck(x, gone[..n]) {
        var y :| y in gone[..n] && RegionTree.Contains(x, y.start) && x.id == y.id;
        assert y in gone[..n + 1];
      }
      assert gone[n] in gone[..n + 1];
    }
  }

  /** The old range of an id gives way to the new one without taking it along. */
  predicate Yields(was: Meta, region: Meta) {
    Overlaps(was, region) && !RegionTree.Contains(region, was.start)
  }

  /** Only the new range itself can be struck, by an old range of the same id. */
  lemma StruckIff(was: seq<Meta>, m: map<nat, RegionInfo>, region: Meta, x: Meta)
    requires TreeAgrees(was, m) && Keyed(m) && (x == region || (x in was && !Overlaps(x, region)))
    ensures Struck(x, Scan(was, region)) <==>
              x == region && region.id in m && Overlaps(m[region.id].meta, region)
              && RegionTree.Contains(region, m[region.id].meta.start)
  {
    ScanMembers(was, region);
    if x == region && region.id in m {
      assert m[region.id].meta in was;
    }
  }

  lemma NowAgrees(was: seq<Meta>, updated: seq<Meta>, items: seq<Meta>, m: map<nat, RegionInfo>, r: RegionInfo)
    requires TreeAgrees(was, m) && Keyed(m) && Ranged(r.meta)
    requires forall x :: x in updated <==> x == r.meta || (x in was && !Overlaps(x, r.meta))
    requires forall x :: x in items <==> x in updated && !Struck(x, Scan(was, r.meta))
    ensures TreeAgrees(items, Updated(m, r)) <==> (r.meta.id in m ==> Yields(m[r.meta.id].meta, r.meta))
  {
    forall x | x in updated
      ensures x in items <==> !(x == r.meta && r.meta.id in m && Overlaps(m[r.meta.id].meta, r.meta)
                                && RegionTree.Contains(r.meta, m[r.meta.id].meta.start))
    {
      StruckIff(was, m, r.meta, x);
    }
    assert Updated(m, r)[r.meta.id] == r;
    SelfOverlap(r.meta);
    if r.meta.id in m && !Overlaps(m[r.meta.id].meta, r.meta) {
      assert m[r.meta.id].meta in items;
    }
  }

  lemma SelfOverlap(x: Meta)
    requires Ranged(x)
    ensures Overlaps(x, x)
  {
    Irreflexive(x.start);
  }
}
