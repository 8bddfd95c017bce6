/** The builders that move a region, a peer or a leader to given stores, or remove a peer. */
module MoveRegion {
  import opened Options
  import opened OperatorSteps

  // ---------------------------------------------------------------------------------------
  // CreateMoveRegionOperator

  /** Add steps for the stores of the list that hold no peer yet. */
  function AddAll(order: seq<nat>, present: set<nat>, alloc: map<nat, nat>, learners: bool): seq<Step>
    requires forall s :: s in order && s !in present ==> s in alloc
  {
    if order == [] then []
    else
      var init, id := order[..|order| - 1], order[|order| - 1];
      AddAll(init, present, alloc, learners) + if id in present then [] else AddSteps(id, alloc[id], learners)
  }

  predicate IsLeader(r: Region, p: Peer) {
    r.leader.Some? && r.leader.value.id == p.id
  }

  /** Removal steps for the peers outside keep; the leader first hands over to the store to. */
  function RemoveAll(r: Region, peers: seq<Peer>, keep: set<nat>, to: Option<nat>): seq<Step> {
    if peers == [] then []
    else
      var init, p := peers[..|peers| - 1], peers[|peers| - 1];
      RemoveAll(r, init, keep, to) + if p.store in keep then [] else RemoveSteps(r, p, to)
  }

  function RemoveSteps(r: Region, p: Peer, to: Option<nat>): seq<Step> {
    (if IsLeader(r, p) && to.Some? then [TransferLeader(p.store, to.value)] else []) + [RemovePeer(p.store)]
  }

  /** The first loop: add missing peers. */
  method AddMissing(region: Region, order: seq<nat>, alloc: map<nat, nat>, learners: bool)
    returns (ok: bool, steps: seq<Step>)
    ensures ok <==> forall s :: s in order && s !in Stores(region.peers) ==> s in alloc
    ensures ok ==> steps == AddAll(order, Stores(region.peers), alloc, learners)
  {
    steps := [];
    ghost var present := Stores(region.peers);
    for i := 0 to |order|
      invariant forall s :: s in order[..i] && s !in present ==> s in alloc
      invariant steps == AddAll(order[..i], present, alloc, learners)
    {
      var id := order[i];
      assert order[..i + 1][..i] == order[..i];
      if exists p :: p in region.peers && p.store == id {
        assert id in present;
        continue;
      }
      assert id !in present;
      if id !in alloc {
        return false, [];
      }
      steps := steps + AddSteps(id, alloc[id], learners);
    }
    assert order[..|order|] == order;
    ok := true;
  }

  lemma RemoveAllNext(r: Region, i: nat, keep: set<nat>, to: Option<nat>)
    requires i < |r.peers|
    ensures var peer, so := r.peers[i], RemoveAll(r, r.peers[..i], keep, to);
            var next := RemoveAll(r, r.peers[..i + 1], keep, to);
            if peer.store in keep then next == so
            else if IsLeader(r, peer) && to.Some? then
              next == so + [TransferLeader(peer.store, to.value)] + [RemovePeer(peer.store)]
            else next == so + [RemovePeer(peer.store)]
  {
    assert r.peers[..i + 1][..i] == r.peers[..i];
  }

  /** The second loop: remove redundant peers. */
  method RemoveRedundant(region: Region, storeIDs: set<nat>, to: Option<nat>) returns (steps: seq<Step>)
    ensures steps == RemoveAll(region, region.peers, storeIDs, to)
  {
    steps := [];
    for i := 0 to |region.peers|
      invariant steps == RemoveAll(region, region.peers[..i], storeIDs, to)
    {
      var peer := region.peers[i];
      RemoveAllNext(region, i, storeIDs, to);
      if peer.store in storeIDs {
        continue;
      }
      if IsLeader(region, peer) && to.Some? {
        steps := steps + [TransferLeader(peer.store, to.value)];
      }
      steps := steps + [RemovePeer(peer.store)];
    }
    assert region.peers[..|region.peers|] == region.peers;
  }

  /**
    CreateMoveRegionOperator. order is the first iteration order over storeIDs and to the first
    store of the second iteration; alloc holds the stores where AllocPeer succeeds.
  */
  method CreateMoveRegionOperator(region: Region, storeIDs: set<nat>, order: seq<nat>, to: Option<nat>,
                                  alloc: map<nat, nat>, learners: bool)
    returns (r: Option<seq<Step>>)
    requires DistinctSeq(order) && forall s :: s in order <==> s in storeIDs
    requires to.Some? ==> to.value in storeIDs
    requires to.None? ==> storeIDs == {}
    ensures r.None? <==> exists s :: s in storeIDs && s !in Stores(region.peers) && s !in alloc
    ensures r.Some? ==> (forall s :: s in order && s !in Stores(region.peers) ==> s in alloc)
    ensures r.Some? ==> r.value == AddAll(order, Stores(region.peers), alloc, learners)
                                   + RemoveAll(region, region.peers, storeIDs, to)
  {
    var ok, adds := AddMissing(region, order, alloc, learners);
    if !ok {
      return None;
    }
    var removes := RemoveRedundant(region, storeIDs, to);
    return Some(adds + removes);
  }

  // ---------------------------------------------------------------------------------------
  // Its program is safe

  /** The stores once the peers of the list are added. */
  function Added(stores: set<nat>, order: seq<nat>): set<nat> {
    if order == [] then stores else Added(stores, order[..|order| - 1]) + {order[|order| - 1]}
  }

  lemma {:induction false} AddedAre(stores: set<nat>, order: seq<nat>)
    ensures forall s :: s in Added(stores, order) <==> s in stores || s in order
  {
    if order != [] {
      AddedAre(stores, order[..|order| - 1]);
      assert order == order[..|order| - 1] + [order[|order| - 1]];
    }
  }

  lemma SmallerSet(a: set<nat>, b: set<nat>, x: nat)
    requires a <= b && x in b && x !in a
    ensures |a| < |b|
  {
    assert b == a + (b - a);
    assert x in b - a;
  }

  /** The last store of the list is free until its turn, and there is room for it. */
  lemma AddedLast(stores: set<nat>, order: seq<nat>, all: set<nat>)
    requires order != [] && DistinctSeq(order) && order[|order| - 1] !in stores
    requires stores <= all && (forall s :: s in order ==> s in all)
    ensures var before := Added(stores, order[..|order| - 1]);
            order[|order| - 1] !in before && |stores| <= |before| < |all|
  {
    var init, id := order[..|order| - 1], order[|order| - 1];
    assert order == init + [id];
    AddedAre(stores, init);
    assert id in order && id !in init;
    SmallerSet(Added(stores, init), all, id);
    Monotone(stores, Added(stores, init));
  }

  /** The voters once the peers of the list are added: whatever is new votes. */
  function AddedVoters(stores: set<nat>, voters: set<nat>, order: seq<nat>): set<nat> {
    voters + (Added(stores, order) - stores)
  }

  lemma AddedVotersNext(stores: set<nat>, voters: set<nat>, order: seq<nat>)
    requires order != []
    ensures var init, id := order[..|order| - 1], order[|order| - 1];
            if id in stores
            then && Added(stores, order) == Added(stores, init)
                 && AddedVoters(stores, voters, order) == AddedVoters(stores, voters, init)
            else AddedVoters(stores, voters, order) == AddedVoters(stores, voters, init) + {id}
  {
    AddedAre(stores, order[..|order| - 1]);
  }

  /** The first loop has added the stores of the list. */
  ghost predicate AddedBy(p: Placement, lo: nat, hi: nat, stores: set<nat>, voters: set<nat>, leader: nat,
                          order: seq<nat>, alloc: map<nat, nat>, learners: bool)
    requires forall s :: s in order && s !in stores ==> s in alloc
  {
    Reaches(p, AddAll(order, stores, alloc, learners), lo, hi, Added(stores, order), AddedVoters(stores, voters, order),
            leader)
  }

  lemma AddRound(p: Placement, lo: nat, hi: nat, stores: set<nat>, voters: set<nat>, leader: nat,
                 order: seq<nat>, alloc: map<nat, nat>, learners: bool)
    requires order != [] && (forall s :: s in order && s !in stores ==> s in alloc) && lo <= |voters|
    requires var init, id := order[..|order| - 1], order[|order| - 1];
             && AddedBy(p, lo, hi, stores, voters, leader, init, alloc, learners)
             && (id !in stores ==> id !in Added(stores, init) && |Added(stores, init)| < hi)
    ensures AddedBy(p, lo, hi, stores, voters, leader, order, alloc, learners)
  {
    var init, id := order[..|order| - 1], order[|order| - 1];
    var steps := AddAll(init, stores, alloc, learners);
    AddedVotersNext(stores, voters, order);
    if id in stores {
      assert steps + [] == steps;
    } else {
      assert id in order;
      Monotone(voters, AddedVoters(stores, voters, init));
      ReachAdd(p, steps, lo, hi, Added(stores, init), AddedVoters(stores, voters, init), leader, id, alloc[id],
               learners);
    }
  }

  lemma {:induction false} AddAllReaches(p: Placement, lo: nat, hi: nat, stores: set<nat>, voters: set<nat>,
                                         leader: nat, order: seq<nat>, alloc: map<nat, nat>, learners: bool,
                                         all: set<nat>)
    requires Reaches(p, [], lo, hi, stores, voters, leader) && lo <= |voters|
    requires forall s :: s in order && s !in stores ==> s in alloc
    requires DistinctSeq(order) && stores <= all && (forall s :: s in order ==> s in all) && |all| <= hi
    ensures AddedBy(p, lo, hi, stores, voters, leader, order, alloc, learners)
  {
    if order == [] {
      assert AddedVoters(stores, voters, []) == voters;
    } else {
      AddAllReaches(p, lo, hi, stores, voters, leader, order[..|order| - 1], alloc, learners, all);
      if order[|order| - 1] !in stores {
        AddedLast(stores, order, all);
      }
      AddRound(p, lo, hi, stores, voters, leader, order, alloc, learners);
    }
  }

  /** The stores left once the peers of the list outside keep are removed. */
  function Left(stores: set<nat>, peers: seq<Peer>, keep: set<nat>): set<nat> {
    if peers == [] then stores
    else
      var store := peers[|peers| - 1].store;
      Left(stores, peers[..|peers| - 1], keep) - if store in keep then {} else {store}
  }

  lemma {:induction false} LeftAre(stores: set<nat>, peers: seq<Peer>, keep: set<nat>)
    ensures forall s :: s in Left(stores, peers, keep) <==> s in stores && (s in keep || s !in Stores(peers))
  {
    if peers != [] {
      var init, p := peers[..|peers| - 1], peers[|peers| - 1];
      assert peers == init + [p];
      LeftAre(stores, init, keep);
      StoresSnoc(init, p);
    }
  }

  /** The store that leads once the peers of the list are handled. */
  function LeadsAfter(r: Region, peers: seq<Peer>, keep: set<nat>, to: nat): nat
    requires r.leader.Some?
  {
    if peers == [] then r.leader.value.store
    else
      var p := peers[|peers| - 1];
      if p.store !in keep && IsLeader(r, p) then to else LeadsAfter(r, peers[..|peers| - 1], keep, to)
  }

  /** Some peer of the list is the leader and has to go. */
  ghost predicate LeaderGoes(r: Region, peers: seq<Peer>, keep: set<nat>) {
    exists i :: 0 <= i < |peers| && peers[i].store !in keep && IsLeader(r, peers[i])
  }

  lemma {:induction false} LeadsAfterIs(r: Region, peers: seq<Peer>, keep: set<nat>, to: nat)
    requires r.leader.Some?
    ensures LeadsAfter(r, peers, keep, to) == if LeaderGoes(r, peers, keep) then to else r.leader.value.store
  {
    if peers != [] {
      var init, p := peers[..|peers| - 1], peers[|peers| - 1];
      LeadsAfterIs(r, init, keep, to);
      if LeaderGoes(r, init, keep) {
        var i :| 0 <= i < |init| && init[i].store !in keep && IsLeader(r, init[i]);
        assert peers[i] == init[i];
      }
    }
  }

  /** One round of the removal loop, for a peer that has to go. */
  lemma RemoveOne(p: Placement, steps: seq<Step>, so: seq<Step>, lo: nat, hi: nat, stores: set<nat>, voters: set<nat>,
                  leader: nat, store: nat, hands: bool, to: nat)
    requires Reaches(p, steps + so, lo, hi, stores, voters, leader) && store in stores
    requires lo <= |voters - {store}| && |stores| <= hi
    requires hands ==> leader == store && to in voters && to != store
    requires !hands ==> leader != store
    ensures var more := (if hands then [TransferLeader(store, to)] else []) + [RemovePeer(store)];
            Reaches(p, steps + (so + more), lo, hi, stores - {store}, voters - {store}, if hands then to else leader)
  {
    Monotone(voters - {store}, voters);
    if hands {
      ReachTransfer(p, steps + so, lo, hi, stores, voters, leader, leader, to);
      ReachRemove(p, steps + so + [TransferLeader(store, to)], lo, hi, stores, voters, to, store);
      assert steps + so + [TransferLeader(store, to)] + [RemovePeer(store)]
        == steps + (so + ([TransferLeader(store, to)] + [RemovePeer(store)]));
    } else {
      ReachRemove(p, steps + so, lo, hi, stores, voters, leader, store);
      assert steps + so + [RemovePeer(store)] == steps + (so + ([] + [RemovePeer(store)]));
    }
  }

  /** The peer can go next: it leads exactly if it is the leader, and enough voters stay without it. */
  ghost predicate CanGo(r: Region, i: nat, all: set<nat>, voters: set<nat>, keep: set<nat>, to: nat, lo: nat)
    requires r.leader.Some? && i < |r.peers|
  {
    var before, store := Left(all, r.peers[..i], keep), r.peers[i].store;
    && store in before && |before| <= |all| && to != store
    && lo <= |Left(voters, r.peers[..i], keep) - {store}|
    && (LeadsAfter(r, r.peers[..i], keep, to) == store <==> IsLeader(r, r.peers[i]))
    && (to in voters ==> to in Left(voters, r.peers[..i], keep))
  }

  lemma NextToGo(r: Region, i: nat, all: set<nat>, voters: set<nat>, keep: set<nat>, to: nat, lo: nat)
    requires WellFormed(r) && DistinctIds(r.peers) && i < |r.peers| && r.peers[i].store !in keep
    requires to in keep && keep <= all && Stores(r.peers) <= all && lo <= |voters * keep|
    ensures CanGo(r, i, all, voters, keep, to, lo)
  {
    var before, store := Left(all, r.peers[..i], keep), r.peers[i].store;
    LeftAre(all, r.peers[..i], keep);
    LeftAre(voters, r.peers[..i], keep);
    assert store in Stores(r.peers);
    assert store !in Stores(r.peers[..i]);
    Monotone(before, all);
    Monotone(voters * keep, Left(voters, r.peers[..i], keep) - {store});
    LeadsAfterIs(r, r.peers[..i], keep, to);
    var l :| 0 <= l < |r.peers| && r.peers[l] == r.leader.value;
    if IsLeader(r, r.peers[i]) {
      assert l == i;
    }
  }

  /** The leader's peer does not go in the first i rounds. */
  ghost predicate LeaderWaits(r: Region, i: nat, keep: set<nat>)
    requires i <= |r.peers|
  {
    forall k :: 0 <= k < i && r.peers[k].store !in keep ==> !IsLeader(r, r.peers[k])
  }

  /** The first i rounds of the removal loop have run. */
  ghost predicate Removed(p: Placement, steps: seq<Step>, lo: nat, hi: nat, r: Region, i: nat, all: set<nat>,
                          voters: set<nat>, keep: set<nat>, to: nat)
    requires r.leader.Some? && i <= |r.peers|
  {
    Reaches(p, steps + RemoveAll(r, r.peers[..i], keep, Some(to)), lo, hi, Left(all, r.peers[..i], keep),
            Left(voters, r.peers[..i], keep), LeadsAfter(r, r.peers[..i], keep, to))
  }

  lemma RemovedNext(p: Placement, steps: seq<Step>, lo: nat, hi: nat, r: Region, i: nat, all: set<nat>,
                    voters: set<nat>, keep: set<nat>, to: nat)
    requires r.leader.Some? && i < |r.peers| && |all| <= hi
    requires r.peers[i].store !in keep ==> CanGo(r, i, all, voters, keep, to, lo)
    requires to in voters || LeaderWaits(r, i + 1, keep)
    requires Removed(p, steps, lo, hi, r, i, all, voters, keep, to)
    ensures Removed(p, steps, lo, hi, r, i + 1, all, voters, keep, to)
  {
    RemoveUnfold(r, i, all, voters, keep, to);
    var peer := r.peers[i];
    RemoveRound(p, steps, lo, hi, RemoveAll(r, r.peers[..i], keep, Some(to)), Left(all, r.peers[..i], keep),
                Left(voters, r.peers[..i], keep), LeadsAfter(r, r.peers[..i], keep, to), peer.store in keep, peer.store,
                IsLeader(r, peer), to, RemoveSteps(r, peer, Some(to)), RemoveAll(r, r.peers[..i + 1], keep, Some(to)),
                Left(all, r.peers[..i + 1], keep), Left(voters, r.peers[..i + 1], keep),
                LeadsAfter(r, r.peers[..i + 1], keep, to));
  }

  ghost predicate AllCanGo(r: Region, all: set<nat>, voters: set<nat>, keep: set<nat>, to: nat, lo: nat)
    requires r.leader.Some?
  {
    forall k :: 0 <= k < |r.peers| && r.peers[k].store !in keep ==> CanGo(r, k, all, voters, keep, to, lo)
  }

  lemma NoneRemoved(p: Placement, steps: seq<Step>, lo: nat, hi: nat, r: Region, all: set<nat>, voters: set<nat>,
                    keep: set<nat>, to: nat)
    requires r.leader.Some? && Reaches(p, steps, lo, hi, all, voters, LeaderStore(r))
    ensures Removed(p, steps, lo, hi, r, 0, all, voters, keep, to)
  {
    assert steps + [] == steps;
  }

  /** All rounds, or those before the one in which the leader's peer goes. */
  lemma {:induction false} RemoveAllReaches(p: Placement, steps: seq<Step>, lo: nat, hi: nat, r: Region, i: nat,
                                            all: set<nat>, voters: set<nat>, keep: set<nat>, to: nat)
    requires r.leader.Some? && i <= |r.peers| && |all| <= hi && AllCanGo(r, all, voters, keep, to, lo)
    requires to in voters || LeaderWaits(r, i, keep)
    requires Removed(p, steps, lo, hi, r, 0, all, voters, keep, to)
    ensures Removed(p, steps, lo, hi, r, i, all, voters, keep, to)
  {
    if i > 0 {
      RemoveAllReaches(p, steps, lo, hi, r, i - 1, all, voters, keep, to);
      RemovedNext(p, steps, lo, hi, r, i - 1, all, voters, keep, to);
    }
  }

  /** One round of the removal loop, for any peer. */
  lemma RemoveRound(p: Placement, steps: seq<Step>, lo: nat, hi: nat, so: seq<Step>, stores: set<nat>, voters: set<nat>,
                    leader: nat, kept: bool, store: nat, hands: bool, to: nat, more: seq<Step>,
                    so': seq<Step>, stores': set<nat>, voters': set<nat>, leader': nat)
    requires Reaches(p, steps + so, lo, hi, stores, voters, leader)
    requires !kept ==> store in stores && lo <= |voters - {store}| && |stores| <= hi && (leader == store <==> hands)
    requires !kept && hands ==> to in voters && to != store
    requires more == (if hands then [TransferLeader(store, to)] else []) + [RemovePeer(store)]
    requires so' == (if kept then so else so + more)
    requires stores' == (if kept then stores else stores - {store})
    requires voters' == (if kept then voters else voters - {store}) && leader' == if !kept && hands then to else leader
    ensures Reaches(p, steps + so', lo, hi, stores', voters', leader')
  {
    if !kept {
      RemoveOne(p, steps, so, lo, hi, stores, voters, leader, store, hands, to);
    }
  }

  lemma RemoveUnfold(r: Region, i: nat, all: set<nat>, voters: set<nat>, keep: set<nat>, to: nat)
    requires r.leader.Some? && i < |r.peers|
    ensures var so, peer, kept := RemoveAll(r, r.peers[..i], keep, Some(to)), r.peers[i], r.peers[i].store in keep;
            && RemoveAll(r, r.peers[..i + 1], keep, Some(to))
               == (if kept then so else so + RemoveSteps(r, peer, Some(to)))
            && Left(all, r.peers[..i + 1], keep)
               == (if kept then Left(all, r.peers[..i], keep) else Left(all, r.peers[..i], keep) - {peer.store})
            && Left(voters, r.peers[..i + 1], keep)
               == (if kept then Left(voters, r.peers[..i], keep) else Left(voters, r.peers[..i], keep) - {peer.store})
            && LeadsAfter(r, r.peers[..i + 1], keep, to)
               == if !kept && IsLeader(r, peer) then to else LeadsAfter(r, r.peers[..i], keep, to)
  {
    assert r.peers[..i + 1][..i] == r.peers[..i];
  }

  function Min(a: nat, b: nat): nat {
    if a < b then a else b
  }

  function MoveRegionProgram(region: Region, storeIDs: set<nat>, order: seq<nat>, to: nat, alloc: map<nat, nat>,
                             learners: bool)
    : seq<Step>
    requires forall s :: s in order && s !in Stores(region.peers) ==> s in alloc
  {
    AddAll(order, Stores(region.peers), alloc, learners) + RemoveAll(region, region.peers, storeIDs, Some(to))
  }

  /** The program is safe, with no fewer voters than at the start or the end, and ends on exactly the given stores. */
  ghost predicate Moves(region: Region, storeIDs: set<nat>, to: nat, steps: seq<Step>) {
    Reaches(Placed(region), steps, Min(|VoterStores(region.peers)|, |MovedVoters(region, storeIDs)|),
            |Stores(region.peers) + storeIDs|, storeIDs, MovedVoters(region, storeIDs),
            if LeaderStore(region) in storeIDs then LeaderStore(region) else to)
  }

  /** The leader stays, or it hands over to a store that will vote. */
  predicate HandsToVoter(region: Region, storeIDs: set<nat>, to: nat) {
    LeaderStore(region) in storeIDs || to in MovedVoters(region, storeIDs)
  }

  /**
    Moving a region to any non-empty set of stores: if the leader stays or hands over to a voter,
    every step is safe, the region never has fewer voters than it starts or ends with, and it ends
    on exactly those stores; if it hands over to a learner, the program is safe within no bounds.
  */
  lemma MoveRegionSafe(region: Region, storeIDs: set<nat>, order: seq<nat>, to: nat, alloc: map<nat, nat>,
                       learners: bool)
    requires WellFormed(region) && DistinctIds(region.peers)
    requires DistinctSeq(order) && (forall s :: s in order <==> s in storeIDs) && to in storeIDs
    requires forall s :: s in order && s !in Stores(region.peers) ==> s in alloc
    ensures var steps := MoveRegionProgram(region, storeIDs, order, to, alloc, learners);
            && (Moves(region, storeIDs, to, steps) <==> HandsToVoter(region, storeIDs, to))
            && (!HandsToVoter(region, storeIDs, to) ==> forall lo: nat, hi: nat :: !Runs(Placed(region), steps, lo, hi))
  {
    var steps := MoveRegionProgram(region, storeIDs, order, to, alloc, learners);
    MoveRegionAdds(region, storeIDs, order, alloc, learners);
    if HandsToVoter(region, storeIDs, to) {
      MoveRegionRemoves(region, storeIDs, to, AddAll(order, Stores(region.peers), alloc, learners));
    } else {
      forall lo: nat, hi: nat ensures !Runs(Placed(region), steps, lo, hi) {
        MoveRegionUnsafe(region, storeIDs, to, AddAll(order, Stores(region.peers), alloc, learners), lo, hi);
      }
    }
  }

  /** The region before the removals: it is on the old and the new stores. */
  ghost predicate Extended(region: Region, storeIDs: set<nat>, steps: seq<Step>) {
    Reaches(Placed(region), steps, Min(|VoterStores(region.peers)|, |MovedVoters(region, storeIDs)|),
            |Stores(region.peers) + storeIDs|, Stores(region.peers) + storeIDs,
            VoterStores(region.peers) + (storeIDs - Stores(region.peers)), LeaderStore(region))
  }

  lemma MoveRegionAdds(region: Region, storeIDs: set<nat>, order: seq<nat>, alloc: map<nat, nat>, learners: bool)
    requires WellFormed(region) && DistinctSeq(order) && (forall s :: s in order <==> s in storeIDs)
    requires forall s :: s in order && s !in Stores(region.peers) ==> s in alloc
    ensures Extended(region, storeIDs, AddAll(order, Stores(region.peers), alloc, learners))
  {
    var s, v := Stores(region.peers), VoterStores(region.peers);
    var lo, all := Min(|v|, |MovedVoters(region, storeIDs)|), s + storeIDs;
    StoresCount(region.peers);
    Monotone(s, all);
    ReachStart(region, lo, |all|);
    AddAllReaches(Placed(region), lo, |all|, s, v, LeaderStore(region), order, alloc, learners, all);
    AddedAll(s, v, order, storeIDs);
  }

  lemma AddedAll(stores: set<nat>, voters: set<nat>, order: seq<nat>, storeIDs: set<nat>)
    requires forall s :: s in order <==> s in storeIDs
    ensures Added(stores, order) == stores + storeIDs
    ensures AddedVoters(stores, voters, order) == voters + (storeIDs - stores)
  {
    AddedAre(stores, order);
    assert Added(stores, order) == stores + storeIDs;
  }

  lemma MoveRegionReady(region: Region, storeIDs: set<nat>, to: nat, lo: nat)
    requires WellFormed(region) && DistinctIds(region.peers) && to in storeIDs && lo <= |MovedVoters(region, storeIDs)|
    ensures var all := Stores(region.peers) + storeIDs;
            var voters := VoterStores(region.peers) + (storeIDs - Stores(region.peers));
            AllCanGo(region, all, voters, storeIDs, to, lo)
  {
    var all, voters := Stores(region.peers) + storeIDs, VoterStores(region.peers) + (storeIDs - Stores(region.peers));
    assert voters * storeIDs == MovedVoters(region, storeIDs);
    forall k | 0 <= k < |region.peers| && region.peers[k].store !in storeIDs
      ensures CanGo(region, k, all, voters, storeIDs, to, lo)
    {
      NextToGo(region, k, all, voters, storeIDs, to, lo);
    }
  }

  /** The second half: from all stores down to the given ones. */
  lemma MoveRegionRemoves(region: Region, storeIDs: set<nat>, to: nat, steps: seq<Step>)
    requires WellFormed(region) && DistinctIds(region.peers) && to in storeIDs && HandsToVoter(region, storeIDs, to)
    requires Extended(region, storeIDs, steps)
    ensures Moves(region, storeIDs, to, steps + RemoveAll(region, region.peers, storeIDs, Some(to)))
  {
    var all, voters := Stores(region.peers) + storeIDs, VoterStores(region.peers) + (storeIDs - Stores(region.peers));
    var lo := Min(|VoterStores(region.peers)|, |MovedVoters(region, storeIDs)|);
    MoveRegionReady(region, storeIDs, to, lo);
    WholeList(region);
    LeaderGoesIff(region, storeIDs);
    NoneRemoved(Placed(region), steps, lo, |all|, region, all, voters, storeIDs, to);
    RemoveAllReaches(Placed(region), steps, lo, |all|, region, |region.peers|, all, voters, storeIDs, to);
    MoveRegionEnds(region, storeIDs, to);
  }

  lemma WholeList(region: Region)
    ensures region.peers[..|region.peers|] == region.peers
  {
  }

  lemma LeaderGoesIff(region: Region, keep: set<nat>)
    requires WellFormed(region) && DistinctIds(region.peers)
    ensures LeaderGoes(region, region.peers, keep) <==> LeaderStore(region) !in keep
    ensures LeaderStore(region) in keep ==> LeaderWaits(region, |region.peers|, keep)
  {
    var l :| 0 <= l < |region.peers| && region.peers[l] == region.leader.value;
    assert IsLeader(region, region.peers[l]);
    if LeaderGoes(region, region.peers, keep) {
      var k :| 0 <= k < |region.peers| && region.peers[k].store !in keep && IsLeader(region, region.peers[k]);
      assert k == l;
    }
  }

  lemma MoveRegionEnds(region: Region, storeIDs: set<nat>, to: nat)
    requires WellFormed(region) && DistinctIds(region.peers)
    ensures Left(Stores(region.peers) + storeIDs, region.peers, storeIDs) == storeIDs
    ensures Left(VoterStores(region.peers) + (storeIDs - Stores(region.peers)), region.peers, storeIDs)
            == MovedVoters(region, storeIDs)
    ensures LeadsAfter(region, region.peers, storeIDs, to)
            == if LeaderStore(region) in storeIDs then LeaderStore(region) else to
  {
    LeftAre(Stores(region.peers) + storeIDs, region.peers, storeIDs);
    LeftAre(VoterStores(region.peers) + (storeIDs - Stores(region.peers)), region.peers, storeIDs);
    assert VoterStores(region.peers) <= Stores(region.peers);
    LeadsAfterIs(region, region.peers, storeIDs, to);
    LeaderGoesIff(region, storeIDs);
  }

  lemma Join(a: seq<Step>, b: seq<Step>, c: seq<Step>)
    ensures a + b + c == a + (b + c)
  {
  }

  /** The removal loop only appends. */
  lemma RemoveAppends(r: Region, i: nat, keep: set<nat>, to: nat) returns (more: seq<Step>)
    requires i < |r.peers|
    ensures RemoveAll(r, r.peers[..i + 1], keep, Some(to)) == RemoveAll(r, r.peers[..i], keep, Some(to)) + more
    ensures r.peers[i].store !in keep && IsLeader(r, r.peers[i]) ==>
              more == [TransferLeader(r.peers[i].store, to)] + [RemovePeer(r.peers[i].store)]
  {
    assert r.peers[..i + 1][..i] == r.peers[..i];
    more := if r.peers[i].store in keep then [] else RemoveSteps(r, r.peers[i], Some(to));
  }

  lemma PrefixGrows(a: seq<Step>, b: seq<Step>, more: seq<Step>)
    requires a <= b
    ensures a <= b + more
  {
  }

  lemma {:induction false} RemoveAllGrows(r: Region, i: nat, j: nat, keep: set<nat>, to: nat)
    requires i <= j <= |r.peers|
    ensures RemoveAll(r, r.peers[..i], keep, Some(to)) <= RemoveAll(r, r.peers[..j], keep, Some(to))
    decreases j - i
  {
    if i < j {
      RemoveAllGrows(r, i, j - 1, keep, to);
      var more := RemoveAppends(r, j - 1, keep, to);
      PrefixGrows(RemoveAll(r, r.peers[..i], keep, Some(to)), RemoveAll(r, r.peers[..j - 1], keep, Some(to)), more);
    }
  }

  /** The removals, split where the leader's peer goes. */
  lemma SplitRemovals(r: Region, l: nat, keep: set<nat>, to: nat) returns (rest: seq<Step>)
    requires l < |r.peers| && r.peers[l].store !in keep && IsLeader(r, r.peers[l])
    ensures RemoveAll(r, r.peers, keep, Some(to))
            == RemoveAll(r, r.peers[..l], keep, Some(to)) + ([TransferLeader(r.peers[l].store, to)] + rest)
  {
    var more := RemoveAppends(r, l, keep, to);
    RemoveAllGrows(r, l + 1, |r.peers|, keep, to);
    WholeList(r);
    rest := SplitPrefix(RemoveAll(r, r.peers[..l], keep, Some(to)), [TransferLeader(r.peers[l].store, to)],
                        [RemovePeer(r.peers[l].store)], RemoveAll(r, r.peers, keep, Some(to)));
  }

  lemma SplitPrefix(a: seq<Step>, b: seq<Step>, c: seq<Step>, whole: seq<Step>) returns (rest: seq<Step>)
    requires a + (b + c) <= whole
    ensures whole == a + (b + rest)
  {
    rest := whole[|a| + |b|..];
    assert whole[..|a| + |b|] == a + b;
  }

  /** The rounds before the leader's turn. */
  lemma MoveRegionUntil(region: Region, storeIDs: set<nat>, to: nat, steps: seq<Step>, l: nat)
    requires WellFormed(region) && DistinctIds(region.peers) && to in storeIDs && !HandsToVoter(region, storeIDs, to)
    requires l < |region.peers| && region.peers[l] == region.leader.value && Extended(region, storeIDs, steps)
    ensures to !in Voters(Exec(Placed(region), steps + RemoveAll(region, region.peers[..l], storeIDs, Some(to))))
  {
    var all, voters := Stores(region.peers) + storeIDs, VoterStores(region.peers) + (storeIDs - Stores(region.peers));
    var least := Min(|VoterStores(region.peers)|, |MovedVoters(region, storeIDs)|);
    MoveRegionReady(region, storeIDs, to, least);
    assert LeaderWaits(region, l, storeIDs);
    NoneRemoved(Placed(region), steps, least, |all|, region, all, voters, storeIDs, to);
    RemoveAllReaches(Placed(region), steps, least, |all|, region, l, all, voters, storeIDs, to);
    LeftAre(voters, region.peers[..l], storeIDs);
  }

  /** The leader's peer goes after a transfer to a learner. */
  lemma MoveRegionUnsafe(region: Region, storeIDs: set<nat>, to: nat, steps: seq<Step>, lo: nat, hi: nat)
    requires WellFormed(region) && DistinctIds(region.peers) && to in storeIDs && !HandsToVoter(region, storeIDs, to)
    requires Extended(region, storeIDs, steps)
    ensures !Runs(Placed(region), steps + RemoveAll(region, region.peers, storeIDs, Some(to)), lo, hi)
  {
    var l :| 0 <= l < |region.peers| && region.peers[l] == region.leader.value;
    var so, store := RemoveAll(region, region.peers[..l], storeIDs, Some(to)), region.peers[l].store;
    MoveRegionUntil(region, storeIDs, to, steps, l);
    var rest := SplitRemovals(region, l, storeIDs, to);
    Join(steps, so, [TransferLeader(store, to)] + rest);
    BadTransfer(Placed(region), steps + so, store, to, rest, lo, hi);
  }

  /** A program without transfers that removes the leader's peer is not safe. */
  lemma {:induction false} NoTransferNoRemoval(p: Placement, steps: seq<Step>, i: nat, lo: nat, hi: nat)
    requires i < |steps| && steps[i] == RemovePeer(p.leader)
    requires forall k :: 0 <= k < |steps| ==> steps[k].RemovePeer?
    ensures !Runs(p, steps, lo, hi)
    decreases |steps|
  {
    if i > 0 && Allowed(p, steps[0]) {
      assert steps[1..][i - 1] == RemovePeer(p.leader);
      NoTransferNoRemoval(Apply(p, steps[0]), steps[1..], i - 1, lo, hi);
    }
  }

  lemma {:induction false} RemoveEvery(r: Region, peers: seq<Peer>)
    ensures |RemoveAll(r, peers, {}, None)| == |peers|
    ensures forall i :: 0 <= i < |peers| ==> RemoveAll(r, peers, {}, None)[i] == RemovePeer(peers[i].store)
  {
    if peers != [] {
      RemoveEvery(r, peers[..|peers| - 1]);
    }
  }

  /** The condition of MoveRegionSafe is needed: with no store to go to, the leader is removed. */
  lemma MoveNowhereUnsafe(region: Region, lo: nat, hi: nat)
    requires WellFormed(region)
    ensures !Runs(Placed(region), RemoveAll(region, region.peers, {}, None), lo, hi)
  {
    RemoveEvery(region, region.peers);
    LeaderIndex(region);
    UnsafeRemovals(Placed(region), region.peers, RemoveAll(region, region.peers, {}, None), lo, hi);
  }

  lemma LeaderIndex(region: Region)
    requires WellFormed(region)
    ensures exists l :: 0 <= l < |region.peers| && region.peers[l].store == Placed(region).leader
  {
    var l :| 0 <= l < |region.peers| && region.peers[l] == region.leader.value;
    assert region.peers[l].store == Placed(region).leader;
  }

  lemma UnsafeRemovals(p: Placement, peers: seq<Peer>, steps: seq<Step>, lo: nat, hi: nat)
    requires |steps| == |peers| && forall i :: 0 <= i < |peers| ==> steps[i] == RemovePeer(peers[i].store)
    requires exists l :: 0 <= l < |peers| && peers[l].store == p.leader
    ensures !Runs(p, steps, lo, hi)
  {
    var l :| 0 <= l < |peers| && peers[l].store == p.leader;
    NoTransferNoRemoval(p, steps, l, lo, hi);
  }

  // ---------------------------------------------------------------------------------------
  // removePeerSteps and the builders on top of it

  /** The first store of the list that exists and does not reject leaders. */
  function FirstSuitable(ids: seq<nat>, suitable: set<nat>): (r: Option<nat>)
    ensures r.Some? ==> r.value in ids && r.value in suitable
    ensures r.None? ==> forall s :: s in ids ==> s !in suitable
  {
    if ids == [] then None
    else if ids[0] in suitable then Some(ids[0])
    else FirstSuitable(ids[1..], suitable)
  }

  /** removePeerSteps; None is the error that no follower can lead. */
  method RemovePeerSteps(region: Region, storeID: nat, followerIDs: seq<nat>, suitable: set<nat>)
    returns (r: Option<seq<Step>>)
    ensures r == RemovePeerProgram(region.leader.Some? && LeaderStore(region) == storeID, storeID, followerIDs,
                                   suitable)
  {
    var steps: seq<Step> := [];
    if region.leader.Some? && region.leader.value.store == storeID {
      for i := 0 to |followerIDs|
        invariant steps == []
        invariant FirstSuitable(followerIDs, suitable) == FirstSuitable(followerIDs[i..], suitable)
      {
        if followerIDs[i] in suitable {
          steps := [TransferLeader(storeID, followerIDs[i])];
          break;
        }
      }
      if steps == [] {
        return None;
      }
    }
    steps := steps + [RemovePeer(storeID)];
    return Some(steps);
  }

  function RemovePeerProgram(leads: bool, storeID: nat, followerIDs: seq<nat>, suitable: set<nat>): Option<seq<Step>> {
    if leads then
      match FirstSuitable(followerIDs, suitable)
      case None => None
      case Some(id) => Some([TransferLeader(storeID, id)] + [RemovePeer(storeID)])
    else Some([] + [RemovePeer(storeID)])
  }

  /** The stores of the voters that do not lead. */
  function Followers(region: Region): set<nat> {
    set i | 0 <= i < |region.peers| && !region.peers[i].learner && !IsLeader(region, region.peers[i])
      :: region.peers[i].store
  }

  /**
    removePeerSteps after a program that ended with the given leader; leads says that its store is the
    one to remove.
  */
  lemma RemovePeerReaches(p: Placement, steps: seq<Step>, lo: nat, hi: nat, stores: set<nat>, voters: set<nat>,
                          leader: nat, storeID: nat, ids: seq<nat>, suitable: set<nat>)
    requires Reaches(p, steps, lo, hi, stores, voters, leader) && leader in voters && storeID in stores
    requires lo <= |voters - {storeID}| && |stores| <= hi
    requires leader == storeID ==> forall s :: s in ids ==> s in voters && s != storeID
    requires RemovePeerProgram(leader == storeID, storeID, ids, suitable).Some?
    ensures var more := RemovePeerProgram(leader == storeID, storeID, ids, suitable).value;
            EndsWell(p, steps + more, lo, hi, stores - {storeID}, voters - {storeID})
  {
    var to := if leader == storeID then FirstSuitable(ids, suitable).value else leader;
    assert steps + [] == steps;
    RemoveOne(p, steps, [], lo, hi, stores, voters, leader, storeID, leader == storeID, to);
    var more := RemovePeerProgram(leader == storeID, storeID, ids, suitable).value;
    assert [] + more == more;
  }

  /** Safe, and it ends with peers and voters on exactly the given stores, one of the voters leading. */
  ghost predicate EndsWell(p: Placement, steps: seq<Step>, lo: nat, hi: nat, stores: set<nat>, voters: set<nat>) {
    exists leader :: leader in voters && Reaches(p, steps, lo, hi, stores, voters, leader)
  }

  lemma FollowersAre(region: Region)
    requires WellFormed(region) && DistinctIds(region.peers)
    ensures forall s :: s in Followers(region) ==> s in VoterStores(region.peers) && s != LeaderStore(region)
  {
    var l :| 0 <= l < |region.peers| && region.peers[l] == region.leader.value;
    forall s | s in Followers(region) ensures s in VoterStores(region.peers) && s != LeaderStore(region) {
      var i :| 0 <= i < |region.peers| && !region.peers[i].learner && !IsLeader(region, region.peers[i])
               && region.peers[i].store == s;
      assert i != l;
    }
  }

  /** CreateRemovePeerOperator: safe, one peer fewer, and a leader that stays. followerIDs lists the followers. */
  lemma RemovePeerSafe(region: Region, storeID: nat, followerIDs: seq<nat>, suitable: set<nat>)
    requires WellFormed(region) && DistinctIds(region.peers) && storeID in Stores(region.peers)
    requires forall s :: s in followerIDs <==> s in Followers(region)
    ensures var r := RemovePeerProgram(LeaderStore(region) == storeID, storeID, followerIDs, suitable);
            var voters := VoterStores(region.peers) - {storeID};
            && (r.None? <==> LeaderStore(region) == storeID && Followers(region) !! suitable)
            && (r.Some? ==> EndsWell(Placed(region), r.value, |voters|, |region.peers|,
                                     Stores(region.peers) - {storeID}, voters))
  {
    var r := RemovePeerProgram(LeaderStore(region) == storeID, storeID, followerIDs, suitable);
    var first := FirstSuitable(followerIDs, suitable);
    assert first.Some? ==> first.value in Followers(region) * suitable;
    if r.Some? {
      var lo, hi := |VoterStores(region.peers) - {storeID}|, |region.peers|;
      Monotone(VoterStores(region.peers) - {storeID}, VoterStores(region.peers));
      ReachStart(region, lo, hi);
      FollowersAre(region);
      RemovePeerReaches(Placed(region), [], lo, hi, Stores(region.peers), VoterStores(region.peers),
                        LeaderStore(region), storeID, followerIDs, suitable);
      assert [] + r.value == r.value;
    }
  }

  /** CreateMovePeerOperator */
  function MovePeerProgram(leads: bool, oldStore: nat, newStore: nat, peerID: nat, learners: bool,
                           followerIDs: seq<nat>, suitable: set<nat>): Option<seq<Step>> {
    match RemovePeerProgram(leads, oldStore, followerIDs + [newStore], suitable)
    case None => None
    case Some(steps) => Some(AddSteps(newStore, peerID, learners) + steps)
  }

  lemma MovePeerReaches(p: Placement, lo: nat, hi: nat, stores: set<nat>, voters: set<nat>, leader: nat,
                        oldStore: nat, newStore: nat, peerID: nat, learners: bool, ids: seq<nat>, suitable: set<nat>)
    requires Reaches(p, [], lo, hi, stores, voters, leader) && lo <= |voters| && |stores| < hi
    requires leader in voters && oldStore in stores && newStore !in stores
    requires leader == oldStore ==> forall s :: s in ids ==> s in voters && s != oldStore
    requires MovePeerProgram(leader == oldStore, oldStore, newStore, peerID, learners, ids, suitable).Some?
    ensures var steps := MovePeerProgram(leader == oldStore, oldStore, newStore, peerID, learners, ids, suitable).value;
            EndsWell(p, steps, lo, hi, stores + {newStore} - {oldStore}, voters + {newStore} - {oldStore})
  {
    var adds := AddSteps(newStore, peerID, learners);
    ReachVoters(p, [], lo, hi, stores, voters, leader);
    SwapCounts(stores, voters, newStore, oldStore);
    ReachAdd(p, [], lo, hi, stores, voters, leader, newStore, peerID, learners);
    assert [] + adds == adds;
    RemovePeerReaches(p, adds, lo, hi, stores + {newStore}, voters + {newStore}, leader, oldStore, ids + [newStore],
                      suitable);
  }

  /** Moving a peer to a store outside the region: safe, and only that peer's store changes. */
  lemma MovePeerSafe(region: Region, oldStore: nat, newStore: nat, peerID: nat, learners: bool,
                     followerIDs: seq<nat>, suitable: set<nat>)
    requires WellFormed(region) && DistinctIds(region.peers)
    requires oldStore in Stores(region.peers) && newStore !in Stores(region.peers)
    requires forall s :: s in followerIDs <==> s in Followers(region)
    ensures var r := MovePeerProgram(LeaderStore(region) == oldStore, oldStore, newStore, peerID, learners, followerIDs,
                                     suitable);
            && (r.None? <==> LeaderStore(region) == oldStore && Followers(region) + {newStore} !! suitable)
            && (r.Some? ==> EndsWell(Placed(region), r.value, |VoterStores(region.peers)|, |region.peers| + 1,
                                     Stores(region.peers) + {newStore} - {oldStore},
                                     VoterStores(region.peers) + {newStore} - {oldStore}))
  {
    var r := MovePeerProgram(LeaderStore(region) == oldStore, oldStore, newStore, peerID, learners, followerIDs,
                             suitable);
    var first := FirstSuitable(followerIDs + [newStore], suitable);
    assert first.Some? ==> first.value in (Followers(region) + {newStore}) * suitable;
    assert forall s :: s in followerIDs + [newStore] <==> s in Followers(region) + {newStore};
    if r.Some? {
      var lo, hi := |VoterStores(region.peers)|, |region.peers| + 1;
      ReachStart(region, lo, hi);
      FollowersAre(region);
      MovePeerReaches(Placed(region), lo, hi, Stores(region.peers), VoterStores(region.peers), LeaderStore(region),
                      oldStore, newStore, peerID, learners, followerIDs, suitable);
    }
  }

  /** CreateMoveLeaderOperator */
  function MoveLeaderProgram(leads: bool, oldStore: nat, newStore: nat, peerID: nat, learners: bool,
                             suitable: set<nat>): Option<seq<Step>> {
    match RemovePeerProgram(leads, oldStore, [newStore], suitable)
    case None => None
    case Some(steps) => Some(AddSteps(newStore, peerID, learners) + [TransferLeader(oldStore, newStore)] + steps)
  }

  /**
    Moving a leader to a store outside the region, whichever of the region's stores is given up:
    it fails exactly if that store holds the leader and the new one may not lead, and otherwise
    it is safe and the region ends on the new store instead of the old one, led from there.
  */
  lemma MoveLeaderSafe(region: Region, oldStore: nat, newStore: nat, peerID: nat, learners: bool, suitable: set<nat>)
    requires WellFormed(region)
    requires oldStore in Stores(region.peers) && newStore !in Stores(region.peers)
    ensures var r := MoveLeaderProgram(LeaderStore(region) == oldStore, oldStore, newStore, peerID, learners, suitable);
            && (r.None? <==> LeaderStore(region) == oldStore && newStore !in suitable)
            && (r.Some? ==> Reaches(Placed(region), r.value, |VoterStores(region.peers)|, |region.peers| + 1,
                                    Stores(region.peers) + {newStore} - {oldStore},
                                    VoterStores(region.peers) + {newStore} - {oldStore}, newStore))
  {
    assert FirstSuitable([newStore], suitable) == if newStore in suitable then Some(newStore) else None;
    var lo, hi := |VoterStores(region.peers)|, |region.peers| + 1;
    ReachStart(region, lo, hi);
    MoveLeaderReaches(Placed(region), lo, hi, Stores(region.peers), VoterStores(region.peers), LeaderStore(region),
                      oldStore, newStore, peerID, learners);
  }

  lemma MoveLeaderStart(p: Placement, lo: nat, hi: nat, stores: set<nat>, voters: set<nat>, leader: nat,
                        oldStore: nat, newStore: nat, peerID: nat, learners: bool)
    requires Reaches(p, [], lo, hi, stores, voters, leader) && lo <= |voters| && |stores| < hi && newStore !in stores
    ensures Reaches(p, AddSteps(newStore, peerID, learners) + [TransferLeader(oldStore, newStore)], lo, hi,
                    stores + {newStore}, voters + {newStore}, newStore)
  {
    var adds := AddSteps(newStore, peerID, learners);
    ReachAdd(p, [], lo, hi, stores, voters, leader, newStore, peerID, learners);
    assert [] + adds == adds;
    Monotone(voters, voters + {newStore});
    ReachTransfer(p, adds, lo, hi, stores + {newStore}, voters + {newStore}, leader, oldStore, newStore);
  }

  /** A leading old store names the transfer twice; the second one finds the leader already there. */
  lemma MoveLeaderReaches(p: Placement, lo: nat, hi: nat, stores: set<nat>, voters: set<nat>, leader: nat,
                          oldStore: nat, newStore: nat, peerID: nat, learners: bool)
    requires Reaches(p, [], lo, hi, stores, voters, leader) && lo <= |voters| && |stores| < hi
    requires oldStore in stores && newStore !in stores
    ensures var adds, transfer := AddSteps(newStore, peerID, learners), [TransferLeader(oldStore, newStore)];
            var stores', voters' := stores + {newStore} - {oldStore}, voters + {newStore} - {oldStore};
            && Reaches(p, adds + transfer + (transfer + [RemovePeer(oldStore)]), lo, hi, stores', voters', newStore)
            && Reaches(p, adds + transfer + ([] + [RemovePeer(oldStore)]), lo, hi, stores', voters', newStore)
  {
    ReachVoters(p, [], lo, hi, stores, voters, leader);
    SwapCounts(stores, voters, newStore, oldStore);
    MoveLeaderStart(p, lo, hi, stores, voters, leader, oldStore, newStore, peerID, learners);
    var start := AddSteps(newStore, peerID, learners) + [TransferLeader(oldStore, newStore)];
    MoveLeaderEnd(p, start, lo, hi, stores + {newStore}, voters + {newStore}, oldStore, newStore);
  }

  lemma MoveLeaderEnd(p: Placement, start: seq<Step>, lo: nat, hi: nat, stores: set<nat>, voters: set<nat>,
                      oldStore: nat, newStore: nat)
    requires Reaches(p, start, lo, hi, stores, voters, newStore) && lo <= |voters - {oldStore}| && |stores| <= hi
    requires oldStore in stores && newStore in voters && oldStore != newStore
    ensures var transfer, remove := [TransferLeader(oldStore, newStore)], [RemovePeer(oldStore)];
            && Reaches(p, start + (transfer + remove), lo, hi, stores - {oldStore}, voters - {oldStore}, newStore)
            && Reaches(p, start + ([] + remove), lo, hi, stores - {oldStore}, voters - {oldStore}, newStore)
  {
    var transfer, remove := [TransferLeader(oldStore, newStore)], [RemovePeer(oldStore)];
    Monotone(voters - {oldStore}, voters);
    ReachRemove(p, start, lo, hi, stores, voters, newStore, oldStore);
    ReachTransfer(p, start, lo, hi, stores, voters, newStore, oldStore, newStore);
    ReachRemove(p, start + transfer, lo, hi, stores, voters, newStore, oldStore);
    Join(start, transfer, remove);
    assert [] + remove == remove;
  }
}
