/**
  CreateScatterRegionOperator: the program that moves some peers of a region to new stores and
  its leadership to a random target.
*/
module Scatter {
  import opened Options
  import opened OperatorSteps

  // ---------------------------------------------------------------------------------------
  // Runs of swaps: add a peer on a new store, remove a peer on an old one.

  /** The swaps of the pairs that go, in order. */
  function SwapSteps(replaced: seq<Peer>, target: seq<Peer>, go: seq<bool>, learners: bool, k: nat): seq<Step>
    requires k <= |replaced| == |target| == |go|
  {
    if k == 0 then []
    else
      SwapSteps(replaced, target, go, learners, k - 1) +
      if go[k - 1] then OneSwap(replaced[k - 1], target[k - 1], learners) else []
  }

  function OneSwap(leaving: Peer, joining: Peer, learners: bool): seq<Step> {
    AddLightSteps(joining.store, joining.id, learners) + [RemovePeer(leaving.store)]
  }

  /** The stores of the peers that go, among the first k. */
  function Going(peers: seq<Peer>, go: seq<bool>, k: nat): set<nat>
    requires k <= |peers| == |go|
  {
    if k == 0 then {} else Going(peers, go, k - 1) + if go[k - 1] then {peers[k - 1].store} else {}
  }

  lemma {:induction false} GoingAre(peers: seq<Peer>, go: seq<bool>, k: nat)
    requires k <= |peers| == |go|
    ensures forall j :: 0 <= j < k && go[j] ==> peers[j].store in Going(peers, go, k)
    ensures forall s :: s in Going(peers, go, k) ==> exists j :: 0 <= j < k && go[j] && peers[j].store == s
  {
    if k > 0 {
      GoingAre(peers, go, k - 1);
    }
  }

  /** Pairs can be swapped one after the other, starting from base: old stores leave, new ones are free. */
  ghost predicate Swappable(base: set<nat>, replaced: seq<Peer>, target: seq<Peer>, go: seq<bool>, leader: nat) {
    && |replaced| == |target| == |go|
    && DistinctStores(replaced)
    && (forall j :: 0 <= j < |go| && go[j] ==>
          replaced[j].store in base && replaced[j].store != leader && target[j].store !in base)
    && (forall i, j :: 0 <= i < j < |go| && go[i] && go[j] ==> target[i].store != target[j].store)
  }

  /** The stores after the first k pairs. */
  function Swapped(base: set<nat>, replaced: seq<Peer>, target: seq<Peer>, go: seq<bool>, k: nat): set<nat>
    requires k <= |replaced| == |target| == |go|
  {
    if k == 0 then base
    else
      var before := Swapped(base, replaced, target, go, k - 1);
      if go[k - 1] then Exchanged(before, target[k - 1].store, replaced[k - 1].store) else before
  }

  /** No store joins that another pair leaves. */
  ghost predicate Apart(replaced: seq<Peer>, target: seq<Peer>, go: seq<bool>)
    requires |replaced| == |target| == |go|
  {
    forall j, k :: 0 <= j < |go| && 0 <= k < |go| && go[j] && go[k] ==> target[j].store != replaced[k].store
  }

  lemma SwapsApart(base: set<nat>, replaced: seq<Peer>, target: seq<Peer>, go: seq<bool>, leader: nat)
    requires Swappable(base, replaced, target, go, leader)
    ensures Apart(replaced, target, go)
  {
  }

  lemma {:induction false} SwappedAre(base: set<nat>, replaced: seq<Peer>, target: seq<Peer>, go: seq<bool>, k: nat)
    requires k <= |replaced| == |target| == |go| && Apart(replaced, target, go)
    ensures forall s :: s in Swapped(base, replaced, target, go, k) <==>
              s in Going(target, go, k) || (s in base && s !in Going(replaced, go, k))
  {
    if k > 0 {
      SwappedAre(base, replaced, target, go, k - 1);
      GoingAre(target, go, k);
    }
  }

  /** Pair k meets a free new store and a taken old one. */
  ghost predicate SwapOk(base: set<nat>, replaced: seq<Peer>, target: seq<Peer>, go: seq<bool>, leader: nat, k: nat)
    requires k < |replaced| == |target| == |go|
  {
    go[k] ==>
      var before := Swapped(base, replaced, target, go, k);
      target[k].store !in before && replaced[k].store in before && replaced[k].store != leader
  }

  lemma SwapNext(base: set<nat>, replaced: seq<Peer>, target: seq<Peer>, go: seq<bool>, leader: nat, k: nat)
    requires Swappable(base, replaced, target, go, leader) && k < |go|
    ensures SwapOk(base, replaced, target, go, leader, k)
  {
    if go[k] {
      SwapsApart(base, replaced, target, go, leader);
      SwappedAre(base, replaced, target, go, k);
      GoingAre(replaced, go, k);
      GoingAre(target, go, k);
    }
  }

  lemma SwapRound(p: Placement, steps: seq<Step>, so: seq<Step>, lo: nat, hi: nat, stores: set<nat>, voters: set<nat>,
                  leader: nat, leaving: Peer, joining: Peer, learners: bool)
    requires Reaches(p, steps + so, lo, hi, stores, voters, leader) && lo <= |voters| && |stores| < hi
    requires joining.store !in stores && leaving.store in stores && leaving.store != leader
    ensures var stores' := Exchanged(stores, joining.store, leaving.store);
            var voters' := Exchanged(voters, joining.store, leaving.store);
            && Reaches(p, steps + (so + OneSwap(leaving, joining, learners)), lo, hi, stores', voters', leader)
            && |stores'| == |stores| && |voters'| >= |voters|
  {
    ReachVoters(p, steps + so, lo, hi, stores, voters, leader);
    ExchangedCounts(stores, voters, joining.store, leaving.store);
    ExchangedIs(stores, joining.store, leaving.store);
    ExchangedIs(voters, joining.store, leaving.store);
    SwapOne(p, steps + so, lo, hi, stores, voters, leader, leaving.store, joining.store, joining.id, learners);
    JoinSwap(steps, so, AddLightSteps(joining.store, joining.id, learners), [RemovePeer(leaving.store)]);
  }

  lemma SwapOne(p: Placement, steps: seq<Step>, lo: nat, hi: nat, stores: set<nat>, voters: set<nat>, leader: nat,
                leaving: nat, joining: nat, id: nat, learners: bool)
    requires Reaches(p, steps, lo, hi, stores, voters, leader) && lo <= |voters| && |stores| < hi
    requires joining !in stores && leaving in stores && leaving != leader && lo <= |voters + {joining} - {leaving}|
    ensures Reaches(p, steps + AddLightSteps(joining, id, learners) + [RemovePeer(leaving)], lo, hi,
                    stores + {joining} - {leaving}, voters + {joining} - {leaving}, leader)
  {
    ReachAdd(p, steps, lo, hi, stores, voters, leader, joining, id, learners);
    ReachRemove(p, steps + AddLightSteps(joining, id, learners), lo, hi, stores + {joining}, voters + {joining}, leader,
                leaving);
  }

  lemma JoinSwap(steps: seq<Step>, so: seq<Step>, adds: seq<Step>, remove: seq<Step>)
    ensures steps + so + adds + remove == steps + (so + (adds + remove))
  {
  }

  /** The first k pairs have been swapped. */
  ghost predicate SwappedBy(p: Placement, steps: seq<Step>, lo: nat, hi: nat, base: set<nat>, voters: set<nat>,
                            leader: nat, replaced: seq<Peer>, target: seq<Peer>, go: seq<bool>, learners: bool, k: nat)
    requires k <= |replaced| == |target| == |go|
  {
    var stores', voters' := Swapped(base, replaced, target, go, k), Swapped(voters, replaced, target, go, k);
    && Reaches(p, steps + SwapSteps(replaced, target, go, learners, k), lo, hi, stores', voters', leader)
    && |stores'| == |base| && |voters'| >= |voters|
  }

  lemma {:induction false} SwapReaches(p: Placement, steps: seq<Step>, lo: nat, hi: nat, base: set<nat>,
                                       voters: set<nat>, leader: nat, replaced: seq<Peer>, target: seq<Peer>,
                                       go: seq<bool>, learners: bool, k: nat)
    requires k <= |replaced| == |target| == |go|
    requires forall j :: 0 <= j < |go| ==> SwapOk(base, replaced, target, go, leader, j)
    requires Reaches(p, steps, lo, hi, base, voters, leader) && lo <= |voters| && |base| < hi
    ensures SwappedBy(p, steps, lo, hi, base, voters, leader, replaced, target, go, learners, k)
  {
    if k == 0 {
      assert steps + [] == steps;
    } else {
      SwapReaches(p, steps, lo, hi, base, voters, leader, replaced, target, go, learners, k - 1);
      assert SwapOk(base, replaced, target, go, leader, k - 1);
      var so := SwapSteps(replaced, target, go, learners, k - 1);
      if go[k - 1] {
        SwapRound(p, steps, so, lo, hi, Swapped(base, replaced, target, go, k - 1),
                  Swapped(voters, replaced, target, go, k - 1), leader, replaced[k - 1], target[k - 1], learners);
      } else {
        assert so + [] == so;
      }
    }
  }

  /** All swappable pairs, run after a program that ended on base. */
  lemma SwapAll(p: Placement, steps: seq<Step>, lo: nat, hi: nat, base: set<nat>, voters: set<nat>, leader: nat,
                replaced: seq<Peer>, target: seq<Peer>, go: seq<bool>, learners: bool)
    requires Swappable(base, replaced, target, go, leader)
    requires Reaches(p, steps, lo, hi, base, voters, leader) && lo <= |voters| && |base| < hi
    ensures SwappedBy(p, steps, lo, hi, base, voters, leader, replaced, target, go, learners, |go|)
  {
    forall j | 0 <= j < |go| ensures SwapOk(base, replaced, target, go, leader, j) {
      SwapNext(base, replaced, target, go, leader, j);
    }
    SwapReaches(p, steps, lo, hi, base, voters, leader, replaced, target, go, learners, |go|);
  }

  // ---------------------------------------------------------------------------------------
  // The program

  /** Peer j of the targets is on a new store and is not the one to lead. */
  predicate Moves(origin: Region, target: seq<Peer>, i: nat, j: nat)
    requires i < |target| && j < |target|
  {
    target[j].id != target[i].id && target[j].store !in Stores(origin.peers)
  }

  /** The moves that can be made at once: their old peer does not lead. */
  function MovesNow(origin: Region, replaced: seq<Peer>, target: seq<Peer>, i: nat): (go: seq<bool>)
    requires i < |target| == |replaced|
    ensures |go| == |target|
  {
    seq(|target|, j requires 0 <= j < |target| =>
          Moves(origin, target, i, j) && replaced[j].store != LeaderStore(origin))
  }

  /** The move of the leading peer, which is deferred. */
  function MovesLate(origin: Region, replaced: seq<Peer>, target: seq<Peer>, i: nat): (go: seq<bool>)
    requires i < |target| == |replaced|
    ensures |go| == |target|
  {
    seq(|target|, j requires 0 <= j < |target| =>
          Moves(origin, target, i, j) && replaced[j].store == LeaderStore(origin))
  }

  /** Nothing to do: the leader stays and every target is on a store of the region. */
  predicate NothingToDo(origin: Region, target: seq<Peer>, i: nat)
    requires i < |target|
  {
    target[i].store == LeaderStore(origin) && Stores(target) <= Stores(origin.peers)
  }

  /** The program for target i as the new leader. */
  function Program(origin: Region, replaced: seq<Peer>, target: seq<Peer>, i: nat, learners: bool): seq<Step>
    requires i < |target| == |replaced|
  {
    var leader, lead := LeaderStore(origin), target[i];
    var isNew := lead.store !in Stores(origin.peers);
    var first := if isNew then AddLightSteps(lead.store, lead.id, learners)
                 else if lead.store != leader then [TransferLeader(leader, lead.store)]
                 else [];
    var handover := if isNew then [TransferLeader(leader, lead.store)] + [RemovePeer(replaced[i].store)] else [];
    first + SwapSteps(replaced, target, MovesNow(origin, replaced, target, i), learners, |target|)
    + (handover + SwapSteps(replaced, target, MovesLate(origin, replaced, target, i), learners, |target|))
  }

  /** The check for a no-op: the leader stays and no target is on a new store. */
  method AlreadyThere(origin: Region, target: seq<Peer>, i: nat) returns (same: bool)
    requires i < |target|
    ensures same <==> NothingToDo(origin, target, i)
  {
    if target[i].store != LeaderStore(origin) {
      return false;
    }
    for j := 0 to |target|
      invariant forall k :: 0 <= k < j ==> target[k].store in Stores(origin.peers)
    {
      if target[j].store !in Stores(origin.peers) {
        assert target[j].store in Stores(target);
        return false;
      }
    }
    return true;
  }

  /** The loop over the other targets. */
  method OtherSteps(origin: Region, replaced: seq<Peer>, target: seq<Peer>, i: nat, learners: bool)
    returns (steps: seq<Step>, deferred: seq<Step>)
    requires i < |target| == |replaced|
    ensures steps == SwapSteps(replaced, target, MovesNow(origin, replaced, target, i), learners, |target|)
    ensures deferred == SwapSteps(replaced, target, MovesLate(origin, replaced, target, i), learners, |target|)
  {
    steps, deferred := [], [];
    for j := 0 to |target|
      invariant steps == SwapSteps(replaced, target, MovesNow(origin, replaced, target, i), learners, j)
      invariant deferred == SwapSteps(replaced, target, MovesLate(origin, replaced, target, i), learners, j)
    {
      var peer := target[j];
      if peer.id == target[i].id {
        continue;
      }
      if peer.store in Stores(origin.peers) {
        continue;
      }
      if replaced[j].store == LeaderStore(origin) {
        deferred := deferred + (AddLightSteps(peer.store, peer.id, learners) + [RemovePeer(replaced[j].store)]);
        continue;
      }
      steps := steps + (AddLightSteps(peer.store, peer.id, learners) + [RemovePeer(replaced[j].store)]);
    }
  }

  /** CreateScatterRegionOperator; i is the random pick. None means no operator. */
  method CreateScatterRegionOperator(origin: Region, replaced: seq<Peer>, target: seq<Peer>, i: nat, learners: bool)
    returns (r: Option<seq<Step>>)
    requires i < |target| == |replaced|
    ensures r == if NothingToDo(origin, target, i) then None else Some(Program(origin, replaced, target, i, learners))
  {
    var same := AlreadyThere(origin, target, i);
    if same {
      return None;
    }
    var lead, originLeader := target[i], LeaderStore(origin);
    var steps: seq<Step>, deferred: seq<Step> := [], [];
    if lead.store !in Stores(origin.peers) {
      steps := AddLightSteps(lead.store, lead.id, learners);
      deferred := [TransferLeader(originLeader, lead.store)] + [RemovePeer(replaced[i].store)];
    } else if lead.store != originLeader {
      steps := [TransferLeader(originLeader, lead.store)];
    }
    var others, last := OtherSteps(origin, replaced, target, i, learners);
    return Some(steps + others + (deferred + last));
  }

  // ---------------------------------------------------------------------------------------
  // The program is safe

  /** Every target is the peer it replaces or a voter on a store outside the region; no store and no id twice. */
  ghost predicate Targets(origin: Region, target: seq<Peer>) {
    && |target| == |origin.peers|
    && (forall j :: 0 <= j < |target| ==>
          target[j] == origin.peers[j] || (target[j].store !in Stores(origin.peers) && !target[j].learner))
    && DistinctStores(target)
    && DistinctIds(target)
  }

  /** What holds before the deferred steps: all stores are there except the one that replaces the leader's. */
  ghost predicate AlmostThere(origin: Region, target: seq<Peer>, i: nat, mid: set<nat>)
    requires i < |target| == |origin.peers|
  {
    var late := MovesLate(origin, origin.peers, target, i);
    && |mid| == |target|
    && target[i].store in mid
    && (forall j :: 0 <= j < |target| && late[j] ==>
          origin.peers[j].store in mid && origin.peers[j].store != target[i].store && target[j].store !in mid)
    && (forall j :: 0 <= j < |target| && !late[j] ==> target[j].store in mid)
  }

  lemma SameSet(a: set<nat>, b: set<nat>)
    requires a <= b && |a| == |b|
    ensures a == b
  {
    assert b == a + (b - a);
  }

  /** A store leaves or joins exactly if its pair is swapped. */
  lemma GoesIff(peers: seq<Peer>, go: seq<bool>, j: nat)
    requires j < |peers| == |go| && DistinctStores(peers)
    ensures peers[j].store in Going(peers, go, |go|) <==> go[j]
  {
    GoingAre(peers, go, |go|);
    if peers[j].store in Going(peers, go, |go|) {
      var m :| 0 <= m < |go| && go[m] && peers[m].store == peers[j].store;
      assert m == j;
    }
  }

  lemma GoingWithin(peers: seq<Peer>, go: seq<bool>)
    requires |peers| == |go|
    ensures Going(peers, go, |go|) <= Stores(peers)
  {
    GoingAre(peers, go, |go|);
  }

  /** A target that is not swapped in was there before and does not leave. */
  lemma Stays(origin: Region, target: seq<Peer>, go: seq<bool>, j: nat)
    requires WellFormed(origin) && Targets(origin, target) && |go| == |target| && j < |target| && !go[j]
    ensures target[j].store !in Going(origin.peers, go, |go|)
  {
    GoesIff(origin.peers, go, j);
    GoingWithin(origin.peers, go);
  }

  lemma LateSwappable(origin: Region, target: seq<Peer>, i: nat, mid: set<nat>)
    requires WellFormed(origin) && Targets(origin, target) && i < |target| && AlmostThere(origin, target, i, mid)
    ensures Swappable(mid, origin.peers, target, MovesLate(origin, origin.peers, target, i), target[i].store)
  {
  }

  /** The deferred swap completes the target. */
  lemma LateEnds(origin: Region, target: seq<Peer>, i: nat, mid: set<nat>)
    requires WellFormed(origin) && Targets(origin, target) && i < |target| && AlmostThere(origin, target, i, mid)
    ensures var late := MovesLate(origin, origin.peers, target, i);
            Stores(target) <= Swapped(mid, origin.peers, target, late, |late|)
  {
    var late := MovesLate(origin, origin.peers, target, i);
    LateSwappable(origin, target, i, mid);
    SwapsApart(mid, origin.peers, target, late, target[i].store);
    SwappedAre(mid, origin.peers, target, late, |late|);
    forall j | 0 <= j < |target| ensures target[j].store in Swapped(mid, origin.peers, target, late, |late|) {
      if late[j] {
        GoesIff(target, late, j);
      } else {
        Stays(origin, target, late, j);
      }
    }
  }

  lemma LateReaches(origin: Region, target: seq<Peer>, i: nat, mid: set<nat>, voters: set<nat>, lo: nat,
                    p: Placement, steps: seq<Step>, learners: bool)
    requires WellFormed(origin) && Targets(origin, target) && i < |target| && AlmostThere(origin, target, i, mid)
    requires Reaches(p, steps, lo, |target| + 2, mid, voters, target[i].store) && lo <= |voters|
    ensures var late := MovesLate(origin, origin.peers, target, i);
            Reaches(p, steps + SwapSteps(origin.peers, target, late, learners, |late|), lo, |target| + 2,
                    Stores(target), Swapped(voters, origin.peers, target, late, |late|), target[i].store)
  {
    var n, late := |target|, MovesLate(origin, origin.peers, target, i);
    LateSwappable(origin, target, i, mid);
    LateEnds(origin, target, i, mid);
    SwapAll(p, steps, lo, n + 2, mid, voters, target[i].store, origin.peers, target, late, learners);
    StoresCount(target);
    SameSet(Stores(target), Swapped(mid, origin.peers, target, late, n));
  }

  /** The stores before the first swaps: the region's, and the new leader's once it is added. */
  function Base(origin: Region, target: seq<Peer>, i: nat): set<nat>
    requires i < |target|
  {
    Stores(origin.peers) + {target[i].store}
  }

  function Mid(origin: Region, target: seq<Peer>, i: nat): set<nat>
    requires i < |target| == |origin.peers|
  {
    Swapped(Base(origin, target, i), origin.peers, target, MovesNow(origin, origin.peers, target, i), |target|)
  }

  /** The voters before the first swaps, and after them. */
  function BaseVoters(origin: Region, target: seq<Peer>, i: nat): set<nat>
    requires i < |target|
  {
    VoterStores(origin.peers) + if target[i].store in Stores(origin.peers) then {} else {target[i].store}
  }

  function MidVoters(origin: Region, target: seq<Peer>, i: nat): set<nat>
    requires i < |target| == |origin.peers|
  {
    Swapped(BaseVoters(origin, target, i), origin.peers, target, MovesNow(origin, origin.peers, target, i), |target|)
  }

  lemma NowReady(origin: Region, target: seq<Peer>, i: nat, leader: nat)
    requires WellFormed(origin) && Targets(origin, target) && i < |target|
    requires leader == if target[i].store in Stores(origin.peers) then target[i].store else LeaderStore(origin)
    ensures Swappable(Base(origin, target, i), origin.peers, target, MovesNow(origin, origin.peers, target, i), leader)
  {
    var now := MovesNow(origin, origin.peers, target, i);
    forall j | 0 <= j < |target| && now[j]
      ensures origin.peers[j].store in Base(origin, target, i) && origin.peers[j].store != leader
      ensures target[j].store !in Base(origin, target, i)
    {
      assert origin.peers[j].store in Stores(origin.peers);
      assert i != j;
    }
  }

  /** Where the stores of pair j are after the first swaps. */
  lemma MidAt(origin: Region, target: seq<Peer>, i: nat, j: nat)
    requires WellFormed(origin) && Targets(origin, target) && i < |target| && j < |target|
    ensures var mid := Mid(origin, target, i);
            if Moves(origin, target, i, j) && origin.peers[j].store == LeaderStore(origin)
            then origin.peers[j].store in mid && origin.peers[j].store != target[i].store && target[j].store !in mid
            else target[j].store in mid
    ensures !Moves(origin, target, i, j) ==> origin.peers[j].store in Mid(origin, target, i)
  {
    var now, base := MovesNow(origin, origin.peers, target, i), Base(origin, target, i);
    var leads := if target[i].store in Stores(origin.peers) then target[i].store else LeaderStore(origin);
    NowReady(origin, target, i, leads);
    SwapsApart(base, origin.peers, target, now, leads);
    SwappedAre(base, origin.peers, target, now, |target|);
    GoesIff(origin.peers, now, j);
    GoesIff(target, now, j);
    if !now[j] {
      Stays(origin, target, now, j);
    }
    assert origin.peers[j].store in Stores(origin.peers);
    assert !Moves(origin, target, i, j) ==> j == i || target[j] == origin.peers[j];
  }

  lemma MidAlmost(origin: Region, target: seq<Peer>, i: nat, mid: set<nat>)
    requires WellFormed(origin) && Targets(origin, target) && i < |target| && |mid| == |target|
    requires mid == if target[i].store in Stores(origin.peers) then Mid(origin, target, i)
                    else Mid(origin, target, i) - {origin.peers[i].store}
    ensures AlmostThere(origin, target, i, mid)
  {
    forall j | 0 <= j < |target|
      ensures var late := MovesLate(origin, origin.peers, target, i);
              if late[j]
              then origin.peers[j].store in mid && origin.peers[j].store != target[i].store && target[j].store !in mid
              else target[j].store in mid
    {
      MidAt(origin, target, i, j);
      if j != i {
        assert origin.peers[j].store != origin.peers[i].store;
        assert origin.peers[i].store in Stores(origin.peers);
      }
    }
  }

  /** No target on a store outside the region leaves, and none on a store of the region joins. */
  lemma GoingSides(origin: Region, target: seq<Peer>, i: nat, go: seq<bool>)
    requires Targets(origin, target) && i < |target|
    requires go == MovesNow(origin, origin.peers, target, i) || go == MovesLate(origin, origin.peers, target, i)
    ensures Going(origin.peers, go, |go|) <= Stores(origin.peers) && Going(target, go, |go|) !! Stores(origin.peers)
    ensures Apart(origin.peers, target, go)
  {
    GoingAre(origin.peers, go, |go|);
    GoingAre(target, go, |go|);
    assert forall k :: 0 <= k < |go| ==> origin.peers[k].store in Stores(origin.peers);
  }

  /** What the voters are at the end, given what is taken off between the two rounds of swaps. */
  function EndVoters(origin: Region, target: seq<Peer>, i: nat): set<nat>
    requires i < |target| == |origin.peers|
  {
    var gone := if target[i].store in Stores(origin.peers) then {} else {origin.peers[i].store};
    var late := MovesLate(origin, origin.peers, target, i);
    Swapped(MidVoters(origin, target, i) - gone, origin.peers, target, late, |late|)
  }

  /** A target votes at the end exactly if it is no learner that was kept. */
  lemma EndVoter(origin: Region, target: seq<Peer>, i: nat, j: nat)
    requires WellFormed(origin) && Targets(origin, target) && i < |target| && j < |target|
    ensures target[j].store in EndVoters(origin, target, i) <==> !target[j].learner
  {
    var now, late := MovesNow(origin, origin.peers, target, i), MovesLate(origin, origin.peers, target, i);
    var gone := if target[i].store in Stores(origin.peers) then {} else {origin.peers[i].store};
    GoingSides(origin, target, i, now);
    GoingSides(origin, target, i, late);
    SwappedAre(BaseVoters(origin, target, i), origin.peers, target, now, |now|);
    SwappedAre(MidVoters(origin, target, i) - gone, origin.peers, target, late, |late|);
    GoesIff(origin.peers, now, j);
    GoesIff(origin.peers, late, j);
    GoesIff(target, now, j);
    GoesIff(target, late, j);
    LearnerStore(origin.peers, j);
    assert origin.peers[i].store in Stores(origin.peers) && origin.peers[j].store in Stores(origin.peers);
    assert VoterStores(origin.peers) <= Stores(origin.peers);
  }

  lemma EndVotersAre(origin: Region, target: seq<Peer>, i: nat)
    requires WellFormed(origin) && Targets(origin, target) && i < |target|
    requires EndVoters(origin, target, i) <= Stores(target)
    ensures EndVoters(origin, target, i) == VoterStores(target)
  {
    forall j | 0 <= j < |target| ensures target[j].store in EndVoters(origin, target, i) <==> !target[j].learner {
      EndVoter(origin, target, i, j);
    }
  }

  lemma OldLeadsReaches(p: Placement, lo: nat, hi: nat, s: set<nat>, voters: set<nat>, leader: nat, lead: nat,
                        replaced: seq<Peer>, target: seq<Peer>, go: seq<bool>, learners: bool)
    requires Reaches(p, [], lo, hi, s, voters, leader) && lo <= |voters| && |s| < hi && lead in voters
    requires Swappable(s, replaced, target, go, lead)
    ensures SwappedBy(p, if lead != leader then [TransferLeader(leader, lead)] else [], lo, hi, s, voters, lead,
                      replaced, target, go, learners, |go|)
  {
    var first := if lead != leader then [TransferLeader(leader, lead)] else [];
    if lead != leader {
      ReachTransfer(p, [], lo, hi, s, voters, leader, leader, lead);
      assert [] + first == first;
    }
    SwapAll(p, first, lo, hi, s, voters, lead, replaced, target, go, learners);
  }

  /** After the swaps, leadership moves to the new store and the peer it replaces goes. */
  lemma HandOver(p: Placement, steps: seq<Step>, lo: nat, hi: nat, mid: set<nat>, voters: set<nat>, leader: nat,
                 lead: nat, gone: nat)
    requires Reaches(p, steps, lo, hi, mid, voters, leader) && lo < |voters| && |mid| <= hi
    requires lead in voters && gone in mid && gone != lead
    ensures var handover := [TransferLeader(leader, lead)] + [RemovePeer(gone)];
            Reaches(p, steps + handover, lo, hi, mid - {gone}, voters - {gone}, lead)
  {
    var transfer := [TransferLeader(leader, lead)];
    ReachTransfer(p, steps, lo, hi, mid, voters, leader, leader, lead);
    ReachRemove(p, steps + transfer, lo, hi, mid, voters, lead, gone);
    assert steps + transfer + [RemovePeer(gone)] == steps + (transfer + [RemovePeer(gone)]);
  }

  lemma NewLeadsReaches(p: Placement, lo: nat, hi: nat, s: set<nat>, voters: set<nat>, leader: nat, lead: Peer,
                        replaced: seq<Peer>, target: seq<Peer>, go: seq<bool>, learners: bool)
    requires Reaches(p, [], lo, hi, s, voters, leader) && lo <= |voters| && |s| + 1 < hi && lead.store !in s
    requires Swappable(s + {lead.store}, replaced, target, go, leader)
    ensures SwappedBy(p, AddLightSteps(lead.store, lead.id, learners), lo, hi, s + {lead.store}, voters + {lead.store},
                      leader, replaced, target, go, learners, |go|)
  {
    var first := AddLightSteps(lead.store, lead.id, learners);
    ReachAdd(p, [], lo, hi, s, voters, leader, lead.store, lead.id, learners);
    assert [] + first == first;
    SwapAll(p, first, lo, hi, s + {lead.store}, voters + {lead.store}, leader, replaced, target, go, learners);
  }

  /** The program is safe, and ends on the targets with their voters and the i-th as leader. */
  ghost predicate Safe(origin: Region, target: seq<Peer>, i: nat, learners: bool)
    requires i < |target| == |origin.peers|
  {
    Reaches(Placed(origin), Program(origin, origin.peers, target, i, learners),
            |VoterStores(origin.peers)|, |target| + 2, Stores(target), VoterStores(target), target[i].store)
  }

  /** The transfer that the program starts with if the new leader's store is in the region and another one leads. */
  function FirstTransfer(origin: Region, lead: nat): seq<Step> {
    if lead != LeaderStore(origin) then [TransferLeader(LeaderStore(origin), lead)] else []
  }

  lemma OldLeadsMid(origin: Region, target: seq<Peer>, i: nat, learners: bool, first: seq<Step>)
    requires WellFormed(origin) && Targets(origin, target)
    requires i < |target| && target[i].store in Stores(origin.peers) && !target[i].learner
    requires first == FirstTransfer(origin, target[i].store)
    ensures var now := MovesNow(origin, origin.peers, target, i);
            SwappedBy(Placed(origin), first, |VoterStores(origin.peers)|, |target| + 2, Base(origin, target, i),
                      BaseVoters(origin, target, i), target[i].store, origin.peers, target, now, learners, |now|)
  {
    OldBases(origin, target, i);
    NowReady(origin, target, i, target[i].store);
    LearnerStore(origin.peers, i);
    ReachStart(origin, |VoterStores(origin.peers)|, |target| + 2);
    OldLeadsReaches(Placed(origin), |VoterStores(origin.peers)|, |target| + 2, Base(origin, target, i),
                    BaseVoters(origin, target, i), LeaderStore(origin), target[i].store, origin.peers, target,
                    MovesNow(origin, origin.peers, target, i), learners);
  }

  /** The deferred swap, and what it leaves. */
  lemma Finish(origin: Region, target: seq<Peer>, i: nat, mid: set<nat>, voters: set<nat>, steps: seq<Step>,
               learners: bool)
    requires WellFormed(origin) && Targets(origin, target) && i < |target| && AlmostThere(origin, target, i, mid)
    requires var late := MovesLate(origin, origin.peers, target, i);
             EndVoters(origin, target, i) == Swapped(voters, origin.peers, target, late, |late|)
    requires |VoterStores(origin.peers)| <= |voters|
    requires Reaches(Placed(origin), steps, |VoterStores(origin.peers)|, |target| + 2, mid, voters, target[i].store)
    ensures var late := MovesLate(origin, origin.peers, target, i);
            Reaches(Placed(origin), steps + SwapSteps(origin.peers, target, late, learners, |late|),
                    |VoterStores(origin.peers)|, |target| + 2, Stores(target), VoterStores(target), target[i].store)
  {
    var late, lo := MovesLate(origin, origin.peers, target, i), |VoterStores(origin.peers)|;
    LateReaches(origin, target, i, mid, voters, lo, Placed(origin), steps, learners);
    ReachVoters(Placed(origin), steps + SwapSteps(origin.peers, target, late, learners, |late|), lo, |target| + 2,
                Stores(target), EndVoters(origin, target, i), target[i].store);
    EndVotersAre(origin, target, i);
  }

  lemma OldProgram(origin: Region, target: seq<Peer>, i: nat, learners: bool, first: seq<Step>)
    requires i < |target| == |origin.peers| && target[i].store in Stores(origin.peers)
    requires first == FirstTransfer(origin, target[i].store)
    ensures Program(origin, origin.peers, target, i, learners)
            == first + SwapSteps(origin.peers, target, MovesNow(origin, origin.peers, target, i), learners, |target|)
               + SwapSteps(origin.peers, target, MovesLate(origin, origin.peers, target, i), learners, |target|)
  {
    NoHandover(SwapSteps(origin.peers, target, MovesLate(origin, origin.peers, target, i), learners, |target|));
  }

  lemma OldLeadsSafe(origin: Region, target: seq<Peer>, i: nat, learners: bool)
    requires WellFormed(origin) && Targets(origin, target)
    requires i < |target| && target[i].store in Stores(origin.peers) && !target[i].learner
    ensures Safe(origin, target, i, learners)
  {
    var first, now := FirstTransfer(origin, target[i].store), MovesNow(origin, origin.peers, target, i);
    OldLeadsMid(origin, target, i, learners, first);
    OldBases(origin, target, i);
    MidAlmost(origin, target, i, Mid(origin, target, i));
    Finish(origin, target, i, Mid(origin, target, i), MidVoters(origin, target, i),
           first + SwapSteps(origin.peers, target, now, learners, |now|), learners);
    OldProgram(origin, target, i, learners, first);
  }

  lemma OldBases(origin: Region, target: seq<Peer>, i: nat)
    requires WellFormed(origin) && Targets(origin, target) && i < |target| && target[i].store in Stores(origin.peers)
    ensures Base(origin, target, i) == Stores(origin.peers) && |Base(origin, target, i)| == |target|
    ensures BaseVoters(origin, target, i) == VoterStores(origin.peers)
    ensures MidVoters(origin, target, i) - {} == MidVoters(origin, target, i)
  {
    assert Base(origin, target, i) == Stores(origin.peers);
    StoresCount(origin.peers);
  }

  lemma NoHandover(last: seq<Step>)
    ensures [] + last == last
  {
  }

  /** A new leader is added, and the first swaps run. */
  lemma NewLeadsStart(origin: Region, target: seq<Peer>, i: nat, learners: bool)
    requires WellFormed(origin) && Targets(origin, target) && i < |target| && target[i].store !in Stores(origin.peers)
    ensures var now := MovesNow(origin, origin.peers, target, i);
            SwappedBy(Placed(origin), AddLightSteps(target[i].store, target[i].id, learners),
                      |VoterStores(origin.peers)|, |target| + 2, Base(origin, target, i),
                      BaseVoters(origin, target, i), LeaderStore(origin), origin.peers, target, now, learners, |now|)
  {
    var n, s, v := |target|, Stores(origin.peers), VoterStores(origin.peers);
    NowReady(origin, target, i, LeaderStore(origin));
    ReachStart(origin, |v|, n + 2);
    NewLeadsReaches(Placed(origin), |v|, n + 2, s, v, LeaderStore(origin), target[i], origin.peers, target,
                    MovesNow(origin, origin.peers, target, i), learners);
  }

  lemma OneFewer(s: set<nat>, x: nat)
    ensures |s - {x}| >= |s| - 1 && (x in s ==> |s - {x}| == |s| - 1)
  {
    if x !in s {
      assert s - {x} == s;
    }
  }

  /** After the swaps, leadership is handed over, and the peer that the leader replaces goes. */
  ghost predicate HandedBy(p: Placement, first: seq<Step>, lo: nat, hi: nat, base: set<nat>, voters: set<nat>,
                           leader: nat, replaced: seq<Peer>, target: seq<Peer>, go: seq<bool>,
                           learners: bool, lead: nat, gone: nat)
    requires |replaced| == |target| == |go|
  {
    var mid, midVoters := Swapped(base, replaced, target, go, |go|), Swapped(voters, replaced, target, go, |go|);
    var handover := [TransferLeader(leader, lead)] + [RemovePeer(gone)];
    && Reaches(p, first + SwapSteps(replaced, target, go, learners, |go|) + handover, lo, hi,
               mid - {gone}, midVoters - {gone}, lead)
    && |mid - {gone}| == |base| - 1 && lo <= |midVoters - {gone}|
  }

  /** What it takes to hand over: gone is held and lead votes after the swaps. */
  ghost predicate Handable(lo: nat, hi: nat, base: set<nat>, voters: set<nat>, replaced: seq<Peer>, target: seq<Peer>,
                           go: seq<bool>, lead: nat, gone: nat)
    requires |replaced| == |target| == |go|
  {
    && |base| <= hi && lo < |voters| && gone != lead
    && gone in Swapped(base, replaced, target, go, |go|)
    && lead in Swapped(voters, replaced, target, go, |go|)
  }

  lemma NewLeadsMid(origin: Region, target: seq<Peer>, i: nat, learners: bool)
    requires WellFormed(origin) && Targets(origin, target) && i < |target| && target[i].store !in Stores(origin.peers)
    ensures HandedBy(Placed(origin), AddLightSteps(target[i].store, target[i].id, learners),
                     |VoterStores(origin.peers)|, |target| + 2, Base(origin, target, i),
                     BaseVoters(origin, target, i), LeaderStore(origin), origin.peers, target,
                     MovesNow(origin, origin.peers, target, i), learners, target[i].store, origin.peers[i].store)
  {
    NewLeadsStart(origin, target, i, learners);
    NewLeadsReady(origin, target, i);
    Handed(Placed(origin), AddLightSteps(target[i].store, target[i].id, learners), |VoterStores(origin.peers)|,
           |target| + 2, Base(origin, target, i), BaseVoters(origin, target, i), LeaderStore(origin), origin.peers,
           target, MovesNow(origin, origin.peers, target, i), learners, target[i].store, origin.peers[i].store);
  }

  lemma NewLeadsReady(origin: Region, target: seq<Peer>, i: nat)
    requires WellFormed(origin) && Targets(origin, target) && i < |target| && target[i].store !in Stores(origin.peers)
    ensures Handable(|VoterStores(origin.peers)|, |target| + 2, Base(origin, target, i), BaseVoters(origin, target, i),
                     origin.peers, target, MovesNow(origin, origin.peers, target, i), target[i].store,
                     origin.peers[i].store)
    ensures |Base(origin, target, i)| == |target| + 1
  {
    MidAt(origin, target, i, i);
    LeadVotes(origin, target, i);
    StoresCount(origin.peers);
    assert origin.peers[i].store in Stores(origin.peers);
  }

  lemma Handed(p: Placement, first: seq<Step>, lo: nat, hi: nat, base: set<nat>, voters: set<nat>, leader: nat,
               replaced: seq<Peer>, target: seq<Peer>, go: seq<bool>, learners: bool, lead: nat, gone: nat)
    requires |replaced| == |target| == |go|
    requires SwappedBy(p, first, lo, hi, base, voters, leader, replaced, target, go, learners, |go|)
    requires Handable(lo, hi, base, voters, replaced, target, go, lead, gone)
    ensures HandedBy(p, first, lo, hi, base, voters, leader, replaced, target, go, learners, lead, gone)
  {
    var mid, midVoters := Swapped(base, replaced, target, go, |go|), Swapped(voters, replaced, target, go, |go|);
    OneFewer(mid, gone);
    OneFewer(midVoters, gone);
    HandOver(p, first + SwapSteps(replaced, target, go, learners, |go|), lo, hi, mid, midVoters, leader, lead, gone);
  }

  lemma NewProgram(origin: Region, target: seq<Peer>, i: nat, learners: bool, steps: seq<Step>, handover: seq<Step>)
    requires i < |target| == |origin.peers| && target[i].store !in Stores(origin.peers)
    requires steps == AddLightSteps(target[i].store, target[i].id, learners)
                      + SwapSteps(origin.peers, target, MovesNow(origin, origin.peers, target, i), learners, |target|)
    requires handover == [TransferLeader(LeaderStore(origin), target[i].store)] + [RemovePeer(origin.peers[i].store)]
    ensures Program(origin, origin.peers, target, i, learners)
            == steps + handover
               + SwapSteps(origin.peers, target, MovesLate(origin, origin.peers, target, i), learners, |target|)
  {
    Regroup(steps, handover, SwapSteps(origin.peers, target, MovesLate(origin, origin.peers, target, i), learners,
                                       |target|));
  }

  lemma NewLeadsSafe(origin: Region, target: seq<Peer>, i: nat, learners: bool)
    requires WellFormed(origin) && Targets(origin, target)
    requires i < |target| && target[i].store !in Stores(origin.peers)
    ensures Safe(origin, target, i, learners)
  {
    var lead, gone := target[i], {origin.peers[i].store};
    var steps := AddLightSteps(lead.store, lead.id, learners)
                 + SwapSteps(origin.peers, target, MovesNow(origin, origin.peers, target, i), learners, |target|);
    var handover := [TransferLeader(LeaderStore(origin), lead.store)] + [RemovePeer(origin.peers[i].store)];
    NewLeadsMid(origin, target, i, learners);
    NewLeadsReady(origin, target, i);
    MidAlmost(origin, target, i, Mid(origin, target, i) - gone);
    Finish(origin, target, i, Mid(origin, target, i) - gone, MidVoters(origin, target, i) - gone, steps + handover,
           learners);
    NewProgram(origin, target, i, learners, steps, handover);
  }

  /** A new leader's store votes after the first swaps. */
  lemma LeadVotes(origin: Region, target: seq<Peer>, i: nat)
    requires Targets(origin, target) && i < |target| && target[i].store !in Stores(origin.peers)
    ensures target[i].store in MidVoters(origin, target, i)
  {
    var now := MovesNow(origin, origin.peers, target, i);
    GoingSides(origin, target, i, now);
    SwappedAre(BaseVoters(origin, target, i), origin.peers, target, now, |now|);
  }

  lemma Regroup(a: seq<Step>, b: seq<Step>, c: seq<Step>)
    ensures a + b + c == a + (b + c)
  {
  }

  /** A learner that is kept and picked to lead: the program starts by handing leadership to it. */
  lemma LearnerLeadsUnsafe(origin: Region, target: seq<Peer>, i: nat, learners: bool, lo: nat, hi: nat)
    requires WellFormed(origin) && Targets(origin, target) && i < |target| && target[i].learner
    ensures !Runs(Placed(origin), Program(origin, origin.peers, target, i, learners), lo, hi)
  {
    var n, leader, lead := |target|, LeaderStore(origin), target[i].store;
    ReachStart(origin, 0, n);
    LearnerStore(origin.peers, i);
    assert lead in Stores(origin.peers);
    var swaps := SwapSteps(origin.peers, target, MovesNow(origin, origin.peers, target, i), learners, n);
    var last := [] + SwapSteps(origin.peers, target, MovesLate(origin, origin.peers, target, i), learners, n);
    BadTransfer(Placed(origin), [], leader, lead, swaps + last, lo, hi);
    FirstIs([TransferLeader(leader, lead)], swaps, last);
  }

  lemma FirstIs(a: seq<Step>, b: seq<Step>, c: seq<Step>)
    ensures a + b + c == [] + (a + (b + c))
  {
  }

  /**
    For every random leader choice: if it is no learner, the program is safe, keeps to n + 2 peers
    and never has fewer voters than the region, and ends on exactly the target stores led by the
    chosen one; if it is a learner, the program is safe within no bounds.
  */
  lemma ScatterSafe(origin: Region, target: seq<Peer>, i: nat, learners: bool)
    requires WellFormed(origin) && Targets(origin, target) && i < |target|
    ensures Safe(origin, target, i, learners) <==> !target[i].learner
    ensures target[i].learner ==>
              forall lo: nat, hi: nat ::
                !Runs(Placed(origin), Program(origin, origin.peers, target, i, learners), lo, hi)
  {
    if target[i].learner {
      forall lo: nat, hi: nat
        ensures !Runs(Placed(origin), Program(origin, origin.peers, target, i, learners), lo, hi)
      {
        LearnerLeadsUnsafe(origin, target, i, learners, lo, hi);
      }
    } else if target[i].store in Stores(origin.peers) {
      OldLeadsSafe(origin, target, i, learners);
    } else {
      NewLeadsSafe(origin, target, i, learners);
    }
  }

  /** Two voters and a learner, of which nothing moves: picking the learner gives an unsafe program. */
  lemma LearnerPicked()
    ensures var origin := Region([Peer(11, 1, false), Peer(12, 2, false), Peer(13, 3, true)], Some(Peer(11, 1, false)));
            && WellFormed(origin) && Targets(origin, origin.peers) && !NothingToDo(origin, origin.peers, 2)
            && Program(origin, origin.peers, origin.peers, 2, true) == [TransferLeader(1, 3)]
            && !Safe(origin, origin.peers, 2, true)
  {
    var origin := Region([Peer(11, 1, false), Peer(12, 2, false), Peer(13, 3, true)], Some(Peer(11, 1, false)));
    assert origin.peers[2].store in Stores(origin.peers) && origin.peers[1].store in Stores(origin.peers)
           && origin.peers[0].store in Stores(origin.peers);
    ScatterSafe(origin, origin.peers, 2, true);
  }

  // ---------------------------------------------------------------------------------------
  // The program passes CheckOperatorValid

  /** No transfer, and only the given stores are removed. */
  ghost predicate OnlyRemoves(steps: seq<Step>, removed: set<nat>) {
    forall n :: 0 <= n < |steps| ==>
      !steps[n].TransferLeader? && (steps[n].RemovePeer? ==> steps[n].fromStore in removed)
  }

  ghost predicate RemovesNothing(steps: seq<Step>) {
    forall n :: 0 <= n < |steps| ==> !steps[n].RemovePeer?
  }

  lemma {:induction false} SwapsOnly(replaced: seq<Peer>, target: seq<Peer>, go: seq<bool>, learners: bool, k: nat)
    requires k <= |replaced| == |target| == |go|
    ensures OnlyRemoves(SwapSteps(replaced, target, go, learners, k), Going(replaced, go, k))
  {
    if k > 0 {
      SwapsOnly(replaced, target, go, learners, k - 1);
    }
  }

  /** Transfers come before all removals, or between removals of other stores. */
  lemma PartsValid(first: seq<Step>, swaps: seq<Step>, leader: nat, to: nat, x: nat, last: seq<Step>,
                   gone: set<nat>, late: set<nat>)
    requires RemovesNothing(first) && OnlyRemoves(swaps, gone) && OnlyRemoves(last, late)
    ensures ValidSteps(first + swaps + ([] + last))
    ensures leader !in gone && to !in gone ==>
              ValidSteps(first + swaps + ([TransferLeader(leader, to)] + [RemovePeer(x)] + last))
  {
  }

  /** Only peers that do not lead leave at once. */
  lemma LeaderStays(origin: Region, target: seq<Peer>, i: nat)
    requires i < |target| == |origin.peers|
    ensures var now := MovesNow(origin, origin.peers, target, i);
            Going(origin.peers, now, |now|) <= Stores(origin.peers) - {LeaderStore(origin)}
  {
    var now := MovesNow(origin, origin.peers, target, i);
    GoingAre(origin.peers, now, |now|);
  }

  /** The built program passes CheckOperatorValid. */
  lemma ScatterValid(origin: Region, target: seq<Peer>, i: nat, learners: bool)
    requires WellFormed(origin) && Targets(origin, target) && i < |target|
    ensures ValidSteps(Program(origin, origin.peers, target, i, learners))
  {
    var peers, n, lead, leader := origin.peers, |target|, target[i], LeaderStore(origin);
    var now, late := MovesNow(origin, peers, target, i), MovesLate(origin, peers, target, i);
    var first := if lead.store !in Stores(peers) then AddLightSteps(lead.store, lead.id, learners)
                 else if lead.store != leader then [TransferLeader(leader, lead.store)]
                 else [];
    var swaps, last := SwapSteps(peers, target, now, learners, n), SwapSteps(peers, target, late, learners, n);
    SwapsOnly(peers, target, now, learners, n);
    SwapsOnly(peers, target, late, learners, n);
    LeaderStays(origin, target, i);
    PartsValid(first, swaps, leader, lead.store, peers[i].store, last, Going(peers, now, n), Going(peers, late, n));
  }
}
