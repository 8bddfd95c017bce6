/**
  RegionScatterer: choosing the target peers of a region, one peer at a time, away from the
  stores picked for earlier regions.

  What the cluster answers is a parameter: the stores the filters let through at the n-th
  collection, the location labels and the stores that the distinct-score guard looks at, and the
  id allocated for a peer. The random candidate and the random leader are free choices.
*/
module RegionScatterer {
  import opened Options
  import opened OperatorSteps
  import opened Scatter
  import Location

  /** selectedStores: the stores picked since the last reset. */
  class SelectedStores {
    var stores: set<nat>

    constructor ()
      ensures stores == {}
    {
      stores := {};
    }

    method Put(id: nat) returns (ok: bool)
      modifies this
      ensures ok <==> id !in old(stores)
      ensures stores == old(stores) + {id}
    {
      if id in stores {
        assert stores == stores + {id};
        return false;
      }
      stores := stores + {id};
      return true;
    }

    method Reset()
      modifies this
      ensures stores == {}
    {
      stores := {};
    }
  }

  /** What the cluster answers during one call. */
  datatype Answers = Answers(
    eligible: nat -> set<nat>,
    keys: Location.Levels,
    store: nat -> Location.Store,
    alloc: nat -> Option<nat>)

  /** The stores of a peer list, with their labels. */
  function Located(answers: Answers, peers: seq<Peer>): (stores: seq<Location.Store>)
    ensures |stores| == |peers|
    ensures forall j :: 0 <= j < |peers| ==> stores[j] == answers.store(peers[j].store)
  {
    seq(|peers|, j requires 0 <= j < |peers| => answers.store(peers[j].store))
  }

  /** The distinct-score guard of peer j refuses the store. */
  predicate Refuses(origin: Region, answers: Answers, j: nat, s: nat)
    requires j < |origin.peers|
  {
    Location.Filtered(answers.keys, Located(answers, origin.peers), answers.store(origin.peers[j].store),
                      answers.store(s))
  }

  /** Allocated ids are new and never repeat. */
  ghost predicate NewIds(answers: Answers, peers: seq<Peer>) {
    && (forall j, k :: 0 <= j < |peers| && 0 <= k < |peers| && answers.alloc(j).Some? ==>
          answers.alloc(j).value != peers[k].id)
    && (forall j, k :: 0 <= j < k < |peers| && answers.alloc(j).Some? && answers.alloc(k).Some? ==>
          answers.alloc(j).value != answers.alloc(k).value)
  }

  /** The stores left for a region: they passed the filters, and neither picked, held nor taken already. */
  function Free(origin: Region, answers: Answers, picked: set<nat>, before: seq<Peer>): set<nat> {
    answers.eligible(0) - picked - Stores(origin.peers) - Stores(before)
  }

  /** The next peer is replaced: its store was picked for an earlier region and there is something to replace it by. */
  ghost predicate Movable(origin: Region, answers: Answers, picked: set<nat>, before: seq<Peer>)
    requires |before| < |origin.peers|
  {
    && origin.peers[|before|].store in picked
    && answers.alloc(|before|).Some?
    && (exists s :: s in Free(origin, answers, picked, before) && !Refuses(origin, answers, |before|, s))
  }

  /** The target of the next peer: a new voter on a free store if it is movable, itself if not. */
  ghost predicate Placement(origin: Region, answers: Answers, picked: set<nat>, before: seq<Peer>, t: Peer)
    requires |before| < |origin.peers|
  {
    if Movable(origin, answers, picked, before) then
      && t.store in Free(origin, answers, picked, before)
      && !Refuses(origin, answers, |before|, t.store)
      && answers.alloc(|before|) == Some(t.id)
      && !t.learner
    else
      t == origin.peers[|before|]
  }

  ghost predicate Placements(origin: Region, answers: Answers, picked: set<nat>, target: seq<Peer>) {
    && |target| <= |origin.peers|
    && (forall j :: 0 <= j < |target| ==> Placement(origin, answers, picked, target[..j], target[j]))
  }

  lemma PlacedApart(origin: Region, answers: Answers, picked: set<nat>, target: seq<Peer>, j: nat, k: nat)
    requires WellFormed(origin) && DistinctIds(origin.peers) && NewIds(answers, origin.peers)
    requires Placements(origin, answers, picked, target)
    requires j < k < |target|
    ensures target[j].store != target[k].store && target[j].id != target[k].id
  {
    assert Placement(origin, answers, picked, target[..j], target[j]);
    assert Placement(origin, answers, picked, target[..k], target[k]);
    assert origin.peers[j].store in Stores(origin.peers) && origin.peers[k].store in Stores(origin.peers);
    assert target[..k][j] == target[j];
    assert target[j].store in Stores(target[..k]);
  }

  /** Choices made one by one are targets that the operator builder can use. */
  lemma PlacementsAreTargets(origin: Region, answers: Answers, picked: set<nat>, target: seq<Peer>)
    requires WellFormed(origin) && DistinctIds(origin.peers) && NewIds(answers, origin.peers)
    requires Placements(origin, answers, picked, target) && |target| == |origin.peers|
    ensures Targets(origin, target)
  {
    forall j, k | 0 <= j < k < |target|
      ensures target[j].store != target[k].store && target[j].id != target[k].id
    {
      PlacedApart(origin, answers, picked, target, j, k);
    }
    forall j | 0 <= j < |target|
      ensures target[j] == origin.peers[j] || (target[j].store !in Stores(origin.peers) && !target[j].learner)
    {
      assert Placement(origin, answers, picked, target[..j], target[j]);
    }
  }

  /** What holds between two rounds: before a reset nothing is lost, after it no peer will find its store selected. */
  ghost predicate Round(origin: Region, answers: Answers, picked: set<nat>, target: seq<Peer>, selected: set<nat>,
                        stores: set<nat>, open: bool)
  {
    && |target| <= |origin.peers|
    && if open then
         selected == picked + Stores(target) && stores == Free(origin, answers, picked, target)
       else
         selected <= Stores(origin.peers[..|target|]) && Free(origin, answers, picked, target) == {}
  }

  lemma Prefix(peers: seq<Peer>, j: nat)
    requires j < |peers|
    ensures Stores(peers[..j + 1]) == Stores(peers[..j]) + {peers[j].store}
  {
    assert peers[..j + 1] == peers[..j] + [peers[j]];
    StoresSnoc(peers[..j], peers[j]);
  }

  lemma FreeSnoc(origin: Region, answers: Answers, picked: set<nat>, before: seq<Peer>, t: Peer)
    ensures Free(origin, answers, picked, before + [t]) == Free(origin, answers, picked, before) - {t.store}
  {
    StoresSnoc(before, t);
  }

  lemma PlacementsSnoc(origin: Region, answers: Answers, picked: set<nat>, target: seq<Peer>, t: Peer)
    requires |target| < |origin.peers| && Placements(origin, answers, picked, target)
    requires Placement(origin, answers, picked, target, t)
    ensures Placements(origin, answers, picked, target + [t])
  {
    var more := target + [t];
    forall j | 0 <= j < |more| ensures Placement(origin, answers, picked, more[..j], more[j]) {
      assert more[..j] == target[..j];
      if j < |target| {
        assert Placement(origin, answers, picked, target[..j], target[j]);
      } else {
        assert target[..j] == target;
      }
    }
  }

  lemma KeepRound(origin: Region, answers: Answers, picked: set<nat>, target: seq<Peer>, selected: set<nat>,
                  stores: set<nat>, open: bool)
    requires |target| < |origin.peers| && Round(origin, answers, picked, target, selected, stores, open)
    ensures var peer := origin.peers[|target|];
            Round(origin, answers, picked, target + [peer], selected + {peer.store}, stores - {peer.store}, open)
    ensures origin.peers[|target|].store !in stores || !open
  {
    var peer := origin.peers[|target|];
    Prefix(origin.peers, |target|);
    StoresSnoc(target, peer);
    FreeSnoc(origin, answers, picked, target, peer);
    assert peer.store in Stores(origin.peers);
  }

  /** A peer's store is selected already exactly if it was picked for an earlier region and nothing was reset. */
  lemma SelectedBefore(origin: Region, answers: Answers, picked: set<nat>, target: seq<Peer>, selected: set<nat>,
                       stores: set<nat>, open: bool)
    requires WellFormed(origin) && Placements(origin, answers, picked, target)
    requires |target| < |origin.peers| && Round(origin, answers, picked, target, selected, stores, open)
    ensures origin.peers[|target|].store in selected <==> open && origin.peers[|target|].store in picked
  {
    var j := |target|;
    assert origin.peers[j].store in Stores(origin.peers);
    assert forall k :: 0 <= k < j ==> Placement(origin, answers, picked, target[..k], target[k]);
    assert forall k :: 0 <= k < j ==> origin.peers[..j][k] == origin.peers[k];
  }

  lemma MoveRound(origin: Region, answers: Answers, picked: set<nat>, target: seq<Peer>, selected: set<nat>,
                  stores: set<nat>, next: Peer)
    requires |target| < |origin.peers| && Round(origin, answers, picked, target, selected, stores, true)
    ensures Round(origin, answers, picked, target + [next], selected + {next.store}, stores - {next.store}, true)
  {
    StoresSnoc(target, next);
    FreeSnoc(origin, answers, picked, target, next);
  }

  class Scatterer {
    const selected: SelectedStores

    constructor ()
      ensures selected.stores == {}
      ensures fresh(selected)
    {
      selected := new SelectedStores();
    }

    /** collectAvailableStores. */
    method CollectAvailableStores(origin: Region, eligible: set<nat>) returns (stores: set<nat>)
      ensures stores == eligible - selected.stores - Stores(origin.peers)
    {
      stores := {};
      var rest := eligible;
      while rest != {}
        invariant rest <= eligible
        invariant stores == (eligible - rest) - selected.stores - Stores(origin.peers)
        decreases rest
      {
        var store :| store in rest;
        rest := rest - {store};
        if store !in selected.stores && store !in Stores(origin.peers) {
          stores := stores + {store};
        }
      }
    }

    /** The loop of selectPeerToReplace: the stores that the guard lets through. */
    method Candidates(origin: Region, stores: set<nat>, answers: Answers, j: nat) returns (candidates: set<nat>)
      requires j < |origin.peers|
      ensures candidates == set s | s in stores && !Refuses(origin, answers, j, s)
    {
      var others, safeScore :=
        Location.NewDistinctScoreFilter(answers.keys, Located(answers, origin.peers),
                                        answers.store(origin.peers[j].store));
      candidates := {};
      var rest := stores;
      while rest != {}
        invariant rest <= stores
        invariant candidates == set s | s in stores - rest && !Refuses(origin, answers, j, s)
        decreases rest
      {
        var store :| store in rest;
        rest := rest - {store};
        var score := Location.DistinctScore(answers.keys, others, answers.store(store));
        if score < safeScore {
          continue;
        }
        candidates := candidates + {store};
      }
    }

    /** selectPeerToReplace: some unguarded available store with an allocated id, or nothing. */
    method SelectPeerToReplace(origin: Region, stores: set<nat>, answers: Answers, j: nat) returns (r: Option<Peer>)
      requires j < |origin.peers|
      ensures r.Some? ==> r.value.store in stores && !Refuses(origin, answers, j, r.value.store)
                          && answers.alloc(j) == Some(r.value.id) && !r.value.learner
      ensures r.None? <==> answers.alloc(j).None? || (forall s :: s in stores ==> Refuses(origin, answers, j, s))
    {
      var candidates := Candidates(origin, stores, answers, j);
      if candidates == {} {
        assert forall s :: s in stores && !Refuses(origin, answers, j, s) ==> s in candidates;
        return None;
      }
      var target :| target in candidates;
      match answers.alloc(j)
      case None => return None;
      case Some(id) => return Some(Peer(id, target, false));
    }

    /** One round of the loop of scatterRegion, after a possible reset: what becomes of peer j. */
    method PlacePeer(origin: Region, answers: Answers, j: nat, stores: set<nat>,
                     ghost picked: set<nat>, ghost target: seq<Peer>, ghost open: bool)
      returns (t: Peer, stores': set<nat>)
      requires WellFormed(origin) && j == |target| < |origin.peers|
      requires Placements(origin, answers, picked, target)
      requires Round(origin, answers, picked, target, selected.stores, stores, open)
      modifies selected
      ensures Placements(origin, answers, picked, target + [t])
      ensures Round(origin, answers, picked, target + [t], selected.stores, stores', open)
    {
      var peer := origin.peers[j];
      SelectedBefore(origin, answers, picked, target, selected.stores, stores, open);
      KeepRound(origin, answers, picked, target, selected.stores, stores, open);
      ghost var was := selected.stores;
      var ok := selected.Put(peer.store);
      if ok {
        PlacementsSnoc(origin, answers, picked, target, peer);
        return peer, stores - {peer.store};
      }
      assert selected.stores == was && stores == stores - {peer.store};
      var r := SelectPeerToReplace(origin, stores, answers, j);
      if r == None {
        PlacementsSnoc(origin, answers, picked, target, peer);
        return peer, stores;
      }
      PlacementsSnoc(origin, answers, picked, target, r.value);
      MoveRound(origin, answers, picked, target, selected.stores, stores, r.value);
      var _ := selected.Put(r.value.store);
      return r.value, stores - {r.value.store};
    }

    /** The loop of scatterRegion over the peers of a region. */
    method ChooseTargets(origin: Region, answers: Answers) returns (target: seq<Peer>, replaced: seq<Peer>)
      requires WellFormed(origin) && DistinctIds(origin.peers) && NewIds(answers, origin.peers)
      modifies selected
      ensures replaced == origin.peers
      ensures Targets(origin, target)
      ensures Placements(origin, answers, old(selected.stores), target)
      ensures selected.stores == old(selected.stores) + Stores(target) || selected.stores <= Stores(origin.peers)
    {
      var calls := 1;
      var stores := CollectAvailableStores(origin, answers.eligible(0));
      target, replaced := [], [];
      ghost var picked, open := selected.stores, true;
      assert stores == Free(origin, answers, picked, target);
      for j := 0 to |origin.peers|
        invariant |target| == j && replaced == origin.peers[..j]
        invariant Placements(origin, answers, picked, target)
        invariant Round(origin, answers, picked, target, selected.stores, stores, open)
      {
        if stores == {} {
          selected.Reset();
          stores := CollectAvailableStores(origin, answers.eligible(calls));
          calls := calls + 1;
          open := false;
        }
        var t;
        t, stores := PlacePeer(origin, answers, j, stores, picked, target, open);
        target, replaced := target + [t], replaced + [origin.peers[j]];
      }
      assert origin.peers[..|origin.peers|] == origin.peers;
      PlacementsAreTargets(origin, answers, picked, target);
    }

    /** scatterRegion; i is the random leader pick. */
    method ScatterRegion(origin: Region, answers: Answers, i: nat, learners: bool)
      returns (r: Option<seq<Step>>, target: seq<Peer>)
      requires WellFormed(origin) && DistinctIds(origin.peers) && NewIds(answers, origin.peers)
      requires i < |origin.peers|
      modifies selected
      ensures Scatters(origin, answers, old(selected.stores), i, r, target)
    {
      var replaced;
      target, replaced := ChooseTargets(origin, answers);
      r := CreateScatterRegionOperator(origin, replaced, target, i, learners);
      ScatterSafe(origin, target, i, learners);
      ScatterValid(origin, target, i, learners);
      StoresCount(origin.peers);
      StoresCount(target);
      if Stores(target) <= Stores(origin.peers) {
        SameSet(Stores(target), Stores(origin.peers));
      }
    }

    /** Scatter: hot regions, regions with another number of replicas and regions without a leader are refused. */
    method Scatter(origin: Region, answers: Answers, hot: bool, maxReplicas: nat, i: nat, learners: bool)
      returns (r: Scattering)
      requires DistinctStores(origin.peers) && DistinctIds(origin.peers)
      requires origin.leader.Some? ==> origin.leader.value in origin.peers && !origin.leader.value.learner
      requires NewIds(answers, origin.peers) && (origin.peers != [] ==> i < |origin.peers|)
      modifies selected
      ensures r == HotRegion <==> hot
      ensures r == ReplicaCount <==> !hot && |origin.peers| != maxReplicas
      ensures r == NoLeader <==> !hot && |origin.peers| == maxReplicas && origin.leader.None?
      ensures r.Scattered? ==> Scatters(origin, answers, old(selected.stores), i, r.steps, r.target)
      ensures !r.Scattered? ==> selected.stores == old(selected.stores)
    {
      if hot {
        return HotRegion;
      }
      if |origin.peers| != maxReplicas {
        return ReplicaCount;
      }
      if origin.leader.None? {
        return NoLeader;
      }
      var steps, target := ScatterRegion(origin, answers, i, learners);
      return Scattered(steps, target);
    }
  }

  datatype Scattering = HotRegion | ReplicaCount | NoLeader | Scattered(steps: Option<seq<Step>>, target: seq<Peer>)

  /**
    The outcome of scattering: the targets follow from what was picked before, there is no operator
    exactly if nothing would change, and an operator is valid. It is safe and ends on the targets
    with the i-th as leader, exactly if that one is no learner.
  */
  ghost predicate Scatters(origin: Region, answers: Answers, picked: set<nat>, i: nat, r: Option<seq<Step>>,
                           target: seq<Peer>) {
    && Targets(origin, target) && Placements(origin, answers, picked, target) && i < |target|
    && (r.None? <==> Stores(target) == Stores(origin.peers) && target[i].store == LeaderStore(origin))
    && (r.Some? ==> ValidSteps(r.value) && (ScattersSafely(origin, target, i, r.value) <==> !target[i].learner))
  }

  ghost predicate ScattersSafely(origin: Region, target: seq<Peer>, i: nat, steps: seq<Step>)
    requires i < |target|
  {
    Reaches(Placed(origin), steps, |VoterStores(origin.peers)|, |target| + 2, Stores(target), VoterStores(target),
            target[i].store)
  }

  /** Every store is listed under its own id. */
  ghost predicate Known(answers: Answers) {
    forall s :: answers.store(s).id == s
  }

  /** At most one peer moves. */
  ghost predicate OneMoves(origin: Region, target: seq<Peer>)
    requires |target| == |origin.peers|
  {
    forall j, k :: 0 <= j < k < |target| ==> target[j] == origin.peers[j] || target[k] == origin.peers[k]
  }

  /**
    The distinct score of the region does not fall exactly if what pairs of moves lose is made up by
    what each move gains alone; it never falls if at most one peer moves.
  */
  lemma ScatterScore(origin: Region, answers: Answers, picked: set<nat>, target: seq<Peer>)
    requires WellFormed(origin) && Known(answers)
    requires Placements(origin, answers, picked, target) && |target| == |origin.peers|
    ensures Location.ScoreKept(answers.keys, Located(answers, origin.peers), Located(answers, target))
    ensures OneMoves(origin, target) ==> Location.OneReplaced(Located(answers, origin.peers), Located(answers, target))
  {
    MovesGuarded(origin, answers, picked, target);
    Location.GuardedTotal(answers.keys, Located(answers, origin.peers), Located(answers, target));
  }

  lemma MovesGuarded(origin: Region, answers: Answers, picked: set<nat>, target: seq<Peer>)
    requires WellFormed(origin) && Known(answers)
    requires Placements(origin, answers, picked, target) && |target| == |origin.peers|
    ensures Location.DistinctIds(Located(answers, origin.peers))
    ensures Location.Guarded(answers.keys, Located(answers, origin.peers), Located(answers, target))
  {
    var was, now := Located(answers, origin.peers), Located(answers, target);
    forall k | 0 <= k < |was| && now[k] != was[k] ensures !Location.Filtered(answers.keys, was, was[k], now[k]) {
      assert Placement(origin, answers, picked, target[..k], target[k]);
    }
  }
}
