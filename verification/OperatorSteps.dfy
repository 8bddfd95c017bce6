/**
  The steps of an operator and what they do to a region: an execution semantics for the small
  programs that the operator builders generate.
*/
module OperatorSteps {
  import opened Options

  /** A replica of a region on a store. */
  datatype Peer = Peer(id: nat, store: nat, learner: bool)

  /** leader is one of the peers, or None. */
  datatype Region = Region(peers: seq<Peer>, leader: Option<Peer>)

  datatype Step =
    | TransferLeader(fromStore: nat, toStore: nat)
    | AddPeer(toStore: nat, peerId: nat)
    | AddLearner(toStore: nat, peerId: nat)
    | PromoteLearner(toStore: nat, peerId: nat)
    | RemovePeer(fromStore: nat)
    | AddLightPeer(toStore: nat, peerId: nat)
    | AddLightLearner(toStore: nat, peerId: nat)

  datatype Replica = Replica(id: nat, learner: bool)

  /** Where the replicas of a region are, and the store of its leader. */
  datatype Placement = Placement(peers: map<nat, Replica>, leader: nat)

  /** The stores with a replica. */
  ghost function Holders(p: Placement): set<nat> {
    set s | s in p.peers
  }

  /** The stores with a replica that votes. */
  ghost function Voters(p: Placement): set<nat> {
    set s | s in p.peers && !p.peers[s].learner
  }

  /** IsFinish, for a region without pending peers. */
  predicate IsFinish(step: Step, p: Placement) {
    match step
    case TransferLeader(_, to) => p.leader == to
    case AddPeer(to, id) => to in p.peers && p.peers[to] == Replica(id, false)
    case AddLearner(to, id) => to in p.peers && p.peers[to] == Replica(id, true)
    case PromoteLearner(to, id) => to in p.peers && p.peers[to] == Replica(id, false)
    case RemovePeer(from) => from !in p.peers
    case AddLightPeer(to, id) => to in p.peers && p.peers[to] == Replica(id, false)
    case AddLightLearner(to, id) => to in p.peers && p.peers[to] == Replica(id, true)
  }

  /** What the region looks like once the step is carried out. */
  function Apply(p: Placement, step: Step): Placement {
    match step
    case TransferLeader(_, to) => p.(leader := to)
    case AddPeer(to, id) => p.(peers := p.peers[to := Replica(id, false)])
    case AddLearner(to, id) => p.(peers := p.peers[to := Replica(id, true)])
    case PromoteLearner(to, id) => p.(peers := p.peers[to := Replica(id, false)])
    case RemovePeer(from) => p.(peers := p.peers - {from})
    case AddLightPeer(to, id) => p.(peers := p.peers[to := Replica(id, false)])
    case AddLightLearner(to, id) => p.(peers := p.peers[to := Replica(id, true)])
  }

  /**
    A step that is safe to carry out: leadership moves to a voter, a new peer goes to a store
    without one, a promotion finds its learner, and the leader is not removed. The store that a
    transfer names as its source plays no part: the command carries the new leader only.
  */
  predicate Allowed(p: Placement, step: Step) {
    match step
    case TransferLeader(_, to) => to in p.peers && !p.peers[to].learner
    case AddPeer(to, _) => to !in p.peers
    case AddLearner(to, _) => to !in p.peers
    case PromoteLearner(to, id) => to in p.peers && p.peers[to] == Replica(id, true)
    case RemovePeer(from) => from in p.peers && p.leader != from
    case AddLightPeer(to, _) => to !in p.peers
    case AddLightLearner(to, _) => to !in p.peers
  }

  function Exec(p: Placement, steps: seq<Step>): Placement
    decreases |steps|
  {
    if steps == [] then p else Exec(Apply(p, steps[0]), steps[1..])
  }

  /**
    Every step is safe when its turn comes, and before, between and after the steps the region
    has at least lo voters and at most hi peers.
  */
  ghost predicate Runs(p: Placement, steps: seq<Step>, lo: nat, hi: nat)
    decreases |steps|
  {
    && lo <= |Voters(p)|
    && |Holders(p)| <= hi
    && (steps != [] ==> Allowed(p, steps[0]) && Runs(Apply(p, steps[0]), steps[1..], lo, hi))
  }

  lemma {:induction false} ExecConcat(p: Placement, a: seq<Step>, b: seq<Step>)
    ensures Exec(p, a + b) == Exec(Exec(p, a), b)
    decreases |a|
  {
    if a == [] {
      assert a + b == b;
    } else {
      assert (a + b)[1..] == a[1..] + b;
      ExecConcat(Apply(p, a[0]), a[1..], b);
    }
  }

  lemma {:induction false} RunsConcat(p: Placement, a: seq<Step>, b: seq<Step>, lo: nat, hi: nat)
    ensures Runs(p, a + b, lo, hi) <==> Runs(p, a, lo, hi) && Runs(Exec(p, a), b, lo, hi)
    decreases |a|
  {
    if a == [] {
      assert a + b == b;
    } else {
      assert (a + b)[1..] == a[1..] + b;
      RunsConcat(Apply(p, a[0]), a[1..], b, lo, hi);
    }
  }

  /** A safe step is finished once it is carried out, so Operator.Check moves on. */
  lemma AllowedFinishes(p: Placement, step: Step)
    requires Allowed(p, step)
    ensures IsFinish(step, Apply(p, step))
  {
  }

  // ---------------------------------------------------------------------------------------
  // Regions

  /** One peer per store, and the leader is one of the voters. */
  ghost predicate WellFormed(r: Region) {
    && DistinctStores(r.peers)
    && r.leader.Some? && r.leader.value in r.peers && !r.leader.value.learner
  }

  ghost predicate DistinctStores(peers: seq<Peer>) {
    forall i, j :: 0 <= i < j < |peers| ==> peers[i].store != peers[j].store
  }

  ghost predicate DistinctIds(peers: seq<Peer>) {
    forall i, j :: 0 <= i < j < |peers| ==> peers[i].id != peers[j].id
  }

  ghost predicate DistinctSeq(s: seq<nat>) {
    forall i, j :: 0 <= i < j < |s| ==> s[i] != s[j]
  }

  /** The set of stores of a peer list. */
  function Stores(peers: seq<Peer>): set<nat> {
    set i | 0 <= i < |peers| :: peers[i].store
  }

  /** The stores of the peers that vote. */
  function VoterStores(peers: seq<Peer>): set<nat> {
    set i | 0 <= i < |peers| && !peers[i].learner :: peers[i].store
  }

  /** The stores whose peers vote once the region is on the given ones: the new ones, and the old voters among them. */
  function MovedVoters(region: Region, storeIDs: set<nat>): set<nat> {
    (storeIDs - Stores(region.peers)) + VoterStores(region.peers) * storeIDs
  }

  function PlacedPeers(peers: seq<Peer>): map<nat, Replica> {
    if peers == [] then map[]
    else
      var p := peers[|peers| - 1];
      PlacedPeers(peers[..|peers| - 1])[p.store := Replica(p.id, p.learner)]
  }

  function Placed(r: Region): Placement {
    Placement(PlacedPeers(r.peers), if r.leader.Some? then r.leader.value.store else 0)
  }

  lemma StoresSnoc(init: seq<Peer>, p: Peer)
    ensures Stores(init + [p]) == Stores(init) + {p.store}
  {
    var all := init + [p];
    forall s | s in Stores(init) + {p.store} ensures s in Stores(all) {
      if s == p.store {
        assert all[|init|].store == s;
      } else {
        var i :| 0 <= i < |init| && init[i].store == s;
        assert all[i].store == s;
      }
    }
  }

  lemma DistinctInit(init: seq<Peer>, p: Peer)
    requires DistinctStores(init + [p])
    ensures DistinctStores(init) && p.store !in Stores(init)
  {
    var all := init + [p];
    forall i, j | 0 <= i < j < |init| ensures init[i].store != init[j].store {
      assert all[i] == init[i] && all[j] == init[j];
    }
    forall i | 0 <= i < |init| ensures init[i].store != p.store {
      assert all[i] == init[i] && all[|init|] == p;
    }
  }

  lemma {:induction false} StoresCount(peers: seq<Peer>)
    requires DistinctStores(peers)
    ensures |Stores(peers)| == |peers|
  {
    if peers != [] {
      var init, p := peers[..|peers| - 1], peers[|peers| - 1];
      assert peers == init + [p];
      StoresSnoc(init, p);
      StoresCount(init);
      assert p.store !in Stores(init);
    }
  }

  lemma {:induction false} PlacedAt(peers: seq<Peer>)
    requires DistinctStores(peers)
    ensures PlacedPeers(peers).Keys == Stores(peers)
    ensures forall i :: 0 <= i < |peers| ==>
              PlacedPeers(peers)[peers[i].store] == Replica(peers[i].id, peers[i].learner)
  {
    if peers != [] {
      var init, p := peers[..|peers| - 1], peers[|peers| - 1];
      PlacedAt(init);
      assert peers == init + [p];
      StoresSnoc(init, p);
    }
  }

  lemma PlacedVoters(peers: seq<Peer>, p: Placement)
    requires DistinctStores(peers) && p.peers == PlacedPeers(peers)
    ensures Holders(p) == Stores(peers) && Voters(p) == VoterStores(peers)
  {
    PlacedAt(peers);
    forall s | s in Voters(p) ensures s in VoterStores(peers) {
      var i :| 0 <= i < |peers| && peers[i].store == s;
      assert p.peers[peers[i].store].learner == peers[i].learner;
    }
  }

  // ---------------------------------------------------------------------------------------
  // Step sequences that builders share

  /** The steps that add a voter: through a learner where learners are enabled. */
  function AddSteps(store: nat, id: nat, learners: bool): seq<Step> {
    if learners then [AddLearner(store, id), PromoteLearner(store, id)] else [AddPeer(store, id)]
  }

  function AddLightSteps(store: nat, id: nat, learners: bool): seq<Step> {
    if learners then [AddLightLearner(store, id), PromoteLearner(store, id)] else [AddLightPeer(store, id)]
  }

  function WithVoter(p: Placement, store: nat, id: nat): Placement {
    p.(peers := p.peers[store := Replica(id, false)])
  }

  function Without(p: Placement, store: nat): Placement {
    p.(peers := p.peers - {store})
  }

  lemma Monotone(a: set<nat>, b: set<nat>)
    requires a <= b
    ensures |a| <= |b|
  {
    assert b == a + (b - a);
  }

  /** A peer on a free store is one holder more, and no voter less. */
  lemma AddGrows(p: Placement, q: Placement, store: nat, replica: Replica)
    requires store !in p.peers && q.peers == p.peers[store := replica]
    ensures Holders(q) == Holders(p) + {store} && |Holders(q)| == |Holders(p)| + 1
    ensures Voters(p) <= Voters(q) && |Voters(p)| <= |Voters(q)|
    ensures !replica.learner ==> Voters(q) == Voters(p) + {store}
  {
    assert Holders(q) == Holders(p) + {store};
    Monotone(Voters(p), Voters(q));
    if !replica.learner {
      assert Voters(q) == Voters(p) + {store};
    }
  }

  /** Adding a voter to a free store takes one more peer for a while. */
  lemma AddRuns(p: Placement, store: nat, id: nat, learners: bool, lo: nat, hi: nat, steps: seq<Step>)
    requires store !in p.peers && lo <= |Voters(p)| && |Holders(p)| < hi
    requires steps == AddSteps(store, id, learners) || steps == AddLightSteps(store, id, learners)
    ensures Runs(p, steps, lo, hi) && Exec(p, steps) == WithVoter(p, store, id)
    ensures Voters(WithVoter(p, store, id)) == Voters(p) + {store}
    ensures Holders(WithVoter(p, store, id)) == Holders(p) + {store}
  {
    var p' := WithVoter(p, store, id);
    AddGrows(p, p', store, Replica(id, false));
    if learners {
      var mid := p.(peers := p.peers[store := Replica(id, true)]);
      AddGrows(p, mid, store, Replica(id, true));
      assert Apply(p, steps[0]) == mid;
      assert mid.peers[store := Replica(id, false)] == p'.peers;
      assert Apply(mid, steps[1]) == p';
      OneRuns(mid, steps[1], lo, hi);
      assert steps[1..] == [steps[1]];
    } else {
      OneRuns(p, steps[0], lo, hi);
      assert steps == [steps[0]];
    }
  }

  lemma OneRuns(p: Placement, step: Step, lo: nat, hi: nat)
    requires Allowed(p, step)
    requires lo <= |Voters(p)| && |Holders(p)| <= hi
    requires lo <= |Voters(Apply(p, step))| && |Holders(Apply(p, step))| <= hi
    ensures Runs(p, [step], lo, hi) && Exec(p, [step]) == Apply(p, step)
  {
    assert [step][1..] == [];
    assert Runs(Apply(p, step), [], lo, hi);
  }

  lemma RemoveRuns(p: Placement, store: nat, lo: nat, hi: nat)
    requires store in p.peers && store != p.leader && lo <= |Voters(p) - {store}| && |Holders(p)| <= hi
    ensures Runs(p, [RemovePeer(store)], lo, hi) && Exec(p, [RemovePeer(store)]) == Without(p, store)
    ensures Voters(Without(p, store)) == Voters(p) - {store}
  {
    assert Holders(Without(p, store)) == Holders(p) - {store};
    assert Voters(Without(p, store)) == Voters(p) - {store};
    OneRuns(p, RemovePeer(store), lo, hi);
  }

  lemma TransferRuns(p: Placement, from: nat, to: nat, lo: nat, hi: nat)
    requires to in Voters(p) && lo <= |Voters(p)| && |Holders(p)| <= hi
    ensures var step := TransferLeader(from, to);
            Runs(p, [step], lo, hi) && Exec(p, [step]) == p.(leader := to)
    ensures Voters(p.(leader := to)) == Voters(p)
  {
    assert Voters(p.(leader := to)) == Voters(p);
    OneRuns(p, TransferLeader(from, to), lo, hi);
  }

  /** A safe program extended by a safe program. */
  lemma Extend(p: Placement, a: seq<Step>, b: seq<Step>, lo: nat, hi: nat)
    requires Runs(p, a, lo, hi) && Runs(Exec(p, a), b, lo, hi)
    ensures Runs(p, a + b, lo, hi) && Exec(p, a + b) == Exec(Exec(p, a), b)
  {
    RunsConcat(p, a, b, lo, hi);
    ExecConcat(p, a, b);
  }

  /** A program that hands leadership to a store without a voter is safe within no bounds. */
  lemma BadTransfer(p: Placement, before: seq<Step>, from: nat, to: nat, rest: seq<Step>, lo: nat, hi: nat)
    requires to !in Voters(Exec(p, before))
    ensures !Runs(p, before + ([TransferLeader(from, to)] + rest), lo, hi)
  {
    RunsConcat(p, before, [TransferLeader(from, to)] + rest, lo, hi);
  }

  /** A safe program that ends with peers and voters on exactly the given stores and the given leader. */
  ghost predicate Reaches(p: Placement, steps: seq<Step>, lo: nat, hi: nat, stores: set<nat>, voters: set<nat>,
                          leader: nat) {
    && Runs(p, steps, lo, hi)
    && Holders(Exec(p, steps)) == stores
    && Voters(Exec(p, steps)) == voters
    && Exec(p, steps).leader == leader
  }

  lemma ReachVoters(p: Placement, steps: seq<Step>, lo: nat, hi: nat, stores: set<nat>, voters: set<nat>, leader: nat)
    requires Reaches(p, steps, lo, hi, stores, voters, leader)
    ensures voters <= stores
  {
  }

  lemma ReachAdd(p: Placement, steps: seq<Step>, lo: nat, hi: nat, stores: set<nat>, voters: set<nat>, leader: nat,
                 add: nat, id: nat, learners: bool)
    requires Reaches(p, steps, lo, hi, stores, voters, leader) && add !in stores && lo <= |voters| && |stores| < hi
    ensures Reaches(p, steps + AddSteps(add, id, learners), lo, hi, stores + {add}, voters + {add}, leader)
    ensures Reaches(p, steps + AddLightSteps(add, id, learners), lo, hi, stores + {add}, voters + {add}, leader)
  {
    var q := Exec(p, steps);
    AddRuns(q, add, id, learners, lo, hi, AddSteps(add, id, learners));
    AddRuns(q, add, id, learners, lo, hi, AddLightSteps(add, id, learners));
    Extend(p, steps, AddSteps(add, id, learners), lo, hi);
    Extend(p, steps, AddLightSteps(add, id, learners), lo, hi);
  }

  lemma ReachRemove(p: Placement, steps: seq<Step>, lo: nat, hi: nat, stores: set<nat>, voters: set<nat>, leader: nat,
                    remove: nat)
    requires Reaches(p, steps, lo, hi, stores, voters, leader) && remove in stores && remove != leader
    requires lo <= |voters - {remove}| && |stores| <= hi
    ensures Reaches(p, steps + [RemovePeer(remove)], lo, hi, stores - {remove}, voters - {remove}, leader)
  {
    var q := Exec(p, steps);
    RemoveRuns(q, remove, lo, hi);
    Extend(p, steps, [RemovePeer(remove)], lo, hi);
    assert Holders(Without(q, remove)) == stores - {remove};
  }

  lemma ReachTransfer(p: Placement, steps: seq<Step>, lo: nat, hi: nat, stores: set<nat>, voters: set<nat>, leader: nat,
                      from: nat, to: nat)
    requires Reaches(p, steps, lo, hi, stores, voters, leader) && to in voters && lo <= |voters| && |stores| <= hi
    ensures Reaches(p, steps + [TransferLeader(from, to)], lo, hi, stores, voters, to)
  {
    var q := Exec(p, steps);
    TransferRuns(q, from, to, lo, hi);
    Extend(p, steps, [TransferLeader(from, to)], lo, hi);
  }

  /** A voter joins, and whoever leaves is at most one voter. */
  lemma SwapCounts(stores: set<nat>, voters: set<nat>, joining: nat, leaving: nat)
    requires voters <= stores && joining !in stores && leaving in stores
    ensures |stores + {joining} - {leaving}| == |stores|
    ensures |voters + {joining} - {leaving}| >= |voters|
  {
    assert voters + {joining} - {leaving}
      == if leaving in voters then voters - {leaving} + {joining} else voters + {joining};
  }

  /** One store joins and one leaves. */
  function Exchanged(stores: set<nat>, add: nat, remove: nat): set<nat> {
    set s | s in stores + {add} && s != remove
  }

  lemma ExchangedIs(stores: set<nat>, add: nat, remove: nat)
    ensures Exchanged(stores, add, remove) == stores + {add} - {remove}
  {
  }

  lemma ExchangedCounts(stores: set<nat>, voters: set<nat>, add: nat, remove: nat)
    requires voters <= stores && add !in stores && remove in stores
    ensures |Exchanged(stores, add, remove)| == |stores| && |Exchanged(voters, add, remove)| >= |voters|
    ensures Exchanged(voters, add, remove) <= Exchanged(stores, add, remove)
  {
    ExchangedIs(stores, add, remove);
    ExchangedIs(voters, add, remove);
    SwapCounts(stores, voters, add, remove);
  }

  function LeaderStore(r: Region): nat {
    if r.leader.Some? then r.leader.value.store else 0
  }

  /** The region before any step. */
  lemma ReachStart(r: Region, lo: nat, hi: nat)
    requires WellFormed(r) && lo <= |VoterStores(r.peers)| && |r.peers| <= hi
    ensures Reaches(Placed(r), [], lo, hi, Stores(r.peers), VoterStores(r.peers), LeaderStore(r))
    ensures LeaderStore(r) in VoterStores(r.peers) && VoterStores(r.peers) <= Stores(r.peers)
    ensures |Stores(r.peers)| == |r.peers|
  {
    PlacedVoters(r.peers, Placed(r));
    StoresCount(r.peers);
    var i :| 0 <= i < |r.peers| && r.peers[i] == r.leader.value;
    assert r.peers[i].store == LeaderStore(r);
  }

  /** A store with a peer that does not vote. */
  lemma LearnerStore(peers: seq<Peer>, i: nat)
    requires DistinctStores(peers) && i < |peers|
    ensures peers[i].store in VoterStores(peers) <==> !peers[i].learner
  {
  }

  // ---------------------------------------------------------------------------------------
  // CheckOperatorValid

  /** No leader transfer names a store whose peer an earlier step removes. */
  ghost predicate ValidSteps(steps: seq<Step>) {
    forall i, j :: 0 <= i < j < |steps| && steps[i].RemovePeer? && steps[j].TransferLeader?
      ==> steps[i].fromStore != steps[j].fromStore && steps[i].fromStore != steps[j].toStore
  }

  method CheckOperatorValid(steps: seq<Step>) returns (ok: bool)
    ensures ok <==> ValidSteps(steps)
  {
    var removed: seq<nat> := [];
    for n := 0 to |steps|
      invariant forall i :: 0 <= i < n && steps[i].RemovePeer? ==> steps[i].fromStore in removed
      invariant forall s :: s in removed ==> exists i :: 0 <= i < n && steps[i] == RemovePeer(s)
      invariant ValidSteps(steps[..n])
    {
      var step := steps[n];
      if step.TransferLeader? {
        for k := 0 to |removed|
          invariant forall m :: 0 <= m < k ==> removed[m] != step.fromStore && removed[m] != step.toStore
        {
          if removed[k] == step.fromStore || removed[k] == step.toStore {
            ghost var i :| 0 <= i < n && steps[i] == RemovePeer(removed[k]);
            return false;
          }
        }
      }
      if step.RemovePeer? {
        removed := removed + [step.fromStore];
      }
    }
    assert steps[..|steps|] == steps;
    return true;
  }
}
