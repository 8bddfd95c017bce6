/** matchPeerSteps: the program that moves the peers of one region onto the stores of another. */
module MatchPeer {
  import opened OperatorSteps

  /** OutOfRange stands for the run-time panic of an index past the end of the add steps. */
  datatype Result =
    | Matched(steps: seq<Step>, opLeader: bool, opRegion: bool)
    | CountMismatch
    | AllocFailed
    | OutOfRange
    | WrongCount

  /** getIntersectionStores */
  method GetIntersectionStores(a: seq<Peer>, b: seq<Peer>) returns (intersection: set<nat>)
    ensures intersection == Stores(a) * Stores(b)
  {
    intersection := {};
    var hash: set<nat> := {};
    for i := 0 to |a|
      invariant hash == Stores(a[..i])
    {
      hash := hash + {a[i].store};
      assert a[..i + 1] == a[..i] + [a[i]];
      StoresSnoc(a[..i], a[i]);
    }
    assert a[..|a|] == a;
    for i := 0 to |b|
      invariant intersection == Stores(a) * Stores(b[..i])
    {
      if b[i].store in hash {
        intersection := intersection + {b[i].store};
      }
      assert b[..i + 1] == b[..i] + [b[i]];
      StoresSnoc(b[..i], b[i]);
    }
    assert b[..|b|] == b;
  }

  /** The target peers on stores outside the intersection, in order. */
  function Missing(peers: seq<Peer>, intersection: set<nat>): seq<nat> {
    if peers == [] then []
    else
      var init := Missing(peers[..|peers| - 1], intersection);
      var store := peers[|peers| - 1].store;
      if store in intersection then init else init + [store]
  }

  lemma {:induction false} MissingAre(peers: seq<Peer>, intersection: set<nat>)
    ensures forall s :: s in Missing(peers, intersection) <==> s in Stores(peers) && s !in intersection
  {
    if peers != [] {
      var init, p := peers[..|peers| - 1], peers[|peers| - 1];
      assert peers == init + [p];
      MissingAre(init, intersection);
      StoresSnoc(init, p);
    }
  }

  lemma {:induction false} MissingDistinct(peers: seq<Peer>, intersection: set<nat>)
    requires DistinctStores(peers)
    ensures DistinctSeq(Missing(peers, intersection))
    ensures |Missing(peers, intersection)| == |Stores(peers) - intersection|
  {
    if peers != [] {
      var init, p := peers[..|peers| - 1], peers[|peers| - 1];
      assert peers == init + [p];
      DistinctInit(init, p);
      MissingDistinct(init, intersection);
      MissingAre(init, intersection);
      StoresSnoc(init, p);
      MoreMissing(Stores(init), p.store, intersection);
    }
  }

  lemma MoreMissing(stores: set<nat>, store: nat, intersection: set<nat>)
    requires store !in stores
    ensures |(stores + {store}) - intersection| == |stores - intersection| + if store in intersection then 0 else 1
  {
    assert (stores + {store}) - intersection == (stores - intersection) + if store in intersection then {} else {store};
  }

  /** The add steps for the missing stores. */
  function AddGroups(stores: seq<nat>, alloc: map<nat, nat>, learners: bool): (groups: seq<seq<Step>>)
    requires forall i :: 0 <= i < |stores| ==> stores[i] in alloc
    ensures |groups| == |stores|
    ensures forall i :: 0 <= i < |stores| ==> groups[i] == AddSteps(stores[i], alloc[stores[i]], learners)
  {
    seq(|stores|, i requires 0 <= i < |stores| => AddSteps(stores[i], alloc[stores[i]], learners))
  }

  /** The first non-zero entry, or zero. */
  function FirstNonZero(stores: seq<nat>): nat {
    if stores == [] then 0
    else
      var f := FirstNonZero(stores[..|stores| - 1]);
      if f == 0 then stores[|stores| - 1] else f
  }

  lemma {:induction false} FirstNonZeroIsHead(stores: seq<nat>)
    requires stores != [] && 0 !in stores
    ensures FirstNonZero(stores) == stores[0]
  {
    if |stores| > 1 {
      FirstNonZeroIsHead(stores[..|stores| - 1]);
    }
  }

  /** The store that leadership is to move to, or 0 if it may stay; order lists the intersection. */
  function PickedLeader(order: seq<nat>, leader: nat, first: nat): nat {
    if order == [] then first else if leader in order then 0 else order[|order| - 1]
  }

  /** Add a peer and remove a peer, k times. */
  function Replacements(groups: seq<seq<Step>>, removes: seq<nat>, k: nat): seq<Step>
    requires k <= |groups| && k <= |removes|
  {
    if k == 0 then [] else Replacements(groups, removes, k - 1) + groups[k - 1] + [RemovePeer(removes[k - 1])]
  }

  predicate AllAllocated(stores: seq<nat>, alloc: map<nat, nat>) {
    forall i :: 0 <= i < |stores| ==> stores[i] in alloc
  }

  /**
    The program that matchPeerSteps builds. alloc gives the new peer id for each store where
    AllocPeer succeeds; order is the iteration order over the intersection.
  */
  function Program(source: Region, target: Region, learners: bool, alloc: map<nat, nat>, order: seq<nat>): Result {
    var intersection := Stores(source.peers) * Stores(target.peers);
    var missing := Missing(target.peers, intersection);
    if |source.peers| != |target.peers| then CountMismatch
    else if !AllAllocated(missing, alloc) then AllocFailed
    else Assemble(source, intersection, AddGroups(missing, alloc, learners),
                  PickedLeader(order, LeaderStore(source), FirstNonZero(missing)))
  }

  /** The part after the store to lead has been picked. */
  function Assemble(source: Region, intersection: set<nat>, groups: seq<seq<Step>>, picked: nat): Result {
    var leader := LeaderStore(source);
    var early := intersection != {} && picked != 0;
    var late := intersection == {} && picked != 0;
    var removes := Missing(source.peers, intersection + if late then {leader} else {});
    var index := |removes| + if late then 1 else 0;
    if index > |groups| then OutOfRange
    else if index < |groups| then WrongCount
    else
      var prefix := if early then [TransferLeader(leader, picked)] else [];
      var body := prefix + Replacements(groups, removes, |removes|);
      var steps := if late then body + groups[|removes|] + [TransferLeader(leader, picked)] + [RemovePeer(leader)]
                   else body;
      Matched(steps, early || late, groups != [] || removes != [] || late)
  }

  /** The first loop: add steps for every missing store, and the first of those stores. */
  method CollectAdds(targetPeers: seq<Peer>, intersection: set<nat>, alloc: map<nat, nat>, learners: bool)
    returns (ok: bool, toAdds: seq<seq<Step>>, targetLeader: nat)
    ensures ok <==> AllAllocated(Missing(targetPeers, intersection), alloc)
    ensures ok ==> toAdds == AddGroups(Missing(targetPeers, intersection), alloc, learners)
    ensures ok ==> targetLeader == FirstNonZero(Missing(targetPeers, intersection))
  {
    toAdds, targetLeader := [], 0;
    for i := 0 to |targetPeers|
      invariant AllAllocated(Missing(targetPeers[..i], intersection), alloc)
      invariant toAdds == AddGroups(Missing(targetPeers[..i], intersection), alloc, learners)
      invariant targetLeader == FirstNonZero(Missing(targetPeers[..i], intersection))
    {
      var store := targetPeers[i].store;
      assert targetPeers[..i + 1][..i] == targetPeers[..i];
      if store !in intersection {
        ghost var missing := Missing(targetPeers[..i], intersection);
        assert (missing + [store])[..|missing|] == missing;
        if store !in alloc {
          MissingAre(targetPeers, intersection);
          assert store in Stores(targetPeers);
          return false, [], 0;
        }
        toAdds := toAdds + [AddSteps(store, alloc[store], learners)];
        if targetLeader == 0 {
          targetLeader := store;
        }
      }
    }
    assert targetPeers[..|targetPeers|] == targetPeers;
    ok := true;
  }

  /** The second loop. */
  method PickLeader(order: seq<nat>, leader: nat, first: nat) returns (targetLeader: nat)
    ensures targetLeader == PickedLeader(order, leader, first)
  {
    targetLeader := first;
    for i := 0 to |order|
      invariant leader !in order[..i]
      invariant targetLeader == if i == 0 then first else order[i - 1]
    {
      if order[i] == leader {
        return 0;
      }
      targetLeader := order[i];
    }
  }

  /** The third loop, over the source peers; keepLeader is the case that the leader goes last. */
  method RemoveRedundant(sourcePeers: seq<Peer>, intersection: set<nat>, keepLeader: bool, leaderID: nat,
                         toAdds: seq<seq<Step>>, prefix: seq<Step>)
    returns (inRange: bool, steps: seq<Step>, index: nat)
    ensures var removes := Missing(sourcePeers, intersection + if keepLeader then {leaderID} else {});
            && (inRange <==> |removes| <= |toAdds|)
            && (inRange ==> index == |removes| && steps == prefix + Replacements(toAdds, removes, index))
  {
    steps, index := prefix, 0;
    ghost var skipped := intersection + if keepLeader then {leaderID} else {};
    for i := 0 to |sourcePeers|
      invariant index == |Missing(sourcePeers[..i], skipped)| <= |toAdds|
      invariant steps == prefix + Replacements(toAdds, Missing(sourcePeers[..i], skipped), index)
    {
      var store := sourcePeers[i].store;
      assert sourcePeers[..i + 1][..i] == sourcePeers[..i];
      if store in intersection {
        continue;
      }
      if keepLeader && store == leaderID {
        continue;
      }
      if index >= |toAdds| {
        MissingGrows(sourcePeers, i + 1, skipped);
        return false, [], 0;
      }
      ReplacementsPrefix(toAdds, Missing(sourcePeers[..i], skipped), store, index);
      steps := steps + toAdds[index];
      steps := steps + [RemovePeer(store)];
      index := index + 1;
    }
    assert sourcePeers[..|sourcePeers|] == sourcePeers;
    inRange := true;
  }

  /** The end of matchPeerSteps, from the picked store on. */
  method AssembleSteps(source: Region, intersection: set<nat>, toAdds: seq<seq<Step>>, picked: nat) returns (r: Result)
    ensures r == Assemble(source, intersection, toAdds, picked)
  {
    var steps: seq<Step>, opLeader, opRegion := [], false, toAdds != [];
    var leaderID := LeaderStore(source);
    var targetLeader := picked;
    if intersection != {} && targetLeader != 0 {
      steps := [TransferLeader(leaderID, targetLeader)];
      opLeader := true;
      targetLeader := 0;
    }
    var inRange, index;
    inRange, steps, index := RemoveRedundant(source.peers, intersection, targetLeader != 0, leaderID, toAdds, steps);
    if !inRange {
      return OutOfRange;
    }
    if index > 0 {
      opRegion := true;
    }
    if targetLeader != 0 {
      if index >= |toAdds| {
        return OutOfRange;
      }
      steps := steps + toAdds[index] + [TransferLeader(leaderID, targetLeader)] + [RemovePeer(leaderID)];
      opLeader, opRegion := true, true;
      index := index + 1;
    }
    if index != |toAdds| {
      return WrongCount;
    }
    return Matched(steps, opLeader, opRegion);
  }

  /** matchPeerSteps */
  method MatchPeerSteps(source: Region, target: Region, learners: bool, alloc: map<nat, nat>, order: seq<nat>)
    returns (r: Result)
    requires forall s :: s in order <==> s in Stores(source.peers) && s in Stores(target.peers)
    ensures r == Program(source, target, learners, alloc, order)
  {
    if |source.peers| != |target.peers| {
      return CountMismatch;
    }
    var intersection := GetIntersectionStores(source.peers, target.peers);
    var ok, toAdds, targetLeader := CollectAdds(target.peers, intersection, alloc, learners);
    if !ok {
      return AllocFailed;
    }
    targetLeader := PickLeader(order, LeaderStore(source), targetLeader);
    r := AssembleSteps(source, intersection, toAdds, targetLeader);
  }

  lemma {:induction false} MissingGrows(peers: seq<Peer>, i: nat, intersection: set<nat>)
    requires i <= |peers|
    ensures |Missing(peers[..i], intersection)| <= |Missing(peers, intersection)|
    decreases |peers|
  {
    if i < |peers| {
      assert peers[..|peers| - 1][..i] == peers[..i];
      MissingGrows(peers[..|peers| - 1], i, intersection);
    } else {
      assert peers[..i] == peers;
    }
  }

  lemma {:induction false} ReplacementsStable(groups: seq<seq<Step>>, removes: seq<nat>, more: seq<nat>, k: nat)
    requires k <= |groups| && k <= |removes|
    ensures Replacements(groups, removes + more, k) == Replacements(groups, removes, k)
  {
    if k > 0 {
      ReplacementsStable(groups, removes, more, k - 1);
    }
  }

  lemma ReplacementsPrefix(groups: seq<seq<Step>>, removes: seq<nat>, store: nat, k: nat)
    requires k == |removes| < |groups|
    ensures Replacements(groups, removes + [store], k + 1)
            == Replacements(groups, removes, k) + groups[k] + [RemovePeer(store)]
  {
    ReplacementsStable(groups, removes, [store], k);
  }

  /** Stores, peer ids and leader the builder is meant for. */
  ghost predicate Shape(source: Region, target: Region) {
    DistinctStores(source.peers) && DistinctStores(target.peers) && 0 !in Stores(source.peers) &&
      0 !in Stores(target.peers)
  }

  ghost predicate Good(source: Region, target: Region) {
    Shape(source, target) && WellFormed(source)
  }

  /** What the program has done to a source with n peers and lo voters. */
  ghost predicate Progress(p: Placement, steps: seq<Step>, lo: nat, n: nat, stores: set<nat>, voters: set<nat>,
                           leader: nat) {
    Reaches(p, steps, lo, n + 1, stores, voters, leader) && |stores| == n && lo <= |voters|
  }

  /** The stores of the region after k replacements. */
  function After(stores: set<nat>, adds: seq<nat>, removes: seq<nat>, k: nat): set<nat>
    requires k <= |adds| && k <= |removes|
  {
    if k == 0 then stores else Exchanged(After(stores, adds, removes, k - 1), adds[k - 1], removes[k - 1])
  }

  lemma {:induction false} AfterIs(stores: set<nat>, adds: seq<nat>, removes: seq<nat>, k: nat)
    requires k <= |adds| && k <= |removes|
    requires forall s :: s in adds ==> s !in removes
    ensures forall s :: s in After(stores, adds, removes, k) <==> s in adds[..k] || (s in stores && s !in removes[..k])
  {
    if k > 0 {
      AfterIs(stores, adds, removes, k - 1);
      assert adds[..k] == adds[..k - 1] + [adds[k - 1]];
      assert removes[..k] == removes[..k - 1] + [removes[k - 1]];
      assert adds[k - 1] in adds && removes[k - 1] in removes;
      assert forall s :: s in adds[..k - 1] ==> s in adds;
    }
  }

  /** The next store to add is free and the next store to remove is taken. */
  lemma AfterNext(stores: set<nat>, adds: seq<nat>, removes: seq<nat>, k: nat)
    requires k < |adds| && k < |removes| && DistinctSeq(adds) && DistinctSeq(removes)
    requires forall s :: s in adds ==> s !in stores
    requires forall s :: s in removes ==> s in stores
    ensures adds[k] !in After(stores, adds, removes, k) && removes[k] in After(stores, adds, removes, k)
  {
    AfterIs(stores, adds, removes, k);
    assert adds[k] in adds && removes[k] in removes;
  }

  /** One round of the removal loop. */
  lemma ProgressReplace(p: Placement, steps: seq<Step>, lo: nat, n: nat, stores: set<nat>, voters: set<nat>,
                        leader: nat, add: nat, id: nat, remove: nat, learners: bool)
    requires Progress(p, steps, lo, n, stores, voters, leader)
    requires add !in stores && remove in stores && remove != leader
    ensures Progress(p, steps + AddSteps(add, id, learners) + [RemovePeer(remove)], lo, n,
                     stores + {add} - {remove}, voters + {add} - {remove}, leader)
  {
    ReachVoters(p, steps, lo, n + 1, stores, voters, leader);
    SwapCounts(stores, voters, add, remove);
    ReachAdd(p, steps, lo, n + 1, stores, voters, leader, add, id, learners);
    ReachRemove(p, steps + AddSteps(add, id, learners), lo, n + 1, stores + {add}, voters + {add}, leader, remove);
  }

  /** The last entry: the leader moves to the first added store before its own peer goes. */
  lemma ProgressLast(p: Placement, steps: seq<Step>, lo: nat, n: nat, stores: set<nat>, voters: set<nat>, leader: nat,
                     add: nat, id: nat, to: nat, learners: bool)
    requires Progress(p, steps, lo, n, stores, voters, leader)
    requires add !in stores && leader in stores && to in voters + {add} && to != leader
    ensures var all := steps + AddSteps(add, id, learners) + [TransferLeader(leader, to)] + [RemovePeer(leader)];
            Progress(p, all, lo, n, stores + {add} - {leader}, voters + {add} - {leader}, to)
  {
    ReachVoters(p, steps, lo, n + 1, stores, voters, leader);
    SwapCounts(stores, voters, add, leader);
    ReachAdd(p, steps, lo, n + 1, stores, voters, leader, add, id, learners);
    var s1 := steps + AddSteps(add, id, learners);
    ReachTransfer(p, s1, lo, n + 1, stores + {add}, voters + {add}, leader, leader, to);
    ReachRemove(p, s1 + [TransferLeader(leader, to)], lo, n + 1, stores + {add}, voters + {add}, to, leader);
  }

  lemma OneMore(p: Placement, prefix: seq<Step>, lo: nat, n: nat, stores: set<nat>, voters: set<nat>, leader: nat,
                groups: seq<seq<Step>>, removes: seq<nat>, k: nat, add: nat, id: nat, learners: bool)
    requires k < |groups| && k < |removes| && groups[k] == AddSteps(add, id, learners)
    requires Progress(p, prefix + Replacements(groups, removes, k), lo, n, stores, voters, leader)
    requires add !in stores && removes[k] in stores && removes[k] != leader
    ensures Progress(p, prefix + Replacements(groups, removes, k + 1), lo, n,
                     Exchanged(stores, add, removes[k]), Exchanged(voters, add, removes[k]), leader)
  {
    ExchangedIs(stores, add, removes[k]);
    ExchangedIs(voters, add, removes[k]);
    ProgressReplace(p, prefix + Replacements(groups, removes, k), lo, n, stores, voters, leader, add, id, removes[k],
                    learners);
    Regroup(prefix, Replacements(groups, removes, k), groups[k], [RemovePeer(removes[k])]);
  }

  /** New stores to add and old ones, the leader's not among them, to remove. */
  ghost predicate Exchange(stores: set<nat>, leader: nat, adds: seq<nat>, removes: seq<nat>) {
    && DistinctSeq(adds) && (forall s :: s in adds ==> s !in stores)
    && DistinctSeq(removes) && (forall s :: s in removes ==> s in stores) && leader !in removes
  }

  /** The first k replacements have been made. */
  ghost predicate Replaced(p: Placement, prefix: seq<Step>, lo: nat, n: nat, stores: set<nat>, voters: set<nat>,
                           leader: nat, adds: seq<nat>, alloc: map<nat, nat>, learners: bool, removes: seq<nat>, k: nat)
    requires AllAllocated(adds, alloc) && k <= |adds| && k <= |removes|
  {
    Reaches(p, prefix + Replacements(AddGroups(adds, alloc, learners), removes, k), lo, n + 1,
            After(stores, adds, removes, k), After(voters, adds, removes, k), leader)
  }

  /** Replacements keep the number of peers and never lower the number of voters. */
  lemma {:induction false} AfterCounts(stores: set<nat>, voters: set<nat>, leader: nat, adds: seq<nat>,
                                       removes: seq<nat>, k: nat)
    requires Exchange(stores, leader, adds, removes) && voters <= stores && k <= |adds| && k <= |removes|
    ensures After(voters, adds, removes, k) <= After(stores, adds, removes, k)
    ensures |After(stores, adds, removes, k)| == |stores| && |After(voters, adds, removes, k)| >= |voters|
  {
    if k > 0 {
      AfterCounts(stores, voters, leader, adds, removes, k - 1);
      AfterNext(stores, adds, removes, k - 1);
      ExchangedCounts(After(stores, adds, removes, k - 1), After(voters, adds, removes, k - 1), adds[k - 1],
                      removes[k - 1]);
    }
  }

  /** The next replacement finds a free store and a taken one, and enough peers and voters. */
  ghost predicate RoundReady(stores: set<nat>, voters: set<nat>, leader: nat, adds: seq<nat>, removes: seq<nat>, k: nat,
                             lo: nat, n: nat)
    requires k < |adds| && k < |removes|
  {
    && adds[k] !in After(stores, adds, removes, k)
    && removes[k] in After(stores, adds, removes, k) && removes[k] != leader
    && |After(stores, adds, removes, k)| == n && lo <= |After(voters, adds, removes, k)|
  }

  lemma RoundIsReady(stores: set<nat>, voters: set<nat>, leader: nat, adds: seq<nat>, removes: seq<nat>, k: nat,
                     lo: nat, n: nat)
    requires Exchange(stores, leader, adds, removes) && voters <= stores && |stores| == n && lo <= |voters|
    requires k < |adds| && k < |removes|
    ensures RoundReady(stores, voters, leader, adds, removes, k, lo, n)
  {
    AfterNext(stores, adds, removes, k);
    AfterCounts(stores, voters, leader, adds, removes, k);
    assert removes[k] in removes;
  }

  lemma ReplacementsRound(
    p: Placement, prefix: seq<Step>, lo: nat, n: nat, stores: set<nat>, voters: set<nat>, leader: nat,
    adds: seq<nat>, alloc: map<nat, nat>, learners: bool, removes: seq<nat>, k: nat)
    requires AllAllocated(adds, alloc) && 0 < k <= |adds| && k <= |removes|
    requires RoundReady(stores, voters, leader, adds, removes, k - 1, lo, n)
    requires Replaced(p, prefix, lo, n, stores, voters, leader, adds, alloc, learners, removes, k - 1)
    ensures Replaced(p, prefix, lo, n, stores, voters, leader, adds, alloc, learners, removes, k)
  {
    OneMore(p, prefix, lo, n, After(stores, adds, removes, k - 1), After(voters, adds, removes, k - 1), leader,
            AddGroups(adds, alloc, learners), removes, k - 1, adds[k - 1], alloc[adds[k - 1]], learners);
  }

  lemma NoneReplaced(
    p: Placement, prefix: seq<Step>, lo: nat, n: nat, stores: set<nat>, voters: set<nat>, leader: nat,
    adds: seq<nat>, alloc: map<nat, nat>, learners: bool, removes: seq<nat>)
    requires Reaches(p, prefix, lo, n + 1, stores, voters, leader) && AllAllocated(adds, alloc)
    ensures Replaced(p, prefix, lo, n, stores, voters, leader, adds, alloc, learners, removes, 0)
  {
    assert prefix + [] == prefix;
  }

  lemma {:induction false} ReplacementsRun(
    p: Placement, prefix: seq<Step>, lo: nat, n: nat, stores: set<nat>, voters: set<nat>, leader: nat,
    adds: seq<nat>, alloc: map<nat, nat>, learners: bool, removes: seq<nat>, k: nat)
    requires AllAllocated(adds, alloc) && Exchange(stores, leader, adds, removes)
    requires voters <= stores && |stores| == n && lo <= |voters| && k <= |adds| && k <= |removes|
    requires Replaced(p, prefix, lo, n, stores, voters, leader, adds, alloc, learners, removes, 0)
    ensures Replaced(p, prefix, lo, n, stores, voters, leader, adds, alloc, learners, removes, k)
  {
    if k != 0 {
      ReplacementsRun(p, prefix, lo, n, stores, voters, leader, adds, alloc, learners, removes, k - 1);
      RoundIsReady(stores, voters, leader, adds, removes, k - 1, lo, n);
      ReplacementsRound(p, prefix, lo, n, stores, voters, leader, adds, alloc, learners, removes, k);
    }
  }

  lemma ReplacementsProgress(
    p: Placement, prefix: seq<Step>, lo: nat, n: nat, stores: set<nat>, voters: set<nat>, leader: nat,
    adds: seq<nat>, alloc: map<nat, nat>, learners: bool, removes: seq<nat>, k: nat)
    requires Progress(p, prefix, lo, n, stores, voters, leader)
    requires AllAllocated(adds, alloc) && Exchange(stores, leader, adds, removes)
    requires k <= |adds| && k <= |removes|
    ensures Progress(p, prefix + Replacements(AddGroups(adds, alloc, learners), removes, k), lo, n,
                     After(stores, adds, removes, k), After(voters, adds, removes, k), leader)
  {
    ReachVoters(p, prefix, lo, n + 1, stores, voters, leader);
    NoneReplaced(p, prefix, lo, n, stores, voters, leader, adds, alloc, learners, removes);
    ReplacementsRun(p, prefix, lo, n, stores, voters, leader, adds, alloc, learners, removes, k);
    AfterCounts(stores, voters, leader, adds, removes, k);
  }

  lemma Regroup(a: seq<Step>, b: seq<Step>, c: seq<Step>, d: seq<Step>)
    ensures a + (b + c + d) == a + b + c + d
  {
  }

  lemma SetBalance(s: set<nat>, t: set<nat>, kept: set<nat>)
    requires |s| == |t|
    ensures |s - (s * t + kept)| == |t - s * t| - |(s - s * t) * kept|
  {
    var own := s - s * t;
    assert s == own + s * t;
    assert t == (t - s * t) + s * t;
    assert own == (s - (s * t + kept)) + own * kept;
  }

  /** Equal lists leave as many source peers to remove as target peers to add. */
  lemma MissingBalance(source: Region, target: Region, kept: set<nat>)
    requires Shape(source, target) && |source.peers| == |target.peers|
    ensures var intersection := Stores(source.peers) * Stores(target.peers);
            && |Missing(source.peers, intersection + kept)|
               == |Missing(target.peers, intersection)| - |(Stores(source.peers) - intersection) * kept|
  {
    var s, t := Stores(source.peers), Stores(target.peers);
    StoresCount(source.peers);
    StoresCount(target.peers);
    MissingDistinct(source.peers, s * t + kept);
    MissingDistinct(target.peers, s * t);
    SetBalance(s, t, kept);
  }

  /**
    For distinct non-zero stores the index goes out of range exactly when the regions are
    disjoint, not empty, and the leader's store is not among the source's; the add steps never
    have a wrong count.
  */
  lemma MatchOutcome(source: Region, target: Region, learners: bool, alloc: map<nat, nat>, order: seq<nat>)
    requires Shape(source, target)
    requires forall s :: s in order <==> s in Stores(source.peers) && s in Stores(target.peers)
    ensures var r := Program(source, target, learners, alloc, order);
            && !r.WrongCount?
            && (r.CountMismatch? <==> |source.peers| != |target.peers|)
            && (r.AllocFailed? <==> |source.peers| == |target.peers| && LacksAlloc(source, target, alloc))
            && (r.OutOfRange? <==>
                  && |source.peers| == |target.peers| != 0
                  && !LacksAlloc(source, target, alloc) && Stranded(source, target))
  {
    var intersection := Stores(source.peers) * Stores(target.peers);
    var missing := Missing(target.peers, intersection);
    AllocCondition(source, target, alloc);
    if |source.peers| == |target.peers| && AllAllocated(missing, alloc) {
      AssembleOutcome(source, target, learners, alloc, order);
    }
  }

  /** Some store to add has no new peer. */
  ghost predicate LacksAlloc(source: Region, target: Region, alloc: map<nat, nat>) {
    exists s :: s in Stores(target.peers) && s !in Stores(source.peers) && s !in alloc
  }

  /** No store in common, and no peer of the source is the leader. */
  ghost predicate Stranded(source: Region, target: Region) {
    Stores(source.peers) * Stores(target.peers) == {} && LeaderStore(source) !in Stores(source.peers)
  }

  lemma AllocCondition(source: Region, target: Region, alloc: map<nat, nat>)
    ensures var missing := Missing(target.peers, Stores(source.peers) * Stores(target.peers));
            AllAllocated(missing, alloc) <==> !LacksAlloc(source, target, alloc)
  {
    var missing := Missing(target.peers, Stores(source.peers) * Stores(target.peers));
    MissingAre(target.peers, Stores(source.peers) * Stores(target.peers));
    if AllAllocated(missing, alloc) {
      forall s | s in Stores(target.peers) && s !in Stores(source.peers) ensures s in alloc {
        assert s in missing;
      }
    } else {
      var i :| 0 <= i < |missing| && missing[i] !in alloc;
      assert missing[i] in missing;
    }
  }

  lemma HasMember(s: seq<nat>)
    ensures s == [] || exists x :: x in s
  {
    if s != [] {
      assert s[0] in s;
    }
  }

  /** Disjoint regions: leadership has to move to the first added store. */
  lemma DisjointPicks(source: Region, target: Region, order: seq<nat>)
    requires Shape(source, target) && |source.peers| == |target.peers|
    requires Stores(source.peers) * Stores(target.peers) == {}
    requires forall s :: s in order <==> s in Stores(source.peers) && s in Stores(target.peers)
    ensures var missing := Missing(target.peers, {});
            && order == []
            && (missing == [] <==> source.peers == [])
            && (missing != [] ==> FirstNonZero(missing) == missing[0] != 0)
  {
    var missing := Missing(target.peers, {});
    MissingAre(target.peers, {});
    HasMember(order);
    assert forall x :: x in order ==> x in Stores(source.peers) * Stores(target.peers);
    if target.peers != [] {
      assert target.peers[0].store in Stores(target.peers);
      assert target.peers[0].store in missing;
    }
    if missing != [] {
      FirstNonZeroIsHead(missing);
      assert missing[0] in missing;
    } else {
      StoresCount(target.peers);
    }
  }

  lemma DisjointCounts(source: Region, target: Region)
    requires Shape(source, target) && |source.peers| == |target.peers|
    requires Stores(source.peers) * Stores(target.peers) == {}
    ensures |Missing(source.peers, {LeaderStore(source)})|
            == |Missing(target.peers, {})| - if LeaderStore(source) in Stores(source.peers) then 1 else 0
    ensures |Missing(source.peers, {})| == |Missing(target.peers, {})|
  {
    var s, t, leader := Stores(source.peers), Stores(target.peers), LeaderStore(source);
    MissingBalance(source, target, {leader});
    MissingBalance(source, target, {});
    assert s * t == {} && {} + {leader} == {leader} && s - {} == s;
    assert s * {leader} == if leader in s then {leader} else {};
    assert s * {} == {};
  }

  lemma AssembleOutcome(source: Region, target: Region, learners: bool, alloc: map<nat, nat>, order: seq<nat>)
    requires Shape(source, target) && |source.peers| == |target.peers|
    requires forall s :: s in order <==> s in Stores(source.peers) && s in Stores(target.peers)
    requires AllAllocated(Missing(target.peers, Stores(source.peers) * Stores(target.peers)), alloc)
    ensures var r := Program(source, target, learners, alloc, order);
            (r.Matched? || r.OutOfRange?) && (r.OutOfRange? <==> |source.peers| != 0 && Stranded(source, target))
  {
    var s, t := Stores(source.peers), Stores(target.peers);
    if s * t == {} {
      DisjointPicks(source, target, order);
      DisjointCounts(source, target);
      assert s * t + {} == {} && s * t + {LeaderStore(source)} == {LeaderStore(source)};
    } else {
      MissingBalance(source, target, {});
      assert (s - s * t) * {} == {};
    }
  }

  /** The program is safe, and ends on the target's stores with one of the voters leading. */
  ghost predicate Matches(source: Region, target: Region, steps: seq<Step>) {
    exists leader :: leader in MovedVoters(source, Stores(target.peers)) && MatchesWith(source, target, steps, leader)
  }

  ghost predicate MatchesWith(source: Region, target: Region, steps: seq<Step>, leader: nat) {
    Progress(Placed(source), steps, |VoterStores(source.peers)|, |source.peers|, Stores(target.peers),
             MovedVoters(source, Stores(target.peers)), leader)
  }

  /** Leadership stays, or moves to a store added before, or to a common store with a voter. */
  predicate MatchesToVoter(source: Region, target: Region, order: seq<nat>) {
    || Stores(source.peers) * Stores(target.peers) == {}
    || LeaderStore(source) in order
    || (order != [] && order[|order| - 1] in VoterStores(source.peers))
  }

  /**
    Running the program of a good source with n peers. If leadership does not move to a common
    store with a learner: every step is safe, the region has n to n + 1 peers and never fewer
    voters than at the start, and it ends on exactly the target's stores with its leader among the
    voters there. If it does, the program is safe within no bounds.
  */
  lemma MatchSafe(source: Region, target: Region, learners: bool, alloc: map<nat, nat>, order: seq<nat>)
    requires Good(source, target)
    requires forall s :: s in order <==> s in Stores(source.peers) && s in Stores(target.peers)
    requires Program(source, target, learners, alloc, order).Matched?
    ensures var steps := Program(source, target, learners, alloc, order).steps;
            && (Matches(source, target, steps) <==> MatchesToVoter(source, target, order))
            && (!MatchesToVoter(source, target, order) ==>
                  forall lo: nat, hi: nat :: !Runs(Placed(source), steps, lo, hi))
  {
    if !MatchesToVoter(source, target, order) {
      var steps := Program(source, target, learners, alloc, order).steps;
      forall lo: nat, hi: nat ensures !Runs(Placed(source), steps, lo, hi) {
        MatchUnsafe(source, target, learners, alloc, order, lo, hi);
      }
    } else if Stores(source.peers) * Stores(target.peers) == {} {
      LateSafe(source, target, learners, alloc, order);
    } else {
      EarlySafe(source, target, learners, alloc, order);
    }
  }

  /** Leadership first moves to a learner. */
  lemma MatchUnsafe(source: Region, target: Region, learners: bool, alloc: map<nat, nat>, order: seq<nat>, lo: nat,
                    hi: nat)
    requires Good(source, target) && !MatchesToVoter(source, target, order)
    requires forall s :: s in order <==> s in Stores(source.peers) && s in Stores(target.peers)
    requires Program(source, target, learners, alloc, order).Matched?
    ensures !Runs(Placed(source), Program(source, target, learners, alloc, order).steps, lo, hi)
  {
    var s, t, leader := Stores(source.peers), Stores(target.peers), LeaderStore(source);
    var x :| x in s * t;
    assert x in order;
    var leads := order[|order| - 1];
    assert leads in order;
    ReachStart(source, 0, |source.peers|);
    var removes := Missing(source.peers, s * t + {});
    var groups := AddGroups(Missing(target.peers, s * t), alloc, learners);
    var body := Replacements(groups, removes, |removes|);
    BadTransfer(Placed(source), [], leader, leads, body, lo, hi);
    assert [] + ([TransferLeader(leader, leads)] + body) == [TransferLeader(leader, leads)] + body;
  }

  /** What is left after all replacements are exactly the target's stores. */
  lemma EarlySets(s: set<nat>, t: set<nat>, v: set<nat>, missing: seq<nat>, removes: seq<nat>)
    requires |removes| == |missing| && v <= s
    requires forall x :: x in missing <==> x in t && x !in s
    requires forall x :: x in removes <==> x in s && x !in t
    ensures After(s, missing, removes, |removes|) == t
    ensures After(v, missing, removes, |removes|) == (t - s) + v * t
  {
    AfterIs(s, missing, removes, |removes|);
    AfterIs(v, missing, removes, |removes|);
    assert removes[..|removes|] == removes && missing[..|removes|] == missing;
  }

  /** All replacements, with the leader on a common store. */
  lemma EarlyProgress(source: Region, target: Region, learners: bool, alloc: map<nat, nat>, prefix: seq<Step>,
                      leads: nat)
    requires Good(source, target) && |source.peers| == |target.peers|
    requires var both := Stores(source.peers) * Stores(target.peers);
             && leads in both
             && AllAllocated(Missing(target.peers, both), alloc)
             && |Missing(source.peers, both)| == |Missing(target.peers, both)|
    requires Progress(Placed(source), prefix, |VoterStores(source.peers)|, |source.peers|, Stores(source.peers),
                      VoterStores(source.peers), leads)
    ensures var both := Stores(source.peers) * Stores(target.peers);
            var groups := AddGroups(Missing(target.peers, both), alloc, learners);
            MatchesWith(source, target, prefix + Replacements(groups, Missing(source.peers, both), |groups|), leads)
  {
    var s, t, v := Stores(source.peers), Stores(target.peers), VoterStores(source.peers);
    var missing, removes := Missing(target.peers, s * t), Missing(source.peers, s * t);
    EarlyLists(source, target, leads);
    EarlySets(s, t, v, missing, removes);
    ReplacementsProgress(Placed(source), prefix, |v|, |source.peers|, s, v, leads, missing, alloc, learners, removes,
                         |removes|);
  }

  lemma EarlyLists(source: Region, target: Region, leads: nat)
    requires Shape(source, target) && leads in Stores(source.peers) * Stores(target.peers)
    ensures var s, t := Stores(source.peers), Stores(target.peers);
            var missing, removes := Missing(target.peers, s * t), Missing(source.peers, s * t);
            && Exchange(s, leads, missing, removes)
            && (forall x :: x in missing <==> x in t && x !in s)
            && (forall x :: x in removes <==> x in s && x !in t)
    ensures VoterStores(source.peers) <= Stores(source.peers)
  {
    var both := Stores(source.peers) * Stores(target.peers);
    MissingAre(source.peers, both);
    MissingAre(target.peers, both);
    MissingDistinct(source.peers, both);
    MissingDistinct(target.peers, both);
  }

  /** Regions with a store in common: leadership first moves there, if it is not there already. */
  lemma EarlySafe(source: Region, target: Region, learners: bool, alloc: map<nat, nat>, order: seq<nat>)
    requires Good(source, target) && Stores(source.peers) * Stores(target.peers) != {}
    requires MatchesToVoter(source, target, order)
    requires forall s :: s in order <==> s in Stores(source.peers) && s in Stores(target.peers)
    requires Program(source, target, learners, alloc, order).Matched?
    ensures Matches(source, target, Program(source, target, learners, alloc, order).steps)
  {
    var s, t, leader := Stores(source.peers), Stores(target.peers), LeaderStore(source);
    ReachStart(source, |VoterStores(source.peers)|, |source.peers| + 1);
    assert s * t + {} == s * t;
    if leader in order {
      EarlyProgress(source, target, learners, alloc, [], leader);
    } else {
      var x :| x in s * t;
      assert x in order;
      var leads := order[|order| - 1];
      assert leads in order;
      EarlyMoved(source, target, learners, alloc, leads);
    }
  }

  /** The leader is outside the target, and leadership first moves to a common store. */
  lemma EarlyMoved(source: Region, target: Region, learners: bool, alloc: map<nat, nat>, leads: nat)
    requires Good(source, target) && |source.peers| == |target.peers| && leads in VoterStores(source.peers)
    requires var both := Stores(source.peers) * Stores(target.peers);
             && leads in both
             && AllAllocated(Missing(target.peers, both), alloc)
             && |Missing(source.peers, both)| == |Missing(target.peers, both)|
    ensures var both := Stores(source.peers) * Stores(target.peers);
            var groups := AddGroups(Missing(target.peers, both), alloc, learners);
            MatchesWith(source, target, [TransferLeader(LeaderStore(source), leads)]
                                        + Replacements(groups, Missing(source.peers, both), |groups|), leads)
  {
    var lo, hi, leader := |VoterStores(source.peers)|, |source.peers| + 1, LeaderStore(source);
    ReachStart(source, lo, hi);
    ReachTransfer(Placed(source), [], lo, hi, Stores(source.peers), VoterStores(source.peers), leader, leader, leads);
    assert [] + [TransferLeader(leader, leads)] == [TransferLeader(leader, leads)];
    EarlyProgress(source, target, learners, alloc, [TransferLeader(leader, leads)], leads);
  }

  /** All replacements but the leader's, then the leader's. */
  lemma LateProgress(source: Region, target: Region, learners: bool, alloc: map<nat, nat>)
    requires Good(source, target) && |source.peers| == |target.peers|
    requires Stores(source.peers) * Stores(target.peers) == {}
    requires AllAllocated(Missing(target.peers, {}), alloc)
    requires |Missing(source.peers, {LeaderStore(source)})| + 1 == |Missing(target.peers, {})|
    requires LeaderStore(source) in Stores(source.peers)
    requires Progress(Placed(source), [], |VoterStores(source.peers)|, |source.peers|, Stores(source.peers),
                      VoterStores(source.peers), LeaderStore(source))
    ensures var leader, missing := LeaderStore(source), Missing(target.peers, {});
            var removes := Missing(source.peers, {leader});
            var groups := AddGroups(missing, alloc, learners);
            var steps := [] + Replacements(groups, removes, |removes|)
                         + groups[|removes|] + [TransferLeader(leader, missing[0])] + [RemovePeer(leader)];
            missing[0] in Stores(target.peers) && MatchesWith(source, target, steps, missing[0])
  {
    var s, v, leader, n := Stores(source.peers), VoterStores(source.peers), LeaderStore(source), |source.peers|;
    var missing, removes := Missing(target.peers, {}), Missing(source.peers, {leader});
    var k := |removes|;
    LateStores(source, target, missing, removes);
    ReplacementsProgress(Placed(source), [], |v|, n, s, v, leader, missing, alloc, learners, removes, k);
    ProgressLast(Placed(source), [] + Replacements(AddGroups(missing, alloc, learners), removes, k), |v|, n,
                 After(s, missing, removes, k), After(v, missing, removes, k), leader, missing[k], alloc[missing[k]],
                 missing[0], learners);
  }

  lemma LateStores(source: Region, target: Region, missing: seq<nat>, removes: seq<nat>)
    requires Shape(source, target) && Stores(source.peers) * Stores(target.peers) == {}
    requires missing == Missing(target.peers, {}) && removes == Missing(source.peers, {LeaderStore(source)})
    requires |removes| + 1 == |missing| && LeaderStore(source) in Stores(source.peers)
    ensures LateReady(Stores(source.peers), Stores(target.peers), VoterStores(source.peers), LeaderStore(source),
                      missing, removes)
    ensures MovedVoters(source, Stores(target.peers)) == Stores(target.peers)
  {
    MissingAre(source.peers, {LeaderStore(source)});
    MissingAre(target.peers, {});
    MissingDistinct(source.peers, {LeaderStore(source)});
    MissingDistinct(target.peers, {});
    assert VoterStores(source.peers) <= Stores(source.peers);
    LateSets(Stores(source.peers), Stores(target.peers), VoterStores(source.peers), LeaderStore(source), missing,
             removes);
  }

  /** The last store to add is free, the first added one is taken, and only the leader's store is too many. */
  ghost predicate LateReady(s: set<nat>, t: set<nat>, v: set<nat>, leader: nat, missing: seq<nat>, removes: seq<nat>)
    requires |removes| + 1 == |missing|
  {
    && Exchange(s, leader, missing, removes)
    && var before, voters := After(s, missing, removes, |removes|), After(v, missing, removes, |removes|);
       var add := missing[|removes|];
    && add !in before && leader in before && missing[0] in voters + {add}
    && missing[0] != leader && missing[0] in t
    && before + {add} - {leader} == t && voters + {add} - {leader} == t
  }

  lemma LateSets(s: set<nat>, t: set<nat>, v: set<nat>, leader: nat, missing: seq<nat>, removes: seq<nat>)
    requires s * t == {} && leader in s && v <= s && |removes| + 1 == |missing|
    requires DistinctSeq(missing) && DistinctSeq(removes)
    requires forall x :: x in missing <==> x in t
    requires forall x :: x in removes <==> x in s && x != leader
    ensures LateReady(s, t, v, leader, missing, removes)
  {
    var k := |removes|;
    forall x | x in missing ensures x !in s {
      assert x !in s * t;
    }
    AfterIs(s, missing, removes, k);
    AfterIs(v, missing, removes, k);
    assert removes[..k] == removes;
    assert missing[k] in missing && missing[0] in missing;
    assert k > 0 ==> missing[0] in missing[..k];
    assert missing == missing[..k] + [missing[k]];
  }

  /** Disjoint regions: the leader moves to the first added store, and its peer goes last. */
  lemma LateSafe(source: Region, target: Region, learners: bool, alloc: map<nat, nat>, order: seq<nat>)
    requires Good(source, target) && Stores(source.peers) * Stores(target.peers) == {}
    requires forall s :: s in order <==> s in Stores(source.peers) && s in Stores(target.peers)
    requires Program(source, target, learners, alloc, order).Matched?
    ensures Matches(source, target, Program(source, target, learners, alloc, order).steps)
  {
    ReachStart(source, |VoterStores(source.peers)|, |source.peers| + 1);
    DisjointPicks(source, target, order);
    assert {} + {LeaderStore(source)} == {LeaderStore(source)};
    LateProgress(source, target, learners, alloc);
  }
}
