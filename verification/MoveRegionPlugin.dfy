/**
  The user scheduler that moves the regions of a key range onto rule stores. The set of target
  stores is one map that all regions of a round share.
*/
module MoveRegionPlugin {
  import opened Options
  import opened OperatorSteps
  import opened MoveRegion

  /** A region of the range and the iteration order over its stores. */
  datatype View = View(region: Region, order: seq<nat>)

  /** The cluster as the scheduler sees it: stores that pass the filter, new peer ids, learner support. */
  datatype Cluster = Cluster(passes: set<nat>, alloc: map<nat, nat>, learners: bool, replicas: nat)

  /** What the scheduler emits: the region, the stores it goes to, and the steps. */
  datatype Emitted = Emitted(view: View, target: set<nat>, steps: seq<Step>)

  /** keys lists a store set in some iteration order. */
  ghost predicate Lists(keys: set<nat> -> seq<nat>) {
    forall s: set<nat> :: Listed(keys(s), s)
  }

  ghost predicate Listed(order: seq<nat>, s: set<nat>) {
    DistinctSeq(order) && forall x :: x in order <==> x in s
  }

  function RuleTarget(ruleStores: seq<nat>, passes: set<nat>): set<nat> {
    set s | s in ruleStores && s in passes
  }

  /** The target after a region's own stores are added while replicas are missing. */
  function Fill(order: seq<nat>, target: set<nat>, passes: set<nat>, replicas: nat): set<nat> {
    if order == [] || replicas <= |target| then target
    else Fill(order[1..], if order[0] in passes then target + {order[0]} else target, passes, replicas)
  }

  predicate AllExist(target: set<nat>, region: Region) {
    target <= Stores(region.peers)
  }

  predicate CanAlloc(target: set<nat>, region: Region, alloc: map<nat, nat>) {
    forall s :: s in target && s !in Stores(region.peers) ==> s in alloc
  }

  /** The first region that gets an operator; target is carried from region to region. */
  function Choose(views: seq<Option<View>>, rule: set<nat>, target: set<nat>, c: Cluster): Option<(View, set<nat>)> {
    if views == [] then None
    else if views[0].None? || AllExist(rule, views[0].value.region) then Choose(views[1..], rule, target, c)
    else
      var v := views[0].value;
      var filled := Fill(v.order, target, c.passes, c.replicas);
      if c.replicas > |filled| || !CanAlloc(filled, v.region, c.alloc) then Choose(views[1..], rule, filled, c)
      else Some((v, filled))
  }

  /**
    The round of Schedule, from its filtered rule stores on. keys and keys2 are the two iteration
    orders of CreateMoveRegionOperator.
  */
  method Schedule(ruleStores: seq<nat>, views: seq<Option<View>>, c: Cluster,
                  keys: set<nat> -> seq<nat>, keys2: set<nat> -> seq<nat>)
    returns (r: Option<Emitted>)
    requires Lists(keys) && Lists(keys2)
    ensures var rule := RuleTarget(ruleStores, c.passes);
            var choice := Choose(views, rule, rule, c);
            && (r.None? <==> rule == {} || choice.None?)
            && (r.Some? ==> r.value.view == choice.value.0 && r.value.target == choice.value.1)
    ensures r.Some? ==> var region := r.value.view.region;
            var order := keys(r.value.target);
            && r.value.target != {} && keys2(r.value.target) != []
            && CanAlloc(r.value.target, region, c.alloc)
            && (forall s :: s in order && s !in Stores(region.peers) ==> s in c.alloc)
            && r.value.steps == MoveRegionProgram(region, r.value.target, order, keys2(r.value.target)[0], c.alloc,
                                                  c.learners)
  {
    var storeMap: set<nat> := {};
    for i := 0 to |ruleStores|
      invariant storeMap == RuleTarget(ruleStores[..i], c.passes)
    {
      if ruleStores[i] in c.passes {
        storeMap := storeMap + {ruleStores[i]};
      }
      assert ruleStores[..i + 1] == ruleStores[..i] + [ruleStores[i]];
    }
    assert ruleStores[..|ruleStores|] == ruleStores;
    var rule := storeMap;
    if rule == {} {
      return None;
    }
    for n := 0 to |views|
      invariant rule <= storeMap
      invariant Choose(views, rule, rule, c) == Choose(views[n..], rule, storeMap, c)
    {
      if views[n].None? {
        continue;
      }
      var v := views[n].value;
      if AllExist(rule, v.region) {
        continue;
      }
      storeMap := FillTarget(v.order, storeMap, c.passes, c.replicas);
      FillKeeps(v.order, storeMap, c.passes, c.replicas);
      if c.replicas > |storeMap| {
        continue;
      }
      assert Listed(keys(storeMap), storeMap) && Listed(keys2(storeMap), storeMap);
      FirstKey(keys2(storeMap), storeMap);
      var steps := CreateMoveRegionOperator(v.region, storeMap, keys(storeMap), Some(keys2(storeMap)[0]), c.alloc,
                                            c.learners);
      if steps.None? {
        continue;
      }
      return Some(Emitted(v, storeMap, steps.value));
    }
    return None;
  }

  lemma FirstKey(order: seq<nat>, s: set<nat>)
    requires Listed(order, s) && s != {}
    ensures order != [] && order[0] in s
  {
    var x :| x in s;
    assert x in order;
    assert order[0] in order;
  }

  method FillTarget(order: seq<nat>, target: set<nat>, passes: set<nat>, replicas: nat) returns (storeMap: set<nat>)
    ensures storeMap == Fill(order, target, passes, replicas)
    ensures target <= storeMap
  {
    storeMap := target;
    for i := 0 to |order|
      invariant target <= storeMap
      invariant Fill(order, target, passes, replicas) == Fill(order[i..], storeMap, passes, replicas)
    {
      if replicas > |storeMap| {
        assert order[i..][1..] == order[i + 1..];
        if order[i] !in storeMap {
          if order[i] in passes {
            storeMap := storeMap + {order[i]};
          }
        } else {
          assert storeMap + {order[i]} == storeMap;
        }
      } else {
        break;
      }
    }
  }

  lemma {:induction false} FillKeeps(order: seq<nat>, target: set<nat>, passes: set<nat>, replicas: nat)
    ensures target <= Fill(order, target, passes, replicas)
    ensures Fill(order, target, passes, replicas) - target <= passes
    ensures forall s :: s in Fill(order, target, passes, replicas) ==> s in target || s in order
    ensures |Fill(order, target, passes, replicas)| <= if replicas <= |target| then |target| else replicas
    decreases |order|
  {
    if order != [] && replicas > |target| {
      FillKeeps(order[1..], if order[0] in passes then target + {order[0]} else target, passes, replicas);
      assert order == [order[0]] + order[1..];
    }
  }

  function Max(a: nat, b: nat): nat {
    if a < b then b else a
  }

  /** The carried target keeps the rule stores and never grows past the larger of the replica and rule counts. */
  ghost predicate Carries(rule: set<nat>, target: set<nat>, c: Cluster) {
    rule <= target <= c.passes && |target| <= Max(c.replicas, |rule|)
  }

  lemma {:induction false} ChooseTarget(views: seq<Option<View>>, rule: set<nat>, target: set<nat>, c: Cluster)
    requires Carries(rule, target, c)
    requires Choose(views, rule, target, c).Some?
    ensures var (v, chosen) := Choose(views, rule, target, c).value;
            && Carries(rule, chosen, c)
            && |chosen| == Max(c.replicas, |rule|)
            && Some(v) in views
            && !AllExist(rule, v.region)
    decreases |views|
  {
    if views[0].None? || AllExist(rule, views[0].value.region) {
      ChooseTarget(views[1..], rule, target, c);
    } else {
      var v := views[0].value;
      var filled := Fill(v.order, target, c.passes, c.replicas);
      FillKeeps(v.order, target, c.passes, c.replicas);
      Monotone(rule, target);
      Monotone(rule, filled);
      if c.replicas > |filled| || !CanAlloc(filled, v.region, c.alloc) {
        ChooseTarget(views[1..], rule, filled, c);
      } else {
        assert views[0] in views;
      }
    }
  }

  /**
    Whatever regions were skipped before, an emitted operator is for a set of stores that pass the
    filter, include every rule store that passes, and are exactly max-replicas many if and only if
    no more than that many rule stores pass. Carrying it out is safe and leaves the region on that
    set, if and only if the leader stays or hands over to a voter.
  */
  lemma ScheduleSafe(ruleStores: seq<nat>, views: seq<Option<View>>, c: Cluster,
                     keys: set<nat> -> seq<nat>, keys2: set<nat> -> seq<nat>)
    requires Lists(keys) && Lists(keys2)
    requires forall i :: 0 <= i < |views| && views[i].Some? ==>
               WellFormed(views[i].value.region) && DistinctIds(views[i].value.region.peers)
    requires var rule := RuleTarget(ruleStores, c.passes); rule != {} && Choose(views, rule, rule, c).Some?
    ensures var rule := RuleTarget(ruleStores, c.passes);
            var (v, target) := Choose(views, rule, rule, c).value;
            && rule <= target <= c.passes
            && (|target| == c.replicas <==> |rule| <= c.replicas)
            && CanAlloc(target, v.region, c.alloc)
            && (forall s :: s in keys(target) && s !in Stores(v.region.peers) ==> s in c.alloc)
            && keys2(target) != []
            && var to := keys2(target)[0];
               var steps := MoveRegionProgram(v.region, target, keys(target), to, c.alloc, c.learners);
               && (Moves(v.region, target, to, steps) <==> HandsToVoter(v.region, target, to))
               && (!HandsToVoter(v.region, target, to) ==>
                     forall lo: nat, hi: nat :: !Runs(Placed(v.region), steps, lo, hi))
  {
    var rule := RuleTarget(ruleStores, c.passes);
    ChooseTarget(views, rule, rule, c);
    ChooseAllocs(views, rule, rule, c);
    var (v, target) := Choose(views, rule, rule, c).value;
    Monotone(rule, target);
    assert Listed(keys(target), target) && Listed(keys2(target), target);
    FirstKey(keys2(target), target);
    var i :| 0 <= i < |views| && views[i] == Some(v);
    MoveRegionSafe(v.region, target, keys(target), keys2(target)[0], c.alloc, c.learners);
  }

  lemma {:induction false} ChooseAllocs(views: seq<Option<View>>, rule: set<nat>, target: set<nat>, c: Cluster)
    requires Choose(views, rule, target, c).Some?
    ensures var (v, chosen) := Choose(views, rule, target, c).value; CanAlloc(chosen, v.region, c.alloc)
    decreases |views|
  {
    if views[0].None? || AllExist(rule, views[0].value.region) {
      ChooseAllocs(views[1..], rule, target, c);
    } else {
      var filled := Fill(views[0].value.order, target, c.passes, c.replicas);
      if c.replicas > |filled| || !CanAlloc(filled, views[0].value.region, c.alloc) {
        ChooseAllocs(views[1..], rule, filled, c);
      }
    }
  }
}
