/**
  RandBuckets: operators waiting by priority. Flat lists of operators refine queues of groups,
  where a group is one operator or the two operators of a merge.
*/
module WaitingOperator {
  import opened Options

  datatype Flag = OpLeader | OpRegion | OpAdmin | OpHotRegion | OpAdjacent | OpReplica | OpBalance | OpMerge | OpRange

  /** OperatorKind: a bit field. */
  type Kind = set<Flag>

  type Priority = p: int | 0 <= p < 3

  datatype Operator = Operator(region: nat, version: nat, confVer: nat, desc: string, kind: Kind, priority: Priority)

  type Group = seq<Operator>

  function PriorityWeight(i: Priority): real {
    if i == 0 then 1.0 else if i == 1 then 4.0 else 9.0
  }

  predicate IsMerge(op: Operator) {
    OpMerge in op.kind
  }

  /** What callers put at once: one plain operator, or the two sides of a merge with one priority. */
  predicate IsGroup(g: Group) {
    || (|g| == 1 && !IsMerge(g[0]))
    || (|g| == 2 && IsMerge(g[0]) && IsMerge(g[1]) && g[0].priority == g[1].priority)
  }

  /** The groups of a list, as GetOperator takes them off its front. */
  function Parse(s: seq<Operator>): seq<Group>
    decreases |s|
  {
    if s == [] then []
    else if IsMerge(s[0]) && |s| >= 2 then [s[..2]] + Parse(s[2..])
    else [s[..1]] + Parse(s[1..])
  }

  function Flatten(gs: seq<Group>): seq<Operator> {
    if gs == [] then [] else gs[0] + Flatten(gs[1..])
  }

  /** Merge operators stand in adjacent pairs: the list is a sequence of groups. */
  ghost predicate Paired(s: seq<Operator>)
    decreases |s|
  {
    s == [] ||
    var n := if IsMerge(s[0]) then 2 else 1;
    n <= |s| && IsGroup(s[..n]) && Paired(s[n..])
  }

  /** Nothing is lost by parsing. */
  lemma {:induction false} ParseFlatten(s: seq<Operator>)
    ensures Flatten(Parse(s)) == s
    decreases |s|
  {
    if s != [] {
      var n := if IsMerge(s[0]) && |s| >= 2 then 2 else 1;
      ParseFlatten(s[n..]);
      assert Parse(s)[1..] == Parse(s[n..]);
      assert s == s[..n] + s[n..];
    }
  }

  /** Behind a paired list come the groups of what follows, and pairs break only there. */
  lemma {:induction false} ParseConcat(s: seq<Operator>, t: seq<Operator>)
    requires Paired(s)
    ensures Parse(s + t) == Parse(s) + Parse(t)
    ensures Paired(s + t) <==> Paired(t)
    decreases |s|
  {
    if s == [] {
      assert s + t == t;
    } else {
      var n := if IsMerge(s[0]) then 2 else 1;
      ParseConcat(s[n..], t);
      SplitConcat(s, n, t);
      ParseLonger(s, s + t, s[..n], s[n..], s[n..] + t, Parse(t));
    }
  }

  lemma SplitConcat(s: seq<Operator>, n: nat, t: seq<Operator>)
    requires n <= |s|
    ensures s == s[..n] + s[n..] && s + t == s[..n] + (s[n..] + t)
  {
  }

  /** Two lists with the same first group differ as what is behind it. */
  lemma ParseLonger(s: seq<Operator>, more: seq<Operator>, g: Group, rest: seq<Operator>, moreRest: seq<Operator>,
                    gs: seq<Group>)
    requires IsGroup(g) && s == g + rest && more == g + moreRest && Parse(moreRest) == Parse(rest) + gs
    ensures Parse(more) == Parse(s) + gs
    ensures Paired(more) <==> Paired(moreRest)
  {
    ParseBehind(s, g, rest);
    ParseBehind(more, g, moreRest);
    Reassociate([g], Parse(rest), gs);
  }

  lemma Reassociate(a: seq<Group>, b: seq<Group>, c: seq<Group>)
    ensures a + (b + c) == a + b + c
  {
  }

  /** A group in front of a list is its first group. */
  lemma ParseBehind(s: seq<Operator>, g: Group, rest: seq<Operator>)
    requires IsGroup(g) && s == g + rest
    ensures Parse(s) == [g] + Parse(rest)
    ensures Paired(s) <==> Paired(rest)
  {
    assert s[..|g|] == g && s[|g|..] == rest && s[0] == g[0];
  }

  /** A group put at the end of a paired list becomes its last group. */
  lemma ParseAppend(s: seq<Operator>, g: Group)
    requires Paired(s) && IsGroup(g)
    ensures Parse(s + g) == Parse(s) + [g] && Paired(s + g)
  {
    ParseConcat(s, g);
    ParseOne(g);
  }

  lemma ParseOne(g: Group)
    requires IsGroup(g)
    ensures Parse(g) == [g] && Paired(g)
  {
    assert g[..|g|] == g && g[|g|..] == [];
  }

  /** One or two operators are paired exactly if they are one group, or two plain operators. */
  lemma PairedAlone(ops: seq<Operator>)
    requires 1 <= |ops| <= 2
    ensures |ops| == 1 ==> (Paired(ops) <==> !IsMerge(ops[0]))
    ensures |ops| == 2 && ops[0].priority == ops[1].priority ==>
              (Paired(ops) <==> (IsMerge(ops[0]) <==> IsMerge(ops[1])))
  {
    if |ops| == 1 {
      assert ops[..1] == ops && ops[1..] == [];
    } else {
      var last := ops[1..];
      assert last[..1] == last && last[1..] == [] && last[0] == ops[1];
      assert ops[..2] == ops && ops[2..] == [];
    }
  }

  /** The first group leaves, the others stay. */
  lemma ParseFront(s: seq<Operator>)
    requires s != [] && Paired(s)
    ensures var n := if IsMerge(s[0]) then 2 else 1;
            n <= |s| && Parse(s) == [s[..n]] + Parse(s[n..]) && IsGroup(s[..n]) && Paired(s[n..])
  {
  }

  /** The weights of the non-empty ones among the first n buckets. */
  function Weight(ops: seq<seq<Operator>>, n: nat): real
    requires n <= |ops| == 3
  {
    if n == 0 then 0.0
    else Weight(ops, n - 1) + if ops[n - 1] == [] then 0.0 else PriorityWeight(n - 1)
  }

  ghost predicate Sound(totalWeight: real, ops: seq<seq<Operator>>) {
    && |ops| == 3
    && totalWeight == Weight(ops, 3)
    && (forall i :: 0 <= i < 3 ==> Paired(ops[i]))
  }

  /** The part of the total weight that the first n buckets have. */
  function Share(ops: seq<seq<Operator>>, total: real, n: nat): real
    requires n <= |ops| == 3 && total > 0.0
  {
    Weight(ops, n) / total
  }

  /** The bucket that a random number picks: each non-empty one in proportion to its weight. */
  ghost predicate Picks(ops: seq<seq<Operator>>, r: real, i: nat)
    requires |ops| == 3
  {
    && i < 3 && ops[i] != [] && Weight(ops, 3) > 0.0
    && Share(ops, Weight(ops, 3), i) <= r < Share(ops, Weight(ops, 3), i + 1)
  }

  lemma {:induction false} WeightUnfolds(ops: seq<seq<Operator>>)
    requires |ops| == 3
    ensures Weight(ops, 0) == 0.0 && Weight(ops, 1) == if ops[0] == [] then 0.0 else 1.0
    ensures Weight(ops, 2) == Weight(ops, 1) + if ops[1] == [] then 0.0 else 4.0
    ensures Weight(ops, 3) == Weight(ops, 2) + if ops[2] == [] then 0.0 else 9.0
    ensures Weight(ops, 3) == 0.0 <==> ops[0] == [] && ops[1] == [] && ops[2] == []
  {
  }

  lemma ShareStep(ops: seq<seq<Operator>>, total: real, i: Priority)
    requires |ops| == 3 && total > 0.0
    ensures Share(ops, total, i + 1) == Share(ops, total, i) + if ops[i] == [] then 0.0 else PriorityWeight(i) / total
  {
    AddShares(Weight(ops, i), PriorityWeight(i), total);
  }

  lemma AddShares(a: real, w: real, total: real)
    requires total > 0.0
    ensures a / total + w / total == (a + w) / total
  {
  }

  lemma WholeShare(ops: seq<seq<Operator>>, total: real)
    requires |ops| == 3 && total > 0.0 && total == Weight(ops, 3)
    ensures Share(ops, total, 0) == 0.0 && Share(ops, total, 3) == 1.0
  {
    SelfShare(total);
  }

  lemma SelfShare(total: real)
    requires total > 0.0
    ensures total / total == 1.0
  {
  }

  /** The loop of GetOperator that adds up proportions until they pass the random number. */
  method PickBucket(ops: seq<seq<Operator>>, totalWeight: real, r: real) returns (i: Priority)
    requires |ops| == 3 && totalWeight == Weight(ops, 3) && totalWeight > 0.0 && 0.0 <= r < 1.0
    ensures Picks(ops, r, i)
  {
    WholeShare(ops, totalWeight);
    var sum := 0.0;
    for n := 0 to 3
      invariant sum == Share(ops, totalWeight, n) <= r
    {
      ShareStep(ops, totalWeight, n);
      if |ops[n]| == 0 {
        continue;
      }
      var proportion := PriorityWeight(n) / totalWeight;
      if r >= sum && r < sum + proportion {
        return n;
      }
      sum := sum + proportion;
    }
    assert false;
  }

  class RandBuckets {
    var totalWeight: real
    var ops: seq<seq<Operator>>

    ghost predicate Valid()
      reads this
    {
      Sound(totalWeight, ops)
    }

    constructor ()
      ensures Valid() && ops == [[], [], []]
    {
      totalWeight, ops := 0.0, [[], [], []];
    }

    /** PutOperator: to the end of the bucket of its priority. */
    method PutOperator(op: Operator)
      requires |ops| == 3
      modifies this
      ensures ops == old(ops)[op.priority := old(ops)[op.priority] + [op]]
      ensures totalWeight == old(totalWeight) + if old(ops)[op.priority] == [] then PriorityWeight(op.priority) else 0.0
    {
      var priority := op.priority;
      if |ops[priority]| == 0 {
        totalWeight := totalWeight + PriorityWeight(priority);
      }
      ops := ops[priority := ops[priority] + [op]];
    }

    /** Both operators of a merge, or a single one. */
    method PutGroup(g: Group)
      requires Valid() && IsGroup(g)
      modifies this
      ensures Valid()
      ensures Pushed(old(ops), ops, g[0].priority, g)
    {
      var p := g[0].priority;
      ghost var was := ops;
      WeightUnfolds(ops);
      ParseAppend(ops[p], g);
      PutOperator(g[0]);
      if |g| > 1 {
        PutOperator(g[1]);
        assert was[p] + [g[0]] + [g[1]] == was[p] + g;
      } else {
        assert was[p] + [g[0]] == was[p] + g;
      }
      WeightUnfolds(ops);
    }

    /** Take the first group off a bucket. */
    method Take(i: Priority) returns (res: Group)
      requires Valid() && ops[i] != []
      modifies this
      ensures Valid() && IsGroup(res)
      ensures Popped(old(ops), ops, i, res)
    {
      ghost var was := ops;
      ParseFront(ops[i]);
      WeightUnfolds(ops);
      res := [ops[i][0]];
      if IsMerge(ops[i][0]) {
        res := res + [ops[i][1]];
        assert res == was[i][..2];
        ops := ops[i := ops[i][2..]];
      } else {
        assert res == was[i][..1];
        ops := ops[i := ops[i][1..]];
      }
      if |ops[i]| == 0 {
        totalWeight := totalWeight - PriorityWeight(i);
      }
      WeightUnfolds(ops);
    }

    /** GetOperator; r is the random number. */
    method GetOperator(r: real) returns (res: Option<Group>, ghost from: nat)
      requires Valid() && 0.0 <= r < 1.0
      modifies this
      ensures Valid()
      ensures res.None? <==> forall i :: 0 <= i < 3 ==> old(ops)[i] == []
      ensures res.None? ==> ops == old(ops)
      ensures res.Some? ==> IsGroup(res.value) && Picks(old(ops), r, from) && Popped(old(ops), ops, from, res.value)
    {
      WeightUnfolds(ops);
      from := 0;
      if totalWeight == 0.0 {
        return None, 0;
      }
      var i := PickBucket(ops, totalWeight, r);
      from := i;
      var group := Take(i);
      return Some(group), from;
    }
  }

  /** The first group of one queue left; nothing else changed. */
  ghost predicate Popped(was: seq<seq<Operator>>, now: seq<seq<Operator>>, i: nat, g: Group) {
    && |was| == |now| && i < |was|
    && Parse(was[i]) == [g] + Parse(now[i])
    && now == was[i := now[i]]
  }

  /** The group is the new last one of one queue; nothing else changed. */
  ghost predicate Pushed(was: seq<seq<Operator>>, now: seq<seq<Operator>>, i: nat, g: Group) {
    && |was| == |now| && i < |was|
    && Parse(now[i]) == Parse(was[i]) + [g]
    && now == was[i := now[i]]
  }
}
