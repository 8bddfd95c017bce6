/**
  OperatorController: admission of operators to the waiting queue, their promotion to running
  operators, and the counts kept beside them.

  The cluster's regions, the answer of the store limits and the random numbers are parameters.
*/
module OperatorController {
  import opened Options
  import opened WaitingOperator

  datatype Epoch = Epoch(version: nat, confVer: nat)

  // ---------------------------------------------------------------------------------------
  // Counting waiting groups

  /** Which groups to count: all, those of a description, or the copies of one group. */
  datatype Query = Any | Described(desc: string) | Copies(group: Group)

  predicate Matches(q: Query, g: Group) {
    match q
    case Any => true
    case Described(desc) => g != [] && g[0].desc == desc
    case Copies(group) => g == group
  }

  function Count(gs: seq<Group>, q: Query): nat {
    if gs == [] then 0 else Count(gs[1..], q) + if Matches(q, gs[0]) then 1 else 0
  }

  lemma {:induction false} CountAppend(gs: seq<Group>, g: Group, q: Query)
    ensures Count(gs + [g], q) == Count(gs, q) + if Matches(q, g) then 1 else 0
  {
    if gs == [] {
      assert gs + [g] == [g];
    } else {
      CountAppend(gs[1..], g, q);
      assert (gs + [g])[1..] == gs[1..] + [g];
    }
  }

  lemma CountOne(g: Group, q: Query)
    ensures Count([g], q) == if Matches(q, g) then 1 else 0
  {
    assert [g][1..] == [];
  }

  /** The waiting groups over all priorities. */
  ghost function Waiting(ops: seq<seq<Operator>>, q: Query): nat {
    if ops == [] then 0 else Count(Parse(ops[0]), q) + Waiting(ops[1..], q)
  }

  lemma {:induction false} WaitingUpdate(ops: seq<seq<Operator>>, i: nat, x: seq<Operator>, q: Query)
    requires i < |ops|
    ensures Waiting(ops[i := x], q) + Count(Parse(ops[i]), q) == Waiting(ops, q) + Count(Parse(x), q)
  {
    if i > 0 {
      WaitingUpdate(ops[1..], i - 1, x, q);
      assert ops[i := x][1..] == ops[1..][i - 1 := x];
    } else {
      assert ops[i := x][1..] == ops[1..];
    }
  }

  lemma {:induction false} NoneWaiting(ops: seq<seq<Operator>>, q: Query)
    requires forall i :: 0 <= i < |ops| ==> ops[i] == []
    ensures Waiting(ops, q) == 0
  {
    if ops != [] {
      NoneWaiting(ops[1..], q);
    }
  }

  /** The groups that were waiting are the ones that still are and the ones that left, copy by copy. */
  ghost predicate Leaves(was: seq<seq<Operator>>, now: seq<seq<Operator>>, left: seq<Group>) {
    forall q :: Waiting(was, q) == Waiting(now, q) + Count(left, q)
  }

  lemma PopLeaves(was: seq<seq<Operator>>, now: seq<seq<Operator>>, i: nat, g: Group)
    requires Popped(was, now, i, g)
    ensures Leaves(was, now, [g])
  {
    forall q ensures Waiting(was, q) == Waiting(now, q) + Count([g], q) {
      WaitingUpdate(was, i, now[i], q);
      assert Parse(was[i])[1..] == Parse(now[i]);
    }
  }

  lemma PushEnters(was: seq<seq<Operator>>, now: seq<seq<Operator>>, i: nat, g: Group)
    requires Pushed(was, now, i, g)
    ensures Leaves(now, was, [g])
  {
    forall q ensures Waiting(now, q) == Waiting(was, q) + Count([g], q) {
      WaitingUpdate(was, i, now[i], q);
      CountAppend(Parse(was[i]), g, q);
    }
  }

  lemma LeavesMore(a: seq<seq<Operator>>, b: seq<seq<Operator>>, c: seq<seq<Operator>>, left: seq<Group>, g: Group)
    requires Leaves(a, b, left) && Leaves(b, c, [g])
    ensures Leaves(a, c, left + [g])
  {
    forall q ensures Waiting(a, q) == Waiting(c, q) + Count(left + [g], q) {
      CountAppend(left, g, q);
      assert Waiting(b, q) == Waiting(c, q) + Count([g], q);
      assert Waiting(a, q) == Waiting(b, q) + Count(left, q);
    }
  }

  function Counter(status: map<string, nat>, desc: string): nat {
    if desc in status then status[desc] else 0
  }

  /** The counters are the numbers of waiting groups. */
  ghost predicate Counted(status: map<string, nat>, ops: seq<seq<Operator>>) {
    forall desc :: Counter(status, desc) == Waiting(ops, Described(desc))
  }

  ghost predicate Limited(status: map<string, nat>, limit: nat) {
    forall desc :: Counter(status, desc) <= limit
  }

  /** No counter went up. */
  ghost predicate Lower(now: map<string, nat>, was: map<string, nat>) {
    forall desc :: Counter(now, desc) <= Counter(was, desc)
  }

  lemma CountedPut(status: map<string, nat>, was: seq<seq<Operator>>, now: seq<seq<Operator>>, g: Group)
    requires g != [] && Counted(status, was) && Leaves(now, was, [g])
    ensures Counted(status[g[0].desc := Counter(status, g[0].desc) + 1], now)
  {
    var status' := status[g[0].desc := Counter(status, g[0].desc) + 1];
    forall desc ensures Counter(status', desc) == Waiting(now, Described(desc)) {
      CountOne(g, Described(desc));
      assert Counter(status, desc) == Waiting(was, Described(desc));
      assert Waiting(now, Described(desc)) == Waiting(was, Described(desc)) + Count([g], Described(desc));
    }
  }

  /** The counter of a group that leaves is not zero. */
  lemma CountedPop(status: map<string, nat>, was: seq<seq<Operator>>, now: seq<seq<Operator>>, g: Group)
    requires g != [] && Counted(status, was) && Leaves(was, now, [g])
    ensures Counter(status, g[0].desc) >= 1
    ensures Counted(status[g[0].desc := Counter(status, g[0].desc) - 1], now)
  {
    forall desc ensures Counter(status, desc) == Waiting(now, Described(desc)) + if desc == g[0].desc then 1 else 0 {
      CountOne(g, Described(desc));
      assert Counter(status, desc) == Waiting(was, Described(desc));
      assert Waiting(was, Described(desc)) == Waiting(now, Described(desc)) + Count([g], Described(desc));
    }
  }

  // ---------------------------------------------------------------------------------------
  // What may be admitted

  function PutOne(ops: seq<seq<Operator>>, op: Operator): seq<seq<Operator>>
    requires |ops| == 3
  {
    ops[op.priority := ops[op.priority] + [op]]
  }

  /** The buckets after the puts of AddWaitingOperator: the first operator, and the second if there is one. */
  function PutFirst(ops: seq<seq<Operator>>, g: seq<Operator>): seq<seq<Operator>>
    requires |ops| == 3 && g != []
  {
    if |g| > 1 then PutOne(PutOne(ops, g[0]), g[1]) else PutOne(ops, g[0])
  }

  function Admitted(status: map<string, nat>, g: seq<Operator>): map<string, nat>
    requires g != []
  {
    status[g[0].desc := Counter(status, g[0].desc) + 1]
  }

  ghost predicate AllPaired(ops: seq<seq<Operator>>) {
    forall i :: 0 <= i < |ops| ==> Paired(ops[i])
  }

  function FirstTwo(g: seq<Operator>): seq<Operator> {
    if |g| > 2 then g[..2] else g
  }

  /** A single operator at the end of a bucket. */
  lemma PutOneKeeps(ops: seq<seq<Operator>>, op: Operator)
    requires |ops| == 3 && AllPaired(ops)
    ensures AllPaired(PutOne(ops, op)) <==> !IsMerge(op)
    ensures !IsMerge(op) ==> Leaves(PutOne(ops, op), ops, [[op]])
  {
    var p, now := op.priority, PutOne(ops, op);
    ParseConcat(ops[p], [op]);
    PairedAlone([op]);
    assert now[p] == ops[p] + [op];
    if !IsMerge(op) {
      ParseAppend(ops[p], [op]);
      PushEnters(ops, now, p, [op]);
    }
  }

  /** Two operators at the end of one bucket. */
  lemma PutTwoKeeps(ops: seq<seq<Operator>>, g: seq<Operator>)
    requires |ops| == 3 && AllPaired(ops) && |g| == 2 && g[0].priority == g[1].priority
    ensures AllPaired(PutFirst(ops, g)) <==> (IsMerge(g[0]) <==> IsMerge(g[1]))
    ensures IsGroup(g) ==> Leaves(PutFirst(ops, g), ops, [g])
  {
    var p, now := g[0].priority, PutFirst(ops, g);
    ParseConcat(ops[p], g);
    PairedAlone(g);
    assert ops[p] + [g[0]] + [g[1]] == ops[p] + g;
    assert now[p] == ops[p] + g && now == ops[p := now[p]];
    if IsGroup(g) {
      ParseAppend(ops[p], g);
      PushEnters(ops, now, p, g);
    }
  }

  /** Two operators of different priorities: paired exactly if both are plain. */
  lemma PutApartKeeps(ops: seq<seq<Operator>>, g: seq<Operator>)
    requires |ops| == 3 && AllPaired(ops) && |g| == 2 && g[0].priority != g[1].priority
    ensures AllPaired(PutFirst(ops, g)) <==> !IsMerge(g[0]) && !IsMerge(g[1])
  {
    var mid, now := PutOne(ops, g[0]), PutFirst(ops, g);
    PutOneKeeps(ops, g[0]);
    ParseConcat(ops[g[0].priority], [g[0]]);
    PairedAlone([g[0]]);
    assert now[g[0].priority] == ops[g[0].priority] + [g[0]];
    if !IsMerge(g[0]) {
      PutOneKeeps(mid, g[1]);
    }
  }

  /** Two plain operators are two groups, but one is counted. */
  lemma TwoMiscounted(status: map<string, nat>, ops: seq<seq<Operator>>, g: seq<Operator>)
    requires |ops| == 3 && AllPaired(ops) && Counted(status, ops) && |g| >= 2 && !IsMerge(g[0]) && !IsMerge(g[1])
    ensures !Counted(Admitted(status, g), PutFirst(ops, g))
  {
    var mid, now, q := PutOne(ops, g[0]), PutFirst(ops, g), Described(g[1].desc);
    PutOneKeeps(ops, g[0]);
    PutOneKeeps(mid, g[1]);
    CountOne([g[0]], q);
    CountOne([g[1]], q);
    assert Waiting(now, q) == Waiting(mid, q) + Count([[g[1]]], q);
    assert Waiting(mid, q) == Waiting(ops, q) + Count([[g[0]]], q);
    assert Counter(status, g[1].desc) == Waiting(ops, q);
  }

  /**
    From a sound queue, admitting operators keeps merge operators in adjacent pairs and the
    counters equal to the groups exactly if the first two are one group.
  */
  lemma KeptIffGroup(status: map<string, nat>, ops: seq<seq<Operator>>, g: seq<Operator>)
    requires |ops| == 3 && AllPaired(ops) && Counted(status, ops) && g != []
    ensures AllPaired(PutFirst(ops, g)) && Counted(Admitted(status, g), PutFirst(ops, g)) <==> IsGroup(FirstTwo(g))
  {
    var two, now := FirstTwo(g), PutFirst(ops, g);
    assert now == PutFirst(ops, two) && Admitted(status, g) == Admitted(status, two);
    if |two| == 1 {
      PutOneKeeps(ops, two[0]);
      assert two == [two[0]];
    } else if !IsMerge(two[0]) && !IsMerge(two[1]) {
      TwoMiscounted(status, ops, g);
    } else if two[0].priority == two[1].priority {
      PutTwoKeeps(ops, two);
    } else {
      PutApartKeeps(ops, two);
    }
    if IsGroup(two) {
      CountedPut(status, ops, now, two);
    }
  }

  // ---------------------------------------------------------------------------------------
  // Counting running operators

  ghost function WithKind(m: map<nat, Operator>, k: Kind): set<nat> {
    set id | id in m && m[id].kind == k
  }

  function Tally(counts: map<Kind, nat>, k: Kind): nat {
    if k in counts then counts[k] else 0
  }

  /** The counts are a recount of the running operators by kind. */
  ghost predicate Tallied(counts: map<Kind, nat>, m: map<nat, Operator>) {
    forall k :: Tally(counts, k) == |WithKind(m, k)|
  }

  lemma TalliedMore(counts: map<Kind, nat>, m: map<nat, Operator>, id: nat, op: Operator)
    requires Tallied(counts, m) && id !in m
    ensures Tallied(counts[op.kind := Tally(counts, op.kind) + 1], m[id := op])
  {
    var counts', m' := counts[op.kind := Tally(counts, op.kind) + 1], m[id := op];
    forall k ensures Tally(counts', k) == |WithKind(m', k)| {
      WithKindMore(m, id, op, k);
      assert Tally(counts, k) == |WithKind(m, k)|;
    }
  }

  lemma WithKindMore(m: map<nat, Operator>, id: nat, op: Operator, k: Kind)
    requires id !in m
    ensures |WithKind(m[id := op], k)| == |WithKind(m, k)| + if op.kind == k then 1 else 0
  {
    var now := WithKind(m[id := op], k);
    if op.kind == k {
      assert now == WithKind(m, k) + {id};
    } else {
      assert now == WithKind(m, k);
    }
  }

  /** The running operators of some kinds that share a flag with the mask. */
  ghost function Masked(m: map<nat, Operator>, kinds: set<Kind>, mask: Kind): set<nat> {
    set id | id in m && m[id].kind in kinds && m[id].kind * mask != {}
  }

  lemma MaskedMore(m: map<nat, Operator>, kinds: set<Kind>, mask: Kind, k: Kind)
    requires k !in kinds
    ensures |Masked(m, kinds + {k}, mask)| == |Masked(m, kinds, mask)| + if k * mask != {} then |WithKind(m, k)| else 0
  {
    var more := if k * mask != {} then WithKind(m, k) else {};
    assert Masked(m, kinds + {k}, mask) == Masked(m, kinds, mask) + more;
    assert Masked(m, kinds, mask) !! more;
  }

  // ---------------------------------------------------------------------------------------
  // The controller

  /** The operator fits the region it is for, and beats the one that runs there. */
  predicate Addable(op: Operator, regions: map<nat, Epoch>, running: map<nat, Operator>) {
    && op.region in regions
    && regions[op.region] == Epoch(op.version, op.confVer)
    && (op.region in running ==> op.priority > running[op.region].priority)
  }

  predicate AllAddable(ops: seq<Operator>, regions: map<nat, Epoch>, running: map<nat, Operator>) {
    forall i :: 0 <= i < |ops| ==> Addable(ops[i], regions, running)
  }

  function AddAll(m: map<nat, Operator>, ops: seq<Operator>): map<nat, Operator> {
    if ops == [] then m
    else
      var n := |ops| - 1;
      AddAll(m, ops[..n])[ops[n].region := ops[n]]
  }

  /** An operator only gives way to one of higher priority. */
  lemma {:induction false} AddAllBeats(m: map<nat, Operator>, ops: seq<Operator>, regions: map<nat, Epoch>)
    requires AllAddable(ops, regions, m)
    ensures forall id :: id in m ==>
              id in AddAll(m, ops) && (AddAll(m, ops)[id] == m[id] || AddAll(m, ops)[id].priority > m[id].priority)
  {
    if ops != [] {
      AddAllBeats(m, ops[..|ops| - 1], regions);
    }
  }

  /** Every group was over a store limit or could not be added when its turn came. */
  ghost predicate Refused(left: seq<Group>, regions: map<nat, Epoch>, exceeds: nat -> bool,
                          running: map<nat, Operator>) {
    forall n :: 0 <= n < |left| ==> exceeds(n) || !AllAddable(left[n], regions, running)
  }

  /** All groups that left were refused, but for the last one if one was found. */
  ghost predicate Outcome(found: Option<Group>, left: seq<Group>, regions: map<nat, Epoch>, exceeds: nat -> bool,
                          running: map<nat, Operator>)
  {
    match found
    case None => Refused(left, regions, exceeds, running)
    case Some(g) =>
      && left != [] && left[|left| - 1] == g
      && !exceeds(|left| - 1) && AllAddable(g, regions, running)
      && Refused(left[..|left| - 1], regions, exceeds, running)
  }

  class Controller {
    var operators: map<nat, Operator>
    var counts: map<Kind, nat>
    var status: map<string, nat>
    const wop: RandBuckets

    /** The waiting queue is sound and its counters are right. */
    ghost predicate Waits()
      reads this`status, wop
    {
      wop.Valid() && Counted(status, wop.ops)
    }

    /** Operators run on their own region and the counts are right. */
    ghost predicate Runs()
      reads this`operators, this`counts
    {
      && Tallied(counts, operators)
      && (forall id :: id in operators ==> operators[id].region == id)
    }

    ghost predicate Valid()
      reads this, wop
    {
      Waits() && Runs()
    }

    constructor ()
      ensures Valid() && operators == map[] && wop.ops == [[], [], []] && fresh(wop)
    {
      wop := new RandBuckets();
      operators, counts, status := map[], map[], map[];
      new;
      forall q ensures Waiting(wop.ops, q) == 0 {
        NoneWaiting(wop.ops, q);
      }
    }

    /** updateCounts: counted afresh, in any order. */
    method UpdateCounts()
      modifies this`counts
      ensures Tallied(counts, operators)
    {
      counts := map[];
      var rest := operators.Keys;
      ghost var done: map<nat, Operator> := map[];
      while rest != {}
        invariant rest <= operators.Keys
        invariant done == operators - rest
        invariant Tallied(counts, done)
        decreases rest
      {
        var id :| id in rest;
        var kind := operators[id].kind;
        TalliedMore(counts, done, id, operators[id]);
        counts := counts[kind := Tally(counts, kind) + 1];
        done := done[id := operators[id]];
        rest := rest - {id};
      }
      assert done == operators;
    }

    /** OperatorCount: the running operators that share a flag with the mask. */
    method OperatorCount(mask: Kind) returns (total: nat)
      requires Runs()
      ensures total == |set id | id in operators && operators[id].kind * mask != {}|
    {
      total := 0;
      var rest := counts.Keys;
      ghost var seen: set<Kind> := {};
      while rest != {}
        invariant rest <= counts.Keys && seen == counts.Keys - rest
        invariant total == |Masked(operators, seen, mask)|
        decreases rest
      {
        var k :| k in rest;
        MaskedMore(operators, seen, mask, k);
        if k * mask != {} {
          total := total + counts[k];
        }
        seen := seen + {k};
        rest := rest - {k};
      }
      forall id | id in operators ensures operators[id].kind in counts {
        assert id in WithKind(operators, operators[id].kind);
      }
      assert Masked(operators, seen, mask) == set id | id in operators && operators[id].kind * mask != {};
    }

    /** checkAddOperator. */
    method CheckAddOperator(ops: seq<Operator>, regions: map<nat, Epoch>) returns (ok: bool)
      ensures ok <==> AllAddable(ops, regions, operators)
    {
      for i := 0 to |ops|
        invariant forall j :: 0 <= j < i ==> Addable(ops[j], regions, operators)
      {
        var op := ops[i];
        if op.region !in regions {
          return false;
        }
        if regions[op.region].version != op.version || regions[op.region].confVer != op.confVer {
          return false;
        }
        if op.region in operators && !(op.priority > operators[op.region].priority) {
          return false;
        }
      }
      return true;
    }

    /** removeOperatorLocked: whatever runs on the operator's region goes. */
    method RemoveOperator(op: Operator)
      requires Runs()
      modifies this`operators, this`counts
      ensures Runs() && operators == old(operators) - {op.region}
    {
      operators := operators - {op.region};
      UpdateCounts();
    }

    /** addOperatorLocked. */
    method AddOne(op: Operator)
      requires Runs()
      modifies this`operators, this`counts
      ensures Runs() && operators == old(operators)[op.region := op]
    {
      if op.region in operators {
        RemoveOperator(operators[op.region]);
      }
      operators := operators[op.region := op];
      assert operators == old(operators)[op.region := op];
      UpdateCounts();
    }

    method AddEach(ops: seq<Operator>)
      requires Runs()
      modifies this`operators, this`counts
      ensures Runs() && operators == AddAll(old(operators), ops)
    {
      for i := 0 to |ops|
        invariant Runs() && operators == AddAll(old(operators), ops[..i])
      {
        assert ops[..i + 1][..i] == ops[..i];
        AddOne(ops[i]);
      }
      assert ops[..|ops|] == ops;
    }

    /** AddOperator; exceeds is the answer of the store limits. */
    method AddOperator(ops: seq<Operator>, regions: map<nat, Epoch>, exceeds: bool) returns (ok: bool)
      requires Valid()
      modifies this`operators, this`counts
      ensures Valid()
      ensures ok <==> !exceeds && AllAddable(ops, regions, old(operators))
      ensures operators == if ok then AddAll(old(operators), ops) else old(operators)
    {
      var addable := CheckAddOperator(ops, regions);
      if exceeds || !addable {
        return false;
      }
      AddEach(ops);
      return true;
    }

    /** One round of promotion: a group leaves the queue whole, and its counter goes down with it. */
    method TakeGroup(r: real) returns (res: Option<Group>)
      requires Waits() && 0.0 <= r < 1.0
      modifies this`status, wop
      ensures Waits()
      ensures Lower(status, old(status))
      ensures res.None? ==> wop.ops == old(wop.ops) && Waiting(wop.ops, Any) == 0
      ensures res.Some? ==> Leaves(old(wop.ops), wop.ops, [res.value])
    {
      ghost var was, from := wop.ops, 0;
      res, from := wop.GetOperator(r);
      if res.None? {
        NoneWaiting(was, Any);
        return;
      }
      var desc := res.value[0].desc;
      PopLeaves(was, wop.ops, from, res.value);
      CountedPop(status, was, wop.ops, res.value);
      status := status[desc := Counter(status, desc) - 1];
    }

    /** The loop of PromoteWaitingOperator: cancel groups until one can run. */
    method TakeUntil(regions: map<nat, Epoch>, exceeds: nat -> bool, random: nat -> real)
      returns (found: Option<Group>, ghost left: seq<Group>)
      requires Waits() && forall n :: 0.0 <= random(n) < 1.0
      modifies this`status, wop
      ensures Waits()
      ensures Leaves(old(wop.ops), wop.ops, left) && Lower(status, old(status))
      ensures Outcome(found, left, regions, exceeds, operators)
      ensures found.None? ==> Waiting(wop.ops, Any) == 0
    {
      left := [];
      var round := 0;
      while true
        invariant Waits() && round == |left|
        invariant Leaves(old(wop.ops), wop.ops, left) && Lower(status, old(status))
        invariant Refused(left, regions, exceeds, operators)
        decreases Waiting(wop.ops, Any)
      {
        ghost var was := wop.ops;
        found := TakeGroup(random(round));
        if found.None? {
          return;
        }
        assert Waiting(was, Any) == Waiting(wop.ops, Any) + Count([found.value], Any);
        LeavesMore(old(wop.ops), was, wop.ops, left, found.value);
        ghost var before := left;
        left := left + [found.value];
        assert left[..|left| - 1] == before;
        var addable := CheckAddOperator(found.value, regions);
        if exceeds(round) || !addable {
          round := round + 1;
          continue;
        }
        return;
      }
    }

    /**
      PromoteWaitingOperator; the n-th round sees the n-th answer of the store limits and the n-th
      random number.
    */
    method PromoteWaitingOperator(regions: map<nat, Epoch>, exceeds: nat -> bool, random: nat -> real)
      returns (promoted: Option<Group>, ghost left: seq<Group>)
      requires Valid() && forall n :: 0.0 <= random(n) < 1.0
      modifies this, wop
      ensures Valid()
      ensures Leaves(old(wop.ops), wop.ops, left) && Lower(status, old(status))
      ensures Outcome(promoted, left, regions, exceeds, old(operators))
      ensures promoted.None? ==> Waiting(wop.ops, Any) == 0 && operators == old(operators)
      ensures promoted.Some? ==> operators == AddAll(old(operators), promoted.value)
    {
      promoted, left := TakeUntil(regions, exceeds, random);
      if promoted.Some? {
        AddEach(promoted.value);
      }
    }

    /** Put a group and count it. */
    method Admit(ops: Group)
      requires Waits() && IsGroup(ops)
      modifies this`status, wop
      ensures Waits()
      ensures Leaves(wop.ops, old(wop.ops), [ops])
      ensures status == old(status)[ops[0].desc := Counter(old(status), ops[0].desc) + 1]
    {
      ghost var was := wop.ops;
      wop.PutGroup(ops);
      PushEnters(was, wop.ops, ops[0].priority, ops);
      CountedPut(status, was, wop.ops, ops);
      status := status[ops[0].desc := Counter(status, ops[0].desc) + 1];
    }

    /**
      AddWaitingOperator, for one operator or the two sides of a merge. The lock is released
      before the promotion, which may see other regions: those of later.
    */
    method AddWaitingOperator(ops: Group, regions: map<nat, Epoch>, later: map<nat, Epoch>, limit: nat,
                              exceeds: nat -> bool, random: nat -> real)
      returns (ok: bool, ghost promoted: Option<Group>, ghost left: seq<Group>)
      requires Valid() && IsGroup(ops) && forall n :: 0.0 <= random(n) < 1.0
      modifies this, wop
      ensures Valid()
      ensures ok <==> AllAddable(ops, regions, old(operators)) && Waiting(old(wop.ops), Described(ops[0].desc)) < limit
      ensures if ok then forall q :: Waiting(old(wop.ops), q) + Count([ops], q) == Waiting(wop.ops, q) + Count(left, q)
              else promoted.None? && wop.ops == old(wop.ops) && status == old(status)
      ensures ok ==> Outcome(promoted, left, later, exceeds, old(operators))
      ensures operators == if promoted.Some? then AddAll(old(operators), promoted.value) else old(operators)
      ensures old(Limited(status, limit)) ==> Limited(status, limit)
    {
      promoted, left := None, [];
      var addable := CheckAddOperator(ops, regions);
      if !addable {
        return false, None, [];
      }
      var desc := ops[0].desc;
      assert Counter(status, desc) == Waiting(wop.ops, Described(desc));
      if Counter(status, desc) >= limit {
        return false, None, [];
      }
      Admit(ops);
      promoted, left := PromoteWaitingOperator(later, exceeds, random);
      return true, promoted, left;
    }
  }
}
