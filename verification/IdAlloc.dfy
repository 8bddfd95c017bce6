/**
  The windowed id allocator. Every server hands out ids from a window of ALLOC_STEP ids that
  it reserved by advancing one etcd value, with a compare on the value it read and a compare
  on the leader key. Ids are unbounded here.
*/
module IdAlloc {
  import opened Options

  const ALLOC_STEP: nat := 1000

  /** pending is the value read by a generate call whose transaction has not run yet. */
  datatype Allocator = Allocator(base: nat, end: nat, pending: Option<Option<nat>>)

  datatype Issue = Issue(server: nat, id: nat)

  /** A transaction in flight that its caller gave up: its server and the value it compares with. */
  datatype Late = Late(server: nat, read: Option<nat>)

  /** issued is every id any call ever returned, in order of time. */
  datatype State = State(
    leader: Option<nat>,
    value: Option<nat>,
    allocators: map<nat, Allocator>,
    issued: seq<Issue>,
    late: seq<Late>)

  datatype Action =
    | Elect(leader: Option<nat>)                 // the leader key changes in any way
    | Alloc(server: nat)                         // Alloc from the window, or generate up to its transaction
    | Commit(server: nat, answered: bool)        // the transaction; if not answered, the caller sees an error
    | Drop(server: nat)                          // the read or the transaction fails without effect
    | Abandon(server: nat)                       // the caller gives up a transaction that may still run
    | Deliver(late: nat)                         // such a transaction runs
    | Restart(server: nat)

  function Init(servers: set<nat>): State {
    State(None, None, map i | i in servers :: Allocator(0, 0, None), [], [])
  }

  function Play(s: State, actions: seq<Action>): State
    decreases |actions|
  {
    if actions == [] then s else Play(Step(s, actions[0]), actions[1..])
  }

  function Step(s: State, a: Action): State {
    match a
    case Elect(leader) => s.(leader := leader)
    case Alloc(i) => AllocStep(s, i)
    case Commit(i, answered) => CommitStep(s, i, answered)
    case Drop(i) => if i in s.allocators then Update(s, i, s.allocators[i].(pending := None)) else s
    case Abandon(i) =>
      if i in s.allocators && s.allocators[i].pending.Some? then
        Update(s, i, s.allocators[i].(pending := None)).(late := s.late + [Late(i, s.allocators[i].pending.value)])
      else s
    case Deliver(k) => DeliverStep(s, k)
    case Restart(i) => if i in s.allocators then Update(s, i, Allocator(0, 0, None)) else s
  }

  function Update(s: State, i: nat, v: Allocator): State {
    s.(allocators := s.allocators[i := v])
  }

  /** The end of everything reserved so far. */
  function Reserved(value: Option<nat>): nat {
    match value
    case None => 0
    case Some(n) => n
  }

  function AllocStep(s: State, i: nat): State {
    if i !in s.allocators || s.allocators[i].pending.Some? then s
    else if s.allocators[i].base == s.allocators[i].end then
      Update(s, i, s.allocators[i].(pending := Some(s.value)))
    else
      var id := s.allocators[i].base + 1;
      Update(s, i, s.allocators[i].(base := id)).(issued := s.issued + [Issue(i, id)])
  }

  /** A compare on a missing value is a compare on the creation of the key. */
  function CommitStep(s: State, i: nat, answered: bool): State {
    if i !in s.allocators || s.allocators[i].pending.None? then s
    else if s.allocators[i].pending != Some(s.value) || s.leader != Some(i) then
      Update(s, i, s.allocators[i].(pending := None))
    else
      var end := Reserved(s.value) + ALLOC_STEP;
      if answered then
        var id := end - ALLOC_STEP + 1;
        Update(s, i, Allocator(id, end, None)).(value := Some(end), issued := s.issued + [Issue(i, id)])
      else
        Update(s, i, s.allocators[i].(pending := None)).(value := Some(end))
  }

  /** Both compares are made when the transaction runs, whatever terms have passed. */
  function DeliverStep(s: State, k: nat): State {
    if k < |s.late| then
      var holds := s.late[k].read == s.value && s.leader == Some(s.late[k].server);
      var value := if holds then Some(Reserved(s.value) + ALLOC_STEP) else s.value;
      s.(value := value, late := s.late[..k] + s.late[k + 1..])
    else s
  }

  ghost predicate UniqueIds(issued: seq<Issue>) {
    forall a, b :: 0 <= a < b < |issued| ==> issued[a].id != issued[b].id
  }

  /** The ids of one server only grow, restarts and lost leaderships included. */
  ghost predicate IncreasingIds(issued: seq<Issue>) {
    forall a, b :: 0 <= a < b < |issued| && issued[a].server == issued[b].server ==> issued[a].id < issued[b].id
  }

  /** Two windows have no id in common. */
  predicate Apart(v: Allocator, w: Allocator) {
    v.base == v.end || w.base == w.end || v.end <= w.base || w.end <= v.base
  }

  /** Windows lie below the reserved id and apart from each other; a server waits for one only with an empty one. */
  ghost predicate WindowsInv(allocators: map<nat, Allocator>, reserved: nat) {
    && (forall i :: i in allocators ==> allocators[i].base <= allocators[i].end <= reserved)
    && (forall i, j :: i in allocators && j in allocators && i != j ==> Apart(allocators[i], allocators[j]))
    && (forall i :: i in allocators && allocators[i].pending.Some? ==> allocators[i].base == allocators[i].end)
  }

  /** Issued ids are reserved, in no window, different, and growing per server. */
  ghost predicate IssuedInv(issued: seq<Issue>, allocators: map<nat, Allocator>, reserved: nat) {
    && (forall a :: 0 <= a < |issued| ==> issued[a].id <= reserved)
    && (forall i :: i in allocators ==> AllOutside(issued, i, allocators[i]))
    && UniqueIds(issued)
    && IncreasingIds(issued)
  }

  ghost predicate Inv(s: State) {
    && WindowsInv(s.allocators, Reserved(s.value))
    && IssuedInv(s.issued, s.allocators, Reserved(s.value))
  }

  ghost predicate AllOutside(issued: seq<Issue>, i: nat, v: Allocator) {
    forall a :: 0 <= a < |issued| ==> IssuedOutside(issued[a], i, v)
  }

  /** An issued id is in no window, and it is below the window of the server that issued it. */
  predicate IssuedOutside(e: Issue, i: nat, v: Allocator) {
    v.base == v.end || e.id <= v.base || (e.server != i && v.end < e.id)
  }

  lemma InvStep(s: State, a: Action)
    requires Inv(s)
    ensures Inv(Step(s, a))
  {
    match a
    case Alloc(i) => InvAlloc(s, i);
    case Commit(i, answered) => InvCommit(s, i, answered);
    case Deliver(k) => InvDeliver(s, k);
    case Drop(i) => if i in s.allocators { InvGone(s, i, s.allocators[i].(pending := None)); }
    case Abandon(i) => if i in s.allocators { InvGone(s, i, s.allocators[i].(pending := None)); }
    case Restart(i) => if i in s.allocators { InvGone(s, i, Allocator(0, 0, None)); }
    case Elect(_) =>
  }

  /** A late transaction can only reserve more. */
  lemma InvDeliver(s: State, k: nat)
    requires Inv(s)
    ensures Inv(DeliverStep(s, k))
  {
    InvReserved(s, DeliverStep(s, k).value);
  }

  /** A server stops waiting, or loses its window too. */
  lemma InvGone(s: State, i: nat, v: Allocator)
    requires Inv(s) && i in s.allocators
    requires v == s.allocators[i].(pending := None) || v == Allocator(0, 0, None)
    ensures Inv(Update(s, i, v))
  {
    var now := s.allocators[i := v];
    forall j | j in now ensures AllOutside(s.issued, j, now[j]) {
      assert AllOutside(s.issued, j, s.allocators[j]);
    }
  }

  lemma InvAlloc(s: State, i: nat)
    requires Inv(s)
    ensures Inv(AllocStep(s, i))
  {
    if i in s.allocators && s.allocators[i].pending.None? {
      if s.allocators[i].base == s.allocators[i].end {
        InvWaits(s, i);
      } else {
        InvIssues(s, i);
      }
    }
  }

  /** A server with an empty window reads the value and waits. */
  lemma InvWaits(s: State, i: nat)
    requires Inv(s) && i in s.allocators && s.allocators[i].pending.None? && s.allocators[i].base == s.allocators[i].end
    ensures Inv(AllocStep(s, i))
  {
  }

  /** The next id of a window is issued. */
  lemma InvIssues(s: State, i: nat)
    requires Inv(s) && i in s.allocators && s.allocators[i].pending.None? && s.allocators[i].base != s.allocators[i].end
    ensures Inv(AllocStep(s, i))
  {
    IssuedNext(s.issued, s.allocators, Reserved(s.value), i);
    WindowsNext(s.allocators, Reserved(s.value), i);
  }

  lemma WindowsNext(allocators: map<nat, Allocator>, reserved: nat, i: nat)
    requires WindowsInv(allocators, reserved) && i in allocators && allocators[i].base != allocators[i].end
    ensures WindowsInv(allocators[i := allocators[i].(base := allocators[i].base + 1)], reserved)
  {
  }

  lemma IssuedNext(issued: seq<Issue>, allocators: map<nat, Allocator>, reserved: nat, i: nat)
    requires WindowsInv(allocators, reserved) && IssuedInv(issued, allocators, reserved)
    requires i in allocators && allocators[i].base != allocators[i].end
    ensures var id := allocators[i].base + 1;
            IssuedInv(issued + [Issue(i, id)], allocators[i := allocators[i].(base := id)], reserved)
  {
    var id := allocators[i].base + 1;
    var now, issued' := allocators[i := allocators[i].(base := id)], issued + [Issue(i, id)];
    assert AllOutside(issued, i, allocators[i]);
    forall j | j in now ensures AllOutside(issued', j, now[j]) {
      assert AllOutside(issued, j, allocators[j]);
      assert j != i ==> Apart(allocators[i], allocators[j]);
    }
  }

  /** A new window lies above every id and every window so far. */
  lemma InvGranted(s: State, i: nat, answered: bool)
    requires Inv(s) && i in s.allocators && s.allocators[i].pending == Some(s.value) && s.leader == Some(i)
    ensures Inv(CommitStep(s, i, answered))
  {
    var reserved := Reserved(s.value);
    if answered {
      IssuedGranted(s.issued, s.allocators, reserved, i);
      WindowsGranted(s.allocators, reserved, i);
    } else {
      InvGone(s, i, s.allocators[i].(pending := None));
      InvReserved(Update(s, i, s.allocators[i].(pending := None)), Some(reserved + ALLOC_STEP));
    }
  }

  /** More may be reserved at any time. */
  lemma InvReserved(s: State, value: Option<nat>)
    requires Inv(s) && Reserved(s.value) <= Reserved(value)
    ensures Inv(s.(value := value))
  {
  }

  lemma WindowsGranted(allocators: map<nat, Allocator>, reserved: nat, i: nat)
    requires WindowsInv(allocators, reserved) && i in allocators
    ensures WindowsInv(allocators[i := Allocator(reserved + 1, reserved + ALLOC_STEP, None)], reserved + ALLOC_STEP)
  {
  }

  lemma IssuedGranted(issued: seq<Issue>, allocators: map<nat, Allocator>, reserved: nat, i: nat)
    requires WindowsInv(allocators, reserved) && IssuedInv(issued, allocators, reserved) && i in allocators
    ensures var v := Allocator(reserved + 1, reserved + ALLOC_STEP, None);
            IssuedInv(issued + [Issue(i, reserved + 1)], allocators[i := v], reserved + ALLOC_STEP)
  {
    var v := Allocator(reserved + 1, reserved + ALLOC_STEP, None);
    var now, issued' := allocators[i := v], issued + [Issue(i, reserved + 1)];
    forall j | j in now ensures AllOutside(issued', j, now[j]) {
      assert j in allocators && AllOutside(issued, j, allocators[j]);
    }
  }

  lemma InvCommit(s: State, i: nat, answered: bool)
    requires Inv(s)
    ensures Inv(CommitStep(s, i, answered))
  {
    if i in s.allocators && s.allocators[i].pending == Some(s.value) && s.leader == Some(i) {
      InvGranted(s, i, answered);
    }
  }

  lemma {:induction false} PlayInv(s: State, actions: seq<Action>)
    requires Inv(s)
    ensures Inv(Play(s, actions))
    decreases |actions|
  {
    if actions != [] {
      InvStep(s, actions[0]);
      PlayInv(Step(s, actions[0]), actions[1..]);
    }
  }

  /** What is reserved never shrinks, so a server may rely on the window it read about. */
  lemma {:induction false} ReservedGrows(s: State, actions: seq<Action>)
    ensures Reserved(s.value) <= Reserved(Play(s, actions).value)
    decreases |actions|
  {
    if actions != [] {
      ReservedGrows(Step(s, actions[0]), actions[1..]);
    }
  }

  /** Over every run no id is returned twice, and the ids of each server grow. */
  lemma IdsUnique(servers: set<nat>, actions: seq<Action>)
    ensures UniqueIds(Play(Init(servers), actions).issued)
    ensures IncreasingIds(Play(Init(servers), actions).issued)
  {
    PlayInv(Init(servers), actions);
  }
}

/** The allocator of one server as the code runs it. */
module IdAllocator {
  import opened Options
  import IdAlloc

  class Etcd {
    var leader: Option<nat>
    var value: Option<nat>

    constructor ()
      ensures leader == None && value == None
    {
      leader, value := None, None;
    }
  }

  /** How etcd answers one generate call. */
  datatype Reply =
    | ReadFailed     // the read returns an error
    | Malformed      // the read returns something that is not eight bytes long
    | Answered       // the transaction returns whether its compares held
    | Lost           // the transaction runs, and the caller sees an error
    | Failed         // the transaction does not run, and the caller sees an error

  class Allocator {
    const member: nat
    const etcd: Etcd
    var base: nat
    var end: nat

    constructor (member: nat, etcd: Etcd)
      ensures this.member == member && this.etcd == etcd && Valid() && Window() == []
    {
      this.member, this.etcd := member, etcd;
      base, end := 0, 0;
    }

    ghost predicate Valid()
      reads this, etcd
    {
      base <= end <= IdAlloc.Reserved(etcd.value)
    }

    /** The ids that are reserved and not yet returned, in the order they will be returned. */
    ghost function Window(): seq<nat>
      reads this
    {
      var b := base;
      if base <= end then seq(end - base, (k: nat) => b + 1 + k) else []
    }

    /** meanwhile is what etcd holds when the transaction runs: other servers may have raised it since the read. */
    method Generate(meanwhile: Option<nat>, reply: Reply) returns (r: Option<nat>)
      modifies etcd`value
      ensures r.Some? <==> etcd.leader == Some(member) && meanwhile == old(etcd.value) && reply.Answered?
      ensures r.Some? ==> r.value == IdAlloc.Reserved(old(etcd.value)) + IdAlloc.ALLOC_STEP
      ensures var runs := etcd.leader == Some(member) && meanwhile == old(etcd.value) &&
                (reply.Answered? || reply.Lost?);
              etcd.value == if runs then Some(IdAlloc.Reserved(old(etcd.value)) + IdAlloc.ALLOC_STEP) else meanwhile
    {
      var read := etcd.value;
      etcd.value := meanwhile;
      if reply.ReadFailed? || reply.Malformed? {
        return None;
      }
      var end := IdAlloc.Reserved(read) + IdAlloc.ALLOC_STEP;
      if reply.Failed? || etcd.value != read || etcd.leader != Some(member) {
        return None;
      }
      etcd.value := Some(end);
      if reply.Lost? {
        return None;
      }
      return Some(end);
    }

    /** Returns the next reserved id; an empty window is refilled above everything reserved so far. */
    method Alloc(meanwhile: Option<nat>, reply: Reply) returns (r: Option<nat>)
      requires Valid() && IdAlloc.Reserved(etcd.value) <= IdAlloc.Reserved(meanwhile)
      modifies this, etcd`value
      ensures Valid()
      ensures old(Window()) != [] ==> r == Some(old(Window())[0]) && Window() == old(Window())[1..]
      ensures old(Window()) != [] ==> etcd.value == old(etcd.value)
      ensures old(Window()) == [] && r.Some? ==>
                && r == Some(IdAlloc.Reserved(old(etcd.value)) + 1)
                && |Window()| == IdAlloc.ALLOC_STEP - 1
                && (forall id :: id in Window() ==> id > r.value)
                && etcd.value == Some(end)
      ensures var refilled := etcd.leader == Some(member) && meanwhile == old(etcd.value) && reply.Answered?;
              r.None? <==> old(Window()) == [] && !refilled
      ensures r.None? ==> Window() == []
    {
      if base == end {
        var window := Generate(meanwhile, reply);
        if window.None? {
          return None;
        }
        end := window.value;
        base := end - IdAlloc.ALLOC_STEP;
      }
      base := base + 1;
      return Some(base);
    }
  }
}
