/**
  The timestamp oracle as a protocol of many servers around one etcd.

  etcd holds two cells: the leader key and the saved timestamp. Every server runs the
  leader loop (campaign, sync, tick, step down) and, next to it, any number of request
  handlers that load the current timestamp object and later add to its logical counter.
  A deposed leader keeps its object until it notices, and keeps ticking inside the window
  it saved. A save that its caller gave up may take effect much later, even in another term of
  the same server, since all terms of a server have the same guard. A run is any sequence of
  actions; an action that is not enabled does nothing.
*/
module TsoProtocol {
  import opened Options
  import opened TsoClock

  /** Where a server is in campaignLeader. */
  datatype Phase =
    | Idle
    | Elected                     // the leader key was created, the saved time is not yet loaded
    | Saving(next: int)           // about to write next + interval, guarded by the leader key
    | Publishing(next: int)       // about to store a fresh object with physical time next
    | Leading

  /** ts is the index of the published object; None stands for the zero-time object. */
  datatype Server = Server(interval: int, phase: Phase, term: nat, ts: Option<nat>, lastSaved: int)

  /** An atomicObject, and the term of the leader that published it. */
  datatype Object = Object(physical: int, logical: int, term: nat)

  /** A request handler between its load of the object and its atomic add. */
  datatype Handler = Handler(obj: nat, count: nat, began: nat)

  /** A response: the highest logical value and the number of values granted. */
  datatype Grant = Grant(obj: nat, physical: int, logical: int, count: nat, began: nat)

  /** A save in flight that its caller gave up: the server that sent it and the time it writes. */
  datatype Late = Late(server: nat, value: int)

  /**
    terms holds the values each leader term wrote to the saved timestamp, objects every object
    ever published, grants every response, each in order of time.
  */
  datatype State = State(
    leader: Option<nat>,
    saved: Option<int>,
    servers: map<nat, Server>,
    terms: seq<seq<int>>,
    objects: seq<Object>,
    handlers: seq<Handler>,
    grants: seq<Grant>,
    late: seq<Late>)

  /** What a transaction does and what its caller learns. */
  datatype Outcome =
    | Answered       // the caller learns whether the guard held
    | Lost           // as Answered for etcd, but the caller sees an error
    | Failed         // nothing happens and the caller sees an error
    | Delayed        // nothing happens yet, the caller sees an error, and etcd may apply it later

  datatype Action =
    | Campaign(server: nat, outcome: Outcome)
    | Expire                                       // the lease of the leader key runs out
    | Resign(server: nat)                          // deleteLeaderKey
    | Load(server: nat, clock: int)                // syncTimestamp up to its save
    | Save(server: nat, outcome: Outcome)          // saveTimestamp
    | Publish(server: nat)                         // ts.Store
    | Tick(server: nat, clock: int)                // updateTimestamp up to its save
    | StepDown(server: nat)                        // campaignLeader returns, or the process restarts
    | Begin(server: nat, count: nat)               // getRespTS loads the object
    | Finish(handler: nat)                         // getRespTS adds to the logical counter
    | Deliver(late: nat)                           // etcd applies a save that its caller gave up

  function Init(config: map<nat, int>): State {
    State(None, None, map i | i in config :: Server(config[i], Idle, 0, None, 0), [], [], [], [], [])
  }

  function Play(s: State, actions: seq<Action>): State
    decreases |actions|
  {
    if actions == [] then s else Play(Step(s, actions[0]), actions[1..])
  }

  function Run(config: map<nat, int>, actions: seq<Action>): State {
    Play(Init(config), actions)
  }

  function Step(s: State, a: Action): State {
    match a
    case Campaign(i, outcome) => CampaignStep(s, i, outcome)
    case Expire => s.(leader := None)
    case Resign(i) =>
      if i in s.servers && s.servers[i].phase.Idle? && s.leader == Some(i) then s.(leader := None) else s
    case Load(i, clock) => LoadStep(s, i, clock)
    case Save(i, outcome) => SaveStep(s, i, outcome)
    case Publish(i) => PublishStep(s, i)
    case Tick(i, clock) => TickStep(s, i, clock)
    case StepDown(i) => if i in s.servers then Update(s, i, Down(s.servers[i])) else s
    case Begin(i, count) => BeginStep(s, i, count)
    case Finish(h) => FinishStep(s, h)
    case Deliver(k) => DeliverStep(s, k)
  }

  function Update(s: State, i: nat, v: Server): State {
    s.(servers := s.servers[i := v])
  }

  function Down(v: Server): Server {
    v.(phase := Idle, ts := None)
  }

  /**
    The key is created only if it does not exist. Its put names a lease granted for this attempt and
    not kept alive before it succeeds, so an attempt that is given up counts as failed.
  */
  function CampaignStep(s: State, i: nat, outcome: Outcome): State {
    if i !in s.servers || !s.servers[i].phase.Idle? || s.leader.Some? || outcome.Failed? || outcome.Delayed? then s
    else if outcome.Lost? then s.(leader := Some(i))
    else Update(s, i, s.servers[i].(phase := Elected)).(leader := Some(i))
  }

  function LoadStep(s: State, i: nat, clock: int): State {
    if i in s.servers && s.servers[i].phase.Elected? then
      Update(s, i, s.servers[i].(phase := Saving(SyncNext(LoadedTime(s.saved), clock))))
    else s
  }

  /** A save of a server that publishes nothing yet opens a term; a later one extends its term. */
  function SaveStep(s: State, i: nat, outcome: Outcome): State {
    if i !in s.servers || !s.servers[i].phase.Saving? then s
    else if outcome.Delayed? then
      Update(s, i, Down(s.servers[i])).(late := s.late + [Late(i, s.servers[i].phase.next + s.servers[i].interval)])
    else if s.leader != Some(i) || outcome.Failed? then Update(s, i, Down(s.servers[i]))
    else Committed(s, i, outcome)
  }

  /** The guard is checked when the save is applied: the leader key must name the sender then. */
  predicate Applies(s: State, k: nat) {
    k < |s.late| && s.leader == Some(s.late[k].server)
  }

  function DeliverStep(s: State, k: nat): State {
    if k < |s.late| then
      s.(saved := if Applies(s, k) then Some(s.late[k].value) else s.saved,
         late := s.late[..k] + s.late[k + 1..])
    else s
  }

  function Committed(s: State, i: nat, outcome: Outcome): State
    requires i in s.servers && s.servers[i].phase.Saving?
  {
    var v := s.servers[i];
    var save := v.phase.next + v.interval;
    var renews := v.ts.Some? && v.term < |s.terms|;
    var term := if renews then v.term else |s.terms|;
    var terms := if renews then s.terms[v.term := s.terms[v.term] + [save]] else s.terms + [[save]];
    var v' := if outcome.Lost? then Down(v) else v.(phase := Publishing(v.phase.next), term := term, lastSaved := save);
    Update(s, i, v').(saved := Some(save), terms := terms)
  }

  function PublishStep(s: State, i: nat): State {
    if i in s.servers && s.servers[i].phase.Publishing? then
      var v := s.servers[i];
      Update(s, i, v.(phase := Leading, ts := Some(|s.objects|)))
        .(objects := s.objects + [Object(v.phase.next, 0, v.term)])
    else s
  }

  function TickStep(s: State, i: nat, clock: int): State {
    if i in s.servers && s.servers[i].phase.Leading? && s.servers[i].ts.Some?
       && s.servers[i].ts.value < |s.objects| then
      var v := s.servers[i];
      var prev := s.objects[v.ts.value];
      match TickNext(prev.physical, prev.logical, clock)
      case None => s
      case Some(next) =>
        Update(s, i, v.(phase := if NeedsSave(v.lastSaved, next) then Saving(next) else Publishing(next)))
    else s
  }

  function BeginStep(s: State, i: nat, count: nat): State {
    if i in s.servers && s.servers[i].ts.Some? && count > 0 then
      s.(handlers := s.handlers + [Handler(s.servers[i].ts.value, count, |s.grants|)])
    else s
  }

  /** The add always happens; a result outside the logical range is not answered but retried. */
  function FinishStep(s: State, h: nat): State {
    if h < |s.handlers| && s.handlers[h].obj < |s.objects| then
      var r := s.handlers[h];
      var o := s.objects[r.obj];
      var logical := o.logical + r.count;
      var s' := s.(objects := s.objects[r.obj := o.(logical := logical)],
                   handlers := s.handlers[..h] + s.handlers[h + 1..]);
      if logical >= MAX_LOGICAL then s'
      else s'.(grants := s.grants + [Grant(r.obj, Millis(o.physical), logical, r.count, r.began)])
    else s
  }

  // ---------------------------------------------------------------------------------------
  // What a run is promised.

  /** The timestamp the client gives to request k of a batch answered by g. */
  function Delivered(g: Grant, k: nat): (int, int) {
    (g.physical, g.logical - (g.count - 1) + k)
  }

  /** No timestamp is delivered to two client requests. */
  ghost predicate UniqueTimestamps(s: State) {
    forall a, b, j: nat, k: nat ::
      (&& 0 <= a < |s.grants| && j < s.grants[a].count
       && 0 <= b < |s.grants| && k < s.grants[b].count
       && Delivered(s.grants[a], j) == Delivered(s.grants[b], k))
      ==> a == b && j == k
  }

  predicate Earlier(x: (int, int), y: (int, int)) {
    x.0 < y.0 || (x.0 == y.0 && x.1 < y.1)
  }

  /** The two answers come from objects of one term. */
  predicate SameTerm(s: State, a: Grant, b: Grant) {
    a.obj < |s.objects| && b.obj < |s.objects| && s.objects[a.obj].term == s.objects[b.obj].term
  }

  /** Within a term, a request that begins after another was answered gets the later timestamp. */
  ghost predicate Ordered(s: State) {
    forall a, b, j: nat, k: nat ::
      (&& 0 <= a < |s.grants| && 0 <= b < |s.grants| && a < s.grants[b].began && SameTerm(s, s.grants[a], s.grants[b])
       && j < s.grants[a].count && k < s.grants[b].count)
      ==> Earlier(Delivered(s.grants[a], j), Delivered(s.grants[b], k))
  }

  /** No clock of the action reads a time before lo. */
  predicate ClockFrom(a: Action, lo: int) {
    a.Load? || a.Tick? ==> a.clock >= lo
  }

  /** A save that takes effect late is at most slack below what the last leader saved. */
  predicate LateWithin(s: State, a: Action, slack: nat) {
    a.Deliver? && Applies(s, a.late) && s.terms != [] ==>
      s.late[a.late].value + slack >= Ceiling(s.terms[|s.terms| - 1])
  }

  /** No clock reads a time before lo, and no late save lowers the saved time by more than slack. */
  ghost predicate Admissible(s: State, actions: seq<Action>, lo: int, slack: nat)
    decreases |actions|
  {
    actions == [] ||
    (ClockFrom(actions[0], lo) && LateWithin(s, actions[0], slack)
     && Admissible(Step(s, actions[0]), actions[1..], lo, slack))
  }

  /** No clock reads a time before lo. */
  ghost predicate ClocksFrom(actions: seq<Action>, lo: int) {
    forall n :: 0 <= n < |actions| ==> ClockFrom(actions[n], lo)
  }

  /** No save takes effect late. */
  ghost predicate Punctual(actions: seq<Action>) {
    forall n :: 0 <= n < |actions| ==> !actions[n].Deliver?
  }

  // ---------------------------------------------------------------------------------------
  // The invariant of every run, whatever the save intervals and clocks are.

  /** Server v is in a term: it has saved a window and not stepped down since. */
  predicate InTerm(v: Server) {
    v.phase.Publishing? || v.phase.Leading? || (v.phase.Saving? && v.ts.Some?)
  }

  /** All objects of a term are at least a millisecond before the time. */
  ghost predicate TermBefore(objects: seq<Object>, term: nat, time: int) {
    forall o :: 0 <= o < |objects| && objects[o].term == term ==> objects[o].physical + MS <= time
  }

  /** What a server knows of its own term. */
  ghost predicate Owns(terms: seq<seq<int>>, objects: seq<Object>, v: Server) {
    && v.term < |terms|
    && |terms[v.term]| > 0
    && v.lastSaved == Ceiling(terms[v.term])
    && (v.ts.None? ==> v.phase.Publishing?)
    && (v.ts.Some? ==> CurrentObject(objects, v))
    && (v.phase.Saving? || v.phase.Publishing? ==> TermBefore(objects, v.term, v.phase.next))
    && (v.phase.Publishing? ==> v.lastSaved <= v.phase.next + v.interval)
    && (v.phase.Publishing? ==> v.phase.next + Margin(v.interval) <= v.lastSaved)
  }

  /** The published object is the last one of the term. */
  ghost predicate CurrentObject(objects: seq<Object>, v: Server)
    requires v.ts.Some?
  {
    && v.ts.value < |objects|
    && objects[v.ts.value].term == v.term
    && (forall o :: v.ts.value < o < |objects| ==> objects[o].term != v.term)
    && (!v.phase.Publishing? ==> v.lastSaved <= objects[v.ts.value].physical + v.interval)
    && objects[v.ts.value].physical + Margin(v.interval) <= v.lastSaved
  }

  ghost predicate ServerInv(terms: seq<seq<int>>, objects: seq<Object>, v: Server) {
    && (InTerm(v) ==> Owns(terms, objects, v))
    && (!InTerm(v) ==> v.ts.None?)
  }

  /** No two servers are in the same term. */
  ghost predicate TermsDisjoint(servers: map<nat, Server>) {
    forall i, j :: i in servers && j in servers && i != j && InTerm(servers[i]) && InTerm(servers[j])
      ==> servers[i].term != servers[j].term
  }

  /** The server named by the leader key is the only one that opened a term since it was elected. */
  predicate LeaderInv(v: Server, terms: seq<seq<int>>) {
    InTerm(v) ==> v.term == |terms| - 1
  }

  /** The time up to which a term may hand out physical times. */
  function Ceiling(saves: seq<int>): int {
    if saves == [] then ZERO_TIME else saves[|saves| - 1]
  }

  /** Within a term the saved time strictly increases. */
  ghost predicate SavesIncrease(saves: seq<int>) {
    forall m, n :: 0 <= m < n < |saves| ==> saves[m] < saves[n]
  }

  ghost predicate TermsInv(terms: seq<seq<int>>) {
    forall t :: 0 <= t < |terms| ==> |terms[t]| > 0 && SavesIncrease(terms[t])
  }

  /** etcd holds the last value that the last term wrote. */
  ghost predicate SavedLast(terms: seq<seq<int>>, saved: Option<int>) {
    saved == if terms == [] then None else Some(Ceiling(terms[|terms| - 1]))
  }

  /** Within a term the physical time increases by at least a millisecond at each change. */
  ghost predicate PhysicalIncreases(objects: seq<Object>) {
    forall o, o' :: 0 <= o < o' < |objects| && objects[o].term == objects[o'].term
      ==> objects[o].physical + MS <= objects[o'].physical
  }

  /** Logical values granted from one object do not overlap and do not exceed its counter. */
  ghost predicate GrantsInv(objects: seq<Object>, grants: seq<Grant>) {
    && (forall a :: 0 <= a < |grants| ==>
          && grants[a].obj < |objects|
          && grants[a].physical == Millis(objects[grants[a].obj].physical)
          && grants[a].logical <= objects[grants[a].obj].logical)
    && (forall a, b :: 0 <= a < b < |grants| && grants[a].obj == grants[b].obj
          ==> grants[a].logical <= grants[b].logical - grants[b].count)
  }

  /** x is not a newer object of the term of y. */
  predicate NotNewer(objects: seq<Object>, x: nat, y: nat) {
    x < |objects| && y < |objects| && (objects[x].term == objects[y].term ==> x <= y)
  }

  /** What began after a grant never holds an older object of the same term. */
  ghost predicate OrderInv(objects: seq<Object>, handlers: seq<Handler>, grants: seq<Grant>) {
    && (forall h :: 0 <= h < |handlers| ==> handlers[h].obj < |objects| && handlers[h].began <= |grants|)
    && (forall h, a :: 0 <= h < |handlers| && 0 <= a < handlers[h].began
          ==> NotNewer(objects, grants[a].obj, handlers[h].obj))
    && (forall b :: 0 <= b < |grants| ==> grants[b].began <= b)
    && (forall a, b :: 0 <= b < |grants| && 0 <= a < grants[b].began
          ==> NotNewer(objects, grants[a].obj, grants[b].obj))
  }

  ghost predicate Inv(s: State) {
    && (forall i :: i in s.servers ==> ServerInv(s.terms, s.objects, s.servers[i]))
    && TermsDisjoint(s.servers)
    && (s.leader.Some? && s.leader.value in s.servers ==> LeaderInv(s.servers[s.leader.value], s.terms))
    && TermsInv(s.terms)
    && (forall o :: 0 <= o < |s.objects| ==> s.objects[o].term < |s.terms|)
    && PhysicalIncreases(s.objects)
    && GrantsInv(s.objects, s.grants)
    && OrderInv(s.objects, s.handlers, s.grants)
  }
}
