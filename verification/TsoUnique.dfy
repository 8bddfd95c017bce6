/** Timestamps are unique over all terms and ordered within a term. */
module TsoUnique {
  import opened Options
  import opened TsoClock
  import opened TsoProtocol
  import TsoTerms

  // ---------------------------------------------------------------------------------------
  // Physical times are after the epoch when the clocks are.

  ghost predicate EpochInv(s: State) {
    && (forall o :: 0 <= o < |s.objects| ==> s.objects[o].physical >= 0)
    && (forall i :: i in s.servers && (s.servers[i].phase.Saving? || s.servers[i].phase.Publishing?)
          ==> s.servers[i].phase.next >= 0)
  }

  lemma EpochStep(s: State, a: Action)
    requires EpochInv(s) && ClockFrom(a, 0)
    ensures EpochInv(Step(s, a))
  {
  }

  lemma {:induction false} PlayEpoch(s: State, actions: seq<Action>)
    requires EpochInv(s) && ClocksFrom(actions, 0)
    ensures EpochInv(Play(s, actions))
    decreases |actions|
  {
    if actions != [] {
      EpochStep(s, actions[0]);
      assert ClocksFrom(actions[1..], 0);
      PlayEpoch(Step(s, actions[0]), actions[1..]);
    }
  }

  // ---------------------------------------------------------------------------------------
  // Windows of different terms are a millisecond apart when every margin covers the slack by
  // which late saves may lower the saved time.

  ghost predicate Covers(servers: map<nat, Server>, slack: nat) {
    forall i :: i in servers ==> slack <= Margin(servers[i].interval)
  }

  /** The time lies at least a millisecond after what earlier terms saved, but for the slack. */
  ghost predicate AfterTerms(terms: seq<seq<int>>, term: nat, time: int, slack: nat) {
    forall t :: 0 <= t < term && t < |terms| ==> Ceiling(terms[t]) + MS <= time + slack
  }

  ghost predicate TermsSorted(terms: seq<seq<int>>) {
    forall t, u :: 0 <= t < u < |terms| ==> Ceiling(terms[t]) < Ceiling(terms[u])
  }

  /** An object lies in the window of its term, away from its end by the slack. */
  ghost predicate ObjectWindow(terms: seq<seq<int>>, o: Object, slack: nat) {
    && o.term < |terms|
    && AfterTerms(terms, o.term, o.physical, slack)
    && o.physical + slack <= Ceiling(terms[o.term])
  }

  ghost predicate ServerWindow(terms: seq<seq<int>>, v: Server, slack: nat) {
    v.phase.Publishing? ==> AfterTerms(terms, v.term, v.phase.next, slack)
  }

  /** The saved time is at most the slack below the last ceiling, and a leader about to open a term is above it. */
  ghost predicate SavedWindow(s: State, slack: nat) {
    s.terms != [] ==>
      var top := Ceiling(s.terms[|s.terms| - 1]);
      && s.saved.Some? && s.saved.value + slack >= top
      && (forall i :: s.leader == Some(i) && i in s.servers && s.servers[i].phase.Saving? && s.servers[i].ts.None?
            ==> s.servers[i].phase.next + slack >= top + GUARD)
  }

  ghost predicate WindowInv(s: State, slack: nat) {
    && TermsSorted(s.terms)
    && SavedWindow(s, slack)
    && (forall o :: 0 <= o < |s.objects| ==> ObjectWindow(s.terms, s.objects[o], slack))
    && (forall i :: i in s.servers ==> ServerWindow(s.terms, s.servers[i], slack))
  }

  /** No ceiling falls, and only the last one may rise. */
  ghost predicate Raised(terms: seq<seq<int>>, later: seq<seq<int>>) {
    && |terms| <= |later|
    && (forall t :: 0 <= t < |terms| ==> Ceiling(terms[t]) <= Ceiling(later[t]))
    && (forall t :: 0 <= t < |terms| - 1 ==> later[t] == terms[t])
  }

  lemma ObjectRaised(terms: seq<seq<int>>, later: seq<seq<int>>, o: Object, slack: nat)
    requires Raised(terms, later) && ObjectWindow(terms, o, slack)
    ensures ObjectWindow(later, o, slack)
  {
  }

  lemma ServerRaised(terms: seq<seq<int>>, later: seq<seq<int>>, v: Server, slack: nat)
    requires Raised(terms, later) && ServerWindow(terms, v, slack) && (v.phase.Publishing? ==> v.term < |terms|)
    ensures ServerWindow(later, v, slack)
  {
  }

  /** The server that wrote publishes after all earlier terms. */
  lemma WriterWindow(s: State, i: nat, outcome: Outcome, slack: nat)
    requires Inv(s) && WindowInv(s, slack)
    requires s.leader == Some(i) && i in s.servers && s.servers[i].phase.Saving?
    requires slack <= Margin(s.servers[i].interval)
    ensures ServerWindow(Committed(s, i, outcome).terms, Committed(s, i, outcome).servers[i], slack)
  {
    CommittedAbove(s, i, outcome, slack);
    var v := s.servers[i];
    assert ServerInv(s.terms, s.objects, v);
    if v.ts.Some? {
      assert ObjectWindow(s.terms, s.objects[v.ts.value], slack);
    }
  }

  lemma TopRaised(terms: seq<seq<int>>, save: int)
    requires terms != [] && TermsSorted(terms) && save > Ceiling(terms[|terms| - 1])
    ensures var later := terms[|terms| - 1 := terms[|terms| - 1] + [save]]; TermsSorted(later) && Raised(terms, later)
  {
  }

  lemma TopAdded(terms: seq<seq<int>>, save: int)
    requires TermsSorted(terms) && (terms != [] ==> save > Ceiling(terms[|terms| - 1]))
    ensures TermsSorted(terms + [[save]]) && Raised(terms, terms + [[save]])
  {
  }

  /** What the leader is about to write is above everything that leaders ever saved. */
  lemma SaveAbove(s: State, i: nat, slack: nat)
    requires Inv(s) && SavedWindow(s, slack)
    requires s.leader == Some(i) && i in s.servers && s.servers[i].phase.Saving?
    requires slack <= Margin(s.servers[i].interval)
    ensures s.servers[i].ts.Some? ==> s.servers[i].term == |s.terms| - 1
    ensures s.terms != [] ==> s.servers[i].phase.next + s.servers[i].interval > Ceiling(s.terms[|s.terms| - 1])
  {
    assert ServerInv(s.terms, s.objects, s.servers[i]);
  }

  lemma CommittedRaises(s: State, i: nat, outcome: Outcome)
    requires TermsSorted(s.terms) && i in s.servers && s.servers[i].phase.Saving?
    requires s.servers[i].ts.Some? ==> s.servers[i].term == |s.terms| - 1
    requires s.terms != [] ==> s.servers[i].phase.next + s.servers[i].interval > Ceiling(s.terms[|s.terms| - 1])
    ensures TermsSorted(Committed(s, i, outcome).terms) && Raised(s.terms, Committed(s, i, outcome).terms)
  {
    var save := s.servers[i].phase.next + s.servers[i].interval;
    if s.servers[i].ts.Some? {
      TopRaised(s.terms, save);
    } else {
      TopAdded(s.terms, save);
    }
  }

  /** The leader writes above everything that leaders ever saved. */
  lemma CommittedAbove(s: State, i: nat, outcome: Outcome, slack: nat)
    requires Inv(s) && TermsSorted(s.terms) && SavedWindow(s, slack)
    requires s.leader == Some(i) && i in s.servers && s.servers[i].phase.Saving?
    requires slack <= Margin(s.servers[i].interval)
    ensures TermsSorted(Committed(s, i, outcome).terms) && Raised(s.terms, Committed(s, i, outcome).terms)
    ensures s.servers[i].ts.None? ==> AfterTerms(s.terms, |s.terms|, s.servers[i].phase.next, slack)
  {
    SaveAbove(s, i, slack);
    CommittedRaises(s, i, outcome);
  }

  lemma WindowCommitted(s: State, i: nat, outcome: Outcome, slack: nat)
    requires Inv(s) && WindowInv(s, slack)
    requires s.leader == Some(i) && i in s.servers && s.servers[i].phase.Saving?
    requires slack <= Margin(s.servers[i].interval)
    ensures WindowInv(Committed(s, i, outcome), slack)
  {
    CommittedAbove(s, i, outcome, slack);
    TsoTerms.CommittedTerms(s, i, outcome);
    WriterWindow(s, i, outcome, slack);
    var s' := Committed(s, i, outcome);
    forall o | 0 <= o < |s.objects| ensures ObjectWindow(s'.terms, s.objects[o], slack) {
      ObjectRaised(s.terms, s'.terms, s.objects[o], slack);
    }
    forall j | j in s.servers && j != i ensures ServerWindow(s'.terms, s.servers[j], slack) {
      assert ServerInv(s.terms, s.objects, s.servers[j]);
      ServerRaised(s.terms, s'.terms, s.servers[j], slack);
    }
  }

  lemma WindowTick(s: State, i: nat, clock: int, slack: nat)
    requires Inv(s) && WindowInv(s, slack) && i in s.servers && s.servers[i].phase.Leading?
    ensures WindowInv(TickStep(s, i, clock), slack)
  {
    assert ServerInv(s.terms, s.objects, s.servers[i]);
    assert ObjectWindow(s.terms, s.objects[s.servers[i].ts.value], slack);
  }

  lemma WindowPublish(s: State, i: nat, slack: nat)
    requires Inv(s) && WindowInv(s, slack) && i in s.servers && s.servers[i].phase.Publishing?
    requires slack <= Margin(s.servers[i].interval)
    ensures WindowInv(PublishStep(s, i), slack)
  {
    assert ServerInv(s.terms, s.objects, s.servers[i]);
    assert ServerWindow(s.terms, s.servers[i], slack);
  }

  /** What a newly elected leader loads is what etcd holds then. */
  lemma SavedOther(s: State, a: Action, slack: nat)
    requires SavedWindow(s, slack) && !a.Tick? && !a.Publish? && LateWithin(s, a, slack)
    requires a.Save? ==> TsoTerms.Refused(s, a.server, a.outcome)
    ensures SavedWindow(Step(s, a), slack)
  {
  }

  lemma ObjectsOther(s: State, a: Action, slack: nat)
    requires Inv(s) && !a.Tick? && !a.Publish? && (a.Save? ==> TsoTerms.Refused(s, a.server, a.outcome))
    requires forall o :: 0 <= o < |s.objects| ==> ObjectWindow(s.terms, s.objects[o], slack)
    ensures forall o :: 0 <= o < |Step(s, a).objects| ==> ObjectWindow(s.terms, Step(s, a).objects[o], slack)
  {
  }

  lemma WindowOther(s: State, a: Action, slack: nat)
    requires Inv(s) && WindowInv(s, slack) && !a.Tick? && !a.Publish? && LateWithin(s, a, slack)
    requires a.Save? ==> TsoTerms.Refused(s, a.server, a.outcome)
    ensures WindowInv(Step(s, a), slack)
  {
    SavedOther(s, a, slack);
    ObjectsOther(s, a, slack);
    var s' := Step(s, a);
    assert s'.terms == s.terms;
    forall i | i in s'.servers ensures ServerWindow(s.terms, s'.servers[i], slack) {
      assert ServerWindow(s.terms, s.servers[i], slack);
    }
  }

  lemma WindowStep(s: State, a: Action, slack: nat)
    requires Inv(s) && Covers(s.servers, slack) && WindowInv(s, slack) && LateWithin(s, a, slack)
    ensures WindowInv(Step(s, a), slack)
  {
    match a
    case Save(i, outcome) =>
      if TsoTerms.Refused(s, i, outcome) { WindowOther(s, a, slack); }
      else if i in s.servers && s.servers[i].phase.Saving? { WindowCommitted(s, i, outcome, slack); }
    case Tick(i, clock) =>
      if i in s.servers && s.servers[i].phase.Leading? { WindowTick(s, i, clock, slack); }
    case Publish(i) =>
      if i in s.servers && s.servers[i].phase.Publishing? { WindowPublish(s, i, slack); }
    case _ => WindowOther(s, a, slack);
  }

  /** A step never changes a save interval. */
  lemma IntervalsStay(s: State, a: Action, slack: nat)
    requires Covers(s.servers, slack)
    ensures Covers(Step(s, a).servers, slack)
  {
  }

  lemma {:induction false} PlayWindow(s: State, actions: seq<Action>, lo: int, slack: nat)
    requires Inv(s) && Covers(s.servers, slack) && WindowInv(s, slack) && Admissible(s, actions, lo, slack)
    ensures Inv(Play(s, actions)) && WindowInv(Play(s, actions), slack)
    decreases |actions|
  {
    if actions != [] {
      TsoTerms.InvStep(s, actions[0]);
      WindowStep(s, actions[0], slack);
      IntervalsStay(s, actions[0], slack);
      PlayWindow(Step(s, actions[0]), actions[1..], lo, slack);
    }
  }

  /** Two different objects fall into different milliseconds. */
  lemma ObjectsApart(s: State, x: nat, y: nat, slack: nat)
    requires Inv(s) && WindowInv(s, slack) && EpochInv(s)
    requires x < |s.objects| && y < |s.objects| && x != y
    ensures Millis(s.objects[x].physical) != Millis(s.objects[y].physical)
  {
    var a, b := s.objects[x], s.objects[y];
    if a.physical + MS <= b.physical {
      MillisIncreases(a.physical, b.physical);
    } else {
      MillisIncreases(b.physical, a.physical);
    }
  }

  lemma UniqueState(s: State, slack: nat)
    requires Inv(s) && WindowInv(s, slack) && EpochInv(s)
    ensures UniqueTimestamps(s)
  {
    forall a, b, j: nat, k: nat |
      && 0 <= a < |s.grants| && j < s.grants[a].count
      && 0 <= b < |s.grants| && k < s.grants[b].count
      && Delivered(s.grants[a], j) == Delivered(s.grants[b], k)
      ensures a == b && j == k
    {
      if s.grants[a].obj != s.grants[b].obj {
        ObjectsApart(s, s.grants[a].obj, s.grants[b].obj, slack);
      }
    }
  }

  lemma WindowInit(config: map<nat, int>, slack: nat)
    ensures WindowInv(Init(config), slack) && EpochInv(Init(config))
  {
  }

  lemma RunWindow(config: map<nat, int>, actions: seq<Action>, lo: int, slack: nat)
    requires forall i :: i in config ==> slack <= Margin(config[i])
    requires Admissible(Init(config), actions, lo, slack)
    ensures Inv(Run(config, actions)) && WindowInv(Run(config, actions), slack)
  {
    TsoTerms.InvInit(config);
    WindowInit(config, slack);
    PlayWindow(Init(config), actions, lo, slack);
  }

  /** What is admissible reads no clock before its bound. */
  lemma {:induction false} AdmissibleClocks(s: State, actions: seq<Action>, lo: int, slack: nat)
    requires Admissible(s, actions, lo, slack)
    ensures ClocksFrom(actions, lo)
    decreases |actions|
  {
    if actions != [] {
      AdmissibleClocks(Step(s, actions[0]), actions[1..], lo, slack);
      assert actions == [actions[0]] + actions[1..];
    }
  }

  lemma RunEpoch(config: map<nat, int>, actions: seq<Action>)
    requires ClocksFrom(actions, 0)
    ensures EpochInv(Run(config, actions))
  {
    WindowInit(config, 0);
    PlayEpoch(Init(config), actions);
  }

  /**
    No timestamp is delivered twice, over all terms, with deposed leaders still answering and
    saves of earlier terms still arriving, as long as these lower the saved time by no more than
    every margin.
  */
  lemma UniqueRun(config: map<nat, int>, actions: seq<Action>, slack: nat)
    requires forall i :: i in config ==> slack <= Margin(config[i])
    requires Admissible(Init(config), actions, 0, slack)
    ensures UniqueTimestamps(Run(config, actions))
  {
    RunWindow(config, actions, 0, slack);
    AdmissibleClocks(Init(config), actions, 0, slack);
    RunEpoch(config, actions);
    UniqueState(Run(config, actions), slack);
  }

  /**
    Within a term, a request that begins after another was answered gets the later timestamp,
    whatever the save intervals and late saves are and however loads and adds interleave.
  */
  lemma TermOrder(config: map<nat, int>, actions: seq<Action>)
    requires ClocksFrom(actions, 0)
    ensures Ordered(Run(config, actions))
  {
    TsoTerms.RunInv(config, actions);
    RunEpoch(config, actions);
    var s := Run(config, actions);
    forall a, b, j: nat, k: nat |
      && 0 <= a < |s.grants| && 0 <= b < |s.grants| && a < s.grants[b].began && SameTerm(s, s.grants[a], s.grants[b])
      && j < s.grants[a].count && k < s.grants[b].count
      ensures Earlier(Delivered(s.grants[a], j), Delivered(s.grants[b], k))
    {
      OrderedState(s, a, b, j, k);
    }
  }

  lemma OrderedState(s: State, a: nat, b: nat, j: nat, k: nat)
    requires Inv(s) && EpochInv(s)
    requires b < |s.grants| && a < s.grants[b].began && j < s.grants[a].count && k < s.grants[b].count
    requires s.objects[s.grants[a].obj].term == s.objects[s.grants[b].obj].term
    ensures Earlier(Delivered(s.grants[a], j), Delivered(s.grants[b], k))
  {
    var x, y := s.grants[a].obj, s.grants[b].obj;
    assert NotNewer(s.objects, x, y);
    if x < y {
      MillisIncreases(s.objects[x].physical, s.objects[y].physical);
    }
  }
}
