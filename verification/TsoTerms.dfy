/** What every run of the timestamp oracle keeps, whatever the save intervals and the clocks are. */
module TsoTerms {
  import opened Options
  import opened TsoClock
  import opened TsoProtocol

  /** The save does not take effect now. */
  predicate Refused(s: State, i: nat, outcome: Outcome) {
    s.leader != Some(i) || outcome.Failed? || outcome.Delayed?
  }

  /** The write extends the last term above its ceiling, or opens a new term. */
  lemma CommittedTerms(s: State, i: nat, outcome: Outcome)
    requires Inv(s) && s.leader == Some(i) && i in s.servers && s.servers[i].phase.Saving?
    ensures TermsInv(Committed(s, i, outcome).terms)
    ensures SavedLast(Committed(s, i, outcome).terms, Committed(s, i, outcome).saved)
  {
    var v := s.servers[i];
    assert ServerInv(s.terms, s.objects, v);
    if v.ts.Some? {
      assert v.phase.next + v.interval > v.lastSaved;
      var saves := s.terms[v.term];
      assert SavesIncrease(saves + [v.phase.next + v.interval]);
    }
  }

  /** A write by one server leaves what the others know of their terms true. */
  lemma CommittedServers(s: State, i: nat, outcome: Outcome)
    requires Inv(s) && s.leader == Some(i) && i in s.servers && s.servers[i].phase.Saving?
    ensures var s' := Committed(s, i, outcome);
            forall j :: j in s'.servers ==> ServerInv(s'.terms, s'.objects, s'.servers[j])
  {
    var s' := Committed(s, i, outcome);
    assert ServerInv(s.terms, s.objects, s.servers[i]);
    forall j | j in s'.servers ensures ServerInv(s'.terms, s'.objects, s'.servers[j]) {
      assert ServerInv(s.terms, s.objects, s.servers[j]);
      if j != i && InTerm(s.servers[j]) {
        assert s'.terms[s.servers[j].term] == s.terms[s.servers[j].term];
      }
    }
  }

  lemma InvCommitted(s: State, i: nat, outcome: Outcome)
    requires Inv(s) && s.leader == Some(i) && i in s.servers && s.servers[i].phase.Saving?
    ensures Inv(Committed(s, i, outcome))
  {
    CommittedTerms(s, i, outcome);
    CommittedServers(s, i, outcome);
    assert ServerInv(s.terms, s.objects, s.servers[i]);
  }

  /** A fresh object is the newest of the publisher's term and belongs to no other server's term. */
  lemma PublishedServer(s: State, i: nat, j: nat)
    requires Inv(s) && i in s.servers && s.servers[i].phase.Publishing? && j in s.servers
    ensures var s' := PublishStep(s, i); ServerInv(s'.terms, s'.objects, s'.servers[j])
  {
    assert ServerInv(s.terms, s.objects, s.servers[i]);
    assert ServerInv(s.terms, s.objects, s.servers[j]);
    var v := s.servers[j];
    if j != i && InTerm(v) {
      assert v.term != s.servers[i].term;
      var objects := PublishStep(s, i).objects;
      assert v.ts.Some? ==> CurrentObject(objects, v);
      assert v.phase.Saving? || v.phase.Publishing? ==> TermBefore(objects, v.term, v.phase.next);
    }
  }

  /** The requests seen so far do not depend on objects published later. */
  lemma PublishedRequests(objects: seq<Object>, newest: Object, handlers: seq<Handler>, grants: seq<Grant>)
    requires GrantsInv(objects, grants) && OrderInv(objects, handlers, grants)
    ensures GrantsInv(objects + [newest], grants) && OrderInv(objects + [newest], handlers, grants)
  {
    forall x: nat, y: nat | NotNewer(objects, x, y) ensures NotNewer(objects + [newest], x, y) {
    }
  }

  lemma InvPublish(s: State, i: nat)
    requires Inv(s) && i in s.servers && s.servers[i].phase.Publishing?
    ensures Inv(PublishStep(s, i))
  {
    var v := s.servers[i];
    assert ServerInv(s.terms, s.objects, v);
    forall j | j in s.servers
      ensures var s' := PublishStep(s, i); ServerInv(s'.terms, s'.objects, s'.servers[j])
    {
      PublishedServer(s, i, j);
    }
    PublishedRequests(s.objects, Object(v.phase.next, 0, v.term), s.handlers, s.grants);
  }

  /** The current object of a term has its highest physical time. */
  lemma TickBefore(objects: seq<Object>, v: Server, next: int)
    requires PhysicalIncreases(objects) && v.ts.Some? && CurrentObject(objects, v)
    requires objects[v.ts.value].physical + MS <= next
    ensures TermBefore(objects, v.term, next)
  {
  }

  lemma InvTick(s: State, i: nat, clock: int)
    requires Inv(s) && i in s.servers && s.servers[i].phase.Leading?
    ensures Inv(TickStep(s, i, clock))
  {
    var v := s.servers[i];
    assert ServerInv(s.terms, s.objects, v);
    var prev := s.objects[v.ts.value];
    var next := TickNext(prev.physical, prev.logical, clock);
    if next.Some? {
      TickBefore(s.objects, v, next.value);
    }
  }

  /** The object a handler loads is the newest of its term. */
  lemma InvBegin(s: State, i: nat, count: nat)
    requires Inv(s) && i in s.servers && s.servers[i].ts.Some?
    ensures Inv(BeginStep(s, i, count))
  {
    var v := s.servers[i];
    assert ServerInv(s.terms, s.objects, v);
    assert forall a :: 0 <= a < |s.grants| ==> NotNewer(s.objects, s.grants[a].obj, v.ts.value);
  }

  /** An add to a logical counter moves no physical time. */
  lemma FinishedServers(s: State, h: nat)
    requires Inv(s) && h < |s.handlers|
    ensures var s' := FinishStep(s, h);
            forall j :: j in s'.servers ==> ServerInv(s'.terms, s'.objects, s'.servers[j])
  {
    var s' := FinishStep(s, h);
    assert forall o :: 0 <= o < |s.objects| ==>
      s'.objects[o].term == s.objects[o].term && s'.objects[o].physical == s.objects[o].physical;
    forall j | j in s'.servers ensures ServerInv(s'.terms, s'.objects, s'.servers[j]) {
      assert ServerInv(s.terms, s.objects, s.servers[j]);
    }
  }

  lemma FinishedOrder(s: State, h: nat)
    requires Inv(s) && h < |s.handlers|
    ensures var s' := FinishStep(s, h); OrderInv(s'.objects, s'.handlers, s'.grants)
  {
    var s' := FinishStep(s, h);
    forall x: nat, y: nat | NotNewer(s.objects, x, y) ensures NotNewer(s'.objects, x, y) {
    }
    forall k | 0 <= k < |s'.handlers| ensures s'.handlers[k] in s.handlers {
      assert s'.handlers[k] == if k < h then s.handlers[k] else s.handlers[k + 1];
    }
  }

  lemma InvFinish(s: State, h: nat)
    requires Inv(s) && h < |s.handlers|
    ensures Inv(FinishStep(s, h))
  {
    FinishedServers(s, h);
    FinishedOrder(s, h);
  }

  lemma InvCampaign(s: State, i: nat, outcome: Outcome)
    requires Inv(s)
    ensures Inv(CampaignStep(s, i, outcome))
  {
  }

  lemma InvLoad(s: State, i: nat, clock: int)
    requires Inv(s)
    ensures Inv(LoadStep(s, i, clock))
  {
  }

  lemma InvLeaves(s: State, a: Action)
    requires Inv(s) && (a.Expire? || a.Resign? || a.StepDown? || a.Deliver?)
    ensures Inv(Step(s, a))
  {
  }

  /** A save that etcd refuses, or answers too late, makes the server step down. */
  lemma InvRefused(s: State, i: nat, outcome: Outcome)
    requires Inv(s) && Refused(s, i, outcome)
    ensures Inv(SaveStep(s, i, outcome))
  {
  }

  lemma InvStep(s: State, a: Action)
    requires Inv(s)
    ensures Inv(Step(s, a))
  {
    match a
    case Save(i, outcome) =>
      if Refused(s, i, outcome) { InvRefused(s, i, outcome); }
      else if i in s.servers && s.servers[i].phase.Saving? { InvCommitted(s, i, outcome); }
    case Publish(i) =>
      if i in s.servers && s.servers[i].phase.Publishing? { InvPublish(s, i); }
    case Tick(i, clock) =>
      if i in s.servers && s.servers[i].phase.Leading? { InvTick(s, i, clock); }
    case Begin(i, count) =>
      if i in s.servers && s.servers[i].ts.Some? { InvBegin(s, i, count); }
    case Finish(h) =>
      if h < |s.handlers| { InvFinish(s, h); }
    case Campaign(i, outcome) => InvCampaign(s, i, outcome);
    case Load(i, clock) => InvLoad(s, i, clock);
    case _ => InvLeaves(s, a);
  }

  lemma {:induction false} PlayInv(s: State, actions: seq<Action>)
    requires Inv(s)
    ensures Inv(Play(s, actions))
    decreases |actions|
  {
    if actions != [] {
      InvStep(s, actions[0]);
      PlayInv(Step(s, actions[0]), actions[1..]);
    }
  }

  lemma InvInit(config: map<nat, int>)
    ensures Inv(Init(config))
  {
    var s := Init(config);
    forall i | i in s.servers ensures s.servers[i].phase == Idle && s.servers[i].ts == None {
      assert s.servers[i] == Server(config[i], Idle, 0, None, 0);
    }
    InvIdle(s);
  }

  lemma InvIdle(s: State)
    requires s.leader == None && s.terms == [] && s.objects == [] && s.handlers == [] && s.grants == []
    requires forall i :: i in s.servers ==> s.servers[i].phase == Idle && s.servers[i].ts == None
    ensures Inv(s)
  {
    assert forall i :: i in s.servers ==> !InTerm(s.servers[i]);
  }

  lemma RunInv(config: map<nat, int>, actions: seq<Action>)
    ensures Inv(Run(config, actions))
  {
    InvInit(config);
    PlayInv(Init(config), actions);
  }

  /** Only late saves make etcd hold something else than the last write of the last term. */
  lemma SavedStep(s: State, a: Action)
    requires Inv(s) && SavedLast(s.terms, s.saved) && !a.Deliver?
    ensures SavedLast(Step(s, a).terms, Step(s, a).saved)
  {
    if a.Save? && !Refused(s, a.server, a.outcome) && a.server in s.servers && s.servers[a.server].phase.Saving? {
      CommittedTerms(s, a.server, a.outcome);
    }
  }

  lemma {:induction false} PlaySaved(s: State, actions: seq<Action>)
    requires Inv(s) && SavedLast(s.terms, s.saved) && Punctual(actions)
    ensures SavedLast(Play(s, actions).terms, Play(s, actions).saved)
    decreases |actions|
  {
    if actions != [] {
      InvStep(s, actions[0]);
      SavedStep(s, actions[0]);
      PlaySaved(Step(s, actions[0]), actions[1..]);
    }
  }

  /**
    In every reachable state, and for every save interval, every clock and every late save: within
    a term each change of the physical time moves it forward by a millisecond or more, and each
    write of the saved time moves it forward. As long as no save takes effect late, etcd holds the
    last write of the last term.
  */
  lemma TermsAdvance(config: map<nat, int>, actions: seq<Action>)
    ensures PhysicalIncreases(Run(config, actions).objects)
    ensures TermsInv(Run(config, actions).terms)
    ensures Punctual(actions) ==> SavedLast(Run(config, actions).terms, Run(config, actions).saved)
  {
    RunInv(config, actions);
    if Punctual(actions) {
      InvInit(config);
      PlaySaved(Init(config), actions);
    }
  }
}
