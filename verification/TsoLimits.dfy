/** The promises of the timestamp oracle hold exactly under the conditions stated here. */
module TsoLimits {
  import opened Options
  import opened TsoClock
  import opened TsoProtocol
  import TsoTerms
  import TsoUnique

  // ---------------------------------------------------------------------------------------
  // Reachable states, built one action at a time.

  /** Some admissible run ends in the state. */
  ghost predicate Reachable(config: map<nat, int>, lo: int, slack: nat, s: State) {
    exists actions :: Admissible(Init(config), actions, lo, slack) && Run(config, actions) == s
  }

  /** No admissible run delivers a timestamp twice. */
  ghost predicate AlwaysUnique(config: map<nat, int>, lo: int, slack: nat) {
    forall actions :: Admissible(Init(config), actions, lo, slack) ==> UniqueTimestamps(Run(config, actions))
  }

  lemma {:induction false} PlaySnoc(s: State, actions: seq<Action>, a: Action, lo: int, slack: nat)
    requires Admissible(s, actions, lo, slack)
    requires ClockFrom(a, lo) && LateWithin(Play(s, actions), a, slack)
    ensures Admissible(s, actions + [a], lo, slack) && Play(s, actions + [a]) == Step(Play(s, actions), a)
    decreases |actions|
  {
    if actions == [] {
      assert ([] + [a])[1..] == [];
      assert Play(Step(s, a), []) == Step(s, a);
    } else {
      PlaySnoc(Step(s, actions[0]), actions[1..], a, lo, slack);
      assert (actions + [a])[1..] == actions[1..] + [a];
    }
  }

  lemma ReachStep(config: map<nat, int>, lo: int, slack: nat, s: State, a: Action) returns (s': State)
    requires Reachable(config, lo, slack, s) && ClockFrom(a, lo) && LateWithin(s, a, slack)
    ensures s' == Step(s, a) && Reachable(config, lo, slack, s')
  {
    var actions :| Admissible(Init(config), actions, lo, slack) && Run(config, actions) == s;
    PlaySnoc(Init(config), actions, a, lo, slack);
    s' := Step(s, a);
    assert Run(config, actions + [a]) == s';
  }

  lemma RepeatReached(config: map<nat, int>, lo: int, slack: nat, s: State)
    requires Reachable(config, lo, slack, s) && !UniqueTimestamps(s)
    ensures !AlwaysUnique(config, lo, slack)
  {
  }

  /** Server i may campaign, and no handler is between its load and its add. */
  predicate Ready(s: State, i: nat) {
    i in s.servers && s.servers[i].phase == Idle && s.servers[i].ts == None && s.leader == None && s.handlers == []
  }

  /** Server i leads and has an object published; no handler is between its load and its add. */
  predicate Leads(s: State, i: nat) {
    && i in s.servers && s.servers[i].phase == Leading && s.leader == Some(i) && s.handlers == []
    && s.servers[i].ts.Some? && s.servers[i].ts.value < |s.objects|
  }

  lemma ReachInit(config: map<nat, int>, lo: int, slack: nat, i: nat) returns (s: State)
    requires i in config
    ensures s == Init(config) && Reachable(config, lo, slack, s)
    ensures Ready(s, i) && s.servers[i].interval == config[i]
  {
    s := Init(config);
    assert Run(config, []) == s;
    assert s.servers[i] == Server(config[i], Idle, 0, None, 0);
  }

  /** Server i wins an election and syncs at the clock. */
  lemma Elect(config: map<nat, int>, lo: int, slack: nat, s: State, i: nat, clock: int) returns (s': State)
    requires Reachable(config, lo, slack, s) && Ready(s, i) && clock >= lo
    ensures Reachable(config, lo, slack, s') && Leads(s', i)
    ensures var next, v := SyncNext(LoadedTime(s.saved), clock), s.servers[i];
            && s'.servers[i] == Server(v.interval, Leading, |s.terms|, Some(|s.objects|), next + v.interval)
            && s'.saved == Some(next + v.interval) && s'.terms == s.terms + [[next + v.interval]]
            && s'.objects == s.objects + [Object(next, 0, |s.terms|)] && s'.grants == s.grants && s'.late == s.late
  {
    s' := ReachStep(config, lo, slack, s, Campaign(i, Answered));
    s' := ReachStep(config, lo, slack, s', Load(i, clock));
    s' := ReachStep(config, lo, slack, s', Save(i, Answered));
    s' := ReachStep(config, lo, slack, s', Publish(i));
  }

  /** A batch of requests is answered from the current object. */
  lemma Ask(config: map<nat, int>, lo: int, slack: nat, s: State, i: nat, count: nat) returns (s': State)
    requires Reachable(config, lo, slack, s) && Leads(s, i) && count > 0
    requires s.objects[s.servers[i].ts.value].logical + count < MAX_LOGICAL
    ensures Reachable(config, lo, slack, s') && Leads(s', i)
    ensures var n := s.servers[i].ts.value;
            var o := s.objects[n];
            && s' == s.(objects := s.objects[n := o.(logical := o.logical + count)],
                        grants := s.grants + [Grant(n, Millis(o.physical), o.logical + count, count, |s.grants|)])
  {
    s' := ReachStep(config, lo, slack, s, Begin(i, count));
    s' := ReachStep(config, lo, slack, s', Finish(0));
  }

  /** A tick that moves the physical time, with the save it may need. */
  lemma MoveOn(config: map<nat, int>, lo: int, slack: nat, s: State, i: nat, clock: int, next: int) returns (s': State)
    requires Reachable(config, lo, slack, s) && Leads(s, i) && clock >= lo
    requires s.servers[i].term < |s.terms|
    requires var o := s.objects[s.servers[i].ts.value]; TickNext(o.physical, o.logical, clock) == Some(next)
    ensures Reachable(config, lo, slack, s') && Leads(s', i)
    ensures s'.servers[i].ts == Some(|s.objects|) && s'.servers[i].interval == s.servers[i].interval
    ensures s'.objects == s.objects + [Object(next, 0, s.servers[i].term)] && s'.grants == s.grants && s'.late == s.late
    ensures !NeedsSave(s.servers[i].lastSaved, next) ==> s'.terms == s.terms
  {
    s' := ReachStep(config, lo, slack, s, Tick(i, clock));
    s' := ReachStep(config, lo, slack, s', Save(i, Answered));
    s' := ReachStep(config, lo, slack, s', Publish(i));
  }

  /** The leader steps down and gives up the key. */
  lemma Retire(config: map<nat, int>, lo: int, slack: nat, s: State, i: nat) returns (s': State)
    requires Reachable(config, lo, slack, s) && Leads(s, i)
    ensures Reachable(config, lo, slack, s') && Ready(s', i)
    ensures s'.servers[i].interval == s.servers[i].interval && s'.saved == s.saved && s'.grants == s.grants
  {
    s' := ReachStep(config, lo, slack, s, StepDown(i));
    s' := ReachStep(config, lo, slack, s', Resign(i));
  }

  /** Server i is elected and syncs, but gives up its save, and resigns: the save stays in flight. */
  lemma Abandon(config: map<nat, int>, lo: int, slack: nat, s: State, i: nat, clock: int) returns (s': State)
    requires Reachable(config, lo, slack, s) && Ready(s, i) && clock >= lo
    ensures Reachable(config, lo, slack, s') && Ready(s', i) && s'.servers[i].interval == s.servers[i].interval
    ensures s'.late == s.late + [Late(i, SyncNext(LoadedTime(s.saved), clock) + s.servers[i].interval)]
    ensures s'.saved == s.saved && s'.terms == s.terms && s'.objects == s.objects && s'.grants == s.grants
  {
    s' := ReachStep(config, lo, slack, s, Campaign(i, Answered));
    s' := ReachStep(config, lo, slack, s', Load(i, clock));
    s' := ReachStep(config, lo, slack, s', Save(i, Delayed));
    s' := ReachStep(config, lo, slack, s', Resign(i));
  }

  /** The millisecond k has this physical time, and one request was given its first timestamp. */
  ghost predicate Given(s: State, k: int) {
    exists g, j: nat :: 0 <= g < |s.grants| && j < s.grants[g].count && Delivered(s.grants[g], j) == (k, 1)
  }

  lemma GivenBy(s: State, g: nat, j: nat)
    requires g < |s.grants| && j < s.grants[g].count && Delivered(s.grants[g], j).1 == 1
    ensures Given(s, s.grants[g].physical)
  {
    assert Delivered(s.grants[g], j) == (s.grants[g].physical, 1);
  }

  lemma GivenTwice(s: State, s': State, g: Grant, k: int)
    requires Given(s, k) && s'.grants == s.grants + [g] && g.count == 1 && g.logical == 1 && g.physical == k
    ensures !UniqueTimestamps(s')
  {
    var a, j: nat :| 0 <= a < |s.grants| && j < s.grants[a].count && Delivered(s.grants[a], j) == (k, 1);
    var b := |s.grants|;
    assert Delivered(s'.grants[a], j) == Delivered(s'.grants[b], 0);
  }

  /** The next term starts in a millisecond of which the first timestamp was given already. */
  lemma NextTermRepeats(config: map<nat, int>, lo: int, slack: nat, s: State, i: nat, clock: int)
    requires Reachable(config, lo, slack, s) && Ready(s, i) && clock >= lo
    requires Given(s, Millis(SyncNext(LoadedTime(s.saved), clock)))
    ensures !AlwaysUnique(config, lo, slack)
  {
    var s1 := Elect(config, lo, slack, s, i, clock);
    var s2 := Ask(config, lo, slack, s1, i, 1);
    GivenTwice(s, s2, s2.grants[|s.grants|], Millis(SyncNext(LoadedTime(s.saved), clock)));
    RepeatReached(config, lo, slack, s2);
  }

  lemma SameMilli(k: nat, x: int)
    requires 0 <= x < MS
    ensures Millis(MS * k + x) == k
  {
  }

  function AtLeastZero(x: int): nat {
    if x < 0 then 0 else x
  }

  // ---------------------------------------------------------------------------------------
  // The runs that deliver a timestamp twice.

  /** A negative save interval lets the next term start again in the same millisecond. */
  lemma NegativeIntervalRepeats(config: map<nat, int>, lo: int, slack: nat, i: nat)
    requires i in config && config[i] < 0
    ensures !AlwaysUnique(config, lo, slack)
  {
    var k := AtLeastZero(lo);
    var c := MS * k;
    var s0 := ReachInit(config, lo, slack, i);
    var s1 := Elect(config, lo, slack, s0, i, c);
    var s2 := Ask(config, lo, slack, s1, i, 1);
    GivenBy(s2, 0, 0);
    var s3 := Retire(config, lo, slack, s2, i);
    SameMilli(k, 0);
    SameMilli(k, SyncNext(c + config[i], c) - c);
    NextTermRepeats(config, lo, slack, s3, i, c);
  }

  /** One term that starts just before the epoch: its first two objects fall into the millisecond of the epoch. */
  lemma AcrossEpoch(config: map<nat, int>, lo: int, slack: nat, i: nat) returns (s: State)
    requires i in config && lo < 0
    ensures Reachable(config, lo, slack, s) && |s.objects| == 2 && s.objects[0].term == s.objects[1].term
    ensures var n := MAX_LOGICAL / 2 + 1; s.grants == [Grant(0, 0, n, n, 0), Grant(1, 0, 1, 1, 1)]
  {
    s := ReachInit(config, lo, slack, i);
    s := Elect(config, lo, slack, s, i, -1);
    s := Ask(config, lo, slack, s, i, MAX_LOGICAL / 2 + 1);
    s := MoveOn(config, lo, slack, s, i, -1, MS - 1);
    s := Ask(config, lo, slack, s, i, 1);
  }

  /** Truncation toward zero makes the epoch condition necessary, whatever the save interval is. */
  lemma EpochNeeded(config: map<nat, int>, lo: int, slack: nat, i: nat)
    requires i in config && lo < 0
    ensures !AlwaysUnique(config, lo, slack)
  {
    var s := AcrossEpoch(config, lo, slack, i);
    assert Delivered(s.grants[0], 0) == (0, 1) == Delivered(s.grants[1], 0);
    RepeatReached(config, lo, slack, s);
  }

  /** A leader whose object is at the end of the used part of its window, with a save in flight that was given up. */
  ghost predicate Overtaken(s: State, i: nat, k: int, slack: nat) {
    && Leads(s, i) && s.late == [Late(i, MS * k - 1)] && Given(s, k)
    && s.terms != [] && MS * k - 1 + slack >= Ceiling(s.terms[|s.terms| - 1])
  }

  lemma OvertakenRepeats(config: map<nat, int>, lo: int, slack: nat, s: State, i: nat, k: nat, clock: int)
    requires Reachable(config, lo, slack, s) && Overtaken(s, i, k, slack) && lo <= clock < MS * k
    ensures !AlwaysUnique(config, lo, slack)
  {
    var s1 := ReachStep(config, lo, slack, s, Deliver(0));
    assert s1.saved == Some(MS * k - 1);
    var s2 := Retire(config, lo, slack, s1, i);
    SameMilli(k, MS - 1);
    NextTermRepeats(config, lo, slack, s2, i, clock);
  }

  /** Short windows: the object is the first of its term. */
  lemma ShortWindow(config: map<nat, int>, lo: int, slack: nat, s: State, i: nat, k: nat) returns (s': State)
    requires Reachable(config, lo, slack, s) && Ready(s, i) && s.saved == None && s.terms == [] && s.objects == []
    requires s.grants == []
    requires s.late == [Late(i, MS * k - 1)] && MS * k >= lo && slack > s.servers[i].interval
    ensures Reachable(config, lo, slack, s') && Overtaken(s', i, k, slack)
  {
    s' := Elect(config, lo, slack, s, i, MS * k);
    s' := Ask(config, lo, slack, s', i, 1);
    SameMilli(k, 0);
    GivenBy(s', 0, 0);
  }

  /** Long windows: the object is the last one that the window takes without a save. */
  lemma LongWindow(config: map<nat, int>, lo: int, slack: nat, s: State, i: nat, k: nat) returns (s': State)
    requires Reachable(config, lo, slack, s) && Ready(s, i) && s.saved == None && s.terms == [] && s.objects == []
    requires s.grants == []
    requires s.late == [Late(i, MS * k - 1)] && s.servers[i].interval > 2 * GUARD && slack > GUARD + 1
    requires MS * k - s.servers[i].interval + GUARD + 1 >= AtLeastZero(lo)
    ensures Reachable(config, lo, slack, s') && Overtaken(s', i, k, slack)
  {
    var first := MS * k - s.servers[i].interval + GUARD + 1;
    var s1 := Elect(config, lo, slack, s, i, first);
    var s2 := Ask(config, lo, slack, s1, i, MAX_LOGICAL / 2 + 1);
    var s3 := MoveOn(config, lo, slack, s2, i, MS * k, MS * k);
    s' := Ask(config, lo, slack, s3, i, 1);
    SameMilli(k, 0);
    GivenBy(s', 1, 0);
  }

  /** A late save that lowers the saved time by more than a margin lets the next term repeat a timestamp. */
  lemma LateSaveRepeats(config: map<nat, int>, lo: int, slack: nat, i: nat)
    requires i in config && config[i] >= 0 && slack > Margin(config[i])
    ensures !AlwaysUnique(config, lo, slack)
  {
    var interval := config[i];
    var k := AtLeastZero(lo) + interval + 1;
    var clock := MS * k - interval - 1;
    assert clock >= AtLeastZero(lo);
    var s0 := ReachInit(config, lo, slack, i);
    var s1 := Abandon(config, lo, slack, s0, i, clock);
    assert s1.late == [Late(i, MS * k - 1)];
    var s2 := s1;
    if interval <= 2 * GUARD {
      s2 := ShortWindow(config, lo, slack, s1, i, k);
    } else {
      s2 := LongWindow(config, lo, slack, s1, i, k);
    }
    OvertakenRepeats(config, lo, slack, s2, i, k, clock);
  }

  // ---------------------------------------------------------------------------------------
  // The exact conditions.

  /** Without servers nothing is published or granted. */
  lemma {:induction false} NoServers(s: State, actions: seq<Action>)
    requires s.servers == map[] && s.objects == [] && s.grants == []
    ensures Play(s, actions).grants == []
    decreases |actions|
  {
    if actions != [] {
      NoServers(Step(s, actions[0]), actions[1..]);
    }
  }

  /**
    Uniqueness over all runs with clocks from lo on, in which late saves lower the saved time by
    at most slack: exactly when no clock reads a time before the epoch and the slack is within the
    margin of every server.
  */
  lemma UniqueIff(config: map<nat, int>, lo: int, slack: nat)
    ensures AlwaysUnique(config, lo, slack)
            <==> config == map[] || (lo >= 0 && forall i :: i in config ==> slack <= Margin(config[i]))
  {
    if config == map[] {
      forall actions ensures UniqueTimestamps(Run(config, actions)) {
        NoServers(Init(config), actions);
      }
    } else if lo < 0 {
      var i :| i in config;
      EpochNeeded(config, lo, slack, i);
    } else if i :| i in config && slack > Margin(config[i]) {
      if config[i] < 0 {
        NegativeIntervalRepeats(config, lo, slack, i);
      } else {
        LateSaveRepeats(config, lo, slack, i);
      }
    } else {
      forall actions | Admissible(Init(config), actions, lo, slack) ensures UniqueTimestamps(Run(config, actions)) {
        FromEpoch(Init(config), actions, lo, slack);
        TsoUnique.UniqueRun(config, actions, slack);
      }
    }
  }

  lemma {:induction false} FromEpoch(s: State, actions: seq<Action>, lo: int, slack: nat)
    requires Admissible(s, actions, lo, slack) && lo >= 0
    ensures Admissible(s, actions, 0, slack)
    decreases |actions|
  {
    if actions != [] {
      FromEpoch(Step(s, actions[0]), actions[1..], lo, slack);
    }
  }

  /**
    With clocks after the epoch and no late save lowering the saved time: exactly when no save
    interval is negative.
  */
  lemma UniqueIffNonNegative(config: map<nat, int>)
    ensures AlwaysUnique(config, 0, 0) <==> forall i :: i in config ==> config[i] >= 0
  {
    UniqueIff(config, 0, 0);
    assert forall i :: i in config ==> (0 <= Margin(config[i]) <==> config[i] >= 0);
  }

  /** No run with clocks from lo on answers requests of one term out of order. */
  ghost predicate AlwaysOrdered(config: map<nat, int>, lo: int) {
    forall actions :: ClocksFrom(actions, lo) ==> Ordered(Run(config, actions))
  }

  /** Order within terms, over all runs with clocks from lo on: exactly when no clock reads a time before the epoch. */
  lemma OrderedIff(config: map<nat, int>, lo: int)
    ensures AlwaysOrdered(config, lo) <==> config == map[] || lo >= 0
  {
    if config == map[] {
      forall actions ensures Ordered(Run(config, actions)) {
        NoServers(Init(config), actions);
      }
    } else if lo < 0 {
      var i :| i in config;
      OrderNeedsEpoch(config, lo, i);
    } else {
      forall actions | ClocksFrom(actions, lo) ensures Ordered(Run(config, actions)) {
        assert forall n :: 0 <= n < |actions| && ClockFrom(actions[n], lo) ==> ClockFrom(actions[n], 0);
        TsoUnique.TermOrder(config, actions);
      }
    }
  }

  lemma OrderNeedsEpoch(config: map<nat, int>, lo: int, i: nat)
    requires i in config && lo < 0
    ensures !AlwaysOrdered(config, lo)
  {
    var s := AcrossEpoch(config, lo, 0, i);
    assert Delivered(s.grants[0], 0) == (0, 1) == Delivered(s.grants[1], 0);
    assert SameTerm(s, s.grants[0], s.grants[1]) && !Ordered(s);
    var actions :| Admissible(Init(config), actions, lo, 0) && Run(config, actions) == s;
    TsoUnique.AdmissibleClocks(Init(config), actions, lo, 0);
  }

  /** The published physical time of every leader is below the time it saved last. */
  ghost predicate BelowSaved(s: State) {
    forall i :: i in s.servers && s.servers[i].ts.Some? && s.servers[i].ts.value < |s.objects|
      ==> s.objects[s.servers[i].ts.value].physical < s.servers[i].lastSaved
  }

  ghost predicate IntervalsPositive(servers: map<nat, Server>) {
    forall i :: i in servers ==> servers[i].interval > 0
  }

  lemma {:induction false} PlayIntervals(s: State, actions: seq<Action>)
    requires IntervalsPositive(s.servers)
    ensures IntervalsPositive(Play(s, actions).servers)
    decreases |actions|
  {
    if actions != [] {
      IntervalsStep(s, actions[0]);
      PlayIntervals(Step(s, actions[0]), actions[1..]);
    }
  }

  lemma IntervalsStep(s: State, a: Action)
    requires IntervalsPositive(s.servers)
    ensures IntervalsPositive(Step(s, a).servers)
  {
  }

  lemma BelowSavedState(s: State)
    requires Inv(s) && IntervalsPositive(s.servers)
    ensures BelowSaved(s)
  {
    forall i | i in s.servers && s.servers[i].ts.Some? && s.servers[i].ts.value < |s.objects|
      ensures s.objects[s.servers[i].ts.value].physical < s.servers[i].lastSaved
    {
      assert ServerInv(s.terms, s.objects, s.servers[i]);
    }
  }

  lemma NotBelowSaved(config: map<nat, int>, i: nat)
    requires i in config && config[i] <= 0
    ensures exists actions :: !BelowSaved(Run(config, actions))
  {
    var s := ReachInit(config, 0, 0, i);
    s := Elect(config, 0, 0, s, i, 0);
    assert s.servers[i].ts == Some(0);
    assert !BelowSaved(s);
  }

  /** Physical below saved in every reachable state: exactly when every save interval is positive. */
  lemma BelowSavedIffPositive(config: map<nat, int>)
    ensures (forall actions :: BelowSaved(Run(config, actions)))
            <==> (forall i :: i in config ==> config[i] > 0)
  {
    if i :| i in config && config[i] <= 0 {
      NotBelowSaved(config, i);
    } else {
      forall actions ensures BelowSaved(Run(config, actions)) {
        PlayIntervals(Init(config), actions);
        TsoTerms.RunInv(config, actions);
        BelowSavedState(Run(config, actions));
      }
    }
  }
}
