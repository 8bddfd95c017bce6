/**
  The timestamp oracle of one server and the client's batch splitting, as the code runs them:
  objects whose fields are updated in place. TsoProtocol composes the same decisions over
  many servers.
*/
module TsoServer {
  import opened Options
  import opened TsoClock
  import opened TsoProtocol

  class AtomicObject {
    var physical: int
    var logical: int

    constructor (physical: int)
      ensures this.physical == physical && logical == 0
    {
      this.physical := physical;
      logical := 0;
    }
  }

  /** The two etcd cells the oracle uses. */
  class Etcd {
    var leader: Option<nat>
    var timestamp: Option<int>

    constructor ()
      ensures leader == None && timestamp == None
    {
      leader, timestamp := None, None;
    }
  }

  class Oracle {
    const member: nat
    const interval: int
    const etcd: Etcd
    var ts: AtomicObject?          // null until synced
    var lastSaved: int

    constructor (member: nat, interval: int, etcd: Etcd)
      ensures this.member == member && this.interval == interval && this.etcd == etcd && ts == null
    {
      this.member, this.interval, this.etcd := member, interval, etcd;
      ts, lastSaved := null, 0;
    }

    /** The saved window was computed from the current physical time or an earlier one. */
    ghost predicate Valid()
      reads this, ts
    {
      ts != null ==> lastSaved <= ts.physical + interval && (interval > 0 ==> ts.physical < lastSaved)
    }

    /** A write takes effect only while the leader key still holds this member. */
    ghost predicate Applied(outcome: Outcome)
      reads this, etcd
    {
      etcd.leader == Some(member) && (outcome.Answered? || outcome.Lost?)
    }

    /** saveTimestamp: a write whose answer is lost takes effect, but the server does not learn it. */
    method SaveTimestamp(time: int, outcome: Outcome) returns (ok: bool)
      modifies this`lastSaved, etcd`timestamp
      ensures ok <==> Applied(outcome) && outcome.Answered?
      ensures etcd.timestamp == if Applied(outcome) then Some(time) else old(etcd.timestamp)
      ensures lastSaved == if ok then time else old(lastSaved)
    {
      if outcome.Failed? || outcome.Delayed? {
        return false;
      }
      var succeeded := etcd.leader == Some(member);
      if succeeded {
        etcd.timestamp := Some(time);
      }
      if outcome.Lost? || !succeeded {
        return false;
      }
      lastSaved := time;
      return true;
    }

    /** syncTimestamp: a term starts a guard or more after everything saved before. */
    method SyncTimestamp(now: int, outcome: Outcome) returns (ok: bool)
      requires Valid()
      modifies this, etcd`timestamp
      ensures Valid()
      ensures ok <==> Applied(outcome) && outcome.Answered?
      ensures ok ==> ts != null && fresh(ts) && ts.logical == 0
      ensures ok ==> ts.physical == SyncNext(LoadedTime(old(etcd.timestamp)), now)
      ensures ok ==> ts.physical >= LoadedTime(old(etcd.timestamp)) + GUARD
      ensures ok ==> etcd.timestamp == Some(lastSaved) && lastSaved == ts.physical + interval
      ensures !ok ==> ts == old(ts) && lastSaved == old(lastSaved)
      ensures etcd.timestamp == if Applied(outcome) then Some(SyncNext(LoadedTime(old(etcd.timestamp)), now) + interval)
                                else old(etcd.timestamp)
    {
      var last := LoadedTime(etcd.timestamp);
      var next := now;
      if next - last < GUARD {
        next := last + GUARD;
      }
      ok := SaveTimestamp(next + interval, outcome);
      if ok {
        ts := new AtomicObject(next);
      }
    }

    /** updateTimestamp, with the three constraints its comment lists. */
    method UpdateTimestamp(now: int, outcome: Outcome) returns (ok: bool)
      requires Valid() && ts != null
      modifies this, etcd`timestamp
      ensures Valid() && ts != null
      ensures !ok ==> !(Applied(outcome) && outcome.Answered?) && ts == old(ts) && lastSaved == old(lastSaved)
      ensures ok ==> ts.physical == match TickNext(old(ts.physical), old(ts.logical), now)
                                    case None => old(ts.physical)
                                    case Some(next) => next
      // 1. the physical time only moves forward, by a millisecond or more, and then restarts the counter
      ensures ts != old(ts) ==> fresh(ts) && ts.physical >= old(ts.physical) + MS && ts.logical == 0
      // 2. the saved time only moves forward
      ensures lastSaved != old(lastSaved) ==> lastSaved > old(lastSaved) && etcd.timestamp == Some(lastSaved)
      ensures lastSaved == old(lastSaved) && etcd.timestamp != old(etcd.timestamp) ==>
                !ok && outcome.Lost? && etcd.timestamp.Some? && etcd.timestamp.value > lastSaved
      // 3. the physical time stays below the saved time
      ensures interval > 0 ==> ts.physical < lastSaved
    {
      var prev := ts;
      var jetLag := now - prev.physical;
      var next: int;
      if jetLag > GUARD {
        next := now;
      } else if prev.logical > MAX_LOGICAL / 2 {
        next := prev.physical + MS;
      } else {
        return true;
      }
      if lastSaved - next <= GUARD {
        ok := SaveTimestamp(next + interval, outcome);
        if !ok {
          return;
        }
      }
      ok := true;
      ts := new AtomicObject(next);
    }
  }

  const MAX_RETRY_COUNT: nat := 100

  /** What the first n attempts add to the logical counter of object o. */
  ghost function Added(seen: seq<AtomicObject?>, n: nat, o: AtomicObject, count: nat): nat
    requires n <= |seen|
  {
    if n == 0 then 0 else Added(seen, n - 1, o, count) + if seen[n - 1] == o then count else 0
  }

  /** What other handlers add to object o up to attempt n. */
  ghost function AddedByOthers(seen: seq<AtomicObject?>, others: seq<nat>, n: nat, o: AtomicObject): nat
    requires n <= |seen| == |others|
  {
    if n == 0 then 0 else AddedByOthers(seen, others, n - 1, o) + if seen[n - 1] == o then others[n - 1] else 0
  }

  /**
    getRespTS. seen[n] is the object that attempt n loads: the leader loop may replace it
    while the handler sleeps. others[n] is what other handlers add to it in the meantime. The
    answer comes from the first attempt that stays in the logical range, and every attempt up to
    it adds count to the object it loaded.
  */
  method GetRespTS(count: nat, seen: seq<AtomicObject?>, others: seq<nat>)
    returns (r: Option<(int, int)>, attempts: nat)
    requires |seen| == |others| == MAX_RETRY_COUNT
    modifies set n | 0 <= n < |seen| && seen[n] != null :: seen[n]`logical
    ensures attempts <= |seen|
    ensures count == 0 ==> r == None && attempts == 0
    ensures count > 0 && r.None? ==> attempts == |seen|
    ensures r.Some? ==> attempts > 0 && seen[attempts - 1] != null
    ensures r.Some? ==> r.value == (Millis(seen[attempts - 1].physical), seen[attempts - 1].logical)
    ensures r.Some? ==> seen[attempts - 1].logical < MAX_LOGICAL
    ensures forall n :: 0 <= n < attempts - (if r.Some? then 1 else 0) && seen[n] != null ==>
              seen[n].logical >= MAX_LOGICAL
    ensures forall o: AtomicObject :: o in seen ==>
              o.logical == old(o.logical) + Added(seen, attempts, o, count) + AddedByOthers(seen, others, attempts, o)
  {
    attempts := 0;
    if count == 0 {
      return None, 0;
    }
    for i := 0 to MAX_RETRY_COUNT
      invariant attempts == i
      invariant forall n :: 0 <= n < i && seen[n] != null ==> seen[n].logical >= MAX_LOGICAL
      invariant forall o: AtomicObject :: o in seen ==>
                  o.logical == old(o.logical) + Added(seen, i, o, count) + AddedByOthers(seen, others, i, o)
    {
      var current := seen[i];
      attempts := i + 1;
      if current != null {
        current.logical := current.logical + others[i];
        current.logical := current.logical + count;
        if current.logical < MAX_LOGICAL {
          return Some((Millis(current.physical), current.logical)), i + 1;
        }
      }
    }
    return None, MAX_RETRY_COUNT;
  }

  class TsoRequest {
    var physical: int
    var logical: int
    var failed: bool

    constructor ()
      ensures !failed
    {
      physical, logical, failed := 0, 0, false;
    }
  }

  ghost predicate Distinct(requests: seq<TsoRequest>) {
    forall i, j :: 0 <= i < j < |requests| ==> requests[i] != requests[j]
  }

  /** finishTSORequest */
  method FinishTSORequest(requests: seq<TsoRequest>, physical: int, firstLogical: int, failed: bool)
    requires Distinct(requests)
    modifies requests
    ensures forall i :: 0 <= i < |requests| ==>
              requests[i].physical == physical && requests[i].logical == firstLogical + i &&
                requests[i].failed == failed
  {
    for i := 0 to |requests|
      invariant forall k :: 0 <= k < i ==>
                  requests[k].physical == physical && requests[k].logical == firstLogical + k &&
                    requests[k].failed == failed
    {
      requests[i].physical, requests[i].logical, requests[i].failed := physical, firstLogical + i, failed;
    }
  }

  /** processTSORequests from the response on: request i gets the i-th timestamp of the grant. */
  method ProcessTSORequests(requests: seq<TsoRequest>, resp: Grant) returns (ok: bool)
    requires Distinct(requests)
    modifies requests
    ensures ok <==> resp.count == |requests|
    ensures ok ==> forall i :: 0 <= i < |requests| ==>
              !requests[i].failed && (requests[i].physical, requests[i].logical) == Delivered(resp, i)
    ensures !ok ==> forall i :: 0 <= i < |requests| ==> requests[i].failed
  {
    if resp.count != |requests| {
      FinishTSORequest(requests, 0, 0, true);
      return false;
    }
    var logical := resp.logical - (resp.count - 1);
    FinishTSORequest(requests, resp.physical, logical, false);
    return true;
  }
}
