/**
  The 2Q cache: new entries go to a recent list, entries used again to a frequent list, and keys
  pushed out of the recent list are remembered as ghosts.
*/
module TwoQueue {
  import opened Options
  import opened Lru

  datatype Queue<V> = Queue(size: nat, recentSize: nat, recent: State<V>, frequent: State<V>, ghosts: State<()>)

  /** newTwoQueue; the ratios are a quarter and a half, rounded down. */
  function New<V>(size: nat): Queue<V> {
    Queue(size, size / 4, State(size, [], map[]), State(size, [], map[]), State(size / 2, [], map[]))
  }

  function Len<V>(q: Queue<V>): nat {
    |q.recent.ll| + |q.frequent.ll|
  }

  /** The entries a reader can hit. */
  function Live<V>(q: Queue<V>): map<nat, V> {
    q.recent.cache + q.frequent.cache
  }

  /** ensureSpace. */
  function Space<V>(q: Queue<V>, isGhost: bool): Queue<V> {
    var recentLen := |q.recent.ll|;
    if Len(q) < q.size then q
    else if recentLen > 0 && (recentLen > q.recentSize || (recentLen == q.recentSize && !isGhost)) then
      q.(recent := AfterOldest(q.recent), ghosts := AfterPut(q.ghosts, q.recent.ll[recentLen - 1], ()))
    else
      q.(frequent := AfterOldest(q.frequent))
  }

  function PutKey<V>(q: Queue<V>, key: nat, value: V): Queue<V> {
    if key in q.frequent.cache then
      q.(frequent := AfterPut(q.frequent, key, value))
    else if key in q.recent.cache then
      q.(recent := AfterRemove(q.recent, key), frequent := AfterPut(q.frequent, key, value))
    else if key in q.ghosts.cache then
      var s := Space(q, true);
      s.(ghosts := AfterRemove(s.ghosts, key), frequent := AfterPut(s.frequent, key, value))
    else
      var s := Space(q, false);
      s.(recent := AfterPut(s.recent, key, value))
  }

  function GetKey<V>(q: Queue<V>, key: nat): Queue<V> {
    if key in q.frequent.cache then
      q.(frequent := AfterGet(q.frequent, key))
    else if key in q.recent.cache then
      q.(recent := AfterRemove(q.recent, key), frequent := AfterPut(q.frequent, key, q.recent.cache[key]))
    else q
  }

  function RemoveKey<V>(q: Queue<V>, key: nat): Queue<V> {
    if key in q.frequent.cache then q.(frequent := AfterRemove(q.frequent, key))
    else if key in q.recent.cache then q.(recent := AfterRemove(q.recent, key))
    else q.(ghosts := AfterRemove(q.ghosts, key))
  }

  // ---------------------------------------------------------------------------------------
  // What every operation keeps

  ghost predicate Disjoint<V>(q: Queue<V>) {
    forall k ::
      && !(k in q.recent.cache && k in q.frequent.cache)
      && !(k in q.recent.cache && k in q.ghosts.cache)
      && !(k in q.frequent.cache && k in q.ghosts.cache)
  }

  ghost predicate Inv<V>(q: Queue<V>) {
    && Sound(q.recent) && Sound(q.frequent) && Sound(q.ghosts)
    && q.recent.maxCount == q.frequent.maxCount == q.size
    && q.ghosts.maxCount == q.size / 2
    && q.recentSize == q.size / 4
    && Len(q) <= q.size
    && Disjoint(q)
  }

  lemma OldestGoes<V>(l: State<V>)
    requires Sound(l) && l.ll != []
    ensures Sound(AfterOldest(l))
    ensures var victim := l.ll[|l.ll| - 1];
            && victim in l.cache
            && AfterOldest(l).cache == l.cache - {victim}
            && |AfterOldest(l).ll| == |l.ll| - 1
  {
    RemoveOldestSound(l);
    ElemsAre(l.ll);
  }

  /** One entry is lost. */
  ghost predicate Loses<V>(was: map<nat, V>, now: map<nat, V>, victim: nat) {
    victim in was && now == was - {victim}
  }

  /** The oldest recent entry becomes a ghost. */
  lemma EvictRecent<V>(q: Queue<V>)
    requires Inv(q) && q.recent.ll != []
    ensures var victim := q.recent.ll[|q.recent.ll| - 1];
            var s := q.(recent := AfterOldest(q.recent), ghosts := AfterPut(q.ghosts, victim, ()));
            && Inv(s) && Len(s) == Len(q) - 1
            && Loses(Live(q), Live(s), victim)
            && s.ghosts.cache.Keys <= q.ghosts.cache.Keys + {victim}
  {
    OldestGoes(q.recent);
    PutSound(q.ghosts, q.recent.ll[|q.recent.ll| - 1], ());
  }

  /** The oldest frequent entry is dropped. */
  lemma EvictFrequent<V>(q: Queue<V>)
    requires Inv(q) && q.frequent.ll != []
    ensures var victim := q.frequent.ll[|q.frequent.ll| - 1];
            var s := q.(frequent := AfterOldest(q.frequent));
            && Inv(s) && Len(s) == Len(q) - 1
            && Loses(Live(q), Live(s), victim)
  {
    OldestGoes(q.frequent);
  }

  /** What ensureSpace takes away from a full cache. */
  function Victim<V>(q: Queue<V>, isGhost: bool): nat {
    var recentLen := |q.recent.ll|;
    if recentLen > 0 && (recentLen > q.recentSize || (recentLen == q.recentSize && !isGhost)) then
      q.recent.ll[recentLen - 1]
    else if q.frequent.ll != [] then q.frequent.ll[|q.frequent.ll| - 1]
    else 0
  }

  /** ensureSpace leaves room, and takes at most one entry for it, none if there was room. */
  lemma SpaceInv<V>(q: Queue<V>, isGhost: bool)
    requires Inv(q) && q.size >= 1
    ensures Inv(Space(q, isGhost)) && Len(Space(q, isGhost)) < q.size && Space(q, isGhost).size == q.size
    ensures if Len(q) < q.size then Space(q, isGhost) == q
            else Loses(Live(q), Live(Space(q, isGhost)), Victim(q, isGhost))
    ensures Space(q, isGhost).ghosts.cache.Keys <= q.ghosts.cache.Keys + Live(q).Keys
  {
    var recentLen := |q.recent.ll|;
    if Len(q) >= q.size {
      if recentLen > 0 && (recentLen > q.recentSize || (recentLen == q.recentSize && !isGhost)) {
        EvictRecent(q);
      } else {
        EvictFrequent(q);
      }
    }
  }

  /** A recent entry that is put or got again becomes frequent. */
  lemma Promote<V>(q: Queue<V>, key: nat, value: V)
    requires Inv(q) && key in q.recent.cache
    ensures var s := q.(recent := AfterRemove(q.recent, key), frequent := AfterPut(q.frequent, key, value));
            Inv(s) && Live(s) == Live(q)[key := value]
  {
    RemoveSound(q.recent, key);
    PutSound(q.frequent, key, value);
    RecentNotEmpty(q.recent, key);
  }

  lemma RecentNotEmpty<V>(l: State<V>, key: nat)
    requires Sound(l) && key in l.cache
    ensures l.ll != []
  {
  }

  /** A frequent entry is updated in place. */
  lemma Refresh<V>(q: Queue<V>, key: nat, value: V)
    requires Inv(q) && key in q.frequent.cache
    ensures var s := q.(frequent := AfterPut(q.frequent, key, value));
            Inv(s) && Live(s) == Live(q)[key := value]
  {
    PutSound(q.frequent, key, value);
  }

  /** A ghost comes back as a frequent entry. */
  lemma Revive<V>(q: Queue<V>, key: nat, value: V)
    requires Inv(q) && Len(q) < q.size && key !in Live(q)
    ensures var s := q.(ghosts := AfterRemove(q.ghosts, key), frequent := AfterPut(q.frequent, key, value));
            Inv(s) && Live(s) == Live(q)[key := value]
  {
    RemoveSound(q.ghosts, key);
    PutSound(q.frequent, key, value);
  }

  /** An unknown key becomes a recent entry. */
  lemma Admit<V>(q: Queue<V>, key: nat, value: V)
    requires Inv(q) && Len(q) < q.size && key !in Live(q) && key !in q.ghosts.cache
    ensures var s := q.(recent := AfterPut(q.recent, key, value));
            Inv(s) && Live(s) == Live(q)[key := value]
  {
    PutSound(q.recent, key, value);
  }

  /**
    Putting keeps the invariant and makes the value live; an entry is lost only if the cache was full
    without the key.
  */
  lemma PutInv<V>(q: Queue<V>, key: nat, value: V)
    requires Inv(q) && q.size >= 1
    ensures Inv(PutKey(q, key, value)) && PutKey(q, key, value).size == q.size
    ensures if key in Live(q) || Len(q) < q.size then Live(PutKey(q, key, value)) == Live(q)[key := value]
            else var victim := Victim(q, key in q.ghosts.cache);
                 victim in Live(q) && Live(PutKey(q, key, value)) == (Live(q) - {victim})[key := value]
  {
    if key in q.frequent.cache {
      Refresh(q, key, value);
    } else if key in q.recent.cache {
      Promote(q, key, value);
    } else if key in q.ghosts.cache {
      SpaceInv(q, true);
      Revive(Space(q, true), key, value);
    } else {
      SpaceInv(q, false);
      Admit(Space(q, false), key, value);
    }
  }

  lemma GetInv<V>(q: Queue<V>, key: nat)
    requires Inv(q)
    ensures Inv(GetKey(q, key)) && Live(GetKey(q, key)) == Live(q)
  {
    if key in q.frequent.cache {
      FrontSound(q.frequent, key, q.frequent.cache[key]);
      assert q.frequent.cache[key := q.frequent.cache[key]] == q.frequent.cache;
    } else if key in q.recent.cache {
      Promote(q, key, q.recent.cache[key]);
      assert Live(q)[key := q.recent.cache[key]] == Live(q);
    }
  }

  lemma RemoveInv<V>(q: Queue<V>, key: nat)
    requires Inv(q)
    ensures Inv(RemoveKey(q, key)) && Live(RemoveKey(q, key)) == Live(q) - {key}
  {
    RemoveSound(q.frequent, key);
    RemoveSound(q.recent, key);
    RemoveSound(q.ghosts, key);
  }

  // ---------------------------------------------------------------------------------------
  // Every run

  datatype Op<V> = PutOp(key: nat, value: V) | GetOp(key: nat) | RemoveOp(key: nat)

  function Play<V>(q: Queue<V>, op: Op<V>): Queue<V> {
    match op
    case PutOp(key, value) => PutKey(q, key, value)
    case GetOp(key) => GetKey(q, key)
    case RemoveOp(key) => RemoveKey(q, key)
  }

  function Run<V>(size: nat, ops: seq<Op<V>>): Queue<V>
    decreases |ops|
  {
    if ops == [] then New(size) else Play(Run(size, ops[..|ops| - 1]), ops[|ops| - 1])
  }

  /** The last value put for a key that was not removed since. */
  function Last<V>(ops: seq<Op<V>>, key: nat): Option<V>
    decreases |ops|
  {
    if ops == [] then None
    else
      var op, before := ops[|ops| - 1], Last(ops[..|ops| - 1], key);
      match op
      case PutOp(k, value) => if k == key then Some(value) else before
      case GetOp(_) => before
      case RemoveOp(k) => if k == key then None else before
  }

  /** A hit returns the last value put for the key. */
  ghost predicate Truthful<V>(q: Queue<V>, ops: seq<Op<V>>) {
    forall k :: k in Live(q) ==> Last(ops, k) == Some(Live(q)[k])
  }

  lemma {:induction false} RunInv<V>(size: nat, ops: seq<Op<V>>)
    requires size >= 1
    ensures Inv(Run(size, ops)) && Run(size, ops).size == size && Truthful(Run(size, ops), ops)
    decreases |ops|
  {
    if ops == [] {
      var q: Queue<V> := New(size);
      assert Live(q) == map[];
    } else {
      var before, op := ops[..|ops| - 1], ops[|ops| - 1];
      RunInv(size, before);
      PlayInv(Run(size, before), op);
      assert forall k :: Last(ops, k) == match op
                         case PutOp(key, value) => if key == k then Some(value) else Last(before, k)
                         case GetOp(_) => Last(before, k)
                         case RemoveOp(key) => if key == k then None else Last(before, k);
    }
  }

  /** One operation changes what is live as it says; it may lose entries but never invents one. */
  lemma PlayInv<V>(q: Queue<V>, op: Op<V>)
    requires Inv(q) && q.size >= 1
    ensures Inv(Play(q, op)) && Play(q, op).size == q.size
    ensures forall k :: k in Live(Play(q, op)) ==>
              if op.PutOp? && k == op.key then Live(Play(q, op))[k] == op.value
              else k in Live(q) && Live(Play(q, op))[k] == Live(q)[k] && !(op.RemoveOp? && k == op.key)
  {
    match op
    case PutOp(key, value) => PutInv(q, key, value);
    case GetOp(key) => GetInv(q, key);
    case RemoveOp(key) => RemoveInv(q, key);
  }

  /** Puts of the keys below k. */
  function Puts(k: nat): seq<Op<int>> {
    if k == 0 then [] else Puts(k - 1) + [PutOp(k - 1, 7)]
  }

  /** A cache of size zero or one after k puts: one entry, and a ghost for every other key. */
  ghost predicate AllGhosts(q: Queue<int>, k: nat)
    requires k >= 1
  {
    && q.size <= 1 && q.recentSize == 0 && q.ghosts.maxCount == 0
    && q.recent == State(q.size, [k - 1], map[k - 1 := 7])
    && q.frequent == State(q.size, [], map[])
    && |q.ghosts.ll| == k - 1
    && (forall x :: x in q.ghosts.cache ==> x < k - 1)
  }

  lemma OneMoreGhost(q: Queue<int>, k: nat) returns (q': Queue<int>)
    requires k >= 1 && AllGhosts(q, k)
    ensures q' == PutKey(q, k, 7) && AllGhosts(q', k + 1)
  {
    var s := Space(q, false);
    assert s.recent.ll == [] && s.recent.cache == map[];
    assert s.ghosts.ll == [k - 1] + q.ghosts.ll;
    q' := PutKey(q, k, 7);
  }

  lemma FirstPut(size: nat) returns (q: Queue<int>)
    requires size <= 1
    ensures q == PutKey(New(size), 0, 7) && AllGhosts(q, 1)
  {
    q := PutKey(New(size), 0, 7);
  }

  lemma RunPuts(size: nat, k: nat)
    ensures Run(size, Puts(k + 1)) == PutKey(Run(size, Puts(k)), k, 7)
  {
    PutsLength(k);
    var ops := Puts(k + 1);
    assert ops[..k] == Puts(k) && ops[k] == PutOp(k, 7);
  }

  lemma {:induction false} SmallCache(size: nat, k: nat) returns (q: Queue<int>)
    requires size <= 1 && k >= 1
    ensures q == Run(size, Puts(k)) && AllGhosts(q, k)
  {
    RunPuts(size, k - 1);
    if k == 1 {
      q := FirstPut(size);
    } else {
      var before := SmallCache(size, k - 1);
      q := OneMoreGhost(before, k - 1);
    }
  }

  lemma {:induction false} PutsLength(k: nat)
    ensures |Puts(k)| == k
  {
    if k > 0 {
      PutsLength(k - 1);
    }
  }

  /** The cache holds at most size entries in every run, exactly if size is not zero. */
  lemma LiveBoundedIff(size: nat)
    ensures (forall ops: seq<Op<int>> :: Len(Run(size, ops)) <= size) <==> size >= 1
  {
    if size == 0 {
      var q := SmallCache(0, 1);
      assert Len(q) == 1;
    } else {
      forall ops: seq<Op<int>> ensures Len(Run(size, ops)) <= size {
        RunInv(size, ops);
      }
    }
  }

  /** No run has more ghosts than bound. */
  ghost predicate GhostsWithin(size: nat, bound: nat) {
    forall ops: seq<Op<int>> :: |Run(size, ops).ghosts.ll| <= bound
  }

  /**
    The ghosts stay within their half; if that half is zero, which means no limit, they stay within no
    bound at all.
  */
  lemma GhostsBoundedIff(size: nat, bound: nat)
    ensures if size >= 2 then GhostsWithin(size, size / 2) else !GhostsWithin(size, bound)
  {
    if size <= 1 {
      var q := SmallCache(size, bound + 2);
      assert |q.ghosts.ll| == bound + 1;
    } else {
      forall ops: seq<Op<int>> ensures |Run(size, ops).ghosts.ll| <= size / 2 {
        RunInv(size, ops);
      }
    }
  }

  // ---------------------------------------------------------------------------------------
  // The cache object

  class TwoQueue<V> {
    const size: nat
    const recentSize: nat
    const recent: LRU<V>
    const frequent: LRU<V>
    const ghosts: LRU<()>

    ghost predicate Valid()
      reads recent, frequent, ghosts
    {
      && recent != frequent && (recent as object) != ghosts && (frequent as object) != ghosts
      && Sound(recent.Value()) && Sound(frequent.Value()) && Sound(ghosts.Value())
    }

    ghost function Value(): Queue<V>
      reads recent, frequent, ghosts
    {
      Queue(size, recentSize, recent.Value(), frequent.Value(), ghosts.Value())
    }

    constructor (size: nat)
      ensures Valid() && Value() == New(size)
      ensures fresh(recent) && fresh(frequent) && fresh(ghosts)
    {
      this.size := size;
      recentSize := size / 4;
      recent := new LRU(size);
      frequent := new LRU(size);
      ghosts := new LRU(size / 2);
    }

    method EnsureSpace(isGhost: bool)
      requires Valid()
      modifies recent, frequent, ghosts
      ensures Valid() && Value() == Space(old(Value()), isGhost)
    {
      var recentLen, frequentLen := |recent.ll|, |frequent.ll|;
      if recentLen + frequentLen < size {
        return;
      }
      RemoveOldestSound(recent.Value());
      RemoveOldestSound(frequent.Value());
      if recentLen > 0 && (recentLen > recentSize || (recentLen == recentSize && !isGhost)) {
        var k := recent.GetAndRemoveOldest();
        ghosts.Put(k.value, ());
        return;
      }
      frequent.RemoveOldest();
    }

    method Put(key: nat, value: V)
      requires Valid()
      modifies recent, frequent, ghosts
      ensures Valid() && Value() == PutKey(old(Value()), key, value)
    {
      if key in frequent.cache {
        frequent.Put(key, value);
        return;
      }
      if key in recent.cache {
        var _ := recent.Remove(key);
        frequent.Put(key, value);
        return;
      }
      if key in ghosts.cache {
        EnsureSpace(true);
        var _ := ghosts.Remove(key);
        frequent.Put(key, value);
        return;
      }
      EnsureSpace(false);
      recent.Put(key, value);
    }

    method Get(key: nat) returns (r: Option<V>)
      requires Valid()
      modifies recent, frequent
      ensures Valid() && Value() == GetKey(old(Value()), key)
      ensures r == if key in old(Live(Value())) then Some(old(Live(Value()))[key]) else None
    {
      r := frequent.Get(key);
      if r.Some? {
        return;
      }
      r := recent.Peek(key);
      if r.Some? {
        var _ := recent.Remove(key);
        frequent.Put(key, r.value);
      }
    }

    method Peek(key: nat) returns (r: Option<V>)
      ensures r == if key in Live(Value()) then Some(Live(Value())[key]) else None
    {
      r := frequent.Peek(key);
      if r.None? {
        r := recent.Peek(key);
      }
    }

    method Remove(key: nat)
      requires Valid()
      modifies recent, frequent, ghosts
      ensures Valid() && Value() == RemoveKey(old(Value()), key)
    {
      var ok := frequent.Remove(key);
      if ok {
        return;
      }
      ok := recent.Remove(key);
      if ok {
        return;
      }
      ok := ghosts.Remove(key);
    }
  }
}
