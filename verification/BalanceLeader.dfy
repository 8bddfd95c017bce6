/**
  Leader balancing: which transfers shouldBalance lets through, and the quantity they lower.
  Sizes and weights are real where the code uses float64; no operator is in flight.
*/
module BalanceLeader {
  const MIN_WEIGHT: real := 0.000001
  const ADJUST_RATIO: real := 0.005
  const MIN_TOLERANT_SIZE_RATIO: real := 1.0

  /** The weight that divides: not below a minimum. */
  function Weight(w: real): (r: real)
    ensures r >= MIN_WEIGHT && r >= w
  {
    if w > MIN_WEIGHT then w else MIN_WEIGHT
  }

  /** LeaderScore. */
  function LeaderScore(size: int, weight: real, delta: int): real {
    (size + delta) as real / Weight(weight)
  }

  /** adjustTolerantRatio: without a configured ratio, it grows with the fullest store. */
  method AdjustTolerantRatio(configured: real, regionCounts: seq<nat>) returns (ratio: real)
    ensures configured != 0.0 ==> ratio == configured
    ensures configured == 0.0 ==>
              && ratio >= MIN_TOLERANT_SIZE_RATIO
              && (forall i :: 0 <= i < |regionCounts| ==> ratio >= regionCounts[i] as real * ADJUST_RATIO)
              && (ratio == MIN_TOLERANT_SIZE_RATIO ||
                  exists i :: 0 <= i < |regionCounts| && ratio == regionCounts[i] as real * ADJUST_RATIO)
  {
    ratio := configured;
    if ratio == 0.0 {
      var maxRegionCount := 0.0;
      for i := 0 to |regionCounts|
        invariant maxRegionCount >= 0.0
        invariant forall j :: 0 <= j < i ==> maxRegionCount >= regionCounts[j] as real
        invariant maxRegionCount == 0.0 || exists j :: 0 <= j < i && maxRegionCount == regionCounts[j] as real
      {
        if maxRegionCount < regionCounts[i] as real {
          maxRegionCount := regionCounts[i] as real;
        }
      }
      ratio := maxRegionCount * ADJUST_RATIO;
      if ratio < MIN_TOLERANT_SIZE_RATIO {
        ratio := MIN_TOLERANT_SIZE_RATIO;
      }
    }
  }

  /** The size that is tried on both stores: at least the average, times the ratio, truncated. */
  function Tried(size: nat, average: nat, ratio: real): int {
    ((if size < average then average else size) as real * ratio).Floor
  }

  /** shouldBalance for leaders: after the move, the source would still score higher. */
  predicate ShouldBalance(source: int, sourceWeight: real, target: int, targetWeight: real, tried: int) {
    LeaderScore(source, sourceWeight, -tried) > LeaderScore(target, targetWeight, tried)
  }

  /** With a ratio of at least one, what is tried covers the region. */
  lemma TriedCovers(size: nat, average: nat, ratio: real)
    requires ratio >= 1.0
    ensures Tried(size, average, ratio) >= size
  {
    var big := if size < average then average else size;
    assert big as real * ratio >= big as real;
  }

  // ---------------------------------------------------------------------------------------
  // One transfer

  /** What a store adds to the potential. */
  function Term(size: int, w: real): real
    requires w > 0.0
  {
    (size * size) as real / w
  }

  function Pair(a: int, wa: real, b: int, wb: real): real
    requires wa > 0.0 && wb > 0.0
  {
    Term(a, wa) + Term(b, wb)
  }

  lemma Divide(x: real, y: real, w: real)
    requires w > 0.0
    ensures x / w - y / w == (x - y) / w
    ensures x > y ==> x / w > y / w
    ensures x >= y ==> x / w >= y / w
  {
  }

  lemma Squares(size: int, z: int)
    ensures size * size - (size - z) * (size - z) == z * (2 * size - z)
    ensures (size + z) * (size + z) - size * size == z * (2 * size + z)
  {
  }

  lemma TermMoves(size: int, z: int, w: real)
    requires w > 0.0
    ensures Term(size, w) - Term(size - z, w) == z as real * ((2 * size - z) as real / w)
    ensures Term(size + z, w) - Term(size, w) == z as real * ((2 * size + z) as real / w)
  {
    Squares(size, z);
    TermDiffers(size, size - z, z, 2 * size - z, w);
    TermDiffers(size + z, size, z, 2 * size + z, w);
  }

  lemma TermDiffers(x: int, y: int, z: int, m: int, w: real)
    requires w > 0.0 && x * x - y * y == z * m
    ensures Term(x, w) - Term(y, w) == z as real * (m as real / w)
  {
    Divide((x * x) as real, (y * y) as real, w);
    MulDivide(z, m, w);
  }

  /** The fall of the potential when a region of size z moves from one store to another. */
  function Fall(source: int, ws: real, target: int, wt: real, z: int): real
    requires ws > 0.0 && wt > 0.0
  {
    z as real * ((2 * source - z) as real / ws - (2 * target + z) as real / wt)
  }

  lemma Distribute(z: real, x: real, y: real)
    ensures z * x - z * y == z * (x - y)
  {
  }

  lemma PairFalls(source: int, ws: real, target: int, wt: real, z: int)
    requires ws > 0.0 && wt > 0.0
    ensures Pair(source, ws, target, wt) - Pair(source - z, ws, target + z, wt) == Fall(source, ws, target, wt, z)
  {
    TermMoves(source, z, ws);
    TermMoves(target, z, wt);
    Distribute(z as real, (2 * source - z) as real / ws, (2 * target + z) as real / wt);
  }

  lemma MulDivide(z: int, x: int, w: real)
    requires w > 0.0
    ensures (z * x) as real / w == z as real * (x as real / w)
  {
    assert (z * x) as real == z as real * x as real;
  }

  /** Twice the score, and scores apart by a size. */
  lemma DoubleScore(size: int, tried: int, w: real)
    requires w > 0.0
    ensures (2 * (size + tried)) as real / w == 2.0 * ((size + tried) as real / w)
  {
    MulDivide(2, size + tried, w);
  }

  /**
    If the tried size covers half of the region, a transfer that passes lowers the potential, or keeps
    it for an empty region.
  */
  lemma HalfCoveredFalls(source: int, sourceWeight: real, target: int, targetWeight: real, z: nat, tried: int)
    requires ShouldBalance(source, sourceWeight, target, targetWeight, tried) && 2 * tried >= z
    ensures var fall := Fall(source, Weight(sourceWeight), target, Weight(targetWeight), z);
            if z > 0 then fall > 0.0 else fall == 0.0
  {
    var ws, wt := Weight(sourceWeight), Weight(targetWeight);
    HalfApart(source, ws, target, wt, z, tried);
    Positive(z, (2 * source - z) as real / ws - (2 * target + z) as real / wt);
  }

  lemma HalfApart(source: int, ws: real, target: int, wt: real, z: nat, tried: int)
    requires ws > 0.0 && wt > 0.0 && 2 * tried >= z
    requires (source - tried) as real / ws > (target + tried) as real / wt
    ensures (2 * source - z) as real / ws > (2 * target + z) as real / wt
  {
    DoubleScore(source, -tried, ws);
    DoubleScore(target, tried, wt);
    Divide((2 * source - z) as real, (2 * (source - tried)) as real, ws);
    Divide((2 * (target + tried)) as real, (2 * target + z) as real, wt);
  }

  lemma Positive(z: nat, d: real)
    requires d > 0.0
    ensures if z > 0 then z as real * d > 0.0 else z as real * d == 0.0
  {
  }

  /** If it covers less than half, some transfer that passes raises or keeps the potential. */
  lemma UncoveredRises(z: nat, tried: nat)
    requires 2 * tried < z
    ensures exists source: int, target: int ::
              && source >= z && target >= 0
              && ShouldBalance(source, 1.0, target, 1.0, tried)
              && Pair(source - z, 1.0, target + z, 1.0) >= Pair(source, 1.0, target, 1.0)
  {
    var source, target := z, z - 2 * tried - 1;
    assert ShouldBalance(source, 1.0, target, 1.0, tried);
    var d := (2 * source - z) as real / 1.0 - (2 * target + z) as real / 1.0;
    assert d <= 0.0;
    Monotone(z, 0.0, d);
    PairFalls(source, 1.0, target, 1.0, z);
  }

  /** Which transfers of a region pass and yet do not lower the potential: none, exactly if half of it is covered. */
  lemma FallsIffHalfCovered(z: nat, tried: nat)
    requires z > 0
    ensures 2 * tried >= z <==>
            forall source: int, target: int, ws: real, wt: real ::
              source >= z && target >= 0 && ShouldBalance(source, ws, target, wt, tried) ==>
                Pair(source - z, Weight(ws), target + z, Weight(wt)) < Pair(source, Weight(ws), target, Weight(wt))
  {
    if 2 * tried >= z {
      forall source: int, target: int, ws: real, wt: real |
        source >= z && target >= 0 && ShouldBalance(source, ws, target, wt, tried)
        ensures Pair(source - z, Weight(ws), target + z, Weight(wt)) < Pair(source, Weight(ws), target, Weight(wt))
      {
        HalfCoveredFalls(source, ws, target, wt, z, tried);
        PairFalls(source, Weight(ws), target, Weight(wt), z);
      }
    } else {
      UncoveredRises(z, tried);
      var source: int, target: int :|
        && source >= z && target >= 0 && ShouldBalance(source, 1.0, target, 1.0, tried)
        && Pair(source - z, 1.0, target + z, 1.0) >= Pair(source, 1.0, target, 1.0);
      assert Weight(1.0) == 1.0;
    }
  }

  /** If the tried size covers the region, the fall is at least the region's own share on both stores. */
  lemma CoveredFalls(source: int, sourceWeight: real, target: int, targetWeight: real, z: nat, tried: int)
    requires ShouldBalance(source, sourceWeight, target, targetWeight, tried) && tried >= z
    ensures Fall(source, Weight(sourceWeight), target, Weight(targetWeight), z)
            >= z as real * (z as real / Weight(sourceWeight) + z as real / Weight(targetWeight))
  {
    RawFalls(source, Weight(sourceWeight), target, Weight(targetWeight), z, tried);
  }

  lemma RawFalls(source: int, ws: real, target: int, wt: real, z: nat, tried: int)
    requires ws > 0.0 && wt > 0.0 && tried >= z
    requires (source - tried) as real / ws > (target + tried) as real / wt
    ensures Fall(source, ws, target, wt, z) >= z as real * (z as real / ws + z as real / wt)
  {
    FarApart(source, ws, target, wt, z, tried);
    Monotone(z, (2 * source - z) as real / ws - (2 * target + z) as real / wt, z as real / ws + z as real / wt);
  }

  lemma FarApart(source: int, ws: real, target: int, wt: real, z: nat, tried: int)
    requires ws > 0.0 && wt > 0.0 && tried >= z
    requires (source - tried) as real / ws > (target + tried) as real / wt
    ensures (2 * source - z) as real / ws - (2 * target + z) as real / wt >= z as real / ws + z as real / wt
  {
    DoubleScore(source, -tried, ws);
    DoubleScore(target, tried, wt);
    Divide((2 * source - z) as real, z as real, ws);
    Divide((2 * source - 2 * z) as real, (2 * (source - tried)) as real, ws);
    Divide((2 * (target + tried)) as real, (2 * target + 2 * z) as real, wt);
    Divide((2 * target + 2 * z) as real, z as real, wt);
  }

  lemma Monotone(z: nat, a: real, b: real)
    requires a >= b
    ensures z as real * a >= z as real * b
  {
  }

  /** A transfer is not undone right away if the sizes tried on the two ways together cover the region. */
  lemma NotReversed(source: int, sourceWeight: real, target: int, targetWeight: real, z: nat, tried: int, back: int)
    requires ShouldBalance(source, sourceWeight, target, targetWeight, tried) && tried + back >= z
    ensures !ShouldBalance(target + z, targetWeight, source - z, sourceWeight, back)
  {
    var ws, wt := Weight(sourceWeight), Weight(targetWeight);
    Divide((source - z + back) as real, (source - tried) as real, ws);
    Divide((target + tried) as real, (target + z - back) as real, wt);
  }

  /** Two stores between which a region goes back and forth. */
  lemma Reversed(z: nat, tried: nat, back: nat)
    requires tried + back < z
    ensures var source, target := 3 * z, 3 * z - 2 * tried - 1;
            && source >= z && target >= 0
            && ShouldBalance(source, 1.0, target, 1.0, tried)
            && ShouldBalance(target + z, 1.0, source - z, 1.0, back)
  {
    assert Weight(1.0) == 1.0;
  }

  /** No transfer of a region of size z is undone right away, exactly if the two tried sizes together cover it. */
  lemma ReversedIffUncovered(z: nat, tried: nat, back: nat)
    ensures tried + back >= z <==>
            forall source: int, target: int, ws: real, wt: real ::
              source >= z && target >= 0 && ShouldBalance(source, ws, target, wt, tried) ==>
                !ShouldBalance(target + z, wt, source - z, ws, back)
  {
    if tried + back >= z {
      forall source: int, target: int, ws: real, wt: real |
        source >= z && target >= 0 && ShouldBalance(source, ws, target, wt, tried)
        ensures !ShouldBalance(target + z, wt, source - z, ws, back)
      {
        NotReversed(source, ws, target, wt, z, tried, back);
      }
    } else {
      Reversed(z, tried, back);
    }
  }

  /** With a ratio of 0.2 a region of average size is tried with a fifth of its size, and goes back and forth. */
  lemma SmallRatioCycles()
    ensures var tried := Tried(10, 10, 0.2);
            ShouldBalance(10, 1.0, 0, 1.0, tried) && ShouldBalance(0 + 10, 1.0, 10 - 10, 1.0, tried)
  {
    assert Tried(10, 10, 0.2) == 2;
  }

  // ---------------------------------------------------------------------------------------
  // Runs of transfers on fixed regions

  /** Fixed regions by size and stores by leader weight. */
  datatype Cluster = Cluster(sizes: seq<nat>, weights: seq<real>)

  /** A transfer of a region's leader, with the size that was tried for it. */
  datatype Transfer = Transfer(region: nat, target: nat, tried: int)

  /** leaders[i] is the store that leads region i. */
  ghost predicate Placed(c: Cluster, leaders: seq<nat>) {
    |leaders| == |c.sizes| && forall i :: 0 <= i < |leaders| ==> leaders[i] < |c.weights|
  }

  /** The leader size of a store. */
  function Load(leaders: seq<nat>, sizes: seq<nat>, store: nat): nat
    requires |leaders| == |sizes|
  {
    if leaders == [] then 0
    else
      var n := |leaders| - 1;
      Load(leaders[..n], sizes[..n], store) + if leaders[n] == store then sizes[n] else 0
  }

  /** The sum over the first k stores of size squared over weight. */
  function Potential(c: Cluster, leaders: seq<nat>, k: nat): real
    requires |leaders| == |c.sizes| && k <= |c.weights|
  {
    if k == 0 then 0.0
    else Potential(c, leaders, k - 1) + Term(Load(leaders, c.sizes, k - 1), Weight(c.weights[k - 1]))
  }

  function Total(c: Cluster, leaders: seq<nat>): real
    requires |leaders| == |c.sizes|
  {
    Potential(c, leaders, |c.weights|)
  }

  /** createOperator lets the transfer through: another store, and shouldBalance says yes. */
  ghost predicate Passes(c: Cluster, leaders: seq<nat>, t: Transfer)
    requires Placed(c, leaders)
  {
    && t.region < |leaders| && t.target < |c.weights| && t.target != leaders[t.region]
    && var source := leaders[t.region];
       ShouldBalance(Load(leaders, c.sizes, source), c.weights[source], Load(leaders, c.sizes, t.target),
                     c.weights[t.target], t.tried)
  }

  lemma {:induction false} LoadMoves(leaders: seq<nat>, sizes: seq<nat>, i: nat, target: nat, store: nat)
    requires |leaders| == |sizes| && i < |leaders|
    ensures Load(leaders[i := target], sizes, store) + (if leaders[i] == store then sizes[i] else 0)
            == Load(leaders, sizes, store) + if target == store then sizes[i] else 0
  {
    var n := |leaders| - 1;
    if i < n {
      LoadMoves(leaders[..n], sizes[..n], i, target, store);
      assert leaders[i := target][..n] == leaders[..n][i := target];
    } else {
      assert leaders[i := target][..n] == leaders[..n];
    }
  }

  /** What one store's term changes by. */
  function Change(c: Cluster, leaders: seq<nat>, after: seq<nat>, store: nat): real
    requires |leaders| == |after| == |c.sizes| && store < |c.weights|
  {
    Term(Load(after, c.sizes, store), Weight(c.weights[store]))
    - Term(Load(leaders, c.sizes, store), Weight(c.weights[store]))
  }

  /** Only the two stores of a transfer count. */
  lemma {:induction false} PotentialChange(c: Cluster, leaders: seq<nat>, i: nat, target: nat, k: nat)
    requires Placed(c, leaders) && i < |leaders| && target < |c.weights| && target != leaders[i] && k <= |c.weights|
    ensures var after := leaders[i := target];
            Potential(c, after, k) - Potential(c, leaders, k) ==
              (if leaders[i] < k then Change(c, leaders, after, leaders[i]) else 0.0)
              + (if target < k then Change(c, leaders, after, target) else 0.0)
  {
    if k > 0 {
      PotentialChange(c, leaders, i, target, k - 1);
      LoadMoves(leaders, c.sizes, i, target, k - 1);
    }
  }

  /** A transfer changes the potential by the fall of its two stores. */
  lemma TransferFalls(c: Cluster, leaders: seq<nat>, i: nat, target: nat)
    requires Placed(c, leaders) && i < |leaders| && target < |c.weights| && target != leaders[i]
    ensures var source := leaders[i];
            Total(c, leaders[i := target]) == Total(c, leaders)
              - Fall(Load(leaders, c.sizes, source), Weight(c.weights[source]),
                     Load(leaders, c.sizes, target), Weight(c.weights[target]), c.sizes[i])
  {
    var source, n := leaders[i], |c.weights|;
    PotentialChange(c, leaders, i, target, n);
    LoadMoves(leaders, c.sizes, i, target, source);
    LoadMoves(leaders, c.sizes, i, target, target);
    PairFalls(Load(leaders, c.sizes, source), Weight(c.weights[source]),
              Load(leaders, c.sizes, target), Weight(c.weights[target]), c.sizes[i]);
  }

  /** A run: every transfer passes in the state the ones before it led to. */
  ghost predicate Runs(c: Cluster, leaders: seq<nat>, ts: seq<Transfer>)
    requires Placed(c, leaders)
    decreases |ts|
  {
    ts == [] || (Passes(c, leaders, ts[0]) && Runs(c, leaders[ts[0].region := ts[0].target], ts[1..]))
  }

  ghost function End(c: Cluster, leaders: seq<nat>, ts: seq<Transfer>): (end: seq<nat>)
    requires Placed(c, leaders) && Runs(c, leaders, ts)
    ensures Placed(c, end)
    decreases |ts|
  {
    if ts == [] then leaders else End(c, leaders[ts[0].region := ts[0].target], ts[1..])
  }

  /** Every tried size covers its region: what a ratio of one or more gives. */
  ghost predicate Covered(c: Cluster, ts: seq<Transfer>) {
    forall i :: 0 <= i < |ts| && ts[i].region < |c.sizes| ==> ts[i].tried >= c.sizes[ts[i].region]
  }

  /** Every tried size covers half of its region. */
  ghost predicate HalfCovered(c: Cluster, ts: seq<Transfer>) {
    forall i :: 0 <= i < |ts| && ts[i].region < |c.sizes| ==> 2 * ts[i].tried >= c.sizes[ts[i].region]
  }

  /** A ratio of at least one covers every region, whatever the average size is. */
  lemma RatioCovers(c: Cluster, ts: seq<Transfer>, average: nat, ratio: real)
    requires ratio >= 1.0
    requires forall i :: 0 <= i < |ts| && ts[i].region < |c.sizes| ==>
               ts[i].tried == Tried(c.sizes[ts[i].region], average, ratio)
    ensures Covered(c, ts) && HalfCovered(c, ts)
  {
    forall i | 0 <= i < |ts| && ts[i].region < |c.sizes| ensures ts[i].tried >= c.sizes[ts[i].region] {
      TriedCovers(c.sizes[ts[i].region], average, ratio);
    }
  }

  // Regions that hold something: every covered transfer lowers the potential by a fixed amount.

  lemma {:induction false} NotNegative(c: Cluster, leaders: seq<nat>, k: nat)
    requires |leaders| == |c.sizes| && k <= |c.weights|
    ensures Potential(c, leaders, k) >= 0.0
  {
    if k > 0 {
      NotNegative(c, leaders, k - 1);
      TermNotNegative(Load(leaders, c.sizes, k - 1), Weight(c.weights[k - 1]));
    }
  }

  lemma TermNotNegative(size: nat, w: real)
    requires w > 0.0
    ensures Term(size, w) >= 0.0
  {
    assert size * size >= 0;
  }

  /** d is at most the inverse of every weight that divides. */
  ghost predicate Least(c: Cluster, d: real) {
    d > 0.0 && forall j :: 0 <= j < |c.weights| ==> d <= 1.0 / Weight(c.weights[j])
  }

  lemma ShareAtLeast(z: nat, w: real)
    requires z >= 1 && w > 0.0
    ensures z as real / w >= 1.0 / w
  {
    Divide(z as real, 1.0, w);
  }

  lemma ProductAtLeast(z: nat, d: real, low: real)
    requires z >= 1 && d >= low >= 0.0
    ensures z as real * d >= low
  {
    assert z as real * d >= 1.0 * d;
  }

  lemma FallsEnough(source: int, sourceWeight: real, target: int, targetWeight: real, z: nat, tried: int, d: real)
    requires ShouldBalance(source, sourceWeight, target, targetWeight, tried) && tried >= z >= 1
    requires 0.0 < d <= 1.0 / Weight(sourceWeight) && d <= 1.0 / Weight(targetWeight)
    ensures Fall(source, Weight(sourceWeight), target, Weight(targetWeight), z) >= d + d
  {
    var ws, wt := Weight(sourceWeight), Weight(targetWeight);
    CoveredFalls(source, sourceWeight, target, targetWeight, z, tried);
    ShareAtLeast(z, ws);
    ShareAtLeast(z, wt);
    EnoughOf(Fall(source, ws, target, wt, z), z, z as real / ws, z as real / wt, d);
  }

  lemma EnoughOf(fall: real, z: nat, a: real, b: real, d: real)
    requires z >= 1 && a >= d > 0.0 && b >= d && fall >= z as real * (a + b)
    ensures fall >= d + d
  {
    ProductAtLeast(z, a + b, d + d);
  }

  /** One transfer of a region that holds something. */
  lemma StepFalls(c: Cluster, leaders: seq<nat>, t: Transfer, d: real)
    requires Placed(c, leaders) && Passes(c, leaders, t) && Least(c, d) && t.tried >= c.sizes[t.region] >= 1
    ensures Total(c, leaders[t.region := t.target]) <= Total(c, leaders) - (d + d)
  {
    var source, z := leaders[t.region], c.sizes[t.region];
    TransferFalls(c, leaders, t.region, t.target);
    FallsEnough(Load(leaders, c.sizes, source), c.weights[source], Load(leaders, c.sizes, t.target),
                c.weights[t.target], z, t.tried, d);
  }

  function Times(n: nat, d: real): real {
    if n == 0 then 0.0 else Times(n - 1, d) + d
  }

  lemma {:induction false} TimesIs(n: nat, d: real)
    ensures Times(n, d) == n as real * d
  {
    if n > 0 {
      TimesIs(n - 1, d);
      AddOne(n - 1, d);
    }
  }

  lemma AddOne(n: nat, d: real)
    ensures (n + 1) as real * d == n as real * d + d
  {
  }

  /** The first transfer of a run. */
  lemma FirstFalls(c: Cluster, leaders: seq<nat>, ts: seq<Transfer>, d: real)
    requires Placed(c, leaders) && ts != [] && Runs(c, leaders, ts) && Covered(c, ts) && Least(c, d)
    requires forall i :: 0 <= i < |c.sizes| ==> c.sizes[i] >= 1
    ensures var after := leaders[ts[0].region := ts[0].target];
            && Placed(c, after) && Runs(c, after, ts[1..])
            && End(c, leaders, ts) == End(c, after, ts[1..])
            && Total(c, after) <= Total(c, leaders) - (d + d)
  {
    StepFalls(c, leaders, ts[0], d);
  }

  lemma {:induction false} EachFalls(c: Cluster, leaders: seq<nat>, ts: seq<Transfer>, d: real)
    requires Placed(c, leaders) && Runs(c, leaders, ts) && Covered(c, ts) && Least(c, d)
    requires forall i :: 0 <= i < |c.sizes| ==> c.sizes[i] >= 1
    ensures Total(c, End(c, leaders, ts)) <= Total(c, leaders) - Times(|ts|, d + d)
    ensures Times(|ts|, d + d) <= Total(c, leaders)
    decreases |ts|
  {
    NotNegative(c, leaders, |c.weights|);
    if ts != [] {
      FirstFalls(c, leaders, ts, d);
      EachFalls(c, leaders[ts[0].region := ts[0].target], ts[1..], d);
    }
  }

  /** With whole covers and no empty region, the potential at the start bounds the length of a run. */
  lemma RunFalls(c: Cluster, leaders: seq<nat>, ts: seq<Transfer>, d: real)
    requires Placed(c, leaders) && Runs(c, leaders, ts) && Covered(c, ts) && Least(c, d)
    requires forall i :: 0 <= i < |c.sizes| ==> c.sizes[i] >= 1
    ensures Total(c, End(c, leaders, ts)) <= Total(c, leaders) - |ts| as real * (d + d)
    ensures |ts| as real * (d + d) <= Total(c, leaders)
  {
    EachFalls(c, leaders, ts, d);
    TimesBound(|ts|, d + d, Total(c, End(c, leaders, ts)), Total(c, leaders));
  }

  lemma TimesBound(n: nat, d: real, end: real, start: real)
    requires end <= start - Times(n, d) && Times(n, d) <= start
    ensures end <= start - n as real * d && n as real * d <= start
  {
    TimesIs(n, d);
  }

  // Empty regions keep the potential, but they move down the scores.

  function Score(c: Cluster, at: seq<nat>, store: nat): real
    requires |at| == |c.sizes| && store < |c.weights|
  {
    LeaderScore(Load(at, c.sizes, store), c.weights[store], 0)
  }

  /** The scores, in state at, of the stores that lead the first k regions, added up. */
  function Scores(c: Cluster, at: seq<nat>, leaders: seq<nat>, k: nat): real
    requires Placed(c, leaders) && |at| == |c.sizes| && k <= |leaders|
  {
    if k == 0 then 0.0 else Scores(c, at, leaders, k - 1) + Score(c, at, leaders[k - 1])
  }

  /** A state is lower if its potential is, or if the potentials are equal and its scores are lower. */
  ghost predicate Lower(c: Cluster, after: seq<nat>, before: seq<nat>)
    requires Placed(c, after) && Placed(c, before)
  {
    || Total(c, after) < Total(c, before)
    || (Total(c, after) == Total(c, before)
        && Scores(c, after, after, |after|) < Scores(c, before, before, |before|))
  }

  lemma {:induction false} ScoresMove(c: Cluster, at: seq<nat>, after: seq<nat>, i: nat, target: nat, leaders: seq<nat>,
                                      k: nat)
    requires Placed(c, leaders) && |at| == |after| == |c.sizes| && i < |leaders| && target < |c.weights|
    requires k <= |leaders|
    requires forall s :: 0 <= s < |c.weights| ==> Load(after, c.sizes, s) == Load(at, c.sizes, s)
    ensures Scores(c, after, leaders[i := target], k) ==
            Scores(c, at, leaders, k) + if i < k then Score(c, at, target) - Score(c, at, leaders[i]) else 0.0
  {
    if k > 0 {
      ScoresMove(c, at, after, i, target, leaders, k - 1);
    }
  }

  /** Every half-covered transfer leads to a lower state, empty region or not. */
  lemma StepLower(c: Cluster, leaders: seq<nat>, t: Transfer)
    requires Placed(c, leaders) && Passes(c, leaders, t) && 2 * t.tried >= c.sizes[t.region]
    ensures Lower(c, leaders[t.region := t.target], leaders)
  {
    var source, z := leaders[t.region], c.sizes[t.region];
    var after := leaders[t.region := t.target];
    var a, b, tried := Load(leaders, c.sizes, source), Load(leaders, c.sizes, t.target), t.tried;
    TransferFalls(c, leaders, t.region, t.target);
    HalfCoveredFalls(a, c.weights[source], b, c.weights[t.target], z, tried);
    if z == 0 {
      forall s | 0 <= s < |c.weights| ensures Load(after, c.sizes, s) == Load(leaders, c.sizes, s) {
        LoadMoves(leaders, c.sizes, t.region, t.target, s);
      }
      ScoresMove(c, leaders, after, t.region, t.target, leaders, |leaders|);
      Divide(a as real, (a - tried) as real, Weight(c.weights[source]));
      Divide((b + tried) as real, b as real, Weight(c.weights[t.target]));
    }
  }

  /** The states of a run. */
  ghost function Visited(c: Cluster, leaders: seq<nat>, ts: seq<Transfer>): set<seq<nat>>
    requires Placed(c, leaders) && Runs(c, leaders, ts)
    decreases |ts|
  {
    {leaders} + if ts == [] then {} else Visited(c, leaders[ts[0].region := ts[0].target], ts[1..])
  }

  /** Every state of a run but the first is lower than the first. */
  lemma {:induction false} VisitedLower(c: Cluster, leaders: seq<nat>, ts: seq<Transfer>, s: seq<nat>)
    requires Placed(c, leaders) && Runs(c, leaders, ts) && HalfCovered(c, ts) && s in Visited(c, leaders, ts)
    ensures Placed(c, s) && (s == leaders || Lower(c, s, leaders))
    decreases |ts|
  {
    if s != leaders {
      var after := leaders[ts[0].region := ts[0].target];
      StepLower(c, leaders, ts[0]);
      VisitedLower(c, after, ts[1..], s);
    }
  }

  /** The states of a run are all different. */
  lemma {:induction false} VisitedCount(c: Cluster, leaders: seq<nat>, ts: seq<Transfer>)
    requires Placed(c, leaders) && Runs(c, leaders, ts) && HalfCovered(c, ts)
    ensures |Visited(c, leaders, ts)| == |ts| + 1
    decreases |ts|
  {
    if ts != [] {
      var after := leaders[ts[0].region := ts[0].target];
      VisitedCount(c, after, ts[1..]);
      StepLower(c, leaders, ts[0]);
      if leaders in Visited(c, after, ts[1..]) {
        VisitedLower(c, after, ts[1..], leaders);
      }
    }
  }

  /** All ways to place n leaders on m stores. */
  ghost function Placements(n: nat, m: nat): set<seq<nat>> {
    if n == 0 then {[]} else set s, x | s in Placements(n - 1, m) && 0 <= x < m :: s + [x]
  }

  lemma {:induction false} PlacedIn(leaders: seq<nat>, m: nat)
    requires forall i :: 0 <= i < |leaders| ==> leaders[i] < m
    ensures leaders in Placements(|leaders|, m)
  {
    if leaders != [] {
      var n := |leaders| - 1;
      PlacedIn(leaders[..n], m);
      assert leaders == leaders[..n] + [leaders[n]];
    }
  }

  lemma SubsetCount(a: set<seq<nat>>, b: set<seq<nat>>)
    requires a <= b
    ensures |a| <= |b|
  {
    assert b == a + (b - a);
  }

  /** No run of half-covered transfers is longer than bound. */
  ghost predicate RunsWithin(c: Cluster, leaders: seq<nat>, bound: nat)
    requires Placed(c, leaders)
  {
    forall ts :: Runs(c, leaders, ts) && HalfCovered(c, ts) ==> |ts| <= bound
  }

  /**
    Every run of half-covered transfers ends, empty regions included: no run has more transfers than
    there are placements.
  */
  lemma RunsEnd(c: Cluster, leaders: seq<nat>)
    requires Placed(c, leaders)
    ensures exists bound: nat :: RunsWithin(c, leaders, bound)
  {
    var all := Placements(|c.sizes|, |c.weights|);
    forall ts | Runs(c, leaders, ts) && HalfCovered(c, ts) ensures |ts| <= |all| {
      VisitedCount(c, leaders, ts);
      forall s | s in Visited(c, leaders, ts) ensures s in all {
        VisitedLower(c, leaders, ts, s);
        PlacedIn(s, |c.weights|);
      }
      SubsetCount(Visited(c, leaders, ts), all);
    }
    assert RunsWithin(c, leaders, |all|);
  }

  lemma {:induction false} EndVisited(c: Cluster, leaders: seq<nat>, ts: seq<Transfer>)
    requires Placed(c, leaders) && Runs(c, leaders, ts) && ts != []
    ensures End(c, leaders, ts) in Visited(c, leaders[ts[0].region := ts[0].target], ts[1..])
    decreases |ts|
  {
    if |ts| > 1 {
      EndVisited(c, leaders[ts[0].region := ts[0].target], ts[1..]);
    }
  }

  /** No run of half-covered transfers comes back to where it was, whatever the sizes of the regions. */
  lemma NoCycle(c: Cluster, leaders: seq<nat>, ts: seq<Transfer>)
    requires Placed(c, leaders) && ts != [] && Runs(c, leaders, ts) && HalfCovered(c, ts)
    ensures End(c, leaders, ts) != leaders
  {
    var after := leaders[ts[0].region := ts[0].target];
    EndVisited(c, leaders, ts);
    StepLower(c, leaders, ts[0]);
    VisitedLower(c, after, ts[1..], End(c, leaders, ts));
  }

  /** All transfers are of regions of size z with the same tried size. */
  ghost predicate Uniform(c: Cluster, ts: seq<Transfer>, z: nat, tried: nat) {
    forall i :: 0 <= i < |ts| ==> ts[i].region < |c.sizes| && c.sizes[ts[i].region] == z && ts[i].tried == tried
  }

  /** A region of size z moves to the other store and back. */
  lemma UncoveredCycle(z: nat, tried: nat)
    requires 2 * tried < z
    ensures var c := Cluster([z, 2 * z, 3 * z - 2 * tried - 1], [1.0, 1.0]);
            var leaders, ts := [0, 0, 1], [Transfer(0, 1, tried), Transfer(0, 0, tried)];
            && Placed(c, leaders) && Runs(c, leaders, ts) && Uniform(c, ts, z, tried)
            && End(c, leaders, ts) == leaders
  {
    var c := Cluster([z, 2 * z, 3 * z - 2 * tried - 1], [1.0, 1.0]);
    var leaders, after, ts := [0, 0, 1], [1, 0, 1], [Transfer(0, 1, tried), Transfer(0, 0, tried)];
    Reversed(z, tried, tried);
    LoadOfThree(c.sizes, leaders);
    LoadOfThree(c.sizes, after);
    assert leaders[0 := 1] == after && after[0 := 0] == leaders;
    assert ts[1..] == [Transfer(0, 0, tried)] && ts[1..][1..] == [];
    assert Runs(c, leaders, []) && End(c, leaders, []) == leaders;
    assert Runs(c, after, ts[1..]) && End(c, after, ts[1..]) == leaders;
  }

  lemma LoadOfThree(sizes: seq<nat>, leaders: seq<nat>)
    requires |sizes| == |leaders| == 3
    ensures forall s :: Load(leaders, sizes, s) == (if leaders[0] == s then sizes[0] else 0)
                        + (if leaders[1] == s then sizes[1] else 0) + (if leaders[2] == s then sizes[2] else 0)
  {
    forall s ensures Load(leaders, sizes, s) == (if leaders[0] == s then sizes[0] else 0)
                     + (if leaders[1] == s then sizes[1] else 0) + (if leaders[2] == s then sizes[2] else 0)
    {
      assert leaders[..2][..1] == leaders[..1] && sizes[..2][..1] == sizes[..1];
      assert leaders[..1][..0] == [] && sizes[..1][..0] == [];
      assert Load(leaders[..1], sizes[..1], s) == if leaders[0] == s then sizes[0] else 0;
      assert Load(leaders[..2], sizes[..2], s)
        == Load(leaders[..1], sizes[..1], s) + if leaders[1] == s then sizes[1] else 0;
    }
  }

  /** Transfers of regions of one size never cycle, exactly if the tried size covers half of the region. */
  lemma NoCycleIffHalfCovered(z: nat, tried: nat)
    ensures 2 * tried >= z <==>
            forall c, leaders, ts | Placed(c, leaders) && Runs(c, leaders, ts) ::
              ts != [] && Uniform(c, ts, z, tried) ==>
              End(c, leaders, ts) != leaders
  {
    if 2 * tried >= z {
      forall c, leaders, ts | Placed(c, leaders) && Runs(c, leaders, ts) && ts != [] && Uniform(c, ts, z, tried)
        ensures End(c, leaders, ts) != leaders
      {
        NoCycle(c, leaders, ts);
      }
    } else {
      UncoveredCycle(z, tried);
    }
  }
}
