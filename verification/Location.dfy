/**
  Location scores: how far apart the stores of a region are, and why replacing peers for better
  locations cannot go on forever. Scores are integers.
*/
module Location {
  import opened Options

  datatype Label = Label(key: string, value: string)

  datatype Store = Store(id: nat, labels: seq<Label>, regionScore: real)

  /** The location labels, from the highest level down, and the case folding of single characters. */
  datatype Levels = Levels(names: seq<string>, fold: char -> char)

  /** strings.EqualFold. */
  predicate EqualFold(fold: char -> char, a: string, b: string) {
    |a| == |b| && forall i :: 0 <= i < |a| ==> fold(a[i]) == fold(b[i])
  }

  /** GetLabelValue: the value of the first label with the key, or nothing. */
  function LabelValue(fold: char -> char, labels: seq<Label>, key: string): string {
    if labels == [] then ""
    else if EqualFold(fold, labels[0].key, key) then labels[0].value
    else LabelValue(fold, labels[1..], key)
  }

  /** The two stores have different values at this level. */
  predicate Differ(a: Store, b: Store, keys: Levels, i: nat)
    requires i < |keys.names|
  {
    var v1, v2 := LabelValue(keys.fold, a.labels, keys.names[i]), LabelValue(keys.fold, b.labels, keys.names[i]);
    v1 != "" && v2 != "" && !EqualFold(keys.fold, v1, v2)
  }

  /** The first level at which two stores differ, from level i on; -1 if there is none. */
  function FirstDiffer(a: Store, b: Store, keys: Levels, i: nat): (r: int)
    requires i <= |keys.names|
    ensures r == -1 || i <= r < |keys.names|
    decreases |keys.names| - i
  {
    if i == |keys.names| then -1 else if Differ(a, b, keys, i) then i else FirstDiffer(a, b, keys, i + 1)
  }

  method GetLabelValue(fold: char -> char, labels: seq<Label>, key: string) returns (v: string)
    ensures v == LabelValue(fold, labels, key)
    ensures v == "" || exists i :: 0 <= i < |labels| && EqualFold(fold, labels[i].key, key) && v == labels[i].value
                               && forall j :: 0 <= j < i ==> !EqualFold(fold, labels[j].key, key)
  {
    for i := 0 to |labels|
      invariant LabelValue(fold, labels, key) == LabelValue(fold, labels[i..], key)
      invariant forall j :: 0 <= j < i ==> !EqualFold(fold, labels[j].key, key)
    {
      if EqualFold(fold, labels[i].key, key) {
        return labels[i].value;
      }
    }
    return "";
  }

  method CompareLocation(a: Store, b: Store, keys: Levels) returns (r: int)
    ensures r == FirstDiffer(a, b, keys, 0)
    ensures if r == -1 then forall i :: 0 <= i < |keys.names| ==> !Differ(a, b, keys, i)
            else 0 <= r < |keys.names| && Differ(a, b, keys, r) && forall i :: 0 <= i < r ==> !Differ(a, b, keys, i)
  {
    for i := 0 to |keys.names|
      invariant FirstDiffer(a, b, keys, 0) == FirstDiffer(a, b, keys, i)
      invariant forall j :: 0 <= j < i ==> !Differ(a, b, keys, j)
    {
      var v1 := GetLabelValue(keys.fold, a.labels, keys.names[i]);
      var v2 := GetLabelValue(keys.fold, b.labels, keys.names[i]);
      if v1 != "" && v2 != "" && !EqualFold(keys.fold, v1, v2) {
        return i;
      }
    }
    return -1;
  }

  function Power(n: nat): (p: nat)
    ensures p >= 1
  {
    if n == 0 then 1 else 100 * Power(n - 1)
  }

  /** What two stores add to each other's score: more, the higher the level at which they differ. */
  function PairScore(keys: Levels, a: Store, b: Store): nat {
    var level := FirstDiffer(a, b, keys, 0);
    if a.id == b.id || level == -1 then 0 else Power(|keys.names| - level - 1)
  }

  /** DistinctScore, as a sum. */
  function Score(keys: Levels, stores: seq<Store>, other: Store): nat {
    if stores == [] then 0
    else
      var n := |stores| - 1;
      Score(keys, stores[..n], other) + PairScore(keys, stores[n], other)
  }

  method DistinctScore(keys: Levels, stores: seq<Store>, other: Store) returns (score: nat)
    ensures score == Score(keys, stores, other)
  {
    score := 0;
    for i := 0 to |stores|
      invariant score == Score(keys, stores[..i], other)
    {
      assert stores[..i + 1][..i] == stores[..i];
      if stores[i].id == other.id {
        continue;
      }
      var index := CompareLocation(stores[i], other, keys);
      if index != -1 {
        score := score + Power(|keys.names| - index - 1);
      }
    }
    assert stores[..|stores|] == stores;
  }

  /** The score of a region: all pairs of its stores. */
  function Total(keys: Levels, stores: seq<Store>): nat {
    if stores == [] then 0
    else
      var n := |stores| - 1;
      Total(keys, stores[..n]) + Score(keys, stores[..n], stores[n])
  }

  // ---------------------------------------------------------------------------------------
  // Replacing one store

  lemma {:induction false} DifferSame(a: Store, b: Store, keys: Levels, i: nat)
    requires i <= |keys.names|
    ensures FirstDiffer(a, b, keys, i) == FirstDiffer(b, a, keys, i)
    decreases |keys.names| - i
  {
    if i < |keys.names| {
      DifferSame(a, b, keys, i + 1);
    }
  }

  lemma PairSymmetric(keys: Levels, a: Store, b: Store)
    ensures PairScore(keys, a, b) == PairScore(keys, b, a)
  {
    DifferSame(a, b, keys, 0);
  }

  function Without(stores: seq<Store>, k: nat): seq<Store>
    requires k < |stores|
  {
    stores[..k] + stores[k + 1..]
  }

  lemma {:induction false} ScoreWithout(keys: Levels, stores: seq<Store>, k: nat, x: Store)
    requires k < |stores|
    ensures Score(keys, stores, x) == Score(keys, Without(stores, k), x) + PairScore(keys, stores[k], x)
  {
    var n := |stores| - 1;
    if k < n {
      ScoreWithout(keys, stores[..n], k, x);
      assert Without(stores, k)[..n - 1] == Without(stores[..n], k) && Without(stores, k)[n - 1] == stores[n];
    } else {
      assert Without(stores, k) == stores[..n];
    }
  }

  /** A store does not count against itself. */
  lemma OwnScore(keys: Levels, stores: seq<Store>, k: nat)
    requires k < |stores|
    ensures Score(keys, stores, stores[k]) == Score(keys, Without(stores, k), stores[k])
  {
    ScoreWithout(keys, stores, k, stores[k]);
  }

  lemma ScoreReplace(keys: Levels, stores: seq<Store>, k: nat, y: Store, x: Store)
    requires k < |stores|
    ensures Score(keys, stores[k := y], x) + PairScore(keys, stores[k], x) ==
              Score(keys, stores, x) + PairScore(keys, y, x)
  {
    ScoreWithout(keys, stores, k, x);
    ScoreWithout(keys, stores[k := y], k, x);
    assert Without(stores[k := y], k) == Without(stores, k);
  }

  lemma ScoreSnoc(keys: Levels, stores: seq<Store>, last: Store, x: Store)
    ensures Score(keys, stores + [last], x) == Score(keys, stores, x) + PairScore(keys, last, x)
    ensures Total(keys, stores + [last]) == Total(keys, stores) + Score(keys, stores, last)
  {
    assert (stores + [last])[..|stores|] == stores;
  }

  lemma WithoutSnoc(stores: seq<Store>, last: Store, k: nat, y: Store)
    requires k < |stores|
    ensures Without(stores + [last], k) == Without(stores, k) + [last]
    ensures (stores + [last])[k := y] == stores[k := y] + [last]
  {
  }

  /** Replacing one store changes the total by the difference of the two scores against the rest. */
  lemma {:induction false} TotalReplace(keys: Levels, stores: seq<Store>, k: nat, y: Store)
    requires k < |stores|
    ensures Total(keys, stores[k := y]) + Score(keys, Without(stores, k), stores[k])
            == Total(keys, stores) + Score(keys, Without(stores, k), y)
  {
    var n := |stores| - 1;
    var init, last := stores[..n], stores[n];
    assert stores == init + [last];
    if k < n {
      TotalReplace(keys, init, k, y);
      ReplaceSnoc(keys, init, last, k, y);
    } else {
      assert stores[k := y] == init + [y] && Without(stores, k) == init;
      ScoreSnoc(keys, init, last, y);
      ScoreSnoc(keys, init, y, y);
    }
  }

  lemma ReplaceSnoc(keys: Levels, init: seq<Store>, last: Store, k: nat, y: Store)
    requires k < |init|
    requires Total(keys, init[k := y]) + Score(keys, Without(init, k), init[k])
             == Total(keys, init) + Score(keys, Without(init, k), y)
    ensures var stores := init + [last];
            Total(keys, stores[k := y]) + Score(keys, Without(stores, k), init[k])
            == Total(keys, stores) + Score(keys, Without(stores, k), y)
  {
    WithoutSnoc(init, last, k, y);
    ScoreSnoc(keys, init, last, y);
    ScoreSnoc(keys, init[k := y], last, y);
    ScoreSnoc(keys, Without(init, k), last, init[k]);
    ScoreSnoc(keys, Without(init, k), last, y);
    ScoreReplace(keys, init, k, y, last);
    PairSymmetric(keys, last, init[k]);
    PairSymmetric(keys, last, y);
  }

  /** The guard of checkBestReplacement: the new store scores higher against the others. */
  predicate Better(keys: Levels, stores: seq<Store>, k: nat, y: Store)
    requires k < |stores|
  {
    Score(keys, Without(stores, k), y) > Score(keys, stores, stores[k])
  }

  /** A replacement is better exactly if it raises the region's score. */
  lemma BetterIffRaises(keys: Levels, stores: seq<Store>, k: nat, y: Store)
    requires k < |stores|
    ensures Better(keys, stores, k, y) <==> Total(keys, stores[k := y]) > Total(keys, stores)
  {
    TotalReplace(keys, stores, k, y);
    OwnScore(keys, stores, k);
  }

  /** The stores of NewDistinctScoreFilter: all but those with the source's id. */
  function Others(stores: seq<Store>, source: Store): seq<Store> {
    if stores == [] then []
    else
      var n := |stores| - 1;
      Others(stores[..n], source) + if stores[n].id == source.id then [] else [stores[n]]
  }

  method NewDistinctScoreFilter(keys: Levels, stores: seq<Store>, source: Store)
    returns (newStores: seq<Store>, safeScore: nat)
    ensures newStores == Others(stores, source) && safeScore == Score(keys, newStores, source)
  {
    newStores := [];
    for i := 0 to |stores|
      invariant newStores == Others(stores[..i], source)
    {
      assert stores[..i + 1][..i] == stores[..i];
      if stores[i].id == source.id {
        continue;
      }
      newStores := newStores + [stores[i]];
    }
    assert stores[..|stores|] == stores;
    safeScore := DistinctScore(keys, newStores, source);
  }

  /** distinctScoreFilter.FilterTarget. */
  predicate Filtered(keys: Levels, stores: seq<Store>, source: Store, target: Store) {
    Score(keys, Others(stores, source), target) < Score(keys, Others(stores, source), source)
  }

  ghost predicate DistinctIds(stores: seq<Store>) {
    forall i, j :: 0 <= i < j < |stores| ==> stores[i].id != stores[j].id
  }

  lemma {:induction false} OthersAre(stores: seq<Store>, source: Store)
    requires forall i :: 0 <= i < |stores| ==> stores[i].id != source.id
    ensures Others(stores, source) == stores
  {
    if stores != [] {
      OthersAre(stores[..|stores| - 1], source);
    }
  }

  lemma {:induction false} OthersWithout(stores: seq<Store>, k: nat)
    requires DistinctIds(stores) && k < |stores|
    ensures Others(stores, stores[k]) == Without(stores, k)
  {
    var n := |stores| - 1;
    var init, last := stores[..n], stores[n];
    assert stores == init + [last];
    if k < n {
      OthersWithout(init, k);
      WithoutSnoc(init, last, k, last);
    } else {
      OthersAre(init, last);
      assert Without(stores, k) == init;
    }
  }

  /** The filter refuses exactly the replacements that would lower the region's score. */
  lemma FilteredIffLowers(keys: Levels, stores: seq<Store>, k: nat, y: Store)
    requires DistinctIds(stores) && k < |stores|
    ensures Filtered(keys, stores, stores[k], y) <==> Total(keys, stores[k := y]) < Total(keys, stores)
  {
    OthersWithout(stores, k);
    TotalReplace(keys, stores, k, y);
  }

  // ---------------------------------------------------------------------------------------
  // Replacing several stores

  /** What one replacement alone adds to the total. */
  function Gain(keys: Levels, stores: seq<Store>, k: nat, y: Store): int
    requires k < |stores|
  {
    Score(keys, Without(stores, k), y) - Score(keys, Without(stores, k), stores[k])
  }

  /** What two replacements add to the total beyond what each of them adds alone. */
  function Cross(keys: Levels, x: Store, y: Store, x': Store, y': Store): int {
    PairScore(keys, y, y') + PairScore(keys, x, x') - PairScore(keys, x, y') - PairScore(keys, y, x')
  }

  /** The sum of the gains of the first k replacements. */
  function Gains(keys: Levels, stores: seq<Store>, targets: seq<Store>, k: nat): int
    requires k <= |stores| == |targets|
  {
    if k == 0 then 0 else Gains(keys, stores, targets, k - 1) + Gain(keys, stores, k - 1, targets[k - 1])
  }

  /** What replacement k adds together with the first j. */
  function CrossRow(keys: Levels, stores: seq<Store>, targets: seq<Store>, j: nat, k: nat): int
    requires j <= k < |stores| == |targets|
  {
    if j == 0 then 0
    else CrossRow(keys, stores, targets, j - 1, k) + Cross(keys, stores[j - 1], targets[j - 1], stores[k], targets[k])
  }

  /** What all pairs among the first k replacements add. */
  function Crosses(keys: Levels, stores: seq<Store>, targets: seq<Store>, k: nat): int
    requires k <= |stores| == |targets|
  {
    if k == 0 then 0 else Crosses(keys, stores, targets, k - 1) + CrossRow(keys, stores, targets, k - 1, k - 1)
  }

  /** The stores once the first k are replaced. */
  function Mixed(stores: seq<Store>, targets: seq<Store>, k: nat): seq<Store>
    requires k <= |stores| == |targets|
  {
    targets[..k] + stores[k..]
  }

  lemma MixedNext(stores: seq<Store>, targets: seq<Store>, k: nat)
    requires 0 < k <= |stores| == |targets|
    ensures Mixed(stores, targets, k) == Mixed(stores, targets, k - 1)[k - 1 := targets[k - 1]]
    ensures forall n :: k - 1 <= n < |stores| ==> Mixed(stores, targets, k - 1)[n] == stores[n]
  {
  }

  /** Replacing another store changes the score against the rest by the two pair scores. */
  lemma WithoutReplaced(keys: Levels, stores: seq<Store>, j: nat, y: Store, k: nat, x: Store)
    requires j < k < |stores|
    ensures Score(keys, Without(stores[j := y], k), x) + PairScore(keys, stores[j], x)
            == Score(keys, Without(stores, k), x) + PairScore(keys, y, x)
  {
    var rest := Without(stores, k);
    assert Without(stores[j := y], k) == rest[j := y] && rest[j] == stores[j];
    ScoreReplace(keys, rest, j, y, x);
  }

  /** Replacing another store before changes what a replacement gains by the cross term. */
  lemma GainAfter(keys: Levels, stores: seq<Store>, later: seq<Store>, j: nat, y: Store, k: nat, y': Store)
    requires j < k < |stores| && later == stores[j := y]
    ensures Gain(keys, later, k, y') == Gain(keys, stores, k, y') + Cross(keys, stores[j], y, stores[k], y')
  {
    WithoutReplaced(keys, stores, j, y, k, y');
    WithoutReplaced(keys, stores, j, y, k, stores[k]);
  }

  /** What replacement k gains once the first j are made. */
  lemma {:induction false} MixedGain(keys: Levels, stores: seq<Store>, targets: seq<Store>, j: nat, k: nat)
    requires j <= k < |stores| == |targets|
    ensures Gain(keys, Mixed(stores, targets, j), k, targets[k])
            == Gain(keys, stores, k, targets[k]) + CrossRow(keys, stores, targets, j, k)
  {
    if j == 0 {
      assert Mixed(stores, targets, 0) == stores;
    } else {
      MixedGain(keys, stores, targets, j - 1, k);
      MixedNext(stores, targets, j);
      GainAfter(keys, Mixed(stores, targets, j - 1), Mixed(stores, targets, j), j - 1, targets[j - 1], k, targets[k]);
    }
  }

  lemma TotalGains(keys: Levels, stores: seq<Store>, later: seq<Store>, k: nat, y: Store)
    requires k < |stores| && later == stores[k := y]
    ensures Total(keys, later) == Total(keys, stores) + Gain(keys, stores, k, y)
  {
    TotalReplace(keys, stores, k, y);
  }

  /** The total after k replacements: what each adds alone, and what the pairs add. */
  lemma {:induction false} MixedTotal(keys: Levels, stores: seq<Store>, targets: seq<Store>, k: nat)
    requires k <= |stores| == |targets|
    ensures Total(keys, Mixed(stores, targets, k))
            == Total(keys, stores) + Gains(keys, stores, targets, k) + Crosses(keys, stores, targets, k)
  {
    if k == 0 {
      assert Mixed(stores, targets, 0) == stores;
    } else {
      MixedTotal(keys, stores, targets, k - 1);
      MixedNext(stores, targets, k);
      TotalGains(keys, Mixed(stores, targets, k - 1), Mixed(stores, targets, k), k - 1, targets[k - 1]);
      MixedGain(keys, stores, targets, k - 1, k - 1);
    }
  }

  lemma ReplacedTotal(keys: Levels, stores: seq<Store>, targets: seq<Store>)
    requires |stores| == |targets|
    ensures Total(keys, targets)
            == Total(keys, stores) + Gains(keys, stores, targets, |stores|) + Crosses(keys, stores, targets, |stores|)
  {
    MixedTotal(keys, stores, targets, |stores|);
    assert Mixed(stores, targets, |stores|) == targets;
  }

  /** The filter lets each replacement through that is made. */
  ghost predicate Guarded(keys: Levels, stores: seq<Store>, targets: seq<Store>)
    requires |stores| == |targets|
  {
    forall k :: 0 <= k < |stores| && targets[k] != stores[k] ==> !Filtered(keys, stores, stores[k], targets[k])
  }

  lemma {:induction false} GuardedGains(keys: Levels, stores: seq<Store>, targets: seq<Store>, k: nat)
    requires k <= |stores| == |targets| && DistinctIds(stores) && Guarded(keys, stores, targets)
    ensures Gains(keys, stores, targets, k) >= 0
  {
    if k > 0 {
      GuardedGains(keys, stores, targets, k - 1);
      OthersWithout(stores, k - 1);
    }
  }

  /** At most one store is replaced. */
  ghost predicate OneReplaced(stores: seq<Store>, targets: seq<Store>)
    requires |stores| == |targets|
  {
    forall j, k :: 0 <= j < k < |stores| ==> targets[j] == stores[j] || targets[k] == stores[k]
  }

  lemma {:induction false} NoCrossRow(keys: Levels, stores: seq<Store>, targets: seq<Store>, j: nat, k: nat)
    requires j <= k < |stores| == |targets| && OneReplaced(stores, targets)
    ensures CrossRow(keys, stores, targets, j, k) == 0
  {
    if j > 0 {
      NoCrossRow(keys, stores, targets, j - 1, k);
    }
  }

  lemma {:induction false} NoCrosses(keys: Levels, stores: seq<Store>, targets: seq<Store>, k: nat)
    requires k <= |stores| == |targets| && OneReplaced(stores, targets)
    ensures Crosses(keys, stores, targets, k) == 0
  {
    if k > 0 {
      NoCrosses(keys, stores, targets, k - 1);
      NoCrossRow(keys, stores, targets, k - 1, k - 1);
    }
  }

  /**
    The total does not fall exactly if what pairs of replacements lose is made up by what each of
    them gains alone. None loses anything alone, so the total never falls if at most one store is
    replaced.
  */
  ghost predicate ScoreKept(keys: Levels, stores: seq<Store>, targets: seq<Store>)
    requires |stores| == |targets|
  {
    && Gains(keys, stores, targets, |stores|) >= 0
    && (Total(keys, targets) >= Total(keys, stores)
        <==> Gains(keys, stores, targets, |stores|) >= -Crosses(keys, stores, targets, |stores|))
    && (OneReplaced(stores, targets) ==> Total(keys, targets) >= Total(keys, stores))
  }

  /** Replacements that the filter lets through, each judged against the old stores. */
  lemma GuardedTotal(keys: Levels, stores: seq<Store>, targets: seq<Store>)
    requires |stores| == |targets| && DistinctIds(stores) && Guarded(keys, stores, targets)
    ensures ScoreKept(keys, stores, targets)
  {
    ReplacedTotal(keys, stores, targets);
    GuardedGains(keys, stores, targets, |stores|);
    if OneReplaced(stores, targets) {
      NoCrosses(keys, stores, targets, |stores|);
    }
  }

  function Zoned(id: nat, zone: char): Store {
    Store(id, [Label("zone", [zone])], 0.0)
  }

  lemma ZonesDiffer(keys: Levels, i: nat, a: char, j: nat, b: char)
    requires keys == Levels(["zone"], c => c)
    ensures PairScore(keys, Zoned(i, a), Zoned(j, b)) == if i == j || a == b then 0 else 1
  {
    assert EqualFold(keys.fold, "zone", "zone");
    assert LabelValue(keys.fold, [Label("zone", [a])], "zone") == [a];
    assert LabelValue(keys.fold, [Label("zone", [b])], "zone") == [b];
    assert [a][0] == a && [b][0] == b;
    assert Differ(Zoned(i, a), Zoned(j, b), keys, 0) <==> a != b;
    assert FirstDiffer(Zoned(i, a), Zoned(j, b), keys, 1) == -1;
  }

  lemma PairTotal(keys: Levels, x: Store, y: Store, z: Store)
    ensures Score(keys, [x, y], z) == PairScore(keys, x, z) + PairScore(keys, y, z)
    ensures Total(keys, [x, y]) == PairScore(keys, x, y)
  {
    ScoreSnoc(keys, [], x, z);
    ScoreSnoc(keys, [], x, y);
    ScoreSnoc(keys, [x], y, z);
    assert [] + [x] == [x] && [x] + [y] == [x, y];
  }

  lemma TripleTotal(keys: Levels, x: Store, y: Store, z: Store)
    ensures Total(keys, [x, y, z]) == PairScore(keys, x, y) + PairScore(keys, x, z) + PairScore(keys, y, z)
  {
    PairTotal(keys, x, y, z);
    ScoreSnoc(keys, [x, y], z, z);
    assert [x, y] + [z] == [x, y, z];
  }

  lemma GuardOfThree(keys: Levels, x: Store, y: Store, z: Store, t: Store)
    requires DistinctIds([x, y, z])
    ensures Filtered(keys, [x, y, z], x, t) <==>
              PairScore(keys, y, t) + PairScore(keys, z, t) < PairScore(keys, y, x) + PairScore(keys, z, x)
    ensures Filtered(keys, [x, y, z], y, t) <==>
              PairScore(keys, x, t) + PairScore(keys, z, t) < PairScore(keys, x, y) + PairScore(keys, z, y)
  {
    OthersWithout([x, y, z], 0);
    OthersWithout([x, y, z], 1);
    assert Without([x, y, z], 0) == [y, z] && Without([x, y, z], 1) == [x, z];
    PairTotal(keys, y, z, t);
    PairTotal(keys, y, z, x);
    PairTotal(keys, x, z, t);
    PairTotal(keys, x, z, y);
  }

  /** Every guard passes, and yet the total falls. */
  ghost predicate FallsUnguarded(keys: Levels, stores: seq<Store>, targets: seq<Store>)
    requires |stores| == |targets|
  {
    DistinctIds(stores) && Guarded(keys, stores, targets) && Total(keys, targets) < Total(keys, stores)
  }

  /** Both scores of a pair. */
  ghost predicate Apart(keys: Levels, x: Store, y: Store, score: nat) {
    PairScore(keys, x, y) == score && PairScore(keys, y, x) == score
  }

  lemma TwoToOnePlace(keys: Levels, a: Store, b: Store, c: Store, d: Store, e: Store)
    requires DistinctIds([a, b, c]) && Apart(keys, a, b, 1) && Apart(keys, a, c, 1) && Apart(keys, b, c, 1)
    requires Apart(keys, d, b, 1) && Apart(keys, d, c, 1) && Apart(keys, e, a, 1) && Apart(keys, e, c, 1)
    requires Apart(keys, d, e, 0)
    ensures FallsUnguarded(keys, [a, b, c], [d, e, c])
  {
    TripleTotal(keys, a, b, c);
    TripleTotal(keys, d, e, c);
    GuardOfThree(keys, a, b, c, d);
    GuardOfThree(keys, a, b, c, e);
  }

  lemma ZonesApart(keys: Levels, i: nat, a: char, j: nat, b: char)
    requires keys == Levels(["zone"], c => c) && i != j
    ensures Apart(keys, Zoned(i, a), Zoned(j, b), if a == b then 0 else 1)
  {
    ZonesDiffer(keys, i, a, j, b);
    ZonesDiffer(keys, j, b, i, a);
  }

  /**
    A region in three zones: moving two peers to two stores of a fourth zone passes both guards and
    lowers the total.
  */
  lemma GuardedTotalFalls(keys: Levels, zones: seq<char>, ids: seq<nat>)
    requires keys == Levels(["zone"], c => c)
    requires |zones| == 4 && (forall i, j :: 0 <= i < j < |zones| ==> zones[i] != zones[j])
    requires |ids| == 5 && (forall i, j :: 0 <= i < j < |ids| ==> ids[i] != ids[j])
    ensures FallsUnguarded(keys, [Zoned(ids[0], zones[0]), Zoned(ids[1], zones[1]), Zoned(ids[2], zones[2])],
                           [Zoned(ids[3], zones[3]), Zoned(ids[4], zones[3]), Zoned(ids[2], zones[2])])
  {
    ZonesApart(keys, ids[0], zones[0], ids[1], zones[1]);
    ZonesApart(keys, ids[0], zones[0], ids[2], zones[2]);
    ZonesApart(keys, ids[1], zones[1], ids[2], zones[2]);
    ZonesApart(keys, ids[3], zones[3], ids[1], zones[1]);
    ZonesApart(keys, ids[3], zones[3], ids[2], zones[2]);
    ZonesApart(keys, ids[4], zones[3], ids[0], zones[0]);
    ZonesApart(keys, ids[4], zones[3], ids[2], zones[2]);
    ZonesApart(keys, ids[3], zones[3], ids[4], zones[3]);
    TwoToOnePlace(keys, Zoned(ids[0], zones[0]), Zoned(ids[1], zones[1]), Zoned(ids[2], zones[2]),
                  Zoned(ids[3], zones[3]), Zoned(ids[4], zones[3]));
  }

  // ---------------------------------------------------------------------------------------
  // The choice of checkBestReplacement

  /** compareStoreScore: the better store scores higher, or as high with a lower region score. */
  function CompareStoreScore(a: Store, scoreA: nat, b: Store, scoreB: nat): int {
    if scoreA > scoreB then 1
    else if scoreA < scoreB then -1
    else if a.regionScore < b.regionScore then 1
    else if a.regionScore > b.regionScore then -1
    else 0
  }

  /** No store of the region is worse than the k-th. */
  ghost predicate Worst(keys: Levels, regionStores: seq<Store>, k: nat) {
    && k < |regionStores|
    && forall i :: 0 <= i < |regionStores| ==>
         CompareStoreScore(regionStores[i], Score(keys, regionStores, regionStores[i]),
                           regionStores[k], Score(keys, regionStores, regionStores[k])) >= 0
  }

  /** ReplicaSelector.SelectSource before its filter: the worst store. */
  method SelectSource(keys: Levels, regionStores: seq<Store>) returns (best: Option<nat>)
    ensures best.None? <==> regionStores == []
    ensures best.Some? ==> Worst(keys, regionStores, best.value)
  {
    best := None;
    var bestScore := 0;
    for i := 0 to |regionStores|
      invariant best.None? <==> i == 0
      invariant best.Some? ==>
                  && best.value < i && bestScore == Score(keys, regionStores, regionStores[best.value])
                  && forall j :: 0 <= j < i ==>
                       CompareStoreScore(regionStores[j], Score(keys, regionStores, regionStores[j]),
                                         regionStores[best.value], bestScore) >= 0
    {
      var score := DistinctScore(keys, regionStores, regionStores[i]);
      if best.None? || CompareStoreScore(regionStores[i], score, regionStores[best.value], bestScore) < 0 {
        best, bestScore := Some(i), score;
      }
    }
  }

  /** The store passes, and none that passes is better. */
  ghost predicate Best(keys: Levels, regionStores: seq<Store>, stores: seq<Store>, refused: Store -> bool, s: Store) {
    && s in stores && !refused(s)
    && forall i :: 0 <= i < |stores| && !refused(stores[i]) ==>
         CompareStoreScore(stores[i], Score(keys, regionStores, stores[i]), s, Score(keys, regionStores, s)) <= 0
  }

  /** ReplicaSelector.SelectTarget: the best of the stores that pass. */
  method SelectTarget(keys: Levels, regionStores: seq<Store>, stores: seq<Store>, refused: Store -> bool)
    returns (best: Option<Store>)
    ensures best.None? <==> forall i :: 0 <= i < |stores| ==> refused(stores[i])
    ensures best.Some? ==> Best(keys, regionStores, stores, refused, best.value)
  {
    best := None;
    var bestScore := 0;
    for i := 0 to |stores|
      invariant best.None? <==> forall j :: 0 <= j < i ==> refused(stores[j])
      invariant best.Some? ==>
                  && best.value in stores && !refused(best.value) && bestScore == Score(keys, regionStores, best.value)
                  && forall j :: 0 <= j < i && !refused(stores[j]) ==>
                       CompareStoreScore(stores[j], Score(keys, regionStores, stores[j]), best.value, bestScore) <= 0
    {
      if refused(stores[i]) {
        continue;
      }
      var score := DistinctScore(keys, regionStores, stores[i]);
      if best.None? || CompareStoreScore(stores[i], score, best.value, bestScore) > 0 {
        best, bestScore := Some(stores[i]), score;
      }
    }
  }

  /** Refused by the filters, or already in the region. */
  predicate Excluded(regionStores: seq<Store>, refused: Store -> bool, s: Store) {
    refused(s) || exists i :: 0 <= i < |regionStores| && regionStores[i].id == s.id
  }

  /** No allowed replacement of the k-th store makes the region's score higher than bound. */
  ghost predicate NoneAbove(keys: Levels, regionStores: seq<Store>, stores: seq<Store>, refused: Store -> bool,
                            k: nat, bound: nat)
    requires k < |regionStores|
  {
    forall i :: 0 <= i < |stores| && !Excluded(regionStores, refused, stores[i]) ==>
      Total(keys, regionStores[k := stores[i]]) <= bound
  }

  /** Store s raises the region's score, and no other store that may replace the k-th one raises it more. */
  ghost predicate BestReplacement(keys: Levels, regionStores: seq<Store>, stores: seq<Store>, refused: Store -> bool,
                                  k: nat, s: Store)
    requires k < |regionStores|
  {
    && s in stores && !Excluded(regionStores, refused, s)
    && Total(keys, regionStores[k := s]) > Total(keys, regionStores)
    && NoneAbove(keys, regionStores, stores, refused, k, Total(keys, regionStores[k := s]))
  }

  /** Why the worst store k stays. */
  ghost predicate Stays(keys: Levels, regionStores: seq<Store>, stores: seq<Store>, sourceRefused: Store -> bool,
                        refused: Store -> bool, allocates: Store -> bool, builds: (nat, Store) -> bool, k: nat)
    requires k < |regionStores|
  {
    || sourceRefused(regionStores[k])
    || NoneAbove(keys, regionStores, stores, refused, k, Total(keys, regionStores))
    || exists s :: BestReplacement(keys, regionStores, stores, refused, k, s) && !(allocates(s) && builds(k, s))
  }

  /**
    checkBestReplacement: the worst store is replaced by the one that raises the region's score
    most, and left alone if none raises it. allocates tells where AllocPeer succeeds, builds
    whether the move-peer operator can be built.
  */
  method CheckBestReplacement(enabled: bool, keys: Levels, regionStores: seq<Store>, stores: seq<Store>,
                              sourceRefused: Store -> bool, refused: Store -> bool,
                              allocates: Store -> bool, builds: (nat, Store) -> bool)
    returns (r: Option<(nat, Store)>)
    ensures r.Some? ==>
              var k, s := r.value.0, r.value.1;
              && enabled && Worst(keys, regionStores, k) && !sourceRefused(regionStores[k])
              && BestReplacement(keys, regionStores, stores, refused, k, s) && allocates(s) && builds(k, s)
    ensures r.None? ==>
              || !enabled || regionStores == []
              || exists k: nat :: Worst(keys, regionStores, k)
                   && Stays(keys, regionStores, stores, sourceRefused, refused, allocates, builds, k)
  {
    if !enabled {
      return None;
    }
    var worst := SelectSource(keys, regionStores);
    if worst.None? {
      return None;
    }
    var k := worst.value;
    if sourceRefused(regionStores[k]) {
      assert Stays(keys, regionStores, stores, sourceRefused, refused, allocates, builds, k);
      return None;
    }
    var oldScore := DistinctScore(keys, regionStores, regionStores[k]);
    var rest := Without(regionStores, k);
    var target := SelectTarget(keys, rest, stores, s => Excluded(regionStores, refused, s));
    if target.None? {
      assert Stays(keys, regionStores, stores, sourceRefused, refused, allocates, builds, k);
      return None;
    }
    var newScore := DistinctScore(keys, rest, target.value);
    RaisesMost(keys, regionStores, stores, refused, k, target.value);
    BetterIffRaises(keys, regionStores, k, target.value);
    if newScore <= oldScore || !allocates(target.value) || !builds(k, target.value) {
      assert newScore > oldScore ==> BestReplacement(keys, regionStores, stores, refused, k, target.value);
      assert Stays(keys, regionStores, stores, sourceRefused, refused, allocates, builds, k);
      return None;
    }
    return Some((k, target.value));
  }

  /** The best store for the rest of the region is the one that raises the region's score most. */
  lemma RaisesMost(keys: Levels, regionStores: seq<Store>, stores: seq<Store>, refused: Store -> bool, k: nat, s: Store)
    requires k < |regionStores|
    requires Best(keys, Without(regionStores, k), stores, x => Excluded(regionStores, refused, x), s)
    ensures NoneAbove(keys, regionStores, stores, refused, k, Total(keys, regionStores[k := s]))
  {
    TotalReplace(keys, regionStores, k, s);
    forall i | 0 <= i < |stores| && !Excluded(regionStores, refused, stores[i])
      ensures Total(keys, regionStores[k := stores[i]]) <= Total(keys, regionStores[k := s])
    {
      TotalReplace(keys, regionStores, k, stores[i]);
    }
  }

  // ---------------------------------------------------------------------------------------
  // Runs of replacements

  /** The most two stores can add to each other's score. */
  function Most(keys: Levels): nat {
    if keys.names == [] then 0 else Power(|keys.names| - 1)
  }

  lemma {:induction false} PowerGrows(m: nat, n: nat)
    requires m <= n
    ensures Power(m) <= Power(n)
  {
    if m < n {
      PowerGrows(m, n - 1);
    }
  }

  lemma PairAtMost(keys: Levels, a: Store, b: Store)
    ensures PairScore(keys, a, b) <= Most(keys)
  {
    var level := FirstDiffer(a, b, keys, 0);
    if level != -1 {
      PowerGrows(|keys.names| - level - 1, |keys.names| - 1);
    }
  }

  lemma Distribute(a: nat, b: nat, m: nat)
    ensures (a + b) * m == a * m + b * m
  {
  }

  lemma {:induction false} ScoreAtMost(keys: Levels, stores: seq<Store>, x: Store)
    ensures Score(keys, stores, x) <= |stores| * Most(keys)
  {
    if stores != [] {
      var n := |stores| - 1;
      ScoreAtMost(keys, stores[..n], x);
      PairAtMost(keys, stores[n], x);
      Distribute(n, 1, Most(keys));
    }
  }

  function Pairs(n: nat): nat {
    if n == 0 then 0 else Pairs(n - 1) + (n - 1)
  }

  /** The score of a region is bounded by its number of pairs. */
  lemma {:induction false} TotalAtMost(keys: Levels, stores: seq<Store>)
    ensures Total(keys, stores) <= Pairs(|stores|) * Most(keys)
  {
    if stores != [] {
      var n := |stores| - 1;
      TotalAtMost(keys, stores[..n]);
      ScoreAtMost(keys, stores[..n], stores[n]);
      Distribute(Pairs(n), n, Most(keys));
    }
  }

  /** A replacement of the k-th store. */
  datatype Move = Move(k: nat, store: Store)

  /** A run: every replacement is better in the region the ones before it led to. */
  ghost predicate Runs(keys: Levels, stores: seq<Store>, moves: seq<Move>)
    decreases |moves|
  {
    moves == [] || (
      && moves[0].k < |stores| && Better(keys, stores, moves[0].k, moves[0].store)
      && Runs(keys, stores[moves[0].k := moves[0].store], moves[1..]))
  }

  ghost function End(keys: Levels, stores: seq<Store>, moves: seq<Move>): (end: seq<Store>)
    requires Runs(keys, stores, moves)
    ensures |end| == |stores|
    decreases |moves|
  {
    if moves == [] then stores else End(keys, stores[moves[0].k := moves[0].store], moves[1..])
  }

  lemma {:induction false} RunRaises(keys: Levels, stores: seq<Store>, moves: seq<Move>)
    requires Runs(keys, stores, moves)
    ensures Total(keys, End(keys, stores, moves)) >= Total(keys, stores) + |moves|
    decreases |moves|
  {
    if moves != [] {
      BetterIffRaises(keys, stores, moves[0].k, moves[0].store);
      RunRaises(keys, stores[moves[0].k := moves[0].store], moves[1..]);
    }
  }

  /** Better replacements come to an end, and never back to where they started. */
  lemma RunEnds(keys: Levels, stores: seq<Store>, moves: seq<Move>)
    requires Runs(keys, stores, moves)
    ensures |moves| <= Pairs(|stores|) * Most(keys) - Total(keys, stores)
    ensures moves != [] ==> End(keys, stores, moves) != stores
  {
    RunRaises(keys, stores, moves);
    TotalAtMost(keys, End(keys, stores, moves));
  }
}
