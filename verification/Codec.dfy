/**
  The memcomparable key codec. Bytes are cut into groups of eight, the last one padded with
  zeros, and every group is followed by a marker that counts the padding.
*/
module Codec {
  import opened Keys

  const GROUP := 8
  const MARKER: byte := 0xFF
  const PAD: byte := 0

  datatype Error = Insufficient | InvalidMarker | InvalidPadding

  datatype Decoded = Ok(rest: Key, data: Key) | Err(error: Error)

  function Zeros(n: nat): (z: Key)
    ensures |z| == n && forall i :: 0 <= i < n ==> z[i] == PAD
  {
    seq(n, i => PAD)
  }

  function Pad(x: Key, n: nat): (p: Key)
    requires |x| <= n
    ensures |p| == n
  {
    x + Zeros(n - |x|)
  }

  /** A group of at most eight bytes, padded, with its marker. */
  function Group(x: Key): (g: Key)
    requires |x| <= GROUP
    ensures |g| == GROUP + 1
  {
    Pad(x, GROUP) + [MARKER - (GROUP - |x|)]
  }

  function Encode(data: Key): Key {
    if |data| >= GROUP then Group(data[..GROUP]) + Encode(data[GROUP..]) else Group(data)
  }

  /** Nothing but padding. */
  predicate AllPads(group: Key) {
    forall i :: 0 <= i < |group| ==> group[i] == PAD
  }

  function Decode(b: Key): Decoded {
    if |b| < GROUP + 1 then Err(Insufficient)
    else
      var padCount := MARKER - b[GROUP];
      if padCount > GROUP then Err(InvalidMarker)
      else if padCount != 0 then
        if AllPads(b[GROUP - padCount..GROUP]) then Ok(b[GROUP + 1..], b[..GROUP - padCount]) else Err(InvalidPadding)
      else
        match Decode(b[GROUP + 1..])
        case Ok(rest, data) => Ok(rest, b[..GROUP] + data)
        case Err(error) => Err(error)
  }

  /** One round of EncodeBytes: the next group, padded if it is the last. */
  method AppendGroup(result: Key, data: Key, idx: nat) returns (r: Key)
    requires idx <= |data|
    ensures r == result + Group(Head(data[idx..], GROUP))
  {
    var remain := |data| - idx;
    var padCount := 0;
    r := result;
    if remain >= GROUP {
      r := r + data[idx..idx + GROUP];
      assert Head(data[idx..], GROUP) == data[idx..idx + GROUP];
    } else {
      padCount := GROUP - remain;
      r := r + data[idx..];
      r := r + Zeros(padCount);
    }
    var marker := MARKER - padCount;
    r := r + [marker];
  }

  lemma EncodeStep(result: Key, data: Key, idx: nat)
    requires idx <= |data|
    ensures var group, next := Group(Head(data[idx..], GROUP)), idx + GROUP;
            result + Encode(data[idx..])
            == if next <= |data| then (result + group) + Encode(data[next..]) else result + group
  {
    EncodeHead(data[idx..]);
    if idx + GROUP <= |data| {
      assert data[idx..][GROUP..] == data[idx + GROUP..];
    }
  }

  method EncodeBytes(data: Key) returns (result: Key)
    ensures result == Encode(data)
  {
    result := [];
    var idx := 0;
    assert data[0..] == data;
    while idx <= |data|
      invariant if idx <= |data| then result + Encode(data[idx..]) == Encode(data) else result == Encode(data)
      decreases |data| + GROUP - idx
    {
      EncodeStep(result, data, idx);
      result := AppendGroup(result, data, idx);
      idx := idx + GROUP;
    }
  }

  method CheckPads(group: Key) returns (valid: bool)
    ensures valid <==> AllPads(group)
  {
    for i := 0 to |group|
      invariant forall j :: 0 <= j < i ==> group[j] == PAD
    {
      if group[i] != PAD {
        return false;
      }
    }
    return true;
  }

  /** The result when data was decoded in front of it. */
  function Behind(data: Key, d: Decoded): Decoded {
    match d
    case Ok(rest, more) => Ok(rest, data + more)
    case Err(error) => Err(error)
  }

  lemma DecodeStep(data: Key, b: Key)
    requires |b| >= GROUP + 1 && b[GROUP] == MARKER
    ensures Behind(data, Decode(b)) == Behind(data + b[..GROUP], Decode(b[GROUP + 1..]))
  {
    var tail := Decode(b[GROUP + 1..]);
    if tail.Ok? {
      assert data + (b[..GROUP] + tail.data) == data + b[..GROUP] + tail.data;
    }
  }

  method DecodeBytes(b: Key) returns (r: Decoded)
    ensures r == Decode(b)
  {
    var data: Key, rest := [], b;
    while true
      invariant Decode(b) == Behind(data, Decode(rest))
      decreases |rest|
    {
      if |rest| < GROUP + 1 {
        return Err(Insufficient);
      }
      var group, marker := rest[..GROUP], rest[GROUP];
      var padCount := MARKER - marker;
      if padCount > GROUP {
        return Err(InvalidMarker);
      }
      var realGroupSize := GROUP - padCount;
      if padCount != 0 {
        assert group[realGroupSize..] == rest[realGroupSize..GROUP] && group[..realGroupSize] == rest[..realGroupSize];
        var valid := CheckPads(group[realGroupSize..]);
        if !valid {
          return Err(InvalidPadding);
        }
        return Ok(rest[GROUP + 1..], data + group[..realGroupSize]);
      }
      DecodeStep(data, rest);
      data := data + group;
      rest := rest[GROUP + 1..];
    }
  }

  // ---------------------------------------------------------------------------------------
  // Decoding undoes encoding, and nothing else decodes

  lemma DecodeFull(x: Key, tail: Key)
    requires |x| == GROUP
    ensures Decode(Group(x) + tail) == Behind(x, Decode(tail))
  {
    var b := Group(x) + tail;
    assert b[GROUP + 1..] == tail && b[..GROUP] == x && b[GROUP] == MARKER;
  }

  lemma DecodeLast(x: Key, rest: Key)
    requires |x| < GROUP
    ensures Decode(Group(x) + rest) == Ok(rest, x)
  {
    var b, n := Group(x) + rest, |x|;
    assert b[GROUP] == MARKER - (GROUP - n);
    assert b[GROUP + 1..] == rest && b[..n] == x && b[n..GROUP] == Zeros(GROUP - n);
  }

  lemma {:induction false} RoundTrip(x: Key, rest: Key)
    ensures Decode(Encode(x) + rest) == Ok(rest, x)
    decreases |x|
  {
    if |x| >= GROUP {
      RoundTrip(x[GROUP..], rest);
      DecodeFull(x[..GROUP], Encode(x[GROUP..]) + rest);
      assert Encode(x) + rest == Group(x[..GROUP]) + (Encode(x[GROUP..]) + rest);
      assert x[..GROUP] + x[GROUP..] == x;
    } else {
      DecodeLast(x, rest);
    }
  }

  lemma {:induction false} Canonical(b: Key)
    requires Decode(b).Ok?
    ensures b == Encode(Decode(b).data) + Decode(b).rest
    decreases |b|
  {
    var padCount := MARKER - b[GROUP];
    if padCount != 0 {
      var n := GROUP - padCount;
      assert b[n..GROUP] == Zeros(padCount);
      assert b == b[..n] + b[n..GROUP] + [b[GROUP]] + b[GROUP + 1..];
    } else {
      var tail := Decode(b[GROUP + 1..]);
      Canonical(b[GROUP + 1..]);
      var data := b[..GROUP] + tail.data;
      assert data[..GROUP] == b[..GROUP] && data[GROUP..] == tail.data;
      assert Group(b[..GROUP]) == b[..GROUP] + [b[GROUP]];
      assert b == Group(b[..GROUP]) + b[GROUP + 1..];
    }
  }

  /** No encoding is the beginning of another one. */
  lemma PrefixFree(x: Key, y: Key)
    requires Encode(x) <= Encode(y)
    ensures x == y
  {
    var rest := Encode(y)[|Encode(x)|..];
    assert Encode(y) == Encode(x) + rest == Encode(y) + [];
    RoundTrip(x, rest);
    RoundTrip(y, []);
  }

  // ---------------------------------------------------------------------------------------
  // Encoding preserves the order

  lemma {:induction false} LessExtends(p: Key, q: Key, s: Key, t: Key)
    requires |p| == |q| && Less(p, q)
    ensures Less(p + s, q + t)
  {
    if p[0] == q[0] {
      LessExtends(p[1..], q[1..], s, t);
      assert (p + s)[1..] == p[1..] + s && (q + t)[1..] == q[1..] + t;
    }
  }

  lemma {:induction false} LessAfter(p: Key, s: Key, t: Key)
    ensures Less(p + s, p + t) <==> Less(s, t)
  {
    if p == [] {
      assert p + s == s && p + t == t;
    } else {
      LessAfter(p[1..], s, t);
      assert (p + s)[1..] == p[1..] + s && (p + t)[1..] == p[1..] + t;
    }
  }

  /** Padding alone is below everything with a larger marker. */
  lemma {:induction false} ZerosLess(y: Key, n: nat, u: byte, v: byte)
    requires |y| <= n && u < v
    ensures Less(Zeros(n) + [u], Pad(y, n) + [v])
  {
    if n > 0 {
      var rest := if y == [] then [] else y[1..];
      ZerosLess(rest, n - 1, u, v);
      assert (Zeros(n) + [u])[1..] == Zeros(n - 1) + [u];
      assert (Pad(y, n) + [v])[1..] == Pad(rest, n - 1) + [v];
    }
  }

  /** Padded groups compare like the bytes they hold, if the longer one has the larger marker. */
  lemma {:induction false} PadOrder(x: Key, y: Key, n: nat, u: byte, v: byte)
    requires |x| <= n && |y| <= n && Less(x, y)
    requires (|x| < |y| ==> u < v) && (|x| == |y| ==> u == v) && (|x| > |y| ==> u > v)
    ensures Less(Pad(x, n) + [u], Pad(y, n) + [v])
  {
    if x == [] {
      ZerosLess(y, n, u, v);
      assert Pad(x, n) == Zeros(n);
    } else if x[0] == y[0] {
      PadOrder(x[1..], y[1..], n - 1, u, v);
      assert (Pad(x, n) + [u])[1..] == Pad(x[1..], n - 1) + [u];
      assert (Pad(y, n) + [v])[1..] == Pad(y[1..], n - 1) + [v];
    }
  }

  lemma GroupOrder(x: Key, y: Key)
    requires |x| <= GROUP && |y| <= GROUP && Less(x, y)
    ensures Less(Group(x), Group(y))
  {
    PadOrder(x, y, GROUP, MARKER - (GROUP - |x|), MARKER - (GROUP - |y|));
  }

  function Head(a: Key, k: nat): (h: Key)
    ensures |h| <= k
  {
    if |a| <= k then a else a[..k]
  }

  /** The first bytes of a smaller key are at most those of a larger one. */
  lemma {:induction false} HeadOrder(a: Key, b: Key, k: nat)
    requires Less(a, b)
    ensures Less(Head(a, k), Head(b, k)) || Head(a, k) == Head(b, k)
  {
    if k > 0 && a != [] && a[0] == b[0] {
      HeadOrder(a[1..], b[1..], k - 1);
      assert Head(a, k) == [a[0]] + Head(a[1..], k - 1) && Head(b, k) == [b[0]] + Head(b[1..], k - 1);
      assert Head(a, k)[1..] == Head(a[1..], k - 1) && Head(b, k)[1..] == Head(b[1..], k - 1);
    }
  }

  function Tail(a: Key): Key {
    if |a| >= GROUP then Encode(a[GROUP..]) else []
  }

  lemma EncodeHead(a: Key)
    ensures Encode(a) == Group(Head(a, GROUP)) + Tail(a)
  {
    if |a| == GROUP {
      assert a[..GROUP] == a;
    }
  }

  /** The encoding of a smaller key is smaller, whatever follows the two encodings. */
  lemma {:induction false} EncodeIncreases(a: Key, b: Key, s: Key, t: Key)
    requires Less(a, b)
    ensures Less(Encode(a) + s, Encode(b) + t)
    decreases |a|
  {
    var x, y := Head(a, GROUP), Head(b, GROUP);
    HeadOrder(a, b, GROUP);
    EncodeHead(a);
    EncodeHead(b);
    assert Encode(a) + s == Group(x) + (Tail(a) + s) && Encode(b) + t == Group(y) + (Tail(b) + t);
    if Less(x, y) {
      GroupOrder(x, y);
      LessExtends(Group(x), Group(y), Tail(a) + s, Tail(b) + t);
    } else {
      SameHead(a, b);
      EncodeIncreases(a[GROUP..], b[GROUP..], s, t);
      LessAfter(Group(x), Tail(a) + s, Tail(b) + t);
    }
  }

  /** Keys that differ but start with the same eight bytes differ later. */
  lemma SameHead(a: Key, b: Key)
    requires Less(a, b) && Head(a, GROUP) == Head(b, GROUP)
    ensures |a| >= GROUP && |b| >= GROUP && Less(a[GROUP..], b[GROUP..])
  {
    Irreflexive(a);
    if |a| >= GROUP && |b| >= GROUP {
      assert a[..GROUP] == Head(a, GROUP) == Head(b, GROUP) == b[..GROUP];
      assert a == a[..GROUP] + a[GROUP..] && b == b[..GROUP] + b[GROUP..];
      LessAfter(a[..GROUP], a[GROUP..], b[GROUP..]);
    }
  }

  /** EncodeBytes preserves and reflects the order. */
  lemma EncodeOrder(a: Key, b: Key)
    ensures Less(a, b) <==> Less(Encode(a), Encode(b))
  {
    assert Encode(a) + [] == Encode(a) && Encode(b) + [] == Encode(b);
    Total(a, b);
    Chain(Encode(b), Encode(a), Encode(a));
    Irreflexive(Encode(a));
    if Less(a, b) {
      EncodeIncreases(a, b, [], []);
    } else if a != b {
      EncodeIncreases(b, a, [], []);
    }
  }

  // ---------------------------------------------------------------------------------------
  // Integers

  const TWO63: int := 0x8000_0000_0000_0000
  const TWO64: int := 0x1_0000_0000_0000_0000

  type int64 = v: int | -0x8000_0000_0000_0000 <= v < 0x8000_0000_0000_0000
  type uint64 = u: int | 0 <= u < 0x1_0000_0000_0000_0000

  /** The conversion of an int64 to a uint64. */
  function ToUint(v: int64): uint64 {
    if v < 0 then v + TWO64 else v
  }

  /** The conversion of a uint64 to an int64. */
  function ToInt(u: uint64): int64 {
    if u >= TWO63 then u - TWO64 else u
  }

  /** Exclusive or with the sign mask: the top bit flips. */
  function FlipSign(u: uint64): uint64 {
    if u >= TWO63 then u - TWO63 else u + TWO63
  }

  function Power(n: nat): (p: int)
    ensures p > 0
  {
    if n == 0 then 1 else 256 * Power(n - 1)
  }

  /** The n low bytes of a number, most significant first. */
  function BigEndian(u: nat, n: nat): (b: Key)
    ensures |b| == n
  {
    if n == 0 then [] else BigEndian(u / 256, n - 1) + [u % 256]
  }

  function FromBigEndian(b: Key): (u: nat)
    ensures u < Power(|b|)
  {
    if b == [] then 0 else FromBigEndian(b[..|b| - 1]) * 256 + b[|b| - 1]
  }

  function EncodeInt(b: Key, v: int64): Key {
    b + BigEndian(FlipSign(ToUint(v)), 8)
  }

  datatype DecodedInt = IntOk(rest: Key, value: int64) | IntErr

  lemma Power8()
    ensures Power(8) == TWO64
  {
    assert Power(4) == 0x1_0000_0000;
    assert Power(8) == 256 * 256 * 256 * 256 * Power(4);
  }

  function DecodeInt(b: Key): DecodedInt {
    if |b| < 8 then IntErr
    else
      Power8();
      IntOk(b[8..], ToInt(FlipSign(FromBigEndian(b[..8]))))
  }

  lemma {:induction false} BigEndianRoundTrip(u: nat, n: nat)
    requires u < Power(n)
    ensures FromBigEndian(BigEndian(u, n)) == u
  {
    if n > 0 {
      BigEndianRoundTrip(u / 256, n - 1);
      assert BigEndian(u, n)[..n - 1] == BigEndian(u / 256, n - 1);
    }
  }

  lemma {:induction false} BigEndianCanonical(b: Key)
    ensures BigEndian(FromBigEndian(b), |b|) == b
  {
    if b != [] {
      var n := |b| - 1;
      BigEndianCanonical(b[..n]);
      assert FromBigEndian(b) / 256 == FromBigEndian(b[..n]) && FromBigEndian(b) % 256 == b[n];
      assert b == b[..n] + [b[n]];
    }
  }

  lemma {:induction false} BigEndianOrder(u: nat, w: nat, n: nat)
    requires u < w < Power(n)
    ensures Less(BigEndian(u, n), BigEndian(w, n))
  {
    if u / 256 < w / 256 {
      BigEndianOrder(u / 256, w / 256, n - 1);
      LessExtends(BigEndian(u / 256, n - 1), BigEndian(w / 256, n - 1), [u % 256], [w % 256]);
    } else {
      LessAfter(BigEndian(u / 256, n - 1), [u % 256], [w % 256]);
    }
  }

  /** Decoding an encoded integer gives it back, with what follows it. */
  lemma IntRoundTrip(v: int64, rest: Key)
    ensures DecodeInt(EncodeInt([], v) + rest) == IntOk(rest, v)
  {
    Power8();
    BigEndianRoundTrip(FlipSign(ToUint(v)), 8);
    var b := EncodeInt([], v) + rest;
    assert b[..8] == BigEndian(FlipSign(ToUint(v)), 8) && b[8..] == rest;
  }

  lemma IntCanonical(b: Key)
    requires DecodeInt(b).IntOk?
    ensures b == EncodeInt([], DecodeInt(b).value) + DecodeInt(b).rest
  {
    BigEndianCanonical(b[..8]);
    assert b == b[..8] + b[8..];
  }

  /** A smaller integer has a smaller encoding, whatever follows the two. */
  lemma IntIncreases(v: int64, w: int64, s: Key, t: Key)
    requires v < w
    ensures Less(EncodeInt([], v) + s, EncodeInt([], w) + t)
  {
    Power8();
    var x, y := BigEndian(FlipSign(ToUint(v)), 8), BigEndian(FlipSign(ToUint(w)), 8);
    BigEndianOrder(FlipSign(ToUint(v)), FlipSign(ToUint(w)), 8);
    LessExtends(x, y, s, t);
    assert EncodeInt([], v) == x && EncodeInt([], w) == y;
  }

  lemma IntOrder(v: int64, w: int64)
    ensures v < w <==> Less(EncodeInt([], v), EncodeInt([], w))
  {
    var x, y := EncodeInt([], v), EncodeInt([], w);
    assert x + [] == x && y + [] == y;
    Irreflexive(x);
    Chain(y, x, x);
    if v < w {
      IntIncreases(v, w, [], []);
    } else if w < v {
      IntIncreases(w, v, [], []);
    }
  }

  // ---------------------------------------------------------------------------------------
  // Table keys

  const TABLE_PREFIX: Key := [116]
  const META_PREFIX: Key := [109]
  const RECORD_PREFIX: Key := [114]

  function GenerateTableKey(tableId: int64): Key {
    EncodeInt(TABLE_PREFIX, tableId)
  }

  function GenerateRowKey(tableId: int64, rowId: int64): Key {
    EncodeInt(EncodeInt(TABLE_PREFIX, tableId) + RECORD_PREFIX, rowId)
  }

  /** Key.TableID. */
  function TableId(k: Key): int64 {
    match Decode(k)
    case Err(_) => 0
    case Ok(_, key) => if TABLE_PREFIX <= key then TableIdOf(key[|TABLE_PREFIX|..]) else 0
  }

  /** The integer at the front; a failed decoding reads as zero. */
  function TableIdOf(key: Key): int64 {
    match DecodeInt(key)
    case IntOk(_, id) => id
    case IntErr => 0
  }

  /** Key.MetaOrTable. */
  function MetaOrTable(k: Key): (bool, int64) {
    match Decode(k)
    case Err(_) => (false, 0)
    case Ok(_, key) =>
      if META_PREFIX <= key then (true, 0)
      else if TABLE_PREFIX <= key then (false, TableIdOf(key[|TABLE_PREFIX|..]))
      else (false, 0)
  }

  lemma RowKeyParts(tableId: int64, rowId: int64)
    ensures GenerateRowKey(tableId, rowId) ==
            TABLE_PREFIX + (EncodeInt([], tableId) + (RECORD_PREFIX + EncodeInt([], rowId)))
    ensures GenerateTableKey(tableId) == TABLE_PREFIX + (EncodeInt([], tableId) + [])
  {
  }

  /** An encoded key of a table, row or bare, gives the table's id back, whatever follows it. */
  lemma TableIdBack(tableId: int64, rowId: int64, rest: Key)
    ensures TableId(Encode(GenerateRowKey(tableId, rowId)) + rest) == tableId
    ensures TableId(Encode(GenerateTableKey(tableId)) + rest) == tableId
    ensures MetaOrTable(Encode(GenerateRowKey(tableId, rowId)) + rest) == (false, tableId)
  {
    var row, bare := GenerateRowKey(tableId, rowId), GenerateTableKey(tableId);
    RoundTrip(row, rest);
    RoundTrip(bare, rest);
    RowKeyParts(tableId, rowId);
    IntRoundTrip(tableId, RECORD_PREFIX + EncodeInt([], rowId));
    IntRoundTrip(tableId, []);
    assert row[1..] == EncodeInt([], tableId) + (RECORD_PREFIX + EncodeInt([], rowId));
    assert bare[1..] == EncodeInt([], tableId) + [];
    assert row[0] == 116 && TABLE_PREFIX <= row && !(META_PREFIX <= row);
    assert TABLE_PREFIX <= bare;
  }

  /** Pairs of table and row in the order of the table first. */
  predicate RowBefore(t1: int64, r1: int64, t2: int64, r2: int64) {
    t1 < t2 || (t1 == t2 && r1 < r2)
  }

  lemma RowIncreases(t1: int64, r1: int64, t2: int64, r2: int64)
    requires RowBefore(t1, r1, t2, r2)
    ensures Less(GenerateRowKey(t1, r1), GenerateRowKey(t2, r2))
  {
    RowKeyParts(t1, r1);
    RowKeyParts(t2, r2);
    var x, y := RECORD_PREFIX + EncodeInt([], r1), RECORD_PREFIX + EncodeInt([], r2);
    if t1 < t2 {
      IntIncreases(t1, t2, x, y);
    } else {
      IntOrder(r1, r2);
      LessAfter(RECORD_PREFIX, EncodeInt([], r1), EncodeInt([], r2));
      LessAfter(EncodeInt([], t1), x, y);
    }
    LessAfter(TABLE_PREFIX, EncodeInt([], t1) + x, EncodeInt([], t2) + y);
  }

  /** Encoded row keys sort by table, then by row. */
  lemma RowOrder(t1: int64, r1: int64, t2: int64, r2: int64)
    ensures RowBefore(t1, r1, t2, r2) <==> Less(Encode(GenerateRowKey(t1, r1)), Encode(GenerateRowKey(t2, r2)))
  {
    var x, y := GenerateRowKey(t1, r1), GenerateRowKey(t2, r2);
    EncodeOrder(x, y);
    Irreflexive(x);
    Chain(y, x, x);
    if RowBefore(t1, r1, t2, r2) {
      RowIncreases(t1, r1, t2, r2);
    } else if RowBefore(t2, r2, t1, r1) {
      RowIncreases(t2, r2, t1, r1);
    }
  }

  /** A region split at encoded table keys holds whole tables: all rows lie between two split keys. */
  lemma TableHoldsRows(t: int64, next: int64, r: int64)
    requires t < next
    ensures Less(Encode(GenerateTableKey(t)), Encode(GenerateRowKey(t, r)))
    ensures Less(Encode(GenerateRowKey(t, r)), Encode(GenerateTableKey(next)))
  {
    var rest := RECORD_PREFIX + EncodeInt([], r);
    RowKeyParts(t, r);
    RowKeyParts(next, r);
    LessAfter(EncodeInt([], t), [], rest);
    LessAfter(TABLE_PREFIX, EncodeInt([], t) + [], EncodeInt([], t) + rest);
    IntIncreases(t, next, rest, []);
    LessAfter(TABLE_PREFIX, EncodeInt([], t) + rest, EncodeInt([], next) + []);
    EncodeOrder(GenerateTableKey(t), GenerateRowKey(t, r));
    EncodeOrder(GenerateRowKey(t, r), GenerateTableKey(next));
  }
}
