/**
  The ring of recent region changes that followers catch up from. It refines an unbounded log:
  base is the index of the first record since the last reset and log holds all records since.
*/
module HistoryBuffer {
  import opened Options

  const DEFAULT_FLUSH_COUNT: nat := 100

  /** A position that ran past the end of the ring by less than a turn. */
  function Wrap(p: nat, size: nat): nat {
    if p >= size then p - size else p
  }

  lemma WrapIsMod(p: nat, size: nat)
    requires 0 < size && p < 2 * size
    ensures p % size == Wrap(p, size)
  {
    if p >= size {
      assert p == 1 * size + (p - size);
    }
  }

  /** How many records lie between a position and the tail. */
  function Distance(pos: nat, tail: nat, size: nat): int {
    if tail < pos then tail + size - pos else tail - pos
  }

  function Min(a: nat, b: nat): nat {
    if a < b then a else b
  }

  /** The i-th record from the head on. */
  function Slot<R>(ring: seq<R>, head: nat, i: nat): R
    requires head < |ring| && i < |ring|
  {
    ring[Wrap(head + i, |ring|)]
  }

  /** The ring between head and tail holds the newest records of the log, as many as fit. */
  ghost predicate Refines<R>(ring: seq<R>, head: nat, tail: nat, log: seq<R>) {
    && |ring| >= 2 && head < |ring| && tail < |ring|
    && var n := Distance(head, tail, |ring|);
       && n == Min(|log|, |ring| - 1)
       && forall i {:trigger Slot(ring, head, i)} :: 0 <= i < n ==> Slot(ring, head, i) == log[|log| - n + i]
  }

  /** Recording keeps the refinement; when the ring is full the oldest record goes. */
  lemma RecordRefines<R>(ring: seq<R>, head: nat, tail: nat, log: seq<R>, r: R)
    requires Refines(ring, head, tail, log)
    ensures var size := |ring|;
            var tail' := Wrap(tail + 1, size);
            var head' := if tail' == head then Wrap(head + 1, size) else head;
            Refines(ring[tail := r], head', tail', log + [r])
  {
    var size, n := |ring|, Distance(head, tail, |ring|);
    var tail' := Wrap(tail + 1, size);
    var full := tail' == head;
    var head', ring', log' := if full then Wrap(head + 1, size) else head, ring[tail := r], log + [r];
    var n' := Distance(head', tail', size);
    forall i | 0 <= i < n' ensures Slot(ring', head', i) == log'[|log'| - n' + i] {
      if i < n' - 1 {
        var j := if full then i + 1 else i;
        assert Slot(ring', head', i) == Slot(ring, head, j);
      }
    }
  }

  /** The position in the ring of record j of the log. */
  ghost predicate Cursor<R>(ring: seq<R>, head: nat, tail: nat, log: seq<R>, pos: nat, j: nat) {
    && head < |ring| && pos < |ring| && |log| - Distance(head, tail, |ring|) <= j <= |log|
    && pos == Wrap(head + (j - (|log| - Distance(head, tail, |ring|))), |ring|)
  }

  lemma Advance<R>(ring: seq<R>, head: nat, tail: nat, log: seq<R>, pos: nat, j: nat)
    requires Refines(ring, head, tail, log) && Cursor(ring, head, tail, log, pos, j) && pos != tail
    ensures j < |log| && ring[pos] == log[j] && Cursor(ring, head, tail, log, Wrap(pos + 1, |ring|), j + 1)
  {
    var n := Distance(head, tail, |ring|);
    assert Slot(ring, head, j - (|log| - n)) == log[j];
  }

  lemma AtTail<R>(ring: seq<R>, head: nat, tail: nat, log: seq<R>, j: nat)
    requires Refines(ring, head, tail, log) && Cursor(ring, head, tail, log, tail, j)
    ensures j == |log|
  {
  }

  lemma FirstCursor<R>(ring: seq<R>, head: nat, tail: nat, log: seq<R>, k: nat)
    requires Refines(ring, head, tail, log) && k <= Distance(head, tail, |ring|)
    ensures Distance(head, tail, |ring|) <= |log|
    ensures Cursor(ring, head, tail, log, Wrap(head + k, |ring|), |log| - Distance(head, tail, |ring|) + k)
  {
  }

  lemma SliceNext<R>(log: seq<R>, a: nat, b: nat)
    requires a <= b < |log|
    ensures log[a..b] + [log[b]] == log[a..b + 1]
  {
  }

  /** Positions are taken modulo the size of the ring. */
  method Position(p: nat, size: nat) returns (r: nat)
    requires 0 < size && p < 2 * size
    ensures r == Wrap(p, size)
  {
    WrapIsMod(p, size);
    r := p % size;
  }

  class HistoryBuffer<R(0)> {
    var index: nat
    var head: nat
    var tail: nat
    var flushCount: int
    var kv: Option<nat>
    const records: array<R>
    const size: nat

    ghost var base: nat
    ghost var log: seq<R>

    ghost predicate Valid()
      reads this, records
    {
      && records.Length == size
      && index == base + |log|
      && Refines(records[..], head, tail, log)
    }

    /** newHistoryBuffer; kv is what the storage holds. */
    constructor (size: int, kv: Option<nat>)
      ensures Valid() && fresh(records)
      ensures this.size - 1 == if size < 1 then 1 else size
      ensures log == [] && this.kv == kv && flushCount == DEFAULT_FLUSH_COUNT
      ensures index == if kv.Some? then kv.value else 0
    {
      var n := size + 1;
      if n < 2 {
        n := 2;
      }
      this.size := n;
      records := new R[n];
      head, tail, flushCount := 0, 0, DEFAULT_FLUSH_COUNT;
      this.kv := kv;
      index := if kv.Some? then kv.value else 0;
      base := if kv.Some? then kv.value else 0;
      log := [];
    }

    function DistanceToTail(pos: nat): int
      reads this
    {
      Distance(pos, tail, size)
    }

    function FirstIndex(): int
      reads this
    {
      index - DistanceToTail(head)
    }

    /** Record; saved tells whether the storage takes the index when it is due. */
    method Record(r: R, saved: bool)
      requires Valid()
      modifies this, records
      ensures Valid() && base == old(base) && log == old(log) + [r]
      ensures kv == if old(flushCount) <= 1 && saved then Some(index) else old(kv)
      ensures flushCount == if old(flushCount) <= 1 then DEFAULT_FLUSH_COUNT else old(flushCount) - 1
    {
      RecordRefines(records[..], head, tail, log, r);
      ghost var ring := records[..];
      records[tail] := r;
      assert records[..] == ring[tail := r];
      tail := Position(tail + 1, size);
      if tail == head {
        head := Position(head + 1, size);
      }
      index := index + 1;
      log := log + [r];
      flushCount := flushCount - 1;
      if flushCount <= 0 {
        if saved {
          kv := Some(index);
        }
        flushCount := DEFAULT_FLUSH_COUNT;
      }
    }

    /** RecordsFrom: everything from index i on, if it is still there. */
    method RecordsFrom(i: nat) returns (r: seq<R>)
      requires Valid()
      ensures r == if Kept(i) then log[i - base..] else []
    {
      KeptBounds(|log|, size, DistanceToTail(head), base);
      if !(i < index && i >= FirstIndex()) {
        return [];
      }
      FirstCursor(records[..], head, tail, log, i - FirstIndex());
      var start := Position(head + (i - FirstIndex()), size);
      r := ReadFrom(start, i - base);
    }

    /** Its loop, from the position of record j of the log up to the tail. */
    method ReadFrom(start: nat, ghost j: nat) returns (r: seq<R>)
      requires Valid() && Cursor(records[..], head, tail, log, start, j)
      ensures r == log[j..]
    {
      ghost var ring, n := records[..], j;
      var pos: nat := start;
      r := [];
      while pos != tail
        invariant j <= n <= |log| && Cursor(ring, head, tail, log, pos, n)
        invariant r == log[j..n]
        decreases |log| - n
      {
        Advance(ring, head, tail, log, pos, n);
        SliceNext(log, j, n);
        r := r + [records[pos]];
        pos := Position(pos + 1, size);
        n := n + 1;
      }
      AtTail(ring, head, tail, log, n);
      assert log[j..|log|] == log[j..];
    }

    /** The record with index i is among the newest that fit. */
    ghost predicate Kept(i: int)
      reads this
    {
      base <= i < base + |log| && base + |log| - i <= size - 1
    }

    method ResetWithIndex(i: nat)
      requires Valid()
      modifies this
      ensures Valid() && base == index == i && log == [] && kv == old(kv) && flushCount == DEFAULT_FLUSH_COUNT
    {
      index, head, tail, flushCount := i, 0, 0, DEFAULT_FLUSH_COUNT;
      base, log := i, [];
    }

    /** get: the record with index i, if it is still there. */
    method Get(i: nat) returns (r: Option<R>)
      requires Valid()
      ensures r == if Kept(i) then Some(log[i - base]) else None
    {
      KeptBounds(|log|, size, DistanceToTail(head), base);
      if i < index && i >= FirstIndex() {
        var k := i - FirstIndex();
        var pos := Position(head + k, size);
        assert Slot(records[..], head, k) == log[i - base];
        return Some(records[pos]);
      }
      return None;
    }
  }

  lemma KeptBounds(length: nat, size: nat, n: int, base: nat)
    requires size >= 2 && n == Min(length, size - 1)
    ensures base + length - n >= base && 0 <= n < size
  {
  }
}
