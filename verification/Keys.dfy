/** Byte strings in the order of bytes.Compare. */
module Keys {
  type byte = x: int | 0 <= x < 256

  type Key = seq<byte>

  predicate Less(a: Key, b: Key) {
    b != [] && (a == [] || a[0] < b[0] || (a[0] == b[0] && Less(a[1..], b[1..])))
  }

  predicate AtMost(a: Key, b: Key) {
    !Less(b, a)
  }

  lemma {:induction false} Irreflexive(a: Key)
    ensures !Less(a, a)
  {
    if a != [] {
      Irreflexive(a[1..]);
    }
  }

  lemma {:induction false} Transitive(a: Key, b: Key, c: Key)
    requires Less(a, b) && Less(b, c)
    ensures Less(a, c)
  {
    if a != [] && a[0] == b[0] == c[0] {
      Transitive(a[1..], b[1..], c[1..]);
    }
  }

  lemma {:induction false} Total(a: Key, b: Key)
    ensures Less(a, b) || a == b || Less(b, a)
  {
    if a != [] && b != [] && a[0] == b[0] {
      Total(a[1..], b[1..]);
      assert a == [a[0]] + a[1..] && b == [b[0]] + b[1..];
    }
  }

  /** All that a chain of three keys implies. */
  lemma Chain(a: Key, b: Key, c: Key)
    ensures AtMost(a, b) && AtMost(b, c) ==> AtMost(a, c)
    ensures AtMost(a, b) && Less(b, c) ==> Less(a, c)
    ensures Less(a, b) && AtMost(b, c) ==> Less(a, c)
    ensures Less(a, b) ==> AtMost(a, b)
  {
    Irreflexive(a);
    Total(a, b);
    Total(b, c);
    Total(a, c);
    if Less(a, b) && Less(b, c) {
      Transitive(a, b, c);
    }
    if Less(c, a) && Less(a, b) {
      Transitive(c, a, b);
    }
    if Less(b, c) && Less(c, a) {
      Transitive(b, c, a);
    }
    if Less(a, b) && Less(b, a) {
      Transitive(a, b, a);
    }
  }
}
