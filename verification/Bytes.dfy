/** Bytes and the byte order on keys (Rust's `Ord` for byte slices). */
module Bytes {

  newtype byte = x: int | 0 <= x < 256

  type Bytes = seq<byte>
  type Key = Bytes

  datatype Option<+T> = None | Some(value: T)

  /** Lexicographic order; a proper prefix is smaller than its extensions. */
  predicate Less(a: Key, b: Key) {
    |b| > 0 && (|a| == 0 || a[0] < b[0] || (a[0] == b[0] && Less(a[1..], b[1..])))
  }

  predicate Le(a: Key, b: Key) {
    !Less(b, a)
  }

  lemma {:induction false} LessIrreflexive(a: Key)
    ensures !Less(a, a)
  {
    if |a| > 0 {
      LessIrreflexive(a[1..]);
    }
  }

  lemma {:induction false} LessTransitive(a: Key, b: Key, c: Key)
    requires Less(a, b) && Less(b, c)
    ensures Less(a, c)
  {
    if |a| > 0 && a[0] == b[0] == c[0] {
      LessTransitive(a[1..], b[1..], c[1..]);
    }
  }

  lemma {:induction false} LessConnected(a: Key, b: Key)
    ensures Less(a, b) || Less(b, a) || a == b
  {
    if |a| > 0 && |b| > 0 && a[0] == b[0] {
      LessConnected(a[1..], b[1..]);
      assert a == [a[0]] + a[1..] && b == [b[0]] + b[1..];
    }
  }

  /** All the facts of a strict total order at once, for proofs that chain comparisons. */
  lemma OrderFacts()
    ensures forall a :: !Less(a, a)
    ensures forall a, b :: Less(a, b) ==> !Less(b, a)
    ensures forall a, b, c :: Less(a, b) && Less(b, c) ==> Less(a, c)
    ensures forall a, b, c :: Less(a, b) && !Less(c, b) ==> Less(a, c)
    ensures forall a, b, c :: !Less(b, a) && Less(b, c) ==> Less(a, c)
    ensures forall a, b, c :: !Less(b, a) && !Less(c, b) ==> !Less(c, a)
    ensures forall a, b :: !Less(a, b) && !Less(b, a) ==> a == b
  {
    forall a ensures !Less(a, a) { LessIrreflexive(a); }
    forall a, b, c | Less(a, b) && Less(b, c) ensures Less(a, c) { LessTransitive(a, b, c); }
    forall a, b ensures Less(a, b) || Less(b, a) || a == b { LessConnected(a, b); }
  }

  /** A shared prefix does not change a comparison. */
  lemma {:induction false} LessPrefix(p: Bytes, a: Key, b: Key)
    ensures Less(p + a, p + b) == Less(a, b)
  {
    if |p| == 0 {
      assert p + a == a && p + b == b;
    } else {
      LessPrefix(p[1..], a, b);
      assert (p + a)[1..] == p[1..] + a && (p + b)[1..] == p[1..] + b;
    }
  }
}
