/**
 * The key length up to which every run fits its pages is exact: 45 puts with keys one byte longer overflow a page.
 * 38 small records and four large ones fill a page to exactly the split threshold; three more make it split three
 * times, and since splits are cut by entry count, the last half has the seven large ones.
 */
module CapacityLimit {
  import opened Bytes
  import opened SortedList
  import opened BTree
  import opened BTreePut
  import opened Capacity

  const RECORDS: nat := 45

  /** 38 keys as short as their space has so many of, then seven keys one byte too long, in ascending order. */
  function K(s: Keyspace, i: nat): Key
    requires i < RECORDS
  {
    match s
    case AnyKeys => if i < 38 then [i as byte] else [i as byte] + seq(75, _ => 0 as byte)
    case FiledKeys => [0, 0, 0] + FiledTail(i)
  }

  /** The last byte of the file prefix, and the record key: empty in each of 38 files, 110 bytes in the next. */
  function FiledTail(i: nat): Key
    requires i < RECORDS
  {
    if i < 38 then [i as byte] else [38] + LongKey(i)
  }

  function LongKey(i: nat): (k: Key)
    requires i < RECORDS
    ensures |k| == 110
  {
    [i as byte] + seq(109, _ => 0 as byte)
  }

  function V(s: Keyspace, i: nat): Bytes
    requires i < RECORDS
  {
    seq(ValueLength(s, i), _ => 0 as byte)
  }

  function ValueLength(s: Keyspace, i: nat): nat {
    if i < 38 then 0
    else if i < 42 then (if s.FiledKeys? then 400 else if i < 40 then 466 else 467)
    else 512
  }

  function KeysFrom(s: Keyspace, a: nat, b: nat): seq<Key>
    requires a <= b <= RECORDS
  {
    seq(b - a, i requires 0 <= i < b - a => K(s, a + i))
  }

  function ValsFrom(s: Keyspace, a: nat, b: nat): seq<Bytes>
    requires a <= b <= RECORDS
  {
    seq(b - a, i requires 0 <= i < b - a => V(s, a + i))
  }

  /** Records `a` up to `b` in one leaf. */
  function Part(s: Keyspace, a: nat, b: nat): (t: Tree)
    requires a <= b <= RECORDS
    ensures Shape(t, 0)
  {
    Leaf(KeysFrom(s, a, b), ValsFrom(s, a, b))
  }

  function EntrySize(s: Keyspace, i: nat): nat {
    if i < 38 then (if s.FiledKeys? then 24 else 21) else (if s.FiledKeys? then 134 else 96) + ValueLength(s, i)
  }

  function Total(s: Keyspace, a: nat, b: nat): nat
    decreases b
  {
    if a >= b then 0 else Total(s, a, b - 1) + EntrySize(s, b - 1)
  }

  lemma {:induction false} PartSize(s: Keyspace, a: nat, b: nat)
    requires a <= b <= RECORDS
    ensures Size(Part(s, a, b)) == 24 + Total(s, a, b)
    decreases b
  {
    if a < b {
      PartSize(s, a, b - 1);
      assert KeysFrom(s, a, b) == KeysFrom(s, a, b - 1) + [K(s, b - 1)];
      assert ValsFrom(s, a, b) == ValsFrom(s, a, b - 1) + [V(s, b - 1)];
      KeysSizeConcat(KeysFrom(s, a, b - 1), [K(s, b - 1)]);
      ValuesSizeConcat(ValsFrom(s, a, b - 1), [V(s, b - 1)]);
      assert KeysSize([K(s, b - 1)]) == 8 + |K(s, b - 1)|;
      assert ValuesSize([V(s, b - 1)]) == 12 + ValueLength(s, b - 1);
    }
  }

  lemma {:induction false} SmallTotal(s: Keyspace, a: nat, b: nat)
    requires a <= b <= 38
    ensures Total(s, a, b) == (if s.FiledKeys? then 24 * (b - a) else 21 * (b - a))
    decreases b
  {
    if a < b {
      SmallTotal(s, a, b - 1);
    }
  }

  lemma LargeTotal(s: Keyspace, a: nat, b: nat)
    requires a <= 38 <= b <= RECORDS
    ensures Total(s, a, b) == if s.FiledKeys? then 24 * (38 - a) + (if b <= 42 then 534 * (b - 38) else 2136 + 646 * (b - 42))
                              else 21 * (38 - a) + (if b <= 40 then 562 * (b - 38) else if b <= 42 then 1124 + 563 * (b - 40) else 2250 + 608 * (b - 42))
    decreases b
  {
    if b == 38 {
      SmallTotal(s, a, 38);
    } else {
      LargeTotal(s, a, b - 1);
    }
  }

  lemma {:induction false} EndPosition(keys: seq<Key>, k: Key)
    requires forall i :: 0 <= i < |keys| ==> Less(keys[i], k)
    ensures Position(keys, k) == |keys| && !Found(keys, k)
  {
    if keys != [] {
      EndPosition(keys[1..], k);
    }
  }

  lemma Ascending(s: Keyspace, i: nat, j: nat)
    requires i < j < RECORDS
    ensures Less(K(s, i), K(s, j)) && !Less(K(s, j), K(s, i))
  {
    match s
    case AnyKeys =>
      assert K(s, i)[0] == i as byte && K(s, j)[0] == j as byte;
    case FiledKeys =>
      LessPrefix([0, 0, 0], FiledTail(i), FiledTail(j));
      LessPrefix([0, 0, 0], FiledTail(j), FiledTail(i));
      LessPrefix([38], LongKey(i), LongKey(j));
      LessPrefix([38], LongKey(j), LongKey(i));
  }

  lemma AppendToPart(s: Keyspace, a: nat, n: nat)
    requires a <= n < RECORDS
    ensures LeafUpsert(KeysFrom(s, a, n), ValsFrom(s, a, n), K(s, n), V(s, n)) == Part(s, a, n + 1)
  {
    forall i | a <= i < n ensures Less(K(s, i), K(s, n)) { Ascending(s, i, n); }
    EndPosition(KeysFrom(s, a, n), K(s, n));
    assert KeysFrom(s, a, n) + [K(s, n)] + [] == KeysFrom(s, a, n + 1);
    assert ValsFrom(s, a, n) + [V(s, n)] + [] == ValsFrom(s, a, n + 1);
  }

  lemma SplitPart(s: Keyspace, a: nat, n: nat)
    requires a < n <= RECORDS && Size(Part(s, a, n)) > SPLIT_THRESHOLD
    ensures var mid := a + (n - a) / 2;
      Divide(Part(s, a, n), 0) == Two(Part(s, a, mid), K(s, mid), Part(s, mid, n))
  {
    hide K, V, Size;
    var mid := (n - a) / 2;
    assert KeysFrom(s, a, n)[..mid] == KeysFrom(s, a, a + mid) && KeysFrom(s, a, n)[mid..] == KeysFrom(s, a + mid, n);
    assert KeysFrom(s, a, n)[mid] == K(s, a + mid);
    assert ValsFrom(s, a, n)[..mid] == ValsFrom(s, a, a + mid) && ValsFrom(s, a, n)[mid..] == ValsFrom(s, a + mid, n);
  }

  lemma RecordsIs()
    ensures RECORDS == 45
  {
  }

  function Puts(s: Keyspace, n: nat): seq<Op>
    requires n <= RECORDS
  {
    seq(n, i requires 0 <= i < n => PutOp(K(s, i), V(s, i)))
  }

  lemma PutsStep(s: Keyspace, n: nat)
    requires 0 < n <= RECORDS
    ensures Run(Puts(s, n)) == Put(Run(Puts(s, n - 1)), K(s, n - 1), V(s, n - 1))
  {
    assert Puts(s, n)[..n - 1] == Puts(s, n - 1);
  }

  lemma {:induction false} Filling(s: Keyspace, n: nat)
    requires 0 < n <= 42
    ensures Run(Puts(s, n)) == Rooted(Part(s, 0, n), 0)
  {
    PutsStep(s, n);
    if n == 1 {
      assert KeysFrom(s, 0, 1) == [K(s, 0)] && ValsFrom(s, 0, 1) == [V(s, 0)];
    } else {
      Filling(s, n - 1);
      hide K, V, ValueLength, EntrySize, Total, Run;
      AppendToPart(s, 0, n - 1);
      PartSize(s, 0, n);
      if n <= 38 { SmallTotal(s, 0, n); } else { LargeTotal(s, 0, n); }
    }
  }

  /** A put at the end of the last leaf of a two-level tree, splitting that leaf. */
  lemma SplitLast(s: Keyspace, seps: seq<Key>, left: seq<Tree>, a: nat, n: nat)
    requires a < n < RECORDS && |left| == |seps| <= 2
    requires forall i :: 0 <= i < |seps| ==> !Less(K(s, n), seps[i]) && Shape(left[i], 0) && |seps[i]| <= s.Most() + 1
    requires Size(Part(s, a, n + 1)) > SPLIT_THRESHOLD
    ensures var mid := a + (n + 1 - a) / 2;
      Put(Rooted(Node(seps, left + [Part(s, a, n)]), 1), K(s, n), V(s, n))
      == Rooted(Node(seps + [K(s, mid)], left + [Part(s, a, mid), Part(s, mid, n + 1)]), 1)
  {
    hide K, V, Less, KeysFrom, ValsFrom;
    var mid := a + (n + 1 - a) / 2;
    var children := left + [Part(s, a, n)];
    LastChild(seps, K(s, n));
    AppendToPart(s, a, n);
    SplitPart(s, a, n + 1);
    var r := Two(Part(s, a, mid), K(s, mid), Part(s, mid, n + 1));
    assert Insert(children[|seps|], 0, K(s, n), V(s, n)) == r;
    assert Splice(seps, |seps|, |seps|, r.Keys()) == seps + [K(s, mid)];
    assert Splice(children, |seps|, |seps| + 1, r.Trees()) == left + r.Trees();
    KeysSizeConcat(seps, [K(s, mid)]);
    SeparatorsSize(s, seps);
    KeyLength(s, mid);
    assert KeysSize([K(s, mid)]) == 8 + |K(s, mid)|;
  }

  lemma KeyLength(s: Keyspace, i: nat)
    requires i < RECORDS
    ensures s.Least() <= |K(s, i)| <= s.Most() + 1
  {
  }

  lemma SeparatorsSize(s: Keyspace, seps: seq<Key>)
    requires |seps| <= 2 && forall i :: 0 <= i < |seps| ==> |seps[i]| <= s.Most() + 1
    ensures KeysSize(seps) <= 244
  {
    if |seps| == 2 {
      assert KeysSize(seps[1..]) == 8 + |seps[1]| + KeysSize(seps[1..][1..]);
    }
  }

  lemma {:induction false} LastChild(keys: seq<Key>, k: Key)
    requires forall i :: 0 <= i < |keys| ==> !Less(k, keys[i])
    ensures ChildIndex(keys, k) == |keys|
  {
    if keys != [] {
      LastChild(keys[1..], k);
    }
  }

  /** A put at the end of a single leaf, splitting it. */
  lemma SplitOnly(s: Keyspace, n: nat)
    requires 0 < n < RECORDS && Size(Part(s, 0, n + 1)) > SPLIT_THRESHOLD
    ensures var mid := (n + 1) / 2;
      Put(Rooted(Part(s, 0, n), 0), K(s, n), V(s, n)) == Rooted(Node([K(s, mid)], [Part(s, 0, mid), Part(s, mid, n + 1)]), 1)
  {
    hide K, V, Size;
    AppendToPart(s, 0, n);
    SplitPart(s, 0, n + 1);
  }

  lemma FirstSplit(s: Keyspace)
    ensures Run(Puts(s, 43)) == Rooted(Node([K(s, 21)], [Part(s, 0, 21), Part(s, 21, 43)]), 1)
  {
    hide K, V, Run, Puts, Total, EntrySize, Size, Put, Part;
    Filling(s, 42);
    PutsStep(s, 43);
    LargeTotal(s, 0, 43);
    PartSize(s, 0, 43);
    SplitOnly(s, 42);
  }

  lemma SecondSplit(s: Keyspace)
    ensures Run(Puts(s, 44)) == Rooted(Node([K(s, 21), K(s, 32)], [Part(s, 0, 21), Part(s, 21, 32), Part(s, 32, 44)]), 1)
  {
    hide K, V, Run, Puts, Total, EntrySize, Size, Put, Part, Less;
    FirstSplit(s);
    PutsStep(s, 44);
    LargeTotal(s, 21, 44);
    PartSize(s, 21, 44);
    KeyLength(s, 21);
    Ascending(s, 21, 43);
    assert [Part(s, 0, 21), Part(s, 21, 43)] == [Part(s, 0, 21)] + [Part(s, 21, 43)];
    SplitLast(s, [K(s, 21)], [Part(s, 0, 21)], 21, 43);
    assert [K(s, 21)] + [K(s, 32)] == [K(s, 21), K(s, 32)];
    assert [Part(s, 0, 21)] + [Part(s, 21, 32), Part(s, 32, 44)] == [Part(s, 0, 21), Part(s, 21, 32), Part(s, 32, 44)];
  }

  lemma ThirdSplit(s: Keyspace)
    ensures Run(Puts(s, 45)) == Rooted(Node([K(s, 21), K(s, 32), K(s, 38)], [Part(s, 0, 21), Part(s, 21, 32), Part(s, 32, 38), Part(s, 38, 45)]), 1)
  {
    hide K, V, Run, Puts, Total, EntrySize, Size, Put, Part, Less;
    SecondSplit(s);
    PutsStep(s, 45);
    LargeTotal(s, 32, 45);
    PartSize(s, 32, 45);
    KeyLength(s, 21);
    KeyLength(s, 32);
    Ascending(s, 21, 44);
    Ascending(s, 32, 44);
    var seps, left := [K(s, 21), K(s, 32)], [Part(s, 0, 21), Part(s, 21, 32)];
    assert [Part(s, 0, 21), Part(s, 21, 32), Part(s, 32, 44)] == left + [Part(s, 32, 44)];
    SplitLast(s, seps, left, 32, 44);
    assert seps + [K(s, 38)] == [K(s, 21), K(s, 32), K(s, 38)];
    assert left + [Part(s, 32, 38), Part(s, 38, 45)] == [Part(s, 0, 21), Part(s, 21, 32), Part(s, 32, 38), Part(s, 38, 45)];
  }

  /** The run ends with seven records of 4074 bytes in one leaf: 4098 bytes, two too many. */
  lemma RunOverflows(s: Keyspace)
    ensures KeysWithin(Puts(s, RECORDS), s.Least(), s.Most() + 1)
    ensures !RootFits(Run(Puts(s, RECORDS)))
  {
    hide V, Run, Total, EntrySize, Size, Part, K;
    forall i | 0 <= i < RECORDS ensures s.Least() <= |K(s, i)| <= s.Most() + 1 { KeyLength(s, i); }
    ThirdSplit(s);
    LargeTotal(s, 38, 45);
    PartSize(s, 38, 45);
    hide Puts;
    OverfullChild(Run(Puts(s, 45)).tree, Part(s, 38, 45));
  }

  lemma OverfullChild(t: Tree, leaf: Tree)
    requires Shape(t, 1) && t.Node? && leaf in t.children && Size(leaf) > PAGE_SIZE
    ensures !Fits(t, 1)
  {
    var i :| 0 <= i < |t.children| && t.children[i] == leaf;
    assert !Fits(t.children[i], 0);
  }

  /** Every run whose keys have at most `limit` bytes fits its pages if and only if `limit` is 75, or 113 with a file prefix. */
  lemma CapacityIsExact(s: Keyspace, limit: nat)
    ensures (forall ops :: KeysWithin(ops, s.Least(), limit) ==> RootFits(Run(ops))) <==> limit <= s.Most()
  {
    hide Run, RootFits;
    if limit <= s.Most() {
      forall ops | KeysWithin(ops, s.Least(), limit) ensures RootFits(Run(ops)) {
        RunFits(ops, s);
      }
    } else {
      RunOverflows(s);
      assert KeysWithin(Puts(s, RECORDS), s.Least(), limit);
    }
  }
}
