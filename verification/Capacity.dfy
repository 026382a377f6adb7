/** Every page fits: splits are triggered by bytes but cut by entry count, so this is arithmetic. */
module Capacity {
  import opened Bytes
  import opened SortedList
  import opened BTree
  import opened BTreePut
  import opened BTreeDelete

  /**
   * The stored keys a run may use: any, or only such as carry File Control's four-byte file prefix. How long they may
   * be depends on how short they can be, for many small records must come before a few large ones can crowd a page.
   * `CapacityLimit` shows that one byte more than `Most` overflows.
   */
  datatype Keyspace = AnyKeys | FiledKeys {
    function Least(): nat {
      if AnyKeys? then 0 else 4
    }
    function Most(): nat {
      if AnyKeys? then 75 else 113
    }
    function MaxEntry(): nat {
      20 + Most() + INLINE_VALUE_LIMIT
    }
    /** The least that `n` entries weigh; a leaf has one empty key at most. */
    function Lightest(n: nat): nat {
      if AnyKeys? then 21 * n else 24 * n
    }
    function Heaviest(n: nat): nat {
      if AnyKeys? then 607 * n else 645 * n
    }
  }

  predicate InSpace(key: Key, s: Keyspace) {
    s.Least() <= |key| <= s.Most()
  }

  ghost predicate AllInSpace(keys: seq<Key>, s: Keyspace) {
    forall i :: 0 <= i < |keys| ==> InSpace(keys[i], s)
  }

  /** Key bytes with the empty key counted as one byte. */
  function KeysWeight(keys: seq<Key>): nat {
    if keys == [] then 0 else 8 + (if keys[0] == [] then 1 else |keys[0]|) + KeysWeight(keys[1..])
  }

  function Weight(keys: seq<Key>, vals: seq<Bytes>): nat {
    24 + KeysWeight(keys) + ValuesSize(vals)
  }

  /**
   * How heavy an oversized leaf of `c` entries may be. A half can exceed the split threshold, but the more
   * entries it has, the more entries its discarded other half had, so the lighter it must be; one line for
   * a half of a small leaf, one for a half of such a half, and one for all further halves.
   */
  predicate Room(s: Keyspace, c: nat, weight: int) {
    match s
    case AnyKeys => c <= 6 || weight <= 3701 - 21 * c || weight <= 4371 - 63 * c || weight <= 5125 - 147 * c
    case FiledKeys => c <= 6 || weight <= 3742 - 24 * c || weight <= 4459 - 72 * c || weight <= 5272 - 168 * c
  }

  ghost predicate LeafRoomy(keys: seq<Key>, vals: seq<Bytes>, s: Keyspace)
    requires |keys| == |vals|
  {
    Size(Leaf(keys, vals)) <= SPLIT_THRESHOLD || Room(s, |keys|, Weight(keys, vals))
  }

  ghost predicate Roomy(t: Tree, h: nat, s: Keyspace)
    requires Shape(t, h)
    decreases h
  {
    && AllInSpace(t.keys, s)
    && match t
       case Leaf(keys, vals) => LeafRoomy(keys, vals, s)
       case Node(keys, children) =>
         Size(t) <= SPLIT_THRESHOLD && forall i :: 0 <= i < |children| ==> Roomy(children[i], h - 1, s)
  }

  /** No page of the tree overflows: `encode_page`'s assertion holds for every node. */
  ghost predicate Fits(t: Tree, h: nat)
    requires Shape(t, h)
    decreases h
  {
    Size(t) <= PAGE_SIZE && (t.Node? ==> forall i :: 0 <= i < |t.children| ==> Fits(t.children[i], h - 1))
  }

  lemma {:induction false} RoomyFits(t: Tree, h: nat, s: Keyspace)
    requires Shape(t, h) && Roomy(t, h, s)
    ensures Fits(t, h)
    decreases h
  {
    match t
    case Leaf(keys, vals) =>
      WeightBounds(keys, vals, s);
    case Node(keys, children) =>
      forall i | 0 <= i < |children| ensures Fits(children[i], h - 1) {
        RoomyFits(children[i], h - 1, s);
      }
  }

  lemma {:induction false} RoomyKeys(t: Tree, h: nat, e: Entry, s: Keyspace)
    requires Shape(t, h) && Roomy(t, h, s) && e in Entries(t, h)
    ensures InSpace(e.key, s)
    decreases h, 0
  {
    if t.Node? {
      RoomyForestKeys(t.children, h - 1, e, s);
    }
  }

  lemma {:induction false} RoomyForestKeys(f: seq<Tree>, h: nat, e: Entry, s: Keyspace)
    requires forall i :: 0 <= i < |f| ==> Shape(f[i], h) && Roomy(f[i], h, s)
    requires e in ForestEntries(f, h)
    ensures InSpace(e.key, s)
    decreases h, 1, |f|
  {
    if e in Entries(f[0], h) {
      RoomyKeys(f[0], h, e, s);
    } else {
      RoomyForestKeys(f[1..], h, e, s);
    }
  }

  // ----- sizes of vectors -----

  lemma {:induction false} KeysSizeConcat(a: seq<Key>, b: seq<Key>)
    ensures KeysSize(a + b) == KeysSize(a) + KeysSize(b)
  {
    if a == [] {
      assert a + b == b;
    } else {
      KeysSizeConcat(a[1..], b);
      assert (a + b)[1..] == a[1..] + b;
    }
  }

  lemma {:induction false} ValuesSizeConcat(a: seq<Bytes>, b: seq<Bytes>)
    ensures ValuesSize(a + b) == ValuesSize(a) + ValuesSize(b)
  {
    if a == [] {
      assert a + b == b;
    } else {
      ValuesSizeConcat(a[1..], b);
      assert (a + b)[1..] == a[1..] + b;
    }
  }

  lemma {:induction false} KeysWeightConcat(a: seq<Key>, b: seq<Key>)
    ensures KeysWeight(a + b) == KeysWeight(a) + KeysWeight(b)
  {
    if a == [] {
      assert a + b == b;
    } else {
      KeysWeightConcat(a[1..], b);
      assert (a + b)[1..] == a[1..] + b;
    }
  }

  lemma {:induction false} KeysSizeBounds(keys: seq<Key>, s: Keyspace)
    requires AllInSpace(keys, s)
    ensures 8 * |keys| <= KeysSize(keys) && s.Lightest(|keys|) <= KeysWeight(keys) + 12 * |keys|
    ensures KeysWeight(keys) + (12 + INLINE_VALUE_LIMIT) * |keys| <= s.Heaviest(|keys|)
    ensures KeysSize(keys) <= KeysWeight(keys)
  {
    if keys != [] {
      KeysSizeBounds(keys[1..], s);
    }
  }

  /** In a sorted leaf only the first key can be empty. */
  lemma WeightNearSize(keys: seq<Key>, vals: seq<Bytes>)
    requires |keys| == |vals| && StrictlySorted(Zip(keys, vals))
    ensures Weight(keys, vals) <= Size(Leaf(keys, vals)) + 1
  {
    if keys != [] {
      forall i | 0 < i < |keys| ensures keys[i] != [] {
        var z := Zip(keys, vals);
        assert Less(z[0].key, z[i].key);
      }
      NoEmptyKeys(keys[1..]);
    }
  }

  lemma {:induction false} NoEmptyKeys(keys: seq<Key>)
    requires forall i :: 0 <= i < |keys| ==> keys[i] != []
    ensures KeysWeight(keys) == KeysSize(keys)
  {
    if keys != [] {
      NoEmptyKeys(keys[1..]);
    }
  }

  lemma {:induction false} ValuesSizeBounds(vals: seq<Bytes>)
    ensures 12 * |vals| <= ValuesSize(vals) <= (12 + INLINE_VALUE_LIMIT) * |vals|
  {
    if vals != [] {
      ValuesSizeBounds(vals[1..]);
    }
  }

  lemma WeightBounds(keys: seq<Key>, vals: seq<Bytes>, s: Keyspace)
    requires |keys| == |vals| && AllInSpace(keys, s)
    ensures 24 + s.Lightest(|keys|) <= Weight(keys, vals) <= 24 + s.Heaviest(|keys|)
    ensures Size(Leaf(keys, vals)) <= Weight(keys, vals)
  {
    KeysSizeBounds(keys, s);
    ValuesSizeBounds(vals);
  }

  lemma KeysSizeSplice(keys: seq<Key>, i: nat, j: nat, mid: seq<Key>)
    requires i <= j <= |keys|
    ensures KeysSize(Splice(keys, i, j, mid)) + KeysSize(keys[i..j]) == KeysSize(keys) + KeysSize(mid)
  {
    hide KeysSize;
    KeysSizeConcat(keys[..i], mid);
    KeysSizeConcat(keys[..i] + mid, keys[j..]);
    KeysSizeConcat(keys[..i], keys[i..j]);
    KeysSizeConcat(keys[..i] + keys[i..j], keys[j..]);
    assert keys == keys[..i] + keys[i..j] + keys[j..];
  }

  lemma KeysWeightSplice(keys: seq<Key>, i: nat, j: nat, mid: seq<Key>)
    requires i <= j <= |keys|
    ensures KeysWeight(Splice(keys, i, j, mid)) + KeysWeight(keys[i..j]) == KeysWeight(keys) + KeysWeight(mid)
  {
    hide KeysWeight;
    KeysWeightConcat(keys[..i], mid);
    KeysWeightConcat(keys[..i] + mid, keys[j..]);
    KeysWeightConcat(keys[..i], keys[i..j]);
    KeysWeightConcat(keys[..i] + keys[i..j], keys[j..]);
    assert keys == keys[..i] + keys[i..j] + keys[j..];
  }

  lemma ValuesSizeSplice(vals: seq<Bytes>, i: nat, j: nat, mid: seq<Bytes>)
    requires i <= j <= |vals|
    ensures ValuesSize(Splice(vals, i, j, mid)) + ValuesSize(vals[i..j]) == ValuesSize(vals) + ValuesSize(mid)
  {
    hide ValuesSize;
    ValuesSizeConcat(vals[..i], mid);
    ValuesSizeConcat(vals[..i] + mid, vals[j..]);
    ValuesSizeConcat(vals[..i], vals[i..j]);
    ValuesSizeConcat(vals[..i] + vals[i..j], vals[j..]);
    assert vals == vals[..i] + vals[i..j] + vals[j..];
  }

  // ----- put -----

  /** An upsert adds at most one entry and at most one entry's weight. */
  lemma LeafUpsertWeight(keys: seq<Key>, vals: seq<Bytes>, k: Key, v: Bytes, s: Keyspace)
    requires |keys| == |vals| && AllInSpace(keys, s) && InSpace(k, s)
    ensures var t := LeafUpsert(keys, vals, k, v);
      && AllInSpace(t.keys, s)
      && |keys| <= |t.keys| <= |keys| + 1
      && Weight(t.keys, t.vals) <= Weight(keys, vals) + s.MaxEntry()
  {
    var i := Position(keys, k);
    ValuesSizeBounds([v]);
    if Found(keys, k) {
      ValuesSizeSplice(vals, i, i + 1, [v]);
      assert vals[i := v] == Splice(vals, i, i + 1, [v]);
    } else {
      KeysWeightSplice(keys, i, i, [k]);
      ValuesSizeSplice(vals, i, i, [v]);
      assert keys[i..i] == [] && vals[i..i] == [];
      KeysSizeBounds([k], s);
    }
  }

  lemma LeafHalves(keys: seq<Key>, vals: seq<Bytes>, mid: nat, s: Keyspace)
    requires |keys| == |vals| && AllInSpace(keys, s) && mid <= |keys|
    ensures AllInSpace(keys[..mid], s) && AllInSpace(keys[mid..], s)
    ensures Weight(keys[..mid], vals[..mid]) + Weight(keys[mid..], vals[mid..]) == Weight(keys, vals) + 24
  {
    KeysWeightConcat(keys[..mid], keys[mid..]);
    ValuesSizeConcat(vals[..mid], vals[mid..]);
    assert keys == keys[..mid] + keys[mid..] && vals == vals[..mid] + vals[mid..];
  }

  /** The arithmetic of one split: `c` entries gained an entry, became `n` of weight `total`, and were halved. */
  lemma HalfRoom(c: nat, weight: nat, n: nat, total: nat, h: nat, half: nat, s: Keyspace)
    requires weight <= SPLIT_THRESHOLD + 1 || Room(s, c, weight)
    requires c <= n <= c + 1 && total <= weight + s.MaxEntry()
    requires n - h + 1 >= h
    requires half <= total - s.Lightest(n - h)
    ensures Room(s, h, half)
  {
  }

  /** A leaf that has gained an entry is a roomy leaf, or splits into two, and neither half is empty. */
  lemma DivideLeafRoomy(keys: seq<Key>, vals: seq<Bytes>, c: nat, weight: nat, s: Keyspace)
    requires |keys| == |vals| && AllInSpace(keys, s)
    requires weight <= SPLIT_THRESHOLD + 1 || Room(s, c, weight)
    requires c <= |keys| <= c + 1 && Weight(keys, vals) <= weight + s.MaxEntry()
    ensures InsRoomy(Divide(Leaf(keys, vals), 0), 0, s)
    ensures var r := Divide(Leaf(keys, vals), 0); r.Two? ==> r.left.keys != [] && r.right.keys != []
  {
    WeightBounds(keys, vals, s);
    if Size(Leaf(keys, vals)) > SPLIT_THRESHOLD {
      var n, mid, total := |keys|, |keys| / 2, Weight(keys, vals);
      LeafHalves(keys, vals, mid, s);
      WeightBounds(keys[..mid], vals[..mid], s);
      WeightBounds(keys[mid..], vals[mid..], s);
      HalfRoom(c, weight, n, total, mid, Weight(keys[..mid], vals[..mid]), s);
      HalfRoom(c, weight, n, total, n - mid, Weight(keys[mid..], vals[mid..]), s);
    }
  }

  ghost predicate InsRoomy(r: Ins, h: nat, s: Keyspace)
    requires r.Shaped(h)
  {
    if r.One? then Roomy(r.t, h, s) else InSpace(r.sep, s) && Roomy(r.left, h, s) && Roomy(r.right, h, s)
  }

  /** Key bytes before, at and after the middle key. */
  lemma KeysAround(keys: seq<Key>, mid: nat, s: Keyspace)
    requires AllInSpace(keys, s) && mid < |keys|
    ensures KeysSize(keys) == KeysSize(keys[..mid]) + (8 + |keys[mid]|) + KeysSize(keys[mid + 1..])
    ensures 8 * mid <= KeysSize(keys[..mid]) && 8 * (|keys| - mid - 1) <= KeysSize(keys[mid + 1..])
  {
    var left, right := keys[..mid], keys[mid + 1..];
    KeysSizeBounds(left, s);
    KeysSizeBounds(right, s);
    assert KeysSize([keys[mid]]) == 8 + |keys[mid]|;
    hide KeysSize;
    KeysSizeConcat(left, [keys[mid]]);
    KeysSizeConcat(left + [keys[mid]], right);
    assert keys == left + [keys[mid]] + right;
  }

  lemma ManyKeys(keys: seq<Key>, s: Keyspace)
    requires AllInSpace(keys, s) && 24 + KeysSize(keys) + 8 * (|keys| + 1) > SPLIT_THRESHOLD
    ensures |keys| >= 24
  {
    KeysSizeBounds(keys, s);
    hide KeysSize;
  }

  lemma NodeHalvesRoomy(keys: seq<Key>, mid: nat, s: Keyspace)
    requires AllInSpace(keys, s) && 24 + KeysSize(keys) + 8 * (|keys| + 1) <= SPLIT_THRESHOLD + 16 + s.Most()
    requires 24 + KeysSize(keys) + 8 * (|keys| + 1) > SPLIT_THRESHOLD && mid == |keys| / 2
    ensures 12 <= mid < |keys| - 1
    ensures 24 + KeysSize(keys[..mid]) + 8 * (mid + 1) <= SPLIT_THRESHOLD
    ensures 24 + KeysSize(keys[mid + 1..]) + 8 * (|keys| - mid) <= SPLIT_THRESHOLD
  {
    hide KeysSize;
    ManyKeys(keys, s);
    KeysAround(keys, mid, s);
  }

  lemma DivideNodeRoomy(keys: seq<Key>, children: seq<Tree>, h: nat, s: Keyspace)
    requires Shape(Node(keys, children), h + 1) && AllInSpace(keys, s)
    requires forall i :: 0 <= i < |children| ==> Roomy(children[i], h, s)
    requires Size(Node(keys, children)) <= SPLIT_THRESHOLD + 16 + s.Most()
    ensures InsRoomy(Divide(Node(keys, children), h + 1), h + 1, s)
    ensures var r := Divide(Node(keys, children), h + 1); r.Two? ==> r.left.keys != [] && r.right.keys != []
  {
    if Size(Node(keys, children)) > SPLIT_THRESHOLD {
      NodeHalvesRoomy(keys, |keys| / 2, s);
      hide KeysSize;
    }
  }

  lemma {:induction false} InsertRoomy(t: Tree, h: nat, k: Key, v: Bytes, lo: Option<Key>, hi: Option<Key>, s: Keyspace)
    requires Valid(t, h, lo, hi) && Roomy(t, h, s) && InRange(k, lo, hi) && InSpace(k, s)
    ensures InsRoomy(Insert(t, h, k, v), h, s)
    decreases h
  {
    hide InRange, Ordered, InsRoomy;
    match t
    case Leaf(keys, vals) => InsertLeafRoomy(keys, vals, k, v, lo, hi, s);
    case Node(keys, children) =>
      var i := ChildIndex(keys, k);
      NodeIsForest(keys, children, h, lo, hi);
      ChildIndexBounds(keys, children, h - 1, k, lo, hi);
      InsertRoomy(children[i], h - 1, k, v, LowBound(keys, lo, i), HighBound(keys, hi, i), s);
      InsertNodeRoomy(t, h, k, v, Insert(children[i], h - 1, k, v), s);
  }

  lemma NodeIsForest(keys: seq<Key>, children: seq<Tree>, h: nat, lo: Option<Key>, hi: Option<Key>)
    requires Valid(Node(keys, children), h, lo, hi)
    ensures Forest(keys, children, h - 1, lo, hi)
  {
  }

  lemma InsertLeafRoomy(keys: seq<Key>, vals: seq<Bytes>, k: Key, v: Bytes, lo: Option<Key>, hi: Option<Key>, s: Keyspace)
    requires Valid(Leaf(keys, vals), 0, lo, hi) && Roomy(Leaf(keys, vals), 0, s) && InSpace(k, s)
    ensures InsRoomy(Insert(Leaf(keys, vals), 0, k, v), 0, s)
  {
    LeafUpsertWeight(keys, vals, k, v, s);
    WeightNearSize(keys, vals);
    var t' := LeafUpsert(keys, vals, k, v);
    DivideLeafRoomy(t'.keys, t'.vals, |keys|, Weight(keys, vals), s);
  }

  lemma InsertNodeRoomy(t: Tree, h: nat, k: Key, v: Bytes, r: Ins, s: Keyspace)
    requires t.Node? && Shape(t, h) && Roomy(t, h, s)
    requires r == Insert(t.children[ChildIndex(t.keys, k)], h - 1, k, v) && InsRoomy(r, h - 1, s)
    ensures InsRoomy(Insert(t, h, k, v), h, s)
  {
    hide *;
    NodeShape(t, h, k);
    InsertIsDivide(t, h, k, v, ChildIndex(t.keys, k), r);
    SpliceRoomy(t.keys, t.children, ChildIndex(t.keys, k), r, h - 1, s);
  }

  lemma NodeShape(t: Tree, h: nat, k: Key)
    requires t.Node? && Shape(t, h)
    ensures |t.children| == |t.keys| + 1 && h > 0 && (forall i :: 0 <= i < |t.children| ==> Shape(t.children[i], h - 1))
    ensures t == Node(t.keys, t.children) && ChildIndex(t.keys, k) <= |t.keys|
  {
  }

  lemma InsertIsDivide(t: Tree, h: nat, k: Key, v: Bytes, i: nat, r: Ins)
    requires t.Node? && Shape(t, h) && |t.children| == |t.keys| + 1 && h > 0 && i <= |t.keys| && i == ChildIndex(t.keys, k)
    requires Shape(t.children[i], h - 1) && r == Insert(t.children[i], h - 1, k, v)
    ensures var n := Node(Splice(t.keys, i, i, r.Keys()), Splice(t.children, i, i + 1, r.Trees()));
      Shape(n, h) && Insert(t, h, k, v) == Divide(n, h)
  {
    hide Divide;
    SpliceShape(t.keys, t.children, i, r, h);
  }

  lemma SpliceRoomy(keys: seq<Key>, children: seq<Tree>, i: nat, r: Ins, h: nat, s: Keyspace)
    requires Shape(Node(keys, children), h + 1) && i < |children| && Roomy(Node(keys, children), h + 1, s)
    requires r.Shaped(h) && InsRoomy(r, h, s)
    ensures var t := Node(Splice(keys, i, i, r.Keys()), Splice(children, i, i + 1, r.Trees()));
      Shape(t, h + 1) && InsRoomy(Divide(t, h + 1), h + 1, s)
  {
    var keys', children' := Splice(keys, i, i, r.Keys()), Splice(children, i, i + 1, r.Trees());
    KeysSizeSplice(keys, i, i, r.Keys());
    assert keys[i..i] == [];
    assert r.Two? ==> KeysSize([r.sep]) == 8 + |r.sep|;
    assert forall j :: 0 <= j < |children'| ==> Shape(children'[j], h) && Roomy(children'[j], h, s);
    DivideNodeRoomy(keys', children', h, s);
  }

  // ----- delete -----

  lemma LeafRemoveRoomy(keys: seq<Key>, vals: seq<Bytes>, k: Key, s: Keyspace)
    requires |keys| == |vals| && Roomy(Leaf(keys, vals), 0, s) && Found(keys, k)
    ensures Roomy(LeafRemove(keys, vals, k), 0, s)
  {
    var i := Position(keys, k);
    KeysSizeSplice(keys, i, i + 1, []);
    KeysWeightSplice(keys, i, i + 1, []);
    ValuesSizeSplice(vals, i, i + 1, []);
    assert KeysSize([]) == KeysWeight([]) == ValuesSize([]) == 0;
    var keys', vals' := Splice(keys, i, i + 1, []), Splice(vals, i, i + 1, []);
    hide KeysSize, KeysWeight, ValuesSize, Position;
    Lighter(keys, vals, keys', vals', s);
  }

  lemma Lighter(keys: seq<Key>, vals: seq<Bytes>, keys': seq<Key>, vals': seq<Bytes>, s: Keyspace)
    requires |keys| == |vals| && |keys'| == |vals'| <= |keys| && LeafRoomy(keys, vals, s)
    requires KeysSize(keys') <= KeysSize(keys) && KeysWeight(keys') <= KeysWeight(keys) && ValuesSize(vals') <= ValuesSize(vals)
    ensures LeafRoomy(keys', vals', s)
  {
    hide KeysSize, KeysWeight, ValuesSize;
  }

  /** Folding a pair of siblings that fit one page shrinks the parent. */
  lemma FoldRoomy(keys: seq<Key>, children: seq<Tree>, i: nat, h: nat, s: Keyspace)
    requires Shape(Node(keys, children), h + 1) && i < |keys|
    requires Roomy(Node(keys, children), h + 1, s)
    requires Size(Merged(children[i], children[i + 1], keys[i], h)) <= SPLIT_THRESHOLD
    ensures var m := Merged(children[i], children[i + 1], keys[i], h);
      var t := Node(Splice(keys, i, i + 1, []), Splice(children, i, i + 2, [m]));
      Shape(t, h + 1) && Roomy(t, h + 1, s)
  {
    var m := Merged(children[i], children[i + 1], keys[i], h);
    var children' := Splice(children, i, i + 2, [m]);
    KeysSizeSplice(keys, i, i + 1, []);
    assert Roomy(children[i], h, s) && Roomy(children[i + 1], h, s);
    assert Roomy(m, h, s);
    assert forall j :: 0 <= j < |children'| ==> Shape(children'[j], h) && Roomy(children'[j], h, s);
  }

  lemma RebalanceRoomy(keys: seq<Key>, children: seq<Tree>, i: nat, h: nat, s: Keyspace)
    requires Shape(Node(keys, children), h + 1) && i < |children|
    requires Roomy(Node(keys, children), h + 1, s)
    ensures Roomy(Rebalance(keys, children, i, h), h + 1, s)
  {
    if Underfull(children[i]) {
      if i + 1 < |children| && TryMerge(children[i], children[i + 1], keys[i], h).Some? {
        FoldRoomy(keys, children, i, h, s);
      } else if i > 0 && TryMerge(children[i - 1], children[i], keys[i - 1], h).Some? {
        FoldRoomy(keys, children, i - 1, h, s);
      }
    }
  }

  lemma {:induction false} DeleteRecRoomy(t: Tree, h: nat, k: Key, s: Keyspace)
    requires Shape(t, h) && Roomy(t, h, s)
    ensures Roomy(DeleteRec(t, h, k).0, h, s)
    decreases h
  {
    hide Roomy, Rebalance, LeafRemove;
    match t
    case Leaf(keys, vals) =>
      if Found(keys, k) {
        LeafRemoveRoomy(keys, vals, k, s);
      }
    case Node(keys, children) =>
      var i := ChildIndex(keys, k);
      RoomyChild(t, i, h, s);
      DeleteRecRoomy(children[i], h - 1, k, s);
      ReplacedRoomy(keys, children, i, DeleteRec(children[i], h - 1, k).0, h - 1, s);
      RebalanceRoomy(keys, children[i := DeleteRec(children[i], h - 1, k).0], i, h - 1, s);
  }

  lemma RoomyChild(t: Tree, i: nat, h: nat, s: Keyspace)
    requires Shape(t, h) && Roomy(t, h, s) && t.Node? && i < |t.children|
    ensures Roomy(t.children[i], h - 1, s)
  {
  }

  lemma ReplacedRoomy(keys: seq<Key>, children: seq<Tree>, i: nat, c: Tree, h: nat, s: Keyspace)
    requires Shape(Node(keys, children), h + 1) && Roomy(Node(keys, children), h + 1, s) && i < |children| && Shape(c, h) && Roomy(c, h, s)
    ensures Shape(Node(keys, children[i := c]), h + 1) && Roomy(Node(keys, children[i := c]), h + 1, s)
  {
  }

  lemma {:induction false} FinalizeRoomy(t: Tree, h: nat, s: Keyspace)
    requires Shape(t, h) && Roomy(t, h, s)
    ensures RootRoomy(FinalizeRoot(t, h), s)
    decreases h
  {
    if t.keys == [] && t.Node? {
      FinalizeRoomy(t.children[0], h - 1, s);
    }
  }

  // ----- whole runs -----

  ghost predicate RootRoomy(r: Root, s: Keyspace)
    requires RootShape(r)
  {
    r.Rooted? ==> Roomy(r.tree, r.height, s)
  }

  ghost predicate RootFits(r: Root)
    requires RootShape(r)
  {
    r.Rooted? ==> Fits(r.tree, r.height)
  }

  lemma RoomyRootFits(r: Root, s: Keyspace)
    requires RootShape(r) && RootRoomy(r, s)
    ensures RootFits(r)
  {
    if r.Rooted? {
      RoomyFits(r.tree, r.height, s);
    }
  }

  datatype Op = PutOp(key: Key, value: Bytes) | DeleteOp(key: Key)

  function Apply(r: Root, op: Op): (r': Root)
    requires RootShape(r)
    ensures RootShape(r')
  {
    match op
    case PutOp(k, v) => Put(r, k, v)
    case DeleteOp(k) => Delete(r, k).0
  }

  function Run(ops: seq<Op>): (r: Root)
    ensures RootShape(r)
  {
    if ops == [] then Empty else Apply(Run(ops[..|ops| - 1]), ops[|ops| - 1])
  }

  function RunMap(ops: seq<Op>): map<Key, Bytes> {
    if ops == [] then map[]
    else
      var m := RunMap(ops[..|ops| - 1]);
      match ops[|ops| - 1]
      case PutOp(k, v) => m[k := v]
      case DeleteOp(k) => m - {k}
  }

  lemma PutRoomy(r: Root, k: Key, v: Bytes, s: Keyspace)
    requires RootValid(r) && RootRoomy(r, s) && InSpace(k, s)
    ensures RootRoomy(Put(r, k, v), s)
  {
    hide Insert, Divide;
    if r.Rooted? {
      InsertRoomy(r.tree, r.height, k, v, None, None, s);
      if Insert(r.tree, r.height, k, v).Two? {
        GrownRoomy(Insert(r.tree, r.height, k, v), r.height, s);
      }
    } else {
      ValuesSizeBounds([v]);
      assert KeysSize([k]) == 8 + |k|;
    }
  }

  /** A new root over two halves. */
  lemma GrownRoomy(r: Ins, h: nat, s: Keyspace)
    requires r.Two? && r.Shaped(h) && InsRoomy(r, h, s)
    ensures Roomy(Node([r.sep], [r.left, r.right]), h + 1, s)
  {
    assert KeysSize([r.sep]) == 8 + |r.sep|;
  }

  lemma DeleteRoomy(r: Root, k: Key, s: Keyspace)
    requires RootShape(r) && RootRoomy(r, s)
    ensures RootRoomy(Delete(r, k).0, s)
  {
    if r.Rooted? {
      DeleteRecRoomy(r.tree, r.height, k, s);
      FinalizeRoomy(DeleteRec(r.tree, r.height, k).0, r.height, s);
    }
  }

  /** Whatever the run of puts and deletes, the tree denotes the map it should. */
  lemma {:induction false} RunDenotesMap(ops: seq<Op>)
    ensures RootValid(Run(ops))
    ensures ToMap(RootEntries(Run(ops))) == RunMap(ops)
  {
    if ops != [] {
      var r := Run(ops[..|ops| - 1]);
      RunDenotesMap(ops[..|ops| - 1]);
      match ops[|ops| - 1]
      case PutOp(k, v) => PutCorrect(r, k, v);
      case DeleteOp(k) => DeleteCorrect(r, k);
    }
  }

  /** And its root, if it has one, has a key: what deletes leave of the tree is always collapsed. */
  lemma {:induction false} RunTrimmed(ops: seq<Op>)
    ensures Trimmed(Run(ops))
  {
    if ops != [] {
      RunTrimmed(ops[..|ops| - 1]);
      match ops[|ops| - 1]
      case PutOp(k, v) => PutTrimmed(Run(ops[..|ops| - 1]), k, v);
      case DeleteOp(k) => DeleteTrimmed(Run(ops[..|ops| - 1]), k);
    }
  }

  predicate KeysWithin(ops: seq<Op>, least: nat, most: nat) {
    forall i :: 0 <= i < |ops| && ops[i].PutOp? ==> least <= |ops[i].key| <= most
  }

  /** Whatever the run, if stored keys stay within their space then no page ever overflows. */
  lemma {:induction false} RunFits(ops: seq<Op>, s: Keyspace)
    requires KeysWithin(ops, s.Least(), s.Most())
    ensures RootRoomy(Run(ops), s)
    ensures RootFits(Run(ops))
  {
    if ops != [] {
      var r := Run(ops[..|ops| - 1]);
      RunFits(ops[..|ops| - 1], s);
      RunDenotesMap(ops[..|ops| - 1]);
      match ops[|ops| - 1] {
        case PutOp(k, v) => PutRoomy(r, k, v, s);
        case DeleteOp(k) => DeleteRoomy(r, k, s);
      }
    }
    RoomyRootFits(Run(ops), s);
  }
}
