/** The copy-on-write B-tree of src/storage/btree.rs on values: page ids erased, same branches. */
module BTree {
  import opened Bytes
  import opened SortedList

  const SPLIT_THRESHOLD: nat := 3072
  const MERGE_THRESHOLD: nat := SPLIT_THRESHOLD / 4
  const INLINE_VALUE_LIMIT: nat := 512
  const PAGE_SIZE: nat := 4096

  datatype Tree =
    | Leaf(keys: seq<Key>, vals: seq<Bytes>)
    | Node(keys: seq<Key>, children: seq<Tree>)

  // ----- encoded size, in bytes, of the page a node occupies -----

  /** Bytes a stored value takes in its leaf: variant and length words, then the bytes or the chain head. */
  function ValueSize(v: Bytes): nat {
    if |v| <= INLINE_VALUE_LIMIT then 12 + |v| else 20
  }

  function KeysSize(keys: seq<Key>): nat {
    if keys == [] then 0 else 8 + |keys[0]| + KeysSize(keys[1..])
  }

  function ValuesSize(vals: seq<Bytes>): nat {
    if vals == [] then 0 else ValueSize(vals[0]) + ValuesSize(vals[1..])
  }

  function Size(t: Tree): nat {
    match t
    case Leaf(keys, vals) => 24 + KeysSize(keys) + ValuesSize(vals)
    case Node(keys, children) => 24 + KeysSize(keys) + 8 * |children|
  }

  // ----- well-formed trees -----

  /** All leaves at depth `h`, and one more child than separators in every internal node. */
  predicate Shape(t: Tree, h: nat)
    decreases h
  {
    match t
    case Leaf(keys, vals) => h == 0 && |keys| == |vals|
    case Node(keys, children) =>
      && h > 0
      && |children| == |keys| + 1
      && forall i :: 0 <= i < |children| ==> Shape(children[i], h - 1)
  }

  function Zip(keys: seq<Key>, vals: seq<Bytes>): (l: seq<Entry>)
    requires |keys| == |vals|
    ensures |l| == |keys|
  {
    seq(|keys|, i requires 0 <= i < |keys| => Entry(keys[i], vals[i]))
  }

  /** The records of a tree, left to right. */
  function Entries(t: Tree, h: nat): seq<Entry>
    requires Shape(t, h)
    decreases h, 0
  {
    match t
    case Leaf(keys, vals) => Zip(keys, vals)
    case Node(keys, children) => ForestEntries(children, h - 1)
  }

  function ForestEntries(f: seq<Tree>, h: nat): seq<Entry>
    requires forall i :: 0 <= i < |f| ==> Shape(f[i], h)
    decreases h, 1, |f|
  {
    if f == [] then [] else Entries(f[0], h) + ForestEntries(f[1..], h)
  }

  /** Every key of the subtree, separators included, lies between `lo` and `hi`, and order is respected. */
  ghost predicate Ordered(t: Tree, h: nat, lo: Option<Key>, hi: Option<Key>)
    requires Shape(t, h)
    decreases h, 0
  {
    match t
    case Leaf(keys, vals) => SortedIn(Zip(keys, vals), lo, hi)
    case Node(keys, children) => ForestOrdered(keys, children, h - 1, lo, hi)
  }

  /** Child `i` holds only keys in `[keys[i-1], keys[i])`. */
  ghost predicate ForestOrdered(keys: seq<Key>, f: seq<Tree>, h: nat, lo: Option<Key>, hi: Option<Key>)
    requires |f| == |keys| + 1
    requires forall i :: 0 <= i < |f| ==> Shape(f[i], h)
    decreases h, 1, |f|
  {
    if keys == [] then Ordered(f[0], h, lo, hi) && BoundsLe(lo, hi)
    else
      && BoundsLe(lo, Some(keys[0]))
      && Ordered(f[0], h, lo, Some(keys[0]))
      && ForestOrdered(keys[1..], f[1..], h, Some(keys[0]), hi)
  }

  predicate BoundsLe(lo: Option<Key>, hi: Option<Key>) {
    lo.Some? && hi.Some? ==> Le(lo.value, hi.value)
  }

  ghost predicate Forest(keys: seq<Key>, f: seq<Tree>, h: nat, lo: Option<Key>, hi: Option<Key>) {
    && |f| == |keys| + 1
    && (forall i :: 0 <= i < |f| ==> Shape(f[i], h))
    && ForestOrdered(keys, f, h, lo, hi)
  }

  ghost predicate Valid(t: Tree, h: nat, lo: Option<Key>, hi: Option<Key>) {
    Shape(t, h) && Ordered(t, h, lo, hi)
  }

  // ----- forests: bounds, cutting at a separator, replacing a window of children -----

  function LowBound(keys: seq<Key>, lo: Option<Key>, i: nat): Option<Key>
    requires i <= |keys|
  {
    if i == 0 then lo else Some(keys[i - 1])
  }

  function HighBound(keys: seq<Key>, hi: Option<Key>, i: nat): Option<Key>
    requires i <= |keys|
  {
    if i == |keys| then hi else Some(keys[i])
  }

  lemma {:induction false} ForestBounds(keys: seq<Key>, f: seq<Tree>, h: nat, lo: Option<Key>, hi: Option<Key>)
    requires Forest(keys, f, h, lo, hi)
    ensures BoundsLe(lo, hi)
    decreases |f|
  {
    OrderFacts();
    if keys != [] {
      ForestBounds(keys[1..], f[1..], h, Some(keys[0]), hi);
    }
  }

  /** A forest cut at separator `i` is two forests, and conversely two forests join at a separator. */
  lemma {:induction false} ForestCut(keys: seq<Key>, f: seq<Tree>, i: nat, h: nat, lo: Option<Key>, hi: Option<Key>)
    requires |f| == |keys| + 1 && i < |keys|
    ensures Forest(keys, f, h, lo, hi) <==>
            Forest(keys[..i], f[..i + 1], h, lo, Some(keys[i])) && Forest(keys[i + 1..], f[i + 1..], h, Some(keys[i]), hi)
    decreases |f|
  {
    var ka, kb, fa, fb := keys[..i], keys[i + 1..], f[..i + 1], f[i + 1..];
    assert f == fa + fb;
    assert forall j :: 0 <= j < |fb| ==> fb[j] == f[i + 1 + j];
    if i == 0 {
      assert fa == [f[0]] && ka == [];
    } else {
      ForestCut(keys[1..], f[1..], i - 1, h, Some(keys[0]), hi);
      assert keys[1..][..i - 1] == ka[1..] && f[1..][..i] == fa[1..];
      assert keys[1..][i..] == kb && f[1..][i..] == fb;
      assert f == [f[0]] + f[1..] && fa == [fa[0]] + fa[1..];
    }
  }

  lemma {:induction false} ForestEntriesConcat(a: seq<Tree>, b: seq<Tree>, h: nat)
    requires forall i :: 0 <= i < |a| ==> Shape(a[i], h)
    requires forall i :: 0 <= i < |b| ==> Shape(b[i], h)
    ensures forall i :: 0 <= i < |a + b| ==> Shape((a + b)[i], h)
    ensures ForestEntries(a + b, h) == ForestEntries(a, h) + ForestEntries(b, h)
  {
    if a == [] {
      assert a + b == b;
    } else {
      ForestEntriesConcat(a[1..], b, h);
      assert (a + b)[1..] == a[1..] + b;
    }
  }

  /** The children `f[i..i + w]` form a forest between their outer separators. */
  lemma WindowForest(keys: seq<Key>, f: seq<Tree>, i: nat, w: nat, h: nat, lo: Option<Key>, hi: Option<Key>)
    requires Forest(keys, f, h, lo, hi) && w > 0 && i + w <= |f|
    ensures Forest(keys[i..i + w - 1], f[i..i + w], h, LowBound(keys, lo, i), HighBound(keys, hi, i + w - 1))
    ensures i > 0 ==> Forest(keys[..i - 1], f[..i], h, lo, Some(keys[i - 1]))
    ensures i + w < |f| ==> Forest(keys[i + w..], f[i + w..], h, Some(keys[i + w - 1]), hi)
  {
    var kr, fr := keys[i..], f[i..];
    if i > 0 {
      ForestCut(keys, f, i - 1, h, lo, hi);
    } else {
      assert kr == keys && fr == f;
    }
    if i + w < |f| {
      ForestCut(kr, fr, w - 1, h, LowBound(keys, lo, i), hi);
      assert kr[..w - 1] == keys[i..i + w - 1] && fr[..w] == f[i..i + w];
      assert kr[w..] == keys[i + w..] && fr[w..] == f[i + w..];
    } else {
      assert kr == keys[i..i + w - 1] && fr == f[i..i + w];
    }
  }

  function Splice<T>(s: seq<T>, i: nat, j: nat, mid: seq<T>): seq<T>
    requires i <= j <= |s|
  {
    s[..i] + mid + s[j..]
  }

  /** Any other forest between the same outer separators may stand in the window's place. */
  lemma WindowReplace(keys: seq<Key>, f: seq<Tree>, i: nat, w: nat, nk: seq<Key>, nf: seq<Tree>,
                      h: nat, lo: Option<Key>, hi: Option<Key>)
    requires Forest(keys, f, h, lo, hi) && w > 0 && i + w <= |f|
    requires Forest(nk, nf, h, LowBound(keys, lo, i), HighBound(keys, hi, i + w - 1))
    ensures Forest(Splice(keys, i, i + w - 1, nk), Splice(f, i, i + w, nf), h, lo, hi)
  {
    hide ForestOrdered, BoundsLe;
    WindowForest(keys, f, i, w, h, lo, hi);
    var low := LowBound(keys, lo, i);
    var kr, fr := nk + keys[i + w - 1..], nf + f[i + w..];
    if i + w < |f| {
      JoinForests(nk, nf, keys[i + w - 1], keys[i + w..], f[i + w..], h, low, hi);
      assert kr == nk + [keys[i + w - 1]] + keys[i + w..];
    } else {
      assert kr == nk && fr == nf;
    }
    var k2, f2 := Splice(keys, i, i + w - 1, nk), Splice(f, i, i + w, nf);
    if i > 0 {
      JoinForests(keys[..i - 1], f[..i], keys[i - 1], kr, fr, h, lo, hi);
      assert k2 == keys[..i - 1] + [keys[i - 1]] + kr;
      assert f2 == f[..i] + fr;
    } else {
      assert k2 == kr && f2 == fr;
    }
  }

  lemma JoinForests(ka: seq<Key>, fa: seq<Tree>, m: Key, kb: seq<Key>, fb: seq<Tree>, h: nat, lo: Option<Key>, hi: Option<Key>)
    requires Forest(ka, fa, h, lo, Some(m)) && Forest(kb, fb, h, Some(m), hi)
    ensures Forest(ka + [m] + kb, fa + fb, h, lo, hi)
  {
    var k, f := ka + [m] + kb, fa + fb;
    ForestCut(k, f, |ka|, h, lo, hi);
    assert k[..|ka|] == ka && k[|ka|] == m && k[|ka| + 1..] == kb;
    assert f[..|ka| + 1] == fa && f[|ka| + 1..] == fb;
  }

  lemma ForestEntriesWindow(f: seq<Tree>, i: nat, w: nat, h: nat)
    requires i + w <= |f|
    requires forall j :: 0 <= j < |f| ==> Shape(f[j], h)
    ensures ForestEntries(f, h) == ForestEntries(f[..i], h) + ForestEntries(f[i..i + w], h) + ForestEntries(f[i + w..], h)
  {
    ForestEntriesConcat(f[..i], f[i..i + w], h);
    ForestEntriesConcat(f[..i] + f[i..i + w], f[i + w..], h);
    assert f == f[..i] + f[i..i + w] + f[i + w..];
  }

  lemma ForestEntriesAt(f: seq<Tree>, i: nat, h: nat)
    requires i < |f|
    requires forall j :: 0 <= j < |f| ==> Shape(f[j], h)
    ensures ForestEntries(f, h) == ForestEntries(f[..i], h) + Entries(f[i], h) + ForestEntries(f[i + 1..], h)
  {
    ForestEntriesWindow(f, i, 1, h);
    assert f[i..i + 1] == [f[i]];
    assert ForestEntries([f[i]], h) == Entries(f[i], h);
  }

  /** The records of a well-formed tree come out strictly sorted and within its bounds. */
  lemma {:induction false} EntriesSorted(t: Tree, h: nat, lo: Option<Key>, hi: Option<Key>)
    requires Valid(t, h, lo, hi)
    ensures SortedIn(Entries(t, h), lo, hi)
    decreases h, 0
  {
    if t.Node? {
      ForestSorted(t.keys, t.children, h - 1, lo, hi);
    }
  }

  lemma {:induction false} ForestSorted(keys: seq<Key>, f: seq<Tree>, h: nat, lo: Option<Key>, hi: Option<Key>)
    requires Forest(keys, f, h, lo, hi)
    ensures SortedIn(ForestEntries(f, h), lo, hi)
    decreases h, 1, |f|
  {
    if keys == [] {
      EntriesSorted(f[0], h, lo, hi);
      assert ForestEntries(f, h) == Entries(f[0], h);
    } else {
      EntriesSorted(f[0], h, lo, Some(keys[0]));
      ForestSorted(keys[1..], f[1..], h, Some(keys[0]), hi);
      ForestBounds(keys[1..], f[1..], h, Some(keys[0]), hi);
      SortedConcat(Entries(f[0], h), ForestEntries(f[1..], h), lo, keys[0], hi);
    }
  }

  // ----- descent -----

  /** The number of leading separators that are `<= k` (`partition_point`). */
  function ChildIndex(keys: seq<Key>, k: Key): (i: nat)
    ensures i <= |keys|
  {
    if keys == [] || Less(k, keys[0]) then 0 else 1 + ChildIndex(keys[1..], k)
  }

  /** Position of `k` in a sorted leaf, or where it would be inserted (`binary_search`). */
  function Position(keys: seq<Key>, k: Key): (i: nat)
    ensures i <= |keys|
  {
    if keys == [] || !Less(keys[0], k) then 0 else 1 + Position(keys[1..], k)
  }

  predicate Found(keys: seq<Key>, k: Key) {
    var i := Position(keys, k);
    i < |keys| && keys[i] == k
  }

  /** Descent picks the one child whose bounds admit the key. */
  lemma {:induction false} ChildIndexBounds(keys: seq<Key>, f: seq<Tree>, h: nat, k: Key, lo: Option<Key>, hi: Option<Key>)
    requires Forest(keys, f, h, lo, hi) && InRange(k, lo, hi)
    ensures var i := ChildIndex(keys, k);
      && InRange(k, LowBound(keys, lo, i), HighBound(keys, hi, i))
      && Valid(f[i], h, LowBound(keys, lo, i), HighBound(keys, hi, i))
      && BoundsLe(LowBound(keys, lo, i), HighBound(keys, hi, i))
    decreases |f|
  {
    ForestBounds(keys, f, h, lo, hi);
    if keys != [] && !Less(k, keys[0]) {
      ChildIndexBounds(keys[1..], f[1..], h, k, Some(keys[0]), hi);
    }
  }

  /** All records left of the chosen child are below the key and all records right of it above. */
  lemma AroundChild(keys: seq<Key>, f: seq<Tree>, h: nat, k: Key, lo: Option<Key>, hi: Option<Key>)
    requires Forest(keys, f, h, lo, hi) && InRange(k, lo, hi)
    ensures var i := ChildIndex(keys, k);
      && AllBelow(ForestEntries(f[..i], h), k)
      && AllAbove(ForestEntries(f[i + 1..], h), k)
      && ForestEntries(f, h) == ForestEntries(f[..i], h) + Entries(f[i], h) + ForestEntries(f[i + 1..], h)
  {
    var i := ChildIndex(keys, k);
    ChildIndexBounds(keys, f, h, k, lo, hi);
    WindowForest(keys, f, i, 1, h, lo, hi);
    ForestEntriesAt(f, i, h);
    if i > 0 {
      ForestSorted(keys[..i - 1], f[..i], h, lo, Some(keys[i - 1]));
      BelowBound(ForestEntries(f[..i], h), lo, keys[i - 1], k);
    }
    if i < |keys| {
      ForestSorted(keys[i + 1..], f[i + 1..], h, Some(keys[i]), hi);
      AboveBound(ForestEntries(f[i + 1..], h), keys[i], hi, k);
    }
  }

  lemma BelowBound(l: seq<Entry>, lo: Option<Key>, b: Key, k: Key)
    requires SortedIn(l, lo, Some(b)) && Le(b, k)
    ensures AllBelow(l, k)
  {
    OrderFacts();
  }

  lemma AboveBound(l: seq<Entry>, b: Key, hi: Option<Key>, k: Key)
    requires SortedIn(l, Some(b), hi) && Less(k, b)
    ensures AllAbove(l, k)
  {
    OrderFacts();
  }

  /** A leaf divides at `Position`: smaller records before it, the key itself if present, larger ones after. */
  lemma {:induction false} LeafPosition(keys: seq<Key>, vals: seq<Bytes>, k: Key)
    requires |keys| == |vals| && StrictlySorted(Zip(keys, vals))
    ensures var i := Position(keys, k); var z := Zip(keys, vals);
      && AllBelow(z[..i], k)
      && AllAbove(z[if Found(keys, k) then i + 1 else i..], k)
  {
    var z := Zip(keys, vals);
    if keys != [] {
      var z' := Zip(keys[1..], vals[1..]);
      assert z[1..] == z' && z == [z[0]] + z';
      SortedTail(z);
      if Less(keys[0], k) {
        LeafPosition(keys[1..], vals[1..], k);
        var i := Position(keys[1..], k);
        assert z[..i + 1] == [z[0]] + z'[..i];
        assert Found(keys, k) == Found(keys[1..], k);
        assert forall j :: 0 <= j <= |z'| ==> z[j + 1..] == z'[j..];
      } else {
        OrderFacts();
      }
    }
  }

  // ----- get -----

  /** Descent through separators to one leaf, then a search in it. */
  function Get(t: Tree, h: nat, k: Key): Option<Bytes>
    requires Shape(t, h)
    decreases h
  {
    match t
    case Leaf(keys, vals) => if Found(keys, k) then Some(vals[Position(keys, k)]) else None
    case Node(keys, children) => Get(children[ChildIndex(keys, k)], h - 1, k)
  }

  lemma {:induction false} GetIsLookup(t: Tree, h: nat, k: Key, lo: Option<Key>, hi: Option<Key>)
    requires Valid(t, h, lo, hi) && InRange(k, lo, hi)
    ensures Get(t, h, k) == Lookup(Entries(t, h), k)
    decreases h
  {
    hide ForestOrdered, InRange, Less;
    match t
    case Leaf(keys, vals) =>
      var z := Zip(keys, vals);
      var i := Position(keys, k);
      LeafPosition(keys, vals, k);
      if Found(keys, k) {
        assert z == z[..i] + [z[i]] + z[i + 1..];
        LookupMiddle(z[..i], [z[i]], z[i + 1..], k);
      } else {
        assert z == z[..i] + [] + z[i..];
        LookupMiddle(z[..i], [], z[i..], k);
      }
    case Node(keys, children) =>
      var i := ChildIndex(keys, k);
      ChildIndexBounds(keys, children, h - 1, k, lo, hi);
      AroundChild(keys, children, h - 1, k, lo, hi);
      GetIsLookup(children[i], h - 1, k, LowBound(keys, lo, i), HighBound(keys, hi, i));
      LookupMiddle(ForestEntries(children[..i], h - 1), Entries(children[i], h - 1), ForestEntries(children[i + 1..], h - 1), k);
  }

  /** Range and get agree: a scan pairs a key with a value exactly when the key is in range and a get answers that value. */
  lemma RangeAgreesWithGet(t: Tree, h: nat, start: Option<Key>, end: Option<Key>, k: Key, v: Bytes)
    requires Valid(t, h, None, None)
    ensures var rows := Filter(Entries(t, h), start, end);
      && SortedIn(rows, start, end)
      && (Entry(k, v) in rows <==> InRange(k, start, end) && Get(t, h, k) == Some(v))
  {
    EntriesSorted(t, h, None, None);
    hide Ordered, Get;
    GetIsLookup(t, h, k, None, None);
    FilterMembers(Entries(t, h), start, end);
    LookupMember(Entries(t, h), k, v);
  }
}
