/** `delete`: leaf removal, best-effort sibling merges on the way up, and root collapse. */
module BTreeDelete {
  import opened Bytes
  import opened SortedList
  import opened BTree
  import opened BTreePut

  function Merged(left: Tree, right: Tree, sep: Key, h: nat): (t: Tree)
    requires Shape(left, h) && Shape(right, h)
    ensures Shape(t, h)
  {
    if left.Leaf? then Leaf(left.keys + right.keys, left.vals + right.vals)
    else Node(left.keys + [sep] + right.keys, left.children + right.children)
  }

  /** Siblings at one level are always of one variant, so only the size can forbid a merge. */
  function TryMerge(left: Tree, right: Tree, sep: Key, h: nat): (r: Option<Tree>)
    requires Shape(left, h) && Shape(right, h)
    ensures r.Some? ==> Shape(r.value, h)
  {
    var m := Merged(left, right, sep, h);
    if Size(m) <= SPLIT_THRESHOLD then Some(m) else None
  }

  predicate Underfull(t: Tree) {
    Size(t) < MERGE_THRESHOLD
  }

  /** Merge an underfull child `i` into its right sibling, or failing that its left one. */
  function Rebalance(keys: seq<Key>, children: seq<Tree>, i: nat, h: nat): (t: Tree)
    requires |children| == |keys| + 1 && i < |children|
    requires forall j :: 0 <= j < |children| ==> Shape(children[j], h)
    ensures Shape(t, h + 1) && t.Node?
  {
    if !Underfull(children[i]) then Node(keys, children)
    else
      var right := if i + 1 < |children| then TryMerge(children[i], children[i + 1], keys[i], h) else None;
      if right.Some? then Node(Splice(keys, i, i + 1, []), Splice(children, i, i + 2, [right.value]))
      else
        var left := if i > 0 then TryMerge(children[i - 1], children[i], keys[i - 1], h) else None;
        if left.Some? then Node(Splice(keys, i - 1, i, []), Splice(children, i - 1, i + 1, [left.value]))
        else Node(keys, children)
  }

  /** A pair of siblings under their separator would fit within the split threshold as one node. */
  predicate Mergeable(left: Tree, right: Tree, sep: Key, h: nat)
    requires Shape(left, h) && Shape(right, h)
  {
    Size(Merged(left, right, sep, h)) <= 3072
  }

  /**
   * When a merge happens, and which: a child under 768 bytes joins its right neighbour if the two fit one node, else its
   * left one if they do, and nothing else changes. So a child that is still underfull, and was not just merged, fits
   * with neither neighbour.
   */
  lemma RebalanceMerges(keys: seq<Key>, children: seq<Tree>, i: nat, h: nat)
    requires |children| == |keys| + 1 && i < |children|
    requires forall j :: 0 <= j < |children| ==> Shape(children[j], h)
    ensures var t := Rebalance(keys, children, i, h);
      var right := i + 1 < |children| && Mergeable(children[i], children[i + 1], keys[i], h);
      var left := i > 0 && Mergeable(children[i - 1], children[i], keys[i - 1], h);
      if Size(children[i]) < 768 && right then
        t.keys == keys[..i] + keys[i + 1..] && t.children == children[..i] + [Merged(children[i], children[i + 1], keys[i], h)] + children[i + 2..]
      else if Size(children[i]) < 768 && left then
        t.keys == keys[..i - 1] + keys[i..] && t.children == children[..i - 1] + [Merged(children[i - 1], children[i], keys[i - 1], h)] + children[i + 1..]
      else
        t == Node(keys, children)
  {
    hide Size;
  }

  /** Only one merge is tried: three small leaves become two, which would still fit together. */
  lemma OneMergeOnly()
    ensures var leaf := (b: byte) => Leaf([[b]], [[b]]);
      var t := Rebalance([[2], [3]], [leaf(1), leaf(2), leaf(3)], 1, 0);
      |t.children| == 2 && Size(t.children[1]) < 768 && Mergeable(t.children[0], t.children[1], t.keys[0], 0)
  {
    var leaf := (b: byte) => Leaf([[b]], [[b]]);
    var m := Leaf([[2], [3]], [[2], [3]]);
    RebalanceMerges([[2], [3]], [leaf(1), leaf(2), leaf(3)], 1, 0);
    assert KeysSize([[2], [3]]) == 9 + KeysSize([[3]]) && ValuesSize([[2], [3]]) == 13 + ValuesSize([[3]]);
    assert KeysSize([[3]]) == 9 && ValuesSize([[3]]) == 13 && KeysSize([[2]]) == 9 && ValuesSize([[2]]) == 13;
    assert KeysSize([[1], [2], [3]]) == 9 + KeysSize([[2], [3]]) && ValuesSize([[1], [2], [3]]) == 13 + ValuesSize([[2], [3]]);
    assert Merged(leaf(2), leaf(3), [3], 0) == m;
    assert Merged(leaf(1), m, [2], 0) == Leaf([[1], [2], [3]], [[1], [2], [3]]);
  }

  function LeafRemove(keys: seq<Key>, vals: seq<Bytes>, k: Key): (t: Tree)
    requires |keys| == |vals| && Found(keys, k)
    ensures Shape(t, 0) && t.Leaf?
  {
    var i := Position(keys, k);
    Leaf(Splice(keys, i, i + 1, []), Splice(vals, i, i + 1, []))
  }

  /** The subtree without `k`, and whether `k` was there. */
  function DeleteRec(t: Tree, h: nat, k: Key): (r: (Tree, bool))
    requires Shape(t, h)
    ensures Shape(r.0, h)
    decreases h
  {
    match t
    case Leaf(keys, vals) => if Found(keys, k) then (LeafRemove(keys, vals, k), true) else (t, false)
    case Node(keys, children) =>
      var i := ChildIndex(keys, k);
      var (c, removed) := DeleteRec(children[i], h - 1, k);
      if removed then (Rebalance(keys, children[i := c], i, h - 1), true) else (t, false)
  }

  /**
   * At every node on the way up from a deletion: a pair of children has become one, or the child that lost the record
   * is not both underfull and able to join a neighbour.
   */
  lemma DeleteMerges(t: Tree, h: nat, k: Key)
    requires t.Node? && Shape(t, h) && DeleteRec(t, h, k).1
    ensures var i, t' := ChildIndex(t.keys, k), DeleteRec(t, h, k).0;
      && t'.Node?
      && ( || |t'.children| == |t.children| - 1
           || (|t'.children| == |t.children| && t'.keys == t.keys && t'.children[i] == DeleteRec(t.children[i], h - 1, k).0
               && (Size(t'.children[i]) < 768 ==>
                     && (i + 1 < |t'.children| ==> !Mergeable(t'.children[i], t'.children[i + 1], t'.keys[i], h - 1))
                     && (i > 0 ==> !Mergeable(t'.children[i - 1], t'.children[i], t'.keys[i - 1], h - 1)))))
  {
    hide Size, Mergeable;
    var i := ChildIndex(t.keys, k);
    RebalanceMerges(t.keys, t.children[i := DeleteRec(t.children[i], h - 1, k).0], i, h - 1);
  }

  /** Unwind a root that is an empty leaf or an internal node with a single child. */
  function FinalizeRoot(t: Tree, h: nat): (r: Root)
    requires Shape(t, h)
    ensures RootShape(r)
    decreases h
  {
    if t.keys != [] then Rooted(t, h)
    else if t.Leaf? then Empty
    else FinalizeRoot(t.children[0], h - 1)
  }

  function Delete(root: Root, k: Key): (r: (Root, bool))
    requires RootShape(root)
    ensures RootShape(r.0)
  {
    if root.Empty? then (Empty, false)
    else
      var (t, removed) := DeleteRec(root.tree, root.height, k);
      (FinalizeRoot(t, root.height), removed)
  }

  // ----- it is map removal -----

  lemma LeafRemoveEntries(keys: seq<Key>, vals: seq<Bytes>, k: Key)
    requires |keys| == |vals| && StrictlySorted(Zip(keys, vals)) && Found(keys, k)
    ensures Entries(LeafRemove(keys, vals, k), 0) == Remove(Zip(keys, vals), k)
  {
    var z, i := Zip(keys, vals), Position(keys, k);
    LeafPosition(keys, vals, k);
    assert z == z[..i] + [z[i]] + z[i + 1..];
    RemoveMiddle(z[..i], [z[i]], z[i + 1..], k);
    assert Remove([z[i]], k) == [];
    ZipSplice(keys, vals, i, i + 1, [], []);
    assert Zip([], []) == [];
  }

  lemma LeafMissing(keys: seq<Key>, vals: seq<Bytes>, k: Key)
    requires |keys| == |vals| && StrictlySorted(Zip(keys, vals)) && !Found(keys, k)
    ensures Remove(Zip(keys, vals), k) == Zip(keys, vals)
    ensures Lookup(Zip(keys, vals), k) == None
  {
    var z, i := Zip(keys, vals), Position(keys, k);
    LeafPosition(keys, vals, k);
    assert z == z[..i] + [] + z[i..];
    RemoveMiddle(z[..i], [], z[i..], k);
    LookupMiddle(z[..i], [], z[i..], k);
  }

  lemma LeafHit(keys: seq<Key>, vals: seq<Bytes>, k: Key)
    requires |keys| == |vals| && StrictlySorted(Zip(keys, vals)) && Found(keys, k)
    ensures Lookup(Zip(keys, vals), k) != None
  {
    var z, i := Zip(keys, vals), Position(keys, k);
    LeafPosition(keys, vals, k);
    assert z == z[..i] + [z[i]] + z[i + 1..];
    LookupMiddle(z[..i], [z[i]], z[i + 1..], k);
  }

  /** A merge of adjacent siblings keeps order, depth and records. */
  lemma MergedCorrect(left: Tree, right: Tree, sep: Key, h: nat, lo: Option<Key>, hi: Option<Key>)
    requires Shape(left, h) && Shape(right, h)
    requires Forest([sep], [left, right], h, lo, hi)
    ensures Valid(Merged(left, right, sep, h), h, lo, hi) && BoundsLe(lo, hi)
    ensures Entries(Merged(left, right, sep, h), h) == ForestEntries([left, right], h)
  {
    ForestBounds([sep], [left, right], h, lo, hi);
    PairForest(left, sep, right, h, lo, hi);
    PairEntries(left, right, h);
    if left.Leaf? {
      SortedConcat(Entries(left, h), Entries(right, h), lo, sep, hi);
      assert Zip(left.keys + right.keys, left.vals + right.vals) == Entries(left, h) + Entries(right, h);
    } else {
      assert Forest(left.keys, left.children, h - 1, lo, Some(sep));
      assert Forest(right.keys, right.children, h - 1, Some(sep), hi);
      JoinForests(left.keys, left.children, sep, right.keys, right.children, h - 1, lo, hi);
      ForestEntriesConcat(left.children, right.children, h - 1);
    }
  }

  lemma PairForest(left: Tree, sep: Key, right: Tree, h: nat, lo: Option<Key>, hi: Option<Key>)
    requires Shape(left, h) && Shape(right, h)
    requires Forest([sep], [left, right], h, lo, hi)
    ensures Valid(left, h, lo, Some(sep)) && Valid(right, h, Some(sep), hi)
    ensures BoundsLe(lo, Some(sep)) && BoundsLe(Some(sep), hi)
  {
    assert [sep][1..] == [] && [left, right][1..] == [right];
    assert ForestOrdered([], [right], h, Some(sep), hi);
  }

  /** Folding the pair `i`, `i + 1` into one child. */
  lemma MergeWindow(keys: seq<Key>, children: seq<Tree>, i: nat, h: nat, lo: Option<Key>, hi: Option<Key>)
    requires Forest(keys, children, h, lo, hi) && i + 1 < |children|
    ensures var m := Merged(children[i], children[i + 1], keys[i], h); var f := Splice(children, i, i + 2, [m]);
      && Forest(Splice(keys, i, i + 1, []), f, h, lo, hi)
      && ForestEntries(f, h) == ForestEntries(children, h)
  {
    var m := Merged(children[i], children[i + 1], keys[i], h);
    WindowForest(keys, children, i, 2, h, lo, hi);
    assert keys[i..i + 1] == [keys[i]] && children[i..i + 2] == [children[i], children[i + 1]];
    MergedCorrect(children[i], children[i + 1], keys[i], h, LowBound(keys, lo, i), HighBound(keys, hi, i + 1));
    WindowReplace(keys, children, i, 2, [], [m], h, lo, hi);
    ForestEntriesWindow(children, i, 2, h);
    PairEntries(m, m, h);
    ForestEntriesConcat(children[..i], [m], h);
    ForestEntriesConcat(children[..i] + [m], children[i + 2..], h);
  }

  lemma RebalanceCorrect(keys: seq<Key>, children: seq<Tree>, i: nat, h: nat, lo: Option<Key>, hi: Option<Key>)
    requires Forest(keys, children, h, lo, hi) && i < |children|
    ensures Valid(Rebalance(keys, children, i, h), h + 1, lo, hi)
    ensures Entries(Rebalance(keys, children, i, h), h + 1) == ForestEntries(children, h)
  {
    if i + 1 < |children| {
      MergeWindow(keys, children, i, h, lo, hi);
    }
    if i > 0 {
      MergeWindow(keys, children, i - 1, h, lo, hi);
    }
  }

  lemma {:induction false} DeleteRecCorrect(t: Tree, h: nat, k: Key, lo: Option<Key>, hi: Option<Key>)
    requires Valid(t, h, lo, hi) && InRange(k, lo, hi) && BoundsLe(lo, hi)
    ensures var r := DeleteRec(t, h, k);
      && Valid(r.0, h, lo, hi)
      && Entries(r.0, h) == Remove(Entries(t, h), k)
      && r.1 == (Lookup(Entries(t, h), k) != None)
    decreases h
  {
    match t
    case Leaf(keys, vals) => DeleteLeafCorrect(keys, vals, k, lo, hi);
    case Node(keys, children) =>
      var i := ChildIndex(keys, k);
      ChildIndexBounds(keys, children, h - 1, k, lo, hi);
      DeleteRecCorrect(children[i], h - 1, k, LowBound(keys, lo, i), HighBound(keys, hi, i));
      DeleteNodeCorrect(keys, children, h - 1, k, lo, hi);
  }

  lemma DeleteNodeCorrect(keys: seq<Key>, children: seq<Tree>, h: nat, k: Key, lo: Option<Key>, hi: Option<Key>)
    requires Forest(keys, children, h, lo, hi) && InRange(k, lo, hi)
    requires var i := ChildIndex(keys, k); var c := DeleteRec(children[i], h, k);
      && Valid(c.0, h, LowBound(keys, lo, i), HighBound(keys, hi, i))
      && Entries(c.0, h) == Remove(Entries(children[i], h), k)
      && c.1 == (Lookup(Entries(children[i], h), k) != None)
    ensures var r, l := DeleteRec(Node(keys, children), h + 1, k), ForestEntries(children, h);
      && Valid(r.0, h + 1, lo, hi)
      && Entries(r.0, h + 1) == Remove(l, k)
      && r.1 == (Lookup(l, k) != None)
  {
    var i := ChildIndex(keys, k);
    var (c, removed) := DeleteRec(children[i], h, k);
    DeleteFromChild(keys, children, c, h, k, lo, hi);
    if removed {
      RebalanceCorrect(keys, children[i := c], i, h, lo, hi);
    } else {
      RemoveAbsent(ForestEntries(children, h), k);
    }
  }

  lemma DeleteLeafCorrect(keys: seq<Key>, vals: seq<Bytes>, k: Key, lo: Option<Key>, hi: Option<Key>)
    requires |keys| == |vals| && SortedIn(Zip(keys, vals), lo, hi)
    ensures var r, z := DeleteRec(Leaf(keys, vals), 0, k), Zip(keys, vals);
      && Valid(r.0, 0, lo, hi)
      && Entries(r.0, 0) == Remove(z, k)
      && r.1 == (Lookup(z, k) != None)
  {
    if Found(keys, k) {
      LeafRemoveEntries(keys, vals, k);
      LeafHit(keys, vals, k);
      RemoveSorted(Zip(keys, vals), k, lo, hi);
    } else {
      LeafMissing(keys, vals, k);
    }
  }

  lemma DeleteFromChild(keys: seq<Key>, children: seq<Tree>, c: Tree, h: nat, k: Key, lo: Option<Key>, hi: Option<Key>)
    requires Forest(keys, children, h, lo, hi) && InRange(k, lo, hi)
    requires var i := ChildIndex(keys, k);
      && Valid(c, h, LowBound(keys, lo, i), HighBound(keys, hi, i))
      && Entries(c, h) == Remove(Entries(children[i], h), k)
    ensures var i := ChildIndex(keys, k);
      && Forest(keys, children[i := c], h, lo, hi)
      && ForestEntries(children[i := c], h) == Remove(ForestEntries(children, h), k)
      && Lookup(ForestEntries(children, h), k) == Lookup(Entries(children[i], h), k)
  {
    hide ForestOrdered, Ordered, Remove, Lookup, InRange, AllBelow, AllAbove;
    var i := ChildIndex(keys, k);
    var a, l, b := ForestEntries(children[..i], h), Entries(children[i], h), ForestEntries(children[i + 1..], h);
    AroundChild(keys, children, h, k, lo, hi);
    RemoveMiddle(a, l, b, k);
    LookupMiddle(a, l, b, k);
    OneChildForest(c, h, LowBound(keys, lo, i), HighBound(keys, hi, i), keys, children, k, lo, hi);
    ReplaceChild(keys, children, [], [c], h, k, lo, hi);
    assert Splice(keys, i, i, []) == keys && Splice(children, i, i + 1, [c]) == children[i := c];
  }

  lemma OneChildForest(c: Tree, h: nat, l: Option<Key>, u: Option<Key>,
                       keys: seq<Key>, children: seq<Tree>, k: Key, lo: Option<Key>, hi: Option<Key>)
    requires Forest(keys, children, h, lo, hi) && InRange(k, lo, hi)
    requires l == LowBound(keys, lo, ChildIndex(keys, k)) && u == HighBound(keys, hi, ChildIndex(keys, k))
    requires Valid(c, h, l, u)
    ensures Forest([], [c], h, l, u) && ForestEntries([c], h) == Entries(c, h)
  {
    ChildIndexBounds(keys, children, h, k, lo, hi);
    PairEntries(c, c, h);
  }

  lemma {:induction false} RemoveAbsent(l: seq<Entry>, k: Key)
    requires Lookup(l, k) == None
    ensures Remove(l, k) == l
  {
    if l != [] {
      RemoveAbsent(l[1..], k);
    }
  }

  /**
   * Root collapse keeps the records and goes on until the root has a key or there is none. A tree that has keys at its
   * root is left alone.
   */
  lemma {:induction false} FinalizeCorrect(t: Tree, h: nat)
    requires Valid(t, h, None, None)
    ensures RootValid(FinalizeRoot(t, h))
    ensures RootEntries(FinalizeRoot(t, h)) == Entries(t, h)
    ensures Collapsed(t, h, FinalizeRoot(t, h))
    decreases h
  {
    FinalizeCollapses(t, h);
    if t.keys == [] && t.Node? {
      assert Forest([], t.children, h - 1, None, None);
      FinalizeCorrect(t.children[0], h - 1);
      assert t.children == [t.children[0]];
      PairEntries(t.children[0], t.children[0], h - 1);
    }
  }

  /** What `finalize_root` makes of a tree of height `h`. */
  ghost predicate Collapsed(t: Tree, h: nat, r: Root)
    requires Shape(t, h)
  {
    && Trimmed(r) && (r.Rooted? ==> r.height <= h)
    && (t.keys != [] ==> r == Rooted(t, h))
    && (t.keys == [] && h > 0 && r.Rooted? ==> r.height < h)
    && (h == 0 ==> (r.Empty? <==> Entries(t, h) == []))
  }

  lemma {:induction false} FinalizeCollapses(t: Tree, h: nat)
    requires Shape(t, h)
    ensures Collapsed(t, h, FinalizeRoot(t, h))
    decreases h
  {
    if t.keys == [] && t.Node? {
      FinalizeCollapses(t.children[0], h - 1);
    }
  }

  /**
   * Delete never leaves an empty leaf or a single child as the root, and never a taller tree. The last record of a
   * one-leaf store takes the root with it.
   */
  lemma DeleteTrimmed(root: Root, k: Key)
    requires RootShape(root)
    ensures var r := Delete(root, k).0;
      && Trimmed(r) && (r.Rooted? ==> root.Rooted? && r.height <= root.height)
      && (r.Rooted? && r.height == 0 ==> RootEntries(r) != [])
      && (root.Rooted? && root.height == 0 ==> (r.Empty? <==> RootEntries(r) == []))
  {
    if root.Rooted? {
      FinalizeCollapses(DeleteRec(root.tree, root.height, k).0, root.height);
    }
  }

  /** `delete` denotes map removal and reports whether the key existed; no root means no records. */
  lemma DeleteCorrect(root: Root, k: Key)
    requires RootValid(root)
    ensures var r := Delete(root, k);
      && RootValid(r.0)
      && RootEntries(r.0) == Remove(RootEntries(root), k)
      && ToMap(RootEntries(r.0)) == ToMap(RootEntries(root)) - {k}
      && r.1 == (k in ToMap(RootEntries(root)))
      && (r.0.Empty? ==> ToMap(RootEntries(root)) - {k} == map[])
  {
    if root.Rooted? {
      var h := root.height;
      DeleteRecCorrect(root.tree, h, k, None, None);
      FinalizeCorrect(DeleteRec(root.tree, h, k).0, h);
      EntriesSorted(root.tree, h, None, None);
    }
    LookupIsMapRead(RootEntries(root), k);
    RemoveIsMapRemove(RootEntries(root), k);
  }
}
