/** `put`: insertion with count-based splits triggered by bytes, and root growth. */
module BTreePut {
  import opened Bytes
  import opened SortedList
  import opened BTree

  /** What a descent hands back: one subtree, or two around a promoted separator. */
  datatype Ins = One(t: Tree) | Two(left: Tree, sep: Key, right: Tree) {
    function Keys(): seq<Key> { if One? then [] else [sep] }
    function Trees(): seq<Tree> { if One? then [t] else [left, right] }
    predicate Shaped(h: nat) { if One? then Shape(t, h) else Shape(left, h) && Shape(right, h) }
  }

  /** A store's root: nothing, or a tree of known height. */
  datatype Root = Empty | Rooted(tree: Tree, height: nat)

  ghost predicate RootValid(r: Root) {
    r.Rooted? ==> Valid(r.tree, r.height, None, None)
  }

  predicate RootShape(r: Root) {
    r.Rooted? ==> Shape(r.tree, r.height)
  }

  /** A root has at least one key: an empty leaf or a single child is no root. */
  predicate Trimmed(r: Root) {
    r.Rooted? ==> r.tree.keys != []
  }

  function RootEntries(r: Root): seq<Entry>
    requires RootShape(r)
  {
    if r.Empty? then [] else Entries(r.tree, r.height)
  }

  // ----- the operation -----

  function LeafUpsert(keys: seq<Key>, vals: seq<Bytes>, k: Key, v: Bytes): (t: Tree)
    requires |keys| == |vals|
    ensures Shape(t, 0) && t.Leaf?
  {
    var i := Position(keys, k);
    if Found(keys, k) then Leaf(keys, vals[i := v])
    else Leaf(Splice(keys, i, i, [k]), Splice(vals, i, i, [v]))
  }

  /** Split at half the key count when the node has outgrown the byte threshold. */
  function Divide(t: Tree, h: nat): (r: Ins)
    requires Shape(t, h)
    ensures r.Shaped(h)
  {
    if Size(t) <= SPLIT_THRESHOLD then One(t)
    else
      assert t.keys != [];
      var mid := |t.keys| / 2;
      match t
      case Leaf(keys, vals) =>
        Two(Leaf(keys[..mid], vals[..mid]), keys[mid], Leaf(keys[mid..], vals[mid..]))
      case Node(keys, children) =>
        Two(Node(keys[..mid], children[..mid + 1]), keys[mid], Node(keys[mid + 1..], children[mid + 1..]))
  }

  function Insert(t: Tree, h: nat, k: Key, v: Bytes): (r: Ins)
    requires Shape(t, h)
    ensures r.Shaped(h)
    decreases h
  {
    match t
    case Leaf(keys, vals) => Divide(LeafUpsert(keys, vals, k, v), h)
    case Node(keys, children) =>
      var i := ChildIndex(keys, k);
      var r := Insert(children[i], h - 1, k, v);
      SpliceShape(keys, children, i, r, h);
      Divide(Node(Splice(keys, i, i, r.Keys()), Splice(children, i, i + 1, r.Trees())), h)
  }

  lemma SpliceShape(keys: seq<Key>, children: seq<Tree>, i: nat, r: Ins, h: nat)
    requires Shape(Node(keys, children), h) && i < |children| && r.Shaped(h - 1)
    ensures Shape(Node(Splice(keys, i, i, r.Keys()), Splice(children, i, i + 1, r.Trees())), h)
  {
  }

  function Put(root: Root, k: Key, v: Bytes): (r: Root)
    requires RootShape(root)
    ensures r.Rooted? && RootShape(r)
  {
    if root.Empty? then Rooted(Leaf([k], [v]), 0)
    else
      match Insert(root.tree, root.height, k, v)
      case One(t) => Rooted(t, root.height)
      case Two(left, sep, right) => Rooted(Node([sep], [left, right]), root.height + 1)
  }

  // ----- it is map update -----

  lemma ZipSplice(keys: seq<Key>, vals: seq<Bytes>, i: nat, j: nat, nk: seq<Key>, nv: seq<Bytes>)
    requires |keys| == |vals| && i <= j <= |keys| && |nk| == |nv|
    ensures Zip(Splice(keys, i, j, nk), Splice(vals, i, j, nv)) == Splice(Zip(keys, vals), i, j, Zip(nk, nv))
  {
  }

  lemma LeafUpsertEntries(keys: seq<Key>, vals: seq<Bytes>, k: Key, v: Bytes)
    requires |keys| == |vals| && StrictlySorted(Zip(keys, vals))
    ensures Entries(LeafUpsert(keys, vals, k, v), 0) == Upsert(Zip(keys, vals), k, v)
  {
    hide Less;
    var z, i := Zip(keys, vals), Position(keys, k);
    LeafPosition(keys, vals, k);
    assert Zip([k], [v]) == [Entry(k, v)];
    if Found(keys, k) {
      assert z == z[..i] + [z[i]] + z[i + 1..];
      UpsertMiddle(z[..i], [z[i]], z[i + 1..], k, v);
      LessIrreflexive(k);
      assert Upsert([z[i]], k, v) == [Entry(k, v)];
      ZipSplice(keys, vals, i, i + 1, [k], [v]);
      assert keys == Splice(keys, i, i + 1, [k]);
      assert vals[i := v] == Splice(vals, i, i + 1, [v]);
    } else {
      assert z == z[..i] + [] + z[i..];
      UpsertMiddle(z[..i], [], z[i..], k, v);
      assert Upsert([], k, v) == [Entry(k, v)];
      ZipSplice(keys, vals, i, i, [k], [v]);
    }
  }

  lemma LeafUpsertCorrect(keys: seq<Key>, vals: seq<Bytes>, k: Key, v: Bytes, lo: Option<Key>, hi: Option<Key>)
    requires |keys| == |vals| && SortedIn(Zip(keys, vals), lo, hi) && InRange(k, lo, hi)
    ensures Valid(LeafUpsert(keys, vals, k, v), 0, lo, hi)
    ensures Entries(LeafUpsert(keys, vals, k, v), 0) == Upsert(Zip(keys, vals), k, v)
  {
    LeafUpsertEntries(keys, vals, k, v);
    UpsertSorted(Zip(keys, vals), k, v, lo, hi);
  }

  lemma DivideLeaf(keys: seq<Key>, vals: seq<Bytes>, mid: nat, lo: Option<Key>, hi: Option<Key>)
    requires |keys| == |vals| && SortedIn(Zip(keys, vals), lo, hi) && mid < |keys|
    ensures Forest([keys[mid]], [Leaf(keys[..mid], vals[..mid]), Leaf(keys[mid..], vals[mid..])], 0, lo, hi)
    ensures Zip(keys[..mid], vals[..mid]) + Zip(keys[mid..], vals[mid..]) == Zip(keys, vals)
  {
    OrderFacts();
    var z, m := Zip(keys, vals), keys[mid];
    var za, zb := Zip(keys[..mid], vals[..mid]), Zip(keys[mid..], vals[mid..]);
    var a, b := Leaf(keys[..mid], vals[..mid]), Leaf(keys[mid..], vals[mid..]);
    assert za == z[..mid] && zb == z[mid..];
    assert z[mid].key == m;
    TwoForest(a, m, b, 0, lo, hi);
  }

  lemma TwoForest(a: Tree, m: Key, b: Tree, h: nat, lo: Option<Key>, hi: Option<Key>)
    requires Valid(a, h, lo, Some(m)) && Valid(b, h, Some(m), hi)
    requires BoundsLe(lo, Some(m)) && BoundsLe(Some(m), hi)
    ensures Forest([m], [a, b], h, lo, hi)
  {
    assert ForestOrdered([], [b], h, Some(m), hi);
    assert [m][1..] == [] && [a, b][1..] == [b];
  }

  lemma PairEntries(a: Tree, b: Tree, h: nat)
    requires Shape(a, h) && Shape(b, h)
    ensures ForestEntries([a], h) == Entries(a, h)
    ensures ForestEntries([a, b], h) == Entries(a, h) + Entries(b, h)
  {
    assert [a, b][1..] == [b];
    assert ForestEntries([b], h) == Entries(b, h);
  }

  /** A split moves records and separators between pages and changes nothing else. */
  lemma DivideCorrect(t: Tree, h: nat, lo: Option<Key>, hi: Option<Key>)
    requires Valid(t, h, lo, hi) && BoundsLe(lo, hi)
    ensures var r := Divide(t, h);
      && Forest(r.Keys(), r.Trees(), h, lo, hi)
      && ForestEntries(r.Trees(), h) == Entries(t, h)
  {
    var r := Divide(t, h);
    if r.One? {
      PairEntries(t, t, h);
    } else {
      PairEntries(r.left, r.right, h);
      var mid := |t.keys| / 2;
      match t
      case Leaf(keys, vals) =>
        DivideLeaf(keys, vals, mid, lo, hi);
      case Node(keys, children) =>
        DivideNode(keys, children, mid, h - 1, lo, hi);
    }
  }

  lemma DivideNode(keys: seq<Key>, children: seq<Tree>, mid: nat, h: nat, lo: Option<Key>, hi: Option<Key>)
    requires Forest(keys, children, h, lo, hi) && mid < |keys|
    ensures Forest([keys[mid]], [Node(keys[..mid], children[..mid + 1]), Node(keys[mid + 1..], children[mid + 1..])], h + 1, lo, hi)
    ensures ForestEntries(children[..mid + 1], h) + ForestEntries(children[mid + 1..], h) == ForestEntries(children, h)
  {
    ForestCut(keys, children, mid, h, lo, hi);
    ForestEntriesConcat(children[..mid + 1], children[mid + 1..], h);
    assert children == children[..mid + 1] + children[mid + 1..];
    ForestBounds(keys[..mid], children[..mid + 1], h, lo, Some(keys[mid]));
    ForestBounds(keys[mid + 1..], children[mid + 1..], h, Some(keys[mid]), hi);
    TwoForest(Node(keys[..mid], children[..mid + 1]), keys[mid], Node(keys[mid + 1..], children[mid + 1..]), h + 1, lo, hi);
  }

  /** Replacing the child a key descends into replaces exactly that child's stretch of records. */
  lemma ReplaceChild(keys: seq<Key>, children: seq<Tree>, nk: seq<Key>, nf: seq<Tree>,
                     h: nat, k: Key, lo: Option<Key>, hi: Option<Key>)
    requires Forest(keys, children, h, lo, hi) && InRange(k, lo, hi)
    requires var i := ChildIndex(keys, k); Forest(nk, nf, h, LowBound(keys, lo, i), HighBound(keys, hi, i))
    ensures var i := ChildIndex(keys, k); var f := Splice(children, i, i + 1, nf);
      && Forest(Splice(keys, i, i, nk), f, h, lo, hi)
      && ForestEntries(f, h) == ForestEntries(children[..i], h) + ForestEntries(nf, h) + ForestEntries(children[i + 1..], h)
  {
    var i := ChildIndex(keys, k);
    WindowReplace(keys, children, i, 1, nk, nf, h, lo, hi);
    ForestEntriesConcat(children[..i], nf, h);
    ForestEntriesConcat(children[..i] + nf, children[i + 1..], h);
  }

  /** Insertion under `[lo, hi)`: the pieces fill the same bounds and hold the updated records. */
  ghost predicate InsertOk(t: Tree, h: nat, k: Key, v: Bytes, lo: Option<Key>, hi: Option<Key>)
    requires Shape(t, h)
  {
    var r := Insert(t, h, k, v);
    && Forest(r.Keys(), r.Trees(), h, lo, hi)
    && ForestEntries(r.Trees(), h) == Upsert(Entries(t, h), k, v)
  }

  lemma {:induction false} InsertCorrect(t: Tree, h: nat, k: Key, v: Bytes, lo: Option<Key>, hi: Option<Key>)
    requires Valid(t, h, lo, hi) && InRange(k, lo, hi) && BoundsLe(lo, hi)
    ensures InsertOk(t, h, k, v, lo, hi)
    decreases h
  {
    match t
    case Leaf(keys, vals) => InsertLeafCorrect(keys, vals, k, v, lo, hi);
    case Node(keys, children) =>
      hide InsertOk, InRange, BoundsLe;
      var i := ChildIndex(keys, k);
      ChildIndexBounds(keys, children, h - 1, k, lo, hi);
      InsertCorrect(children[i], h - 1, k, v, LowBound(keys, lo, i), HighBound(keys, hi, i));
      InsertNodeCorrect(keys, children, h - 1, k, v, lo, hi);
  }

  lemma InsertLeafCorrect(keys: seq<Key>, vals: seq<Bytes>, k: Key, v: Bytes, lo: Option<Key>, hi: Option<Key>)
    requires |keys| == |vals| && Valid(Leaf(keys, vals), 0, lo, hi) && InRange(k, lo, hi) && BoundsLe(lo, hi)
    ensures InsertOk(Leaf(keys, vals), 0, k, v, lo, hi)
  {
    LeafUpsertCorrect(keys, vals, k, v, lo, hi);
    DivideCorrect(LeafUpsert(keys, vals, k, v), 0, lo, hi);
  }

  lemma InsertNodeCorrect(keys: seq<Key>, children: seq<Tree>, h: nat, k: Key, v: Bytes, lo: Option<Key>, hi: Option<Key>)
    requires Forest(keys, children, h, lo, hi) && InRange(k, lo, hi)
    requires var i := ChildIndex(keys, k); InsertOk(children[i], h, k, v, LowBound(keys, lo, i), HighBound(keys, hi, i))
    ensures InsertOk(Node(keys, children), h + 1, k, v, lo, hi)
  {
    hide ForestOrdered, Ordered, Upsert, Divide, InRange, AllBelow, AllAbove;
    var i := ChildIndex(keys, k);
    var r := Insert(children[i], h, k, v);
    AroundChild(keys, children, h, k, lo, hi);
    UpsertMiddle(ForestEntries(children[..i], h), Entries(children[i], h), ForestEntries(children[i + 1..], h), k, v);
    ReplaceChild(keys, children, r.Keys(), r.Trees(), h, k, lo, hi);
    ForestBounds(keys, children, h, lo, hi);
    NodeOfForest(Splice(keys, i, i, r.Keys()), Splice(children, i, i + 1, r.Trees()), h, lo, hi);
    DivideCorrect(Node(Splice(keys, i, i, r.Keys()), Splice(children, i, i + 1, r.Trees())), h + 1, lo, hi);
  }

  lemma NodeOfForest(keys: seq<Key>, f: seq<Tree>, h: nat, lo: Option<Key>, hi: Option<Key>)
    requires Forest(keys, f, h, lo, hi)
    ensures Valid(Node(keys, f), h + 1, lo, hi) && Entries(Node(keys, f), h + 1) == ForestEntries(f, h)
  {
  }

  lemma GrowRoot(left: Tree, sep: Key, right: Tree, h: nat)
    requires Forest([sep], [left, right], h, None, None)
    ensures Valid(Node([sep], [left, right]), h + 1, None, None)
    ensures Entries(Node([sep], [left, right]), h + 1) == ForestEntries([left, right], h)
  {
  }

  /** `put` denotes map update, keeps search order, and keeps every leaf at one depth. */
  lemma PutCorrect(root: Root, k: Key, v: Bytes)
    requires RootValid(root)
    ensures RootValid(Put(root, k, v))
    ensures RootEntries(Put(root, k, v)) == Upsert(RootEntries(root), k, v)
    ensures ToMap(RootEntries(Put(root, k, v))) == ToMap(RootEntries(root))[k := v]
  {
    if root.Rooted? {
      var h := root.height;
      InsertCorrect(root.tree, h, k, v, None, None);
      EntriesSorted(root.tree, h, None, None);
      match Insert(root.tree, h, k, v)
      case One(t) => PairEntries(t, t, h);
      case Two(left, sep, right) => GrowRoot(left, sep, right, h);
    } else {
      assert Zip([k], [v]) == [Entry(k, v)];
    }
    UpsertIsMapUpdate(RootEntries(root), k, v);
  }

  /** Put leaves a root with at least one key. */
  lemma PutTrimmed(r: Root, k: Key, v: Bytes)
    requires RootShape(r) && Trimmed(r)
    ensures Trimmed(Put(r, k, v))
  {
  }
}
