/** `get`, `range` and `read_chain` over pages: src/storage/btree.rs and src/storage/overflow.rs. */
module TreeRead {
  import opened Bytes
  import opened SortedList
  import opened BTree
  import opened BTreePut
  import opened Pages
  import opened PagerFile
  import opened TreePut

  /** What a reader sees: the disk under an overlay. */
  ghost function View(disk: Disk, overlay: Overlay): Work {
    Work(disk, {}, overlay, 0, [], [], [])
  }

  method ReadNode(pager: Pager, overlay: Overlay, id: PageId) returns (node: TreeNode)
    requires NodeAt(View(pager.pages, overlay), id).Some?
    ensures NodeAt(View(pager.pages, overlay), id) == Some(node)
  {
    if id in overlay {
      node := overlay[id];
    } else {
      var page := pager.ReadPage(id);
      node := page.node;
    }
  }

  /** Walk an overflow chain; what comes back is exactly what was stored. */
  method ReadChain(pager: Pager, head: PageId, len: nat, ghost chain: seq<PageId>, ghost bytes: Bytes, ghost w: Work) returns (out: Bytes)
    requires w.disk == pager.pages && ChainAt(chain, Chunks(bytes), w) && Some(head) == Head(chain)
    ensures out == bytes
  {
    out := [];
    var cur := Some(head);
    ghost var left, chunks := chain, Chunks(bytes);
    JoinChunks(bytes);
    while cur != None
      invariant cur == Head(left) && ChainAt(left, chunks, w)
      invariant out + Join(chunks) == bytes
      decreases |left|
    {
      var page := pager.ReadPage(cur.value);
      assert out + Join(chunks) == (out + page.data) + Join(chunks[1..]);
      out := out + page.data;
      cur := page.next;
      left, chunks := left[1..], chunks[1..];
    }
  }

  method ResolveValue(pager: Pager, value: StoredValue, ghost v: Val, ghost w: Work) returns (bytes: Bytes)
    requires w.disk == pager.pages && ValAt(v, w) && value == Stored(v)
    ensures bytes == v.bytes
  {
    match value
    case Inline(b) => bytes := b;
    case Overflow(head, len) => bytes := ReadChain(pager, head, len, v.chain, v.bytes, w);
  }

  /** Point lookup agrees with the records the tree denotes. */
  method Get(pager: Pager, overlay: Overlay, root: Option<PageId>, key: Key, ghost t: LocatedRoot, ghost base: iset<PageId>)
    returns (r: Option<Bytes>)
    requires t.Sound() && t.Id() == root && t.Here(View(pager.pages, overlay), base)
    ensures r == Lookup(RootEntries(t.Abstract()), key)
  {
    hide At, Ordered, Ids, ForestIds, ValIds;
    match root {
      case None => return None;
      case Some(_) =>
    }
    var cur := root.value;
    ghost var w, d, h := View(pager.pages, overlay), t.d, t.height;
    GetIsLookup(Erase(d), h, key, None, None);
    while true
      invariant d.id == cur && At(d, w, base) && Shape(Erase(d), h)
      invariant BTree.Get(Erase(d), h, key) == BTree.Get(Erase(t.d), t.height, key)
      decreases h
    {
      TopOf(d, w, base);
      var node := ReadNode(pager, overlay, cur);
      match node
      case LeafNode(keys, values) =>
        if !Found(keys, key) {
          return None;
        }
        var i := Position(keys, key);
        var v := ResolveValue(pager, values[i], d.vals[i], w);
        return Some(v);
      case InternalNode(keys, children) =>
        var i := ChildIndex(keys, key);
        assert EraseAll(d.children)[i] == Erase(d.children[i]);
        cur, d, h := children[i], d.children[i], h - 1;
    }
  }

  /** All records with `start <= key < end`, in key order. */
  method Range(pager: Pager, overlay: Overlay, root: Option<PageId>, start: Option<Key>, end: Option<Key>,
               ghost t: LocatedRoot, ghost base: iset<PageId>)
    returns (out: seq<Entry>)
    requires t.Sound() && t.Id() == root && t.Here(View(pager.pages, overlay), base)
    ensures out == Filter(RootEntries(t.Abstract()), start, end)
  {
    out := [];
    match root
    case None =>
    case Some(id) => out := Collect(pager, overlay, id, start, end, [], t.d, t.height, base);
  }

  method Collect(pager: Pager, overlay: Overlay, id: PageId, start: Option<Key>, end: Option<Key>, out: seq<Entry>,
                 ghost d: Located, ghost h: nat, ghost base: iset<PageId>)
    returns (out': seq<Entry>)
    requires d.id == id && At(d, View(pager.pages, overlay), base) && Shape(Erase(d), h)
    ensures out' == out + Filter(Entries(Erase(d), h), start, end)
    decreases h, 0
  {
    hide At, Ids, ForestIds, ValIds, InRange, Filter;
    ghost var w := View(pager.pages, overlay);
    TopOf(d, w, base);
    var node := ReadNode(pager, overlay, id);
    match node
    case LeafNode(keys, values) =>
      out' := CollectLeaf(pager, keys, values, start, end, out, d.vals, w);
    case InternalNode(_, children) =>
      out' := CollectForest(pager, overlay, children, start, end, out, d.children, h - 1, base);
  }

  /** The children of one node, left to right. */
  method CollectForest(pager: Pager, overlay: Overlay, children: seq<PageId>, start: Option<Key>, end: Option<Key>, out: seq<Entry>,
                       ghost f: seq<Located>, ghost h: nat, ghost base: iset<PageId>)
    returns (out': seq<Entry>)
    requires children == RootIds(f) && AllAt(f, View(pager.pages, overlay), base) && forall i :: 0 <= i < |f| ==> Shape(EraseAll(f)[i], h)
    ensures out' == out + Filter(ForestEntries(EraseAll(f), h), start, end)
    decreases h, 1
  {
    hide At, Shape, InRange, Filter, Erase, ForestEntries;
    ghost var trees := EraseAll(f);
    out' := out;
    NothingYet(h, start, end);
    assert trees[..0] == [];
    for i := 0 to |children|
      invariant out' == out + Filter(ForestEntries(trees[..i], h), start, end)
    {
      assert trees[i] == Erase(f[i]);
      out' := Collect(pager, overlay, children[i], start, end, out', f[i], h, base);
      PrefixGrows(trees, i, h, start, end);
    }
    assert trees[..|children|] == trees;
  }

  lemma NothingYet(h: nat, start: Option<Key>, end: Option<Key>)
    ensures Filter(ForestEntries([], h), start, end) == []
  {
  }

  lemma PrefixGrows(f: seq<Tree>, i: nat, h: nat, start: Option<Key>, end: Option<Key>)
    requires i < |f| && forall j :: 0 <= j < |f| ==> Shape(f[j], h)
    ensures Filter(ForestEntries(f[..i + 1], h), start, end)
         == Filter(ForestEntries(f[..i], h), start, end) + Filter(Entries(f[i], h), start, end)
  {
    hide Filter;
    assert f[..i + 1] == f[..i] + [f[i]];
    ForestEntriesConcat(f[..i], [f[i]], h);
    assert ForestEntries([f[i]], h) == Entries(f[i], h);
    FilterConcat(ForestEntries(f[..i], h), Entries(f[i], h), start, end);
  }

  method CollectLeaf(pager: Pager, keys: seq<Key>, values: seq<StoredValue>, start: Option<Key>, end: Option<Key>, out: seq<Entry>,
                     ghost vals: seq<Val>, ghost w: Work)
    returns (out': seq<Entry>)
    requires |keys| == |vals| && values == StoredVals(vals) && ValsAt(vals, w) && w.disk == pager.pages
    ensures out' == out + Filter(Zip(keys, ValBytes(vals)), start, end)
  {
    hide InRange, ValAt;
    ghost var z := Zip(keys, ValBytes(vals));
    out' := out;
    for i := 0 to |keys|
      invariant out' == out + Filter(z[..i], start, end)
    {
      assert z[..i + 1] == z[..i] + [z[i]];
      FilterConcat(z[..i], [z[i]], start, end);
      if InRange(keys[i], start, end) {
        var v := ResolveValue(pager, values[i], vals[i], w);
        out' := out' + [Entry(keys[i], v)];
      }
    }
    assert z[..|keys|] == z;
  }
}
