/** `delete_rec`, `try_merge`, `finalize_root` and `delete` of src/storage/btree.rs over pages. */
module TreeDelete {
  import opened Bytes
  import opened SortedList
  import opened BTree
  import opened BTreePut
  import opened BTreeDelete
  import opened Pages
  import opened CtxModule
  import opened TreePut

  /** The pages of a tree other than its root page. */
  ghost function Below(d: Located): multiset<PageId> {
    if d.AtLeaf? then ValIds(d.vals) else ForestIds(d.children)
  }

  lemma SizeAgrees(d: Located, w: Work, base: iset<PageId>, h: nat)
    requires At(d, w, base) && Shape(Erase(d), h)
    ensures EncodedLen(NodeOf(d)) == Size(Erase(d))
  {
    hide ValAt;
    TopOf(d, w, base);
    if d.AtLeaf? {
      ValsChained(d.vals, w);
      StoredSize(d.vals);
    }
  }

  // ----- merging two siblings -----

  /** `try_merge` on page images; mixed variants never merge. */
  function TryMergeNodes(left: TreeNode, right: TreeNode, sep: Key): Option<TreeNode> {
    match (left, right) {
      case (LeafNode(lk, lv), LeafNode(rk, rv)) =>
        var m := LeafNode(lk + rk, lv + rv);
        if EncodedLen(m) <= SPLIT_THRESHOLD then Some(m) else None
      case (InternalNode(lk, lc), InternalNode(rk, rc)) =>
        var m := InternalNode(lk + [sep] + rk, lc + rc);
        if EncodedLen(m) <= SPLIT_THRESHOLD then Some(m) else None
      case _ => None
    }
  }

  function MergedAt(a: Located, b: Located, sep: Key, id: PageId): Located {
    if a.AtLeaf? && b.AtLeaf? then AtLeaf(id, a.keys + b.keys, a.vals + b.vals)
    else if a.AtNode? && b.AtNode? then AtNode(id, a.keys + [sep] + b.keys, a.children + b.children)
    else a
  }

  /** Merging page images is merging the trees they stand for. */
  lemma MergeAgrees(a: Located, b: Located, sep: Key, id: PageId, w: Work, base: iset<PageId>, h: nat)
    requires At(a, w, base) && At(b, w, base) && Shape(Erase(a), h) && Shape(Erase(b), h)
    ensures var m := MergedAt(a, b, sep, id); var r := TryMergeNodes(NodeOf(a), NodeOf(b), sep);
      && Erase(m) == Merged(Erase(a), Erase(b), sep, h)
      && (r.Some? <==> TryMerge(Erase(a), Erase(b), sep, h).Some?)
      && (r.Some? ==> r.value == NodeOf(m))
      && m.id == id
  {
    TopOf(a, w, base);
    TopOf(b, w, base);
    hide At, ValAt, ValsAt, AllAt, KeysSize, ValuesSize, StoredValuesSize;
    if a.AtLeaf? {
      LeafMergeAgrees(a, b, sep, id, w);
    } else {
      NodeMergeAgrees(a, b, sep, id);
    }
  }

  lemma NodeMergeAgrees(a: Located, b: Located, sep: Key, id: PageId)
    requires a.AtNode? && b.AtNode?
    ensures var m := MergedAt(a, b, sep, id);
      && NodeOf(m) == InternalNode(a.keys + [sep] + b.keys, RootIds(a.children) + RootIds(b.children))
      && Erase(m) == Node(a.keys + [sep] + b.keys, EraseAll(a.children) + EraseAll(b.children))
      && EncodedLen(NodeOf(m)) == Size(Erase(m))
  {
    assert RootIds(a.children) + RootIds(b.children) == RootIds(a.children + b.children);
    assert EraseAll(a.children) + EraseAll(b.children) == EraseAll(a.children + b.children);
  }

  lemma LeafMergeAgrees(a: Located, b: Located, sep: Key, id: PageId, w: Work)
    requires a.AtLeaf? && b.AtLeaf? && ValsAt(a.vals, w) && ValsAt(b.vals, w)
    ensures var m := MergedAt(a, b, sep, id);
      && NodeOf(m) == LeafNode(a.keys + b.keys, StoredVals(a.vals) + StoredVals(b.vals))
      && Erase(m) == Leaf(a.keys + b.keys, ValBytes(a.vals) + ValBytes(b.vals))
      && EncodedLen(NodeOf(m)) == Size(Erase(m))
  {
    assert StoredVals(a.vals) + StoredVals(b.vals) == StoredVals(a.vals + b.vals);
    assert ValBytes(a.vals) + ValBytes(b.vals) == ValBytes(a.vals + b.vals);
    ValsChained(a.vals, w);
    ValsChained(b.vals, w);
    StoredSize(a.vals + b.vals);
  }

  lemma MergedPages(a: Located, b: Located, sep: Key, id: PageId)
    requires a.AtLeaf? == b.AtLeaf?
    ensures Ids(MergedAt(a, b, sep, id)) == multiset{id} + (Below(a) + Below(b))
    ensures Ids(a) + Ids(b) == multiset{a.id, b.id} + (Below(a) + Below(b))
  {
    hide ForestIds, ValIds;
    if a.AtLeaf? {
      ValIdsConcat(a.vals, b.vals);
    } else {
      ForestIdsConcat(a.children, b.children);
    }
    SumPairs(a.id, b.id, Below(a), Below(b));
  }

  lemma BelowKept(a: Located, b: Located, sep: Key, w: Work, w': Work, base: iset<PageId>, id: PageId)
    requires At(a, w, base) && At(b, w, base) && a.AtLeaf? == b.AtLeaf?
    requires forall p: PageId :: p in Below(a) + Below(b) ==> SameAt(w, w', p)
    requires id in w'.overlay && w'.overlay[id] == NodeOf(MergedAt(a, b, sep, id))
    ensures At(MergedAt(a, b, sep, id), w', base)
  {
    hide ForestIds, ValIds, SameAt, ValAt, At;
    TopOf(a, w, base);
    TopOf(b, w, base);
    if a.AtLeaf? {
      ValsKept(a.vals, w, w');
      ValsKept(b.vals, w, w');
      StagedLeaf(id, a.keys + b.keys, a.vals + b.vals, w', base);
    } else {
      AllKept(a.children, w, w', base);
      AllKept(b.children, w, w', base);
      StagedNode(id, a.keys + [sep] + b.keys, a.children + b.children, w', base);
    }
  }

  /** Retire both siblings and stage their merger on a page of its own. */
  method ReplacePair(ctx: Ctx, leftId: PageId, rightId: PageId, merged: TreeNode) returns (id: PageId)
    requires ctx.Ready(multiset{leftId, rightId})
    modifies ctx
    ensures Moved(old(ctx.W()), multiset{leftId, rightId}, ctx.W(), multiset{id}, ctx.ours, ctx.reclaimWatermark)
    ensures id in ctx.overlay && ctx.overlay[id] == merged
  {
    hide Moved, Pages.Ready;
    ghost var w := ctx.W();
    ReadySub(w, multiset{leftId, rightId}, multiset{leftId}, ctx.ours, ctx.reclaimWatermark);
    ctx.Retire(leftId);
    ghost var w1 := ctx.W();
    assert multiset{leftId, rightId} == multiset{leftId} + multiset{rightId};
    assert multiset{} + multiset{rightId} == multiset{rightId};
    ReadyAfter(w, multiset{leftId}, w1, multiset{}, multiset{rightId}, ctx.ours, ctx.reclaimWatermark);
    MovedFrame(w, multiset{leftId}, w1, multiset{}, multiset{rightId}, ctx.ours, ctx.reclaimWatermark);
    ctx.Retire(rightId);
    ghost var w2 := ctx.W();
    ReadyAlone(w1, multiset{rightId}, w2, multiset{}, ctx.ours, ctx.reclaimWatermark);
    id := ctx.Alloc();
    ghost var w3 := ctx.W();
    ReadyAlone(w2, multiset{}, w3, multiset{id}, ctx.ours, ctx.reclaimWatermark);
    ctx.PutNode(id, merged);
    MovedTrans(w, multiset{leftId, rightId}, w1, multiset{rightId}, w2, multiset{}, ctx.ours, ctx.reclaimWatermark);
    MovedTrans(w, multiset{leftId, rightId}, w2, multiset{}, w3, multiset{id}, ctx.ours, ctx.reclaimWatermark);
    MovedTrans(w, multiset{leftId, rightId}, w3, multiset{id}, ctx.W(), multiset{id}, ctx.ours, ctx.reclaimWatermark);
  }

  /** Fold children `i` and `i + 1` into one. */
  method MergePair(ctx: Ctx, keys: seq<Key>, children: seq<PageId>, i: nat, merged: TreeNode, ghost nodeId: PageId, ghost f: seq<Located>)
    returns (keys': seq<Key>, children': seq<PageId>, ghost m: Located)
    requires i < |keys| && |f| == |keys| + 1 && children == RootIds(f)
    requires f[i].AtLeaf? == f[i + 1].AtLeaf? && merged == NodeOf(MergedAt(f[i], f[i + 1], keys[i], 0))
    requires AllAt(f, ctx.W(), ctx.base) && ctx.Ready(multiset{nodeId} + ForestIds(f))
    modifies ctx
    ensures m == MergedAt(f[i], f[i + 1], keys[i], m.id)
    ensures var f' := Splice(f, i, i + 2, [m]);
      && Moved(old(ctx.W()), multiset{nodeId} + ForestIds(f), ctx.W(), multiset{nodeId} + ForestIds(f'), ctx.ours, ctx.reclaimWatermark)
      && ctx.Ready(multiset{nodeId} + ForestIds(f')) && AllAt(f', ctx.W(), ctx.base)
      && keys' == Splice(keys, i, i + 1, []) && children' == RootIds(f')
    ensures SameAt(old(ctx.W()), ctx.W(), nodeId)
  {
    hide Moved, Pages.Ready, At, ForestIds, Ids, Below, SameAt, MergedAt, NodeOf;
    ghost var w, a, b := ctx.W(), f[i], f[i + 1];
    ghost var rest := Below(a) + Below(b);
    PairReady(w, nodeId, f, i, keys[i], ctx.ours, ctx.reclaimWatermark);
    var id := ReplacePair(ctx, children[i], children[i + 1], merged);
    m := MergedAt(a, b, keys[i], id);
    MergedId(a, b, keys[i], id);
    ReadyAfter(w, multiset{a.id, b.id}, ctx.W(), multiset{id}, rest, ctx.ours, ctx.reclaimWatermark);
    MovedFrame(w, multiset{a.id, b.id}, ctx.W(), multiset{id}, rest, ctx.ours, ctx.reclaimWatermark);
    BelowKept(a, b, keys[i], w, ctx.W(), ctx.base, id);
    MergedPages(a, b, keys[i], id);
    ForestIdsOne(m);
    PairIds(a, b);
    assert f[i..i + 2] == [a, b];
    ExchangeForest(w, nodeId, f, i, i + 2, ctx.W(), [m], ctx.ours, ctx.reclaimWatermark, ctx.base);
    keys' := Splice(keys, i, i + 1, []);
    children' := Splice(children, i, i + 2, [id]);
    EraseSplice(f, i, i + 2, [m]);
    assert RootIds([m]) == [id];
  }

  lemma MergedId(a: Located, b: Located, sep: Key, id: PageId)
    requires a.AtLeaf? == b.AtLeaf?
    ensures MergedAt(a, b, sep, id).id == id && NodeOf(MergedAt(a, b, sep, id)) == NodeOf(MergedAt(a, b, sep, 0))
  {
  }

  lemma PairReady(w: Work, nodeId: PageId, f: seq<Located>, i: nat, sep: Key, ours: iset<PageId>, mark: nat)
    requires i + 1 < |f| && f[i].AtLeaf? == f[i + 1].AtLeaf? && Pages.Ready(w, multiset{nodeId} + ForestIds(f), ours, mark)
    ensures var a, b := f[i], f[i + 1];
      && Pages.Ready(w, multiset{a.id, b.id} + (Below(a) + Below(b)), ours, mark)
      && Pages.Ready(w, multiset{a.id, b.id}, ours, mark)
  {
    hide Pages.Ready, ForestIds, Ids, Below;
    var a, b := f[i], f[i + 1];
    MergedPages(a, b, sep, 0);
    ForestIdsSplice(f, i, i + 2, []);
    assert f[i..i + 2] == [a, b];
    PairIds(a, b);
    ReadySub(w, multiset{nodeId} + ForestIds(f), Ids(a) + Ids(b), ours, mark);
    ReadySub(w, Ids(a) + Ids(b), multiset{a.id, b.id}, ours, mark);
  }

  /** Read two siblings and try to merge them. */
  method TryPair(ctx: Ctx, keys: seq<Key>, children: seq<PageId>, i: nat, ghost f: seq<Located>, ghost h: nat) returns (merged: Option<TreeNode>)
    requires i < |keys| && |f| == |keys| + 1 && children == RootIds(f) && AllAt(f, ctx.W(), ctx.base)
    requires Shape(Node(keys, EraseAll(f)), h + 1)
    ensures merged.Some? <==> TryMerge(EraseAll(f)[i], EraseAll(f)[i + 1], keys[i], h).Some?
    ensures f[i].AtLeaf? == f[i + 1].AtLeaf?
    ensures merged.Some? ==> merged.value == NodeOf(MergedAt(f[i], f[i + 1], keys[i], 0))
  {
    hide At, TryMergeNodes, TryMerge;
    assert EraseAll(f)[i] == Erase(f[i]) && EraseAll(f)[i + 1] == Erase(f[i + 1]);
    TopOf(f[i], ctx.W(), ctx.base);
    TopOf(f[i + 1], ctx.W(), ctx.base);
    MergeAgrees(f[i], f[i + 1], keys[i], 0, ctx.W(), ctx.base, h);
    var left := ctx.Read(children[i]);
    var right := ctx.Read(children[i + 1]);
    merged := TryMergeNodes(left, right, keys[i]);
  }

  method IsUnderfull(ctx: Ctx, id: PageId, ghost d: Located, ghost h: nat) returns (r: bool)
    requires At(d, ctx.W(), ctx.base) && d.id == id && Shape(Erase(d), h)
    ensures r == Underfull(Erase(d))
  {
    hide At;
    TopOf(d, ctx.W(), ctx.base);
    SizeAgrees(d, ctx.W(), ctx.base, h);
    var node := ctx.Read(id);
    r := EncodedLen(node) < MERGE_THRESHOLD;
  }

  lemma EraseMerged(keys: seq<Key>, f: seq<Located>, i: nat, m: Located, h: nat, w: Work, base: iset<PageId>)
    requires i < |keys| && |f| == |keys| + 1 && Shape(Node(keys, EraseAll(f)), h + 1) && AllAt(f, w, base)
    requires m == MergedAt(f[i], f[i + 1], keys[i], m.id)
    ensures EraseAll(Splice(f, i, i + 2, [m])) ==
            Splice(EraseAll(f), i, i + 2, [Merged(EraseAll(f)[i], EraseAll(f)[i + 1], keys[i], h)])
  {
    hide At, Merged, MergedAt, TryMergeNodes, TryMerge;
    assert EraseAll(f)[i] == Erase(f[i]) && EraseAll(f)[i + 1] == Erase(f[i + 1]);
    MergeAgrees(f[i], f[i + 1], keys[i], m.id, w, base, h);
    EraseSplice(f, i, i + 2, [m]);
    assert EraseAll([m]) == [Erase(m)];
  }

  /** After child `idx` shrank: merge it right, else left, else leave it. */
  method RebalanceNode(ctx: Ctx, keys: seq<Key>, children: seq<PageId>, idx: nat, ghost nodeId: PageId, ghost f: seq<Located>, ghost h: nat)
    returns (keys': seq<Key>, children': seq<PageId>, ghost f': seq<Located>)
    requires idx < |f| && |f| == |keys| + 1 && children == RootIds(f) && Shape(Node(keys, EraseAll(f)), h + 1)
    requires AllAt(f, ctx.W(), ctx.base) && ctx.Ready(multiset{nodeId} + ForestIds(f))
    modifies ctx
    ensures Moved(old(ctx.W()), multiset{nodeId} + ForestIds(f), ctx.W(), multiset{nodeId} + ForestIds(f'), ctx.ours, ctx.reclaimWatermark)
    ensures ctx.Ready(multiset{nodeId} + ForestIds(f')) && AllAt(f', ctx.W(), ctx.base)
    ensures children' == RootIds(f') && Node(keys', EraseAll(f')) == Rebalance(keys, EraseAll(f), idx, h)
    ensures SameAt(old(ctx.W()), ctx.W(), nodeId)
  {
    hide Moved, Pages.Ready, At, ForestIds, Ids, MergedAt, Merged;
    ghost var w := ctx.W();
    assert EraseAll(f)[idx] == Erase(f[idx]);
    ReadyRefl(w, multiset{nodeId} + ForestIds(f), ctx.ours, ctx.reclaimWatermark);
    var underfull := IsUnderfull(ctx, children[idx], f[idx], h);
    if underfull {
      var merged := None;
      if idx + 1 < |children| {
        merged := TryPair(ctx, keys, children, idx, f, h);
        if merged.Some? {
          ghost var m;
          keys', children', m := MergePair(ctx, keys, children, idx, merged.value, nodeId, f);
          EraseMerged(keys, f, idx, m, h, w, ctx.base);
          return keys', children', Splice(f, idx, idx + 2, [m]);
        }
      }
      if idx > 0 {
        merged := TryPair(ctx, keys, children, idx - 1, f, h);
        if merged.Some? {
          ghost var m;
          keys', children', m := MergePair(ctx, keys, children, idx - 1, merged.value, nodeId, f);
          EraseMerged(keys, f, idx - 1, m, h, w, ctx.base);
          return keys', children', Splice(f, idx - 1, idx + 1, [m]);
        }
      }
    }
    return keys, children, f;
  }

  lemma ReadyRefl(w: Work, ids: multiset<PageId>, ours: iset<PageId>, mark: nat)
    requires Pages.Ready(w, ids, ours, mark)
    ensures Moved(w, ids, w, ids, ours, mark)
  {
  }

  // ----- the operation -----

  method DeleteRec(ctx: Ctx, nodeId: PageId, key: Key, ghost d: Located, ghost h: nat)
    returns (newId: PageId, removed: bool, ghost d': Located)
    requires At(d, ctx.W(), ctx.base) && d.id == nodeId && Shape(Erase(d), h) && ctx.Ready(Ids(d))
    modifies ctx
    ensures Moved(old(ctx.W()), Ids(d), ctx.W(), Ids(d'), ctx.ours, ctx.reclaimWatermark)
    ensures At(d', ctx.W(), ctx.base) && d'.id == newId
    ensures (Erase(d'), removed) == BTreeDelete.DeleteRec(Erase(d), h, key)
    ensures !removed ==> ctx.W() == old(ctx.W()) && d' == d
    decreases h
  {
    hide Moved, Pages.Ready, At, ForestIds, Ids, ValIds, SameAt, Rebalance;
    ghost var w := ctx.W();
    TopOf(d, w, ctx.base);
    ReadyRefl(w, Ids(d), ctx.ours, ctx.reclaimWatermark);
    var isScratch := ctx.IsScratch(nodeId);
    var node := ctx.Read(nodeId);
    match node
    case LeafNode(keys, values) =>
      newId, removed, d' := DeleteLeaf(ctx, nodeId, isScratch, keys, values, key, d);
    case InternalNode(keys, children) =>
      var idx := ChildIndex(keys, key);
      ghost var f := d.children;
      ChildReady(w, d, idx, ctx.ours, ctx.reclaimWatermark);
      assert EraseAll(f)[idx] == Erase(f[idx]);
      var newChildId;
      ghost var c;
      newChildId, removed, c := DeleteRec(ctx, children[idx], key, f[idx], h - 1);
      if !removed {
        return nodeId, false, d;
      }
      ghost var w1 := ctx.W();
      ForestIdsOne(c);
      OneAt(c, w1, ctx.base);
      ChildExchanged(w, d, idx, w1, [c], ctx.ours, ctx.reclaimWatermark, ctx.base);
      ChildUpdated(d, idx, c, h);
      children := children[idx := newChildId];
      newId, d' := ShrinkNode(ctx, nodeId, isScratch, keys, children, idx, Splice(f, idx, idx + 1, [c]), h - 1);
      MovedTrans(w, Ids(d), w1, multiset{nodeId} + ForestIds(Splice(f, idx, idx + 1, [c])), ctx.W(), Ids(d'), ctx.ours, ctx.reclaimWatermark);
  }

  lemma OneAt(d: Located, w: Work, base: iset<PageId>)
    requires At(d, w, base)
    ensures AllAt([d], w, base)
  {
  }

  lemma ChildUpdated(d: Located, i: nat, c: Located, h: nat)
    requires d.AtNode? && Shape(Erase(d), h) && i < |d.children| && Shape(Erase(c), h - 1)
    ensures var f' := Splice(d.children, i, i + 1, [c]);
      && |f'| == |d.keys| + 1
      && EraseAll(f') == EraseAll(d.children)[i := Erase(c)]
      && RootIds(f') == RootIds(d.children)[i := c.id]
      && Shape(Node(d.keys, EraseAll(f')), h)
  {
    var f' := Splice(d.children, i, i + 1, [c]);
    assert EraseAll(f') == EraseAll(d.children)[i := Erase(c)];
  }

  /** Rebalance around the shrunken child, then place the node. */
  method ShrinkNode(ctx: Ctx, nodeId: PageId, isScratch: bool, keys: seq<Key>, children: seq<PageId>, idx: nat, ghost f: seq<Located>, ghost h: nat)
    returns (newId: PageId, ghost d': Located)
    requires idx < |f| && |f| == |keys| + 1 && children == RootIds(f) && Shape(Node(keys, EraseAll(f)), h + 1)
    requires AllAt(f, ctx.W(), ctx.base) && ctx.Ready(multiset{nodeId} + ForestIds(f)) && isScratch == ctx.IsScratch(nodeId)
    modifies ctx
    ensures Moved(old(ctx.W()), multiset{nodeId} + ForestIds(f), ctx.W(), Ids(d'), ctx.ours, ctx.reclaimWatermark)
    ensures At(d', ctx.W(), ctx.base) && d'.id == newId
    ensures Erase(d') == Rebalance(keys, EraseAll(f), idx, h)
  {
    hide Moved, Pages.Ready, At, ForestIds, Ids, Rebalance, Shape;
    ghost var w := ctx.W();
    var keys', children';
    ghost var f';
    keys', children', f' := RebalanceNode(ctx, keys, children, idx, nodeId, f, h);
    ghost var w1 := ctx.W();
    ReadySub(w1, multiset{nodeId} + ForestIds(f'), multiset{nodeId}, ctx.ours, ctx.reclaimWatermark);
    newId := Place(ctx, nodeId, isScratch, InternalNode(keys', children'));
    CarryForest(w1, nodeId, ctx.W(), multiset{newId}, f', ctx.ours, ctx.reclaimWatermark, ctx.base);
    StagedNode(newId, keys', f', ctx.W(), ctx.base);
    d' := AtNode(newId, keys', f');
    MovedTrans(w, multiset{nodeId} + ForestIds(f), w1, multiset{nodeId} + ForestIds(f'), ctx.W(), Ids(d'), ctx.ours, ctx.reclaimWatermark);
  }

  method DeleteLeaf(ctx: Ctx, nodeId: PageId, isScratch: bool, keys: seq<Key>, values: seq<StoredValue>, key: Key, ghost d: Located)
    returns (newId: PageId, removed: bool, ghost d': Located)
    requires d.AtLeaf? && d.id == nodeId && NodeOf(d) == LeafNode(keys, values) && |keys| == |d.vals|
    requires At(d, ctx.W(), ctx.base) && ctx.Ready(Ids(d)) && isScratch == ctx.IsScratch(nodeId)
    modifies ctx
    ensures Moved(old(ctx.W()), Ids(d), ctx.W(), Ids(d'), ctx.ours, ctx.reclaimWatermark)
    ensures At(d', ctx.W(), ctx.base) && d'.id == newId
    ensures (Erase(d'), removed) == BTreeDelete.DeleteRec(Erase(d), 0, key)
    ensures !removed ==> ctx.W() == old(ctx.W()) && d' == d
  {
    hide Moved, Pages.Ready, At, ValIds, Ids, ValAt;
    ghost var w, vals := ctx.W(), d.vals;
    TopOf(d, w, ctx.base);
    ReadyRefl(w, Ids(d), ctx.ours, ctx.reclaimWatermark);
    if !Found(keys, key) {
      return nodeId, false, d;
    }
    var i := Position(keys, key);
    RetireOld(ctx, values, i, true, nodeId, vals);
    ghost var w1, vals' := ctx.W(), Splice(vals, i, i + 1, []);
    NoValIds();
    ExchangeVals(w, nodeId, vals, i, i + 1, w1, [], ctx.ours, ctx.reclaimWatermark);
    ReadySub(w1, multiset{nodeId} + ValIds(vals'), multiset{nodeId}, ctx.ours, ctx.reclaimWatermark);
    var keys', values' := Splice(keys, i, i + 1, []), Splice(values, i, i + 1, []);
    assert values' == StoredVals(vals') && ValBytes(vals') == Splice(ValBytes(vals), i, i + 1, []);
    newId := Place(ctx, nodeId, isScratch, LeafNode(keys', values'));
    CarryVals(w1, nodeId, ctx.W(), multiset{newId}, vals', ctx.ours, ctx.reclaimWatermark);
    StagedLeaf(newId, keys', vals', ctx.W(), ctx.base);
    removed, d' := true, AtLeaf(newId, keys', vals');
    MovedTrans(w, Ids(d), w1, multiset{nodeId} + ValIds(vals'), ctx.W(), Ids(d'), ctx.ours, ctx.reclaimWatermark);
  }

  lemma NoValIds()
    ensures ValIds([]) == multiset{}
  {
  }

  /** Unwind the root while it is an empty leaf or an internal node with a single child. */
  method FinalizeRoot(ctx: Ctx, rootId: PageId, ghost d: Located, ghost h: nat) returns (root: Option<PageId>, ghost t: LocatedRoot)
    requires At(d, ctx.W(), ctx.base) && d.id == rootId && Shape(Erase(d), h) && ctx.Ready(Ids(d))
    modifies ctx
    ensures Moved(old(ctx.W()), Ids(d), ctx.W(), t.Owned(), ctx.ours, ctx.reclaimWatermark)
    ensures t.Id() == root && t.Here(ctx.W(), ctx.base)
    ensures t.Abstract() == BTreeDelete.FinalizeRoot(Erase(d), h) && Collapsed(Erase(d), h, t.Abstract()) && t.Trimmed()
  {
    hide Moved, Pages.Ready, At, Ids, ForestIds, ValIds, Collapsed, LocatedRoot.Trimmed;
    FinalizeTrims(d, h);
    var cur := rootId;
    ghost var w, c, k := ctx.W(), d, h;
    ReadyRefl(w, Ids(d), ctx.ours, ctx.reclaimWatermark);
    while true
      invariant c.id == cur && At(c, ctx.W(), ctx.base) && Shape(Erase(c), k) && ctx.Ready(Ids(c))
      invariant Moved(w, Ids(d), ctx.W(), Ids(c), ctx.ours, ctx.reclaimWatermark)
      invariant BTreeDelete.FinalizeRoot(Erase(c), k) == BTreeDelete.FinalizeRoot(Erase(d), h)
      decreases k
    {
      TopOf(c, ctx.W(), ctx.base);
      var node := ctx.Read(cur);
      if node.keys != [] {
        return Some(cur), Planted(c, k);
      }
      ghost var w1 := ctx.W();
      match node
      case LeafNode(_, _) =>
        RetireRoot(ctx, cur, c);
        MovedTrans(w, Ids(d), w1, Ids(c), ctx.W(), Below(c), ctx.ours, ctx.reclaimWatermark);
        assert c.vals == [];
        NoValIds();
        return None, NoTree;
      case InternalNode(_, children) =>
        RetireRoot(ctx, cur, c);
        MovedTrans(w, Ids(d), w1, Ids(c), ctx.W(), Below(c), ctx.ours, ctx.reclaimWatermark);
        assert c.children == [c.children[0]];
        ForestIdsOne(c.children[0]);
        assert EraseAll(c.children)[0] == Erase(c.children[0]);
        cur, c, k := children[0], c.children[0], k - 1;
    }
  }

  lemma FinalizeTrims(d: Located, h: nat)
    requires Shape(Erase(d), h)
    ensures Collapsed(Erase(d), h, BTreeDelete.FinalizeRoot(Erase(d), h))
    ensures forall t: LocatedRoot :: t.Abstract() == BTreeDelete.FinalizeRoot(Erase(d), h) ==> t.Trimmed()
  {
    FinalizeCollapses(Erase(d), h);
  }

  /** Discard a root page, keeping what hangs below it. */
  method RetireRoot(ctx: Ctx, id: PageId, ghost c: Located)
    requires c.id == id && At(c, ctx.W(), ctx.base) && ctx.Ready(Ids(c))
    modifies ctx
    ensures Moved(old(ctx.W()), Ids(c), ctx.W(), Below(c), ctx.ours, ctx.reclaimWatermark)
    ensures ctx.Ready(Below(c)) && (c.AtNode? ==> AllAt(c.children, ctx.W(), ctx.base))
  {
    hide Moved, Pages.Ready, At, ForestIds, ValIds, SameAt;
    ghost var w := ctx.W();
    TopOf(c, w, ctx.base);
    ReadySub(w, Ids(c), multiset{id}, ctx.ours, ctx.reclaimWatermark);
    ctx.Retire(id);
    assert multiset{} + Below(c) == Below(c);
    ReadyAfter(w, multiset{id}, ctx.W(), multiset{}, Below(c), ctx.ours, ctx.reclaimWatermark);
    MovedFrame(w, multiset{id}, ctx.W(), multiset{}, Below(c), ctx.ours, ctx.reclaimWatermark);
    if c.AtNode? {
      AllKept(c.children, w, ctx.W(), ctx.base);
    }
  }

  method Delete(ctx: Ctx, root: Option<PageId>, key: Key, ghost t: LocatedRoot) returns (newRoot: Option<PageId>, existed: bool, ghost t': LocatedRoot)
    requires t.Sound() && t.Id() == root && t.Here(ctx.W(), ctx.base) && ctx.Ready(t.Owned())
    modifies ctx
    ensures Moved(old(ctx.W()), t.Owned(), ctx.W(), t'.Owned(), ctx.ours, ctx.reclaimWatermark)
    ensures t'.Id() == newRoot && t'.Here(ctx.W(), ctx.base)
    ensures t'.Sound() && (t'.Abstract(), existed) == BTreeDelete.Delete(t.Abstract(), key)
    ensures t'.Trimmed() && (t'.Planted? ==> t.Planted? && t'.height <= t.height)
    ensures t'.Planted? && t'.height == 0 ==> RootEntries(t'.Abstract()) != []
    ensures t.Planted? && t.height == 0 ==> (newRoot == None <==> RootEntries(t'.Abstract()) == [])
  {
    hide Moved, Pages.Ready, At, Ids, Ordered, Collapsed, LocatedRoot.Trimmed;
    DeleteTrims(t, key);
    DeleteCorrect(t.Abstract(), key);
    ghost var w := ctx.W();
    match root
    case None =>
      ReadyRefl(w, t.Owned(), ctx.ours, ctx.reclaimWatermark);
      return None, false, NoTree;
    case Some(rootId) =>
      var newRootId;
      ghost var d;
      newRootId, existed, d := DeleteRec(ctx, rootId, key, t.d, t.height);
      ghost var w1 := ctx.W();
      ReadyAlone(w, Ids(t.d), w1, Ids(d), ctx.ours, ctx.reclaimWatermark);
      newRoot, t' := FinalizeRoot(ctx, newRootId, d, t.height);
      MovedTrans(w, Ids(t.d), w1, Ids(d), ctx.W(), t'.Owned(), ctx.ours, ctx.reclaimWatermark);
  }

  lemma DeleteTrims(t: LocatedRoot, key: Key)
    requires t.Sound()
    ensures forall t': LocatedRoot :: t'.Abstract() == BTreeDelete.Delete(t.Abstract(), key).0 ==>
              && t'.Trimmed() && (t'.Planted? ==> t.Planted? && t'.height <= t.height)
              && (t'.Planted? && t'.height == 0 ==> RootEntries(t'.Abstract()) != [])
              && (t.Planted? && t.height == 0 ==> (t' == NoTree <==> RootEntries(t'.Abstract()) == []))
  {
    DeleteTrimmed(t.Abstract(), key);
  }
}
