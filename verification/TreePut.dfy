/** `insert_rec` and `put` of src/storage/btree.rs over pages, against the tree they denote. */
module TreePut {
  import opened Bytes
  import opened SortedList
  import opened BTree
  import opened BTreePut
  import opened Pages
  import opened CtxModule

  // ----- encoded sizes agree -----

  function StoredValuesSize(values: seq<StoredValue>): nat {
    if values == [] then 0
    else (match values[0] case Inline(bytes) => 12 + |bytes| case Overflow(_, _) => 20) + StoredValuesSize(values[1..])
  }

  /** `encoded_len` of a node's page image. */
  function EncodedLen(n: TreeNode): nat {
    match n
    case LeafNode(keys, values) => 24 + KeysSize(keys) + StoredValuesSize(values)
    case InternalNode(keys, children) => 24 + KeysSize(keys) + 8 * |children|
  }

  lemma {:induction false} StoredSize(vals: seq<Val>)
    requires forall i :: 0 <= i < |vals| ==> (vals[i].chain == [] <==> |vals[i].bytes| <= INLINE_VALUE_LIMIT)
    ensures StoredValuesSize(StoredVals(vals)) == ValuesSize(ValBytes(vals))
  {
    if vals != [] {
      StoredSize(vals[1..]);
      assert StoredVals(vals)[1..] == StoredVals(vals[1..]) && ValBytes(vals)[1..] == ValBytes(vals[1..]);
    }
  }

  ghost predicate ValsAt(vals: seq<Val>, w: Work) {
    forall i :: 0 <= i < |vals| ==> ValAt(vals[i], w)
  }

  ghost predicate AllAt(f: seq<Located>, w: Work, base: iset<PageId>) {
    forall i :: 0 <= i < |f| ==> At(f[i], w, base)
  }

  lemma ValsChained(vals: seq<Val>, w: Work)
    requires ValsAt(vals, w)
    ensures forall i :: 0 <= i < |vals| ==> (vals[i].chain == [] <==> |vals[i].bytes| <= INLINE_VALUE_LIMIT)
  {
    forall i | 0 <= i < |vals| ensures vals[i].chain == [] <==> |vals[i].bytes| <= INLINE_VALUE_LIMIT {
      assert ValAt(vals[i], w);
    }
  }

  lemma AllKept(f: seq<Located>, w: Work, w': Work, base: iset<PageId>)
    requires AllAt(f, w, base)
    requires forall p: PageId :: p in ForestIds(f) ==> SameAt(w, w', p)
    ensures AllAt(f, w', base)
  {
    forall i | 0 <= i < |f| ensures At(f[i], w', base) {
      ForestIdsPart(f, i);
      AtKept(f[i], w, w', base);
    }
  }

  // ----- placing nodes copy-on-write -----

  /** The copy-on-write step: a scratch page is rewritten in place, a committed one is superseded. */
  method Place(ctx: Ctx, nodeId: PageId, isScratch: bool, node: TreeNode) returns (newId: PageId)
    requires ctx.Ready(multiset{nodeId}) && isScratch == ctx.IsScratch(nodeId)
    modifies ctx
    ensures Moved(old(ctx.W()), multiset{nodeId}, ctx.W(), multiset{newId}, ctx.ours, ctx.reclaimWatermark)
    ensures newId in ctx.overlay && ctx.overlay[newId] == node
  {
    hide Moved, Pages.Ready;
    ghost var w := ctx.W();
    newId := NewHome(ctx, nodeId, isScratch);
    ghost var w' := ctx.W();
    ReadyAlone(w, multiset{nodeId}, w', multiset{newId}, ctx.ours, ctx.reclaimWatermark);
    ctx.PutNode(newId, node);
    MovedTrans(w, multiset{nodeId}, w', multiset{newId}, ctx.W(), multiset{newId}, ctx.ours, ctx.reclaimWatermark);
  }

  /** Where the new version of a node goes. */
  method NewHome(ctx: Ctx, nodeId: PageId, isScratch: bool) returns (newId: PageId)
    requires ctx.Ready(multiset{nodeId}) && isScratch == ctx.IsScratch(nodeId)
    modifies ctx
    ensures Moved(old(ctx.W()), multiset{nodeId}, ctx.W(), multiset{newId}, ctx.ours, ctx.reclaimWatermark)
    ensures newId in ctx.ours
  {
    ghost var w := ctx.W();
    if isScratch {
      MovedInPlace(w, nodeId, ctx.ours, ctx.reclaimWatermark);
      newId := nodeId;
    } else {
      hide Moved, Pages.Ready;
      ctx.MarkObsolete(nodeId);
      ghost var w' := ctx.W();
      ReadyAlone(w, multiset{nodeId}, w', multiset{}, ctx.ours, ctx.reclaimWatermark);
      newId := ctx.Alloc();
      MovedTrans(w, multiset{nodeId}, w', multiset{}, ctx.W(), multiset{newId}, ctx.ours, ctx.reclaimWatermark);
    }
  }

  lemma MovedInPlace(w: Work, id: PageId, ours: iset<PageId>, mark: nat)
    requires Owns(w, ours, mark) && id in w.overlay
    ensures Moved(w, multiset{id}, w, multiset{id}, ours, mark) && id in ours
  {
  }

  /** A split: the left half takes the node's new home and the right half a page of its own. */
  method PlaceTwo(ctx: Ctx, nodeId: PageId, isScratch: bool, left: TreeNode, right: TreeNode) returns (leftId: PageId, rightId: PageId)
    requires ctx.Ready(multiset{nodeId}) && isScratch == ctx.IsScratch(nodeId)
    modifies ctx
    ensures Moved(old(ctx.W()), multiset{nodeId}, ctx.W(), multiset{leftId, rightId}, ctx.ours, ctx.reclaimWatermark)
    ensures leftId != rightId
    ensures leftId in ctx.overlay && ctx.overlay[leftId] == left && rightId in ctx.overlay && ctx.overlay[rightId] == right
  {
    hide Moved, Pages.Ready;
    ghost var w := ctx.W();
    leftId := NewHome(ctx, nodeId, isScratch);
    ghost var w1 := ctx.W();
    ReadyAlone(w, multiset{nodeId}, w1, multiset{leftId}, ctx.ours, ctx.reclaimWatermark);
    ReadySub(w1, multiset{leftId}, multiset{}, ctx.ours, ctx.reclaimWatermark);
    rightId := ctx.Alloc();
    ghost var w2 := ctx.W();
    SecondHome(w, nodeId, w1, leftId, w2, rightId, ctx.ours, ctx.reclaimWatermark);
    ReadySub(w2, multiset{leftId, rightId}, multiset{leftId}, ctx.ours, ctx.reclaimWatermark);
    ctx.PutNode(leftId, left);
    ghost var w3 := ctx.W();
    PlacedOne(w2, leftId, w3, rightId, ctx.ours, ctx.reclaimWatermark);
    ReadySub(w3, multiset{leftId, rightId}, multiset{rightId}, ctx.ours, ctx.reclaimWatermark);
    ctx.PutNode(rightId, right);
    assert multiset{leftId, rightId} == multiset{rightId, leftId};
    PlacedOne(w3, rightId, ctx.W(), leftId, ctx.ours, ctx.reclaimWatermark);
    MovedTrans(w, multiset{nodeId}, w2, multiset{leftId, rightId}, w3, multiset{leftId, rightId}, ctx.ours, ctx.reclaimWatermark);
    MovedTrans(w, multiset{nodeId}, w3, multiset{leftId, rightId}, ctx.W(), multiset{leftId, rightId}, ctx.ours, ctx.reclaimWatermark);
  }

  lemma SecondHome(w: Work, id: PageId, w1: Work, a: PageId, w2: Work, b: PageId, ours: iset<PageId>, mark: nat)
    requires Pages.Ready(w1, multiset{a}, ours, mark)
    requires Moved(w, multiset{id}, w1, multiset{a}, ours, mark) && Moved(w1, multiset{}, w2, multiset{b}, ours, mark)
    ensures Moved(w, multiset{id}, w2, multiset{a, b}, ours, mark) && Pages.Ready(w2, multiset{a, b}, ours, mark) && a != b
  {
    hide Moved;
    assert multiset{} + multiset{a} == multiset{a} && multiset{b} + multiset{a} == multiset{a, b};
    ReadyAfter(w1, multiset{}, w2, multiset{b}, multiset{a}, ours, mark);
    MovedFrame(w1, multiset{}, w2, multiset{b}, multiset{a}, ours, mark);
    MovedTrans(w, multiset{id}, w1, multiset{a}, w2, multiset{a, b}, ours, mark);
    assert (multiset{a, b} + Pools(w2))[a] <= Span(2, w2.next)[a];
  }

  lemma PlacedOne(w: Work, a: PageId, w': Work, b: PageId, ours: iset<PageId>, mark: nat)
    requires Pages.Ready(w, multiset{a, b}, ours, mark) && Moved(w, multiset{a}, w', multiset{a}, ours, mark)
    ensures Moved(w, multiset{a, b}, w', multiset{a, b}, ours, mark) && Pages.Ready(w', multiset{a, b}, ours, mark)
  {
    hide Moved, Pages.Ready;
    assert multiset{a} + multiset{b} == multiset{a, b};
    MovedFrame(w, multiset{a}, w', multiset{a}, multiset{b}, ours, mark);
    ReadyAfter(w, multiset{a}, w', multiset{a}, multiset{b}, ours, mark);
  }

  // ----- exchanging part of a node's contents -----

  /** A subtree replaced by its new version, and its siblings carried along. */
  lemma ExchangeForest(w: Work, id: PageId, f: seq<Located>, i: nat, j: nat, w': Work, nf: seq<Located>,
                       ours: iset<PageId>, mark: nat, base: iset<PageId>)
    requires i <= j <= |f| && Pages.Ready(w, multiset{id} + ForestIds(f), ours, mark)
    requires Moved(w, ForestIds(f[i..j]), w', ForestIds(nf), ours, mark)
    requires AllAt(f, w, base) && AllAt(nf, w', base)
    ensures var f' := Splice(f, i, j, nf);
      && Moved(w, multiset{id} + ForestIds(f), w', multiset{id} + ForestIds(f'), ours, mark)
      && Pages.Ready(w', multiset{id} + ForestIds(f'), ours, mark)
      && AllAt(f', w', base)
    ensures SameAt(w, w', id)
  {
    hide Moved, Pages.Ready, SameAt, At, ForestIds;
    var f' := Splice(f, i, j, nf);
    var rest := ForestIds(f[..i]) + ForestIds(f[j..]);
    var x := multiset{id} + rest;
    ForestIdsSplice(f, i, j, nf);
    SumShift(multiset{id}, ForestIds(f[i..j]), rest);
    SumShift(multiset{id}, ForestIds(nf), rest);
    ReadyAfter(w, ForestIds(f[i..j]), w', ForestIds(nf), x, ours, mark);
    MovedFrame(w, ForestIds(f[i..j]), w', ForestIds(nf), x, ours, mark);
    assert id in x;
    AllKept(f[..i], w, w', base);
    AllKept(f[j..], w, w', base);
  }

  lemma SumShift<T>(a: multiset<T>, b: multiset<T>, c: multiset<T>)
    ensures a + (b + c) == b + (a + c)
  {
  }

  lemma ExchangeVals(w: Work, id: PageId, vals: seq<Val>, i: nat, j: nat, w': Work, nv: seq<Val>, ours: iset<PageId>, mark: nat)
    requires i <= j <= |vals| && Pages.Ready(w, multiset{id} + ValIds(vals), ours, mark)
    requires Moved(w, ValIds(vals[i..j]), w', ValIds(nv), ours, mark)
    requires ValsAt(vals, w) && ValsAt(nv, w')
    ensures var vals' := Splice(vals, i, j, nv);
      && Moved(w, multiset{id} + ValIds(vals), w', multiset{id} + ValIds(vals'), ours, mark)
      && Pages.Ready(w', multiset{id} + ValIds(vals'), ours, mark)
      && ValsAt(vals', w')
    ensures SameAt(w, w', id)
  {
    hide Moved, Pages.Ready, SameAt, ValAt, ValIds;
    var rest := ValIds(vals[..i]) + ValIds(vals[j..]);
    var x := multiset{id} + rest;
    ValIdsSplice(vals, i, j, nv);
    SumShift(multiset{id}, ValIds(vals[i..j]), rest);
    SumShift(multiset{id}, ValIds(nv), rest);
    ReadyAfter(w, ValIds(vals[i..j]), w', ValIds(nv), x, ours, mark);
    MovedFrame(w, ValIds(vals[i..j]), w', ValIds(nv), x, ours, mark);
    assert id in x;
    ValsKept(vals[..i], w, w');
    ValsKept(vals[j..], w, w');
  }

  /** Retire the old value of a found key and store the new one. */
  method UpsertValue(ctx: Ctx, keys: seq<Key>, values: seq<StoredValue>, key: Key, value: Bytes, ghost id: PageId, ghost vals: seq<Val>)
    returns (keys': seq<Key>, values': seq<StoredValue>, ghost vals': seq<Val>)
    requires |keys| == |vals| && values == StoredVals(vals) && ValsAt(vals, ctx.W())
    requires ctx.Ready(multiset{id} + ValIds(vals))
    modifies ctx, ctx.pager`pages, ctx.pager`unsynced
    ensures Moved(old(ctx.W()), multiset{id} + ValIds(vals), ctx.W(), multiset{id} + ValIds(vals'), ctx.ours, ctx.reclaimWatermark)
    ensures ctx.Ready(multiset{id} + ValIds(vals')) && SameAt(old(ctx.W()), ctx.W(), id)
    ensures |keys'| == |vals'| && values' == StoredVals(vals') && ValsAt(vals', ctx.W())
    ensures Leaf(keys', ValBytes(vals')) == LeafUpsert(keys, ValBytes(vals), key, value)
  {
    hide Moved, Pages.Ready, SameAt, ValAt, ValIds, ValsAt, Position, LeafUpsert;
    ghost var w := ctx.W();
    var i := Position(keys, key);
    var found := Found(keys, key);
    ghost var j := if found then i + 1 else i;
    RetireOld(ctx, values, i, found, id, vals);
    ghost var w1 := ctx.W();
    var sv;
    ghost var v;
    sv, v := ctx.StoreValue(value);
    ValIdsOne(v);
    MovedTrans(w, ValIds(vals[i..j]), w1, multiset{}, ctx.W(), multiset(v.chain), ctx.ours, ctx.reclaimWatermark);
    OneVal(v, ctx.W());
    ExchangeVals(w, id, vals, i, j, ctx.W(), [v], ctx.ours, ctx.reclaimWatermark);
    vals' := Splice(vals, i, j, [v]);
    keys' := if found then keys else Splice(keys, i, i, [key]);
    values' := if found then values[i := sv] else Splice(values, i, i, [sv]);
    UpsertImage(keys, vals, key, v);
  }

  method RetireOld(ctx: Ctx, values: seq<StoredValue>, i: nat, found: bool, ghost id: PageId, ghost vals: seq<Val>)
    requires values == StoredVals(vals) && ValsAt(vals, ctx.W()) && i <= |vals| && (found ==> i < |vals|)
    requires ctx.Ready(multiset{id} + ValIds(vals))
    modifies ctx
    ensures var j := if found then i + 1 else i;
      Moved(old(ctx.W()), ValIds(vals[i..j]), ctx.W(), multiset{}, ctx.ours, ctx.reclaimWatermark)
    ensures ctx.Ready(multiset{})
  {
    hide Moved, Pages.Ready, ValAt, ValIds;
    ghost var w := ctx.W();
    ghost var j := if found then i + 1 else i;
    ValIdsSplice(vals, i, j, []);
    ReadySub(w, multiset{id} + ValIds(vals), ValIds(vals[i..j]), ctx.ours, ctx.reclaimWatermark);
    if found {
      assert vals[i..j] == [vals[i]];
      ValIdsOne(vals[i]);
      ctx.RetireValue(values[i], vals[i]);
    } else {
      assert vals[i..j] == [];
      NoVals(w, ctx.ours, ctx.reclaimWatermark);
    }
    ReadyAlone(w, ValIds(vals[i..j]), ctx.W(), multiset{}, ctx.ours, ctx.reclaimWatermark);
  }

  /** The vectors after an upsert are the images of one spliced list. */
  lemma UpsertImage(keys: seq<Key>, vals: seq<Val>, key: Key, v: Val)
    requires |keys| == |vals|
    ensures var i := Position(keys, key); var found := Found(keys, key); var j := if found then i + 1 else i;
      var vals' := Splice(vals, i, j, [v]); var values := StoredVals(vals);
      && |vals'| == (if found then |keys| else |keys| + 1)
      && Leaf(if found then keys else Splice(keys, i, i, [key]), ValBytes(vals')) == LeafUpsert(keys, ValBytes(vals), key, v.bytes)
      && StoredVals(vals') == (if found then values[i := Stored(v)] else Splice(values, i, i, [Stored(v)]))
  {
    hide Position;
    var i := Position(keys, key);
    var j := if Found(keys, key) then i + 1 else i;
    var vals' := Splice(vals, i, j, [v]);
    assert ValBytes(vals') == Splice(ValBytes(vals), i, j, [v.bytes]);
    assert StoredVals(vals') == Splice(StoredVals(vals), i, j, [Stored(v)]);
  }

  lemma OneVal(v: Val, w: Work)
    requires ValAt(v, w)
    ensures ValsAt([v], w)
  {
  }

  lemma NoVals(w: Work, ours: iset<PageId>, mark: nat)
    requires Pages.Ready(w, ValIds([]), ours, mark)
    ensures Moved(w, ValIds([]), w, multiset{}, ours, mark)
  {
  }

  // ----- finishing a changed node: one page, or two around a separator -----

  /** The located result of an insertion. */
  datatype Grown = GrownOne(d: Located) | GrownTwo(left: Located, sep: Key, right: Located) {
    function Trees(): seq<Located> { if GrownOne? then [d] else [left, right] }
    ghost function Pages(): multiset<PageId> { ForestIds(Trees()) }
    ghost function Erased(): Ins { if GrownOne? then One(Erase(d)) else Two(Erase(left), sep, Erase(right)) }
    predicate Names(id: PageId, split: Option<(Key, PageId)>) {
      if GrownOne? then id == d.id && split == None else id == left.id && split == Some((sep, right.id))
    }
  }

  lemma PairIds(a: Located, b: Located)
    ensures ForestIds([a, b]) == Ids(a) + Ids(b)
  {
    assert [a, b] == [a] + [b];
    ForestIdsConcat([a], [b]);
    ForestIdsOne(a);
    ForestIdsOne(b);
  }

  lemma CarryVals(w: Work, id: PageId, w': Work, b: multiset<PageId>, vals: seq<Val>, ours: iset<PageId>, mark: nat)
    requires Pages.Ready(w, multiset{id} + ValIds(vals), ours, mark) && Moved(w, multiset{id}, w', b, ours, mark)
    requires ValsAt(vals, w)
    ensures Moved(w, multiset{id} + ValIds(vals), w', b + ValIds(vals), ours, mark)
    ensures ValsAt(vals, w')
  {
    hide Moved, Pages.Ready, SameAt, ValAt;
    ReadyAfter(w, multiset{id}, w', b, ValIds(vals), ours, mark);
    MovedFrame(w, multiset{id}, w', b, ValIds(vals), ours, mark);
    ValsKept(vals, w, w');
  }

  lemma CarryForest(w: Work, id: PageId, w': Work, b: multiset<PageId>, f: seq<Located>, ours: iset<PageId>, mark: nat, base: iset<PageId>)
    requires Pages.Ready(w, multiset{id} + ForestIds(f), ours, mark) && Moved(w, multiset{id}, w', b, ours, mark)
    requires AllAt(f, w, base)
    ensures Moved(w, multiset{id} + ForestIds(f), w', b + ForestIds(f), ours, mark)
    ensures AllAt(f, w', base)
  {
    hide Moved, Pages.Ready, SameAt, At;
    ReadyAfter(w, multiset{id}, w', b, ForestIds(f), ours, mark);
    MovedFrame(w, multiset{id}, w', b, ForestIds(f), ours, mark);
    AllKept(f, w, w', base);
  }

  lemma SumPairs<T>(a: T, b: T, x: multiset<T>, y: multiset<T>)
    ensures multiset{a, b} + (x + y) == (multiset{a} + x) + (multiset{b} + y)
  {
  }

  lemma StagedLeaf(id: PageId, keys: seq<Key>, vals: seq<Val>, w: Work, base: iset<PageId>)
    requires ValsAt(vals, w) && id in w.overlay && w.overlay[id] == LeafNode(keys, StoredVals(vals))
    ensures At(AtLeaf(id, keys, vals), w, base) && Ids(AtLeaf(id, keys, vals)) == multiset{id} + ValIds(vals)
  {
  }

  lemma StagedNode(id: PageId, keys: seq<Key>, f: seq<Located>, w: Work, base: iset<PageId>)
    requires AllAt(f, w, base) && id in w.overlay && w.overlay[id] == InternalNode(keys, RootIds(f))
    ensures At(AtNode(id, keys, f), w, base) && Ids(AtNode(id, keys, f)) == multiset{id} + ForestIds(f)
  {
  }

  lemma HalvesOf(vals: seq<Val>, mid: nat)
    requires mid <= |vals|
    ensures StoredVals(vals)[..mid] == StoredVals(vals[..mid]) && StoredVals(vals)[mid..] == StoredVals(vals[mid..])
    ensures ValBytes(vals)[..mid] == ValBytes(vals[..mid]) && ValBytes(vals)[mid..] == ValBytes(vals[mid..])
  {
  }

  /** Two halves of a leaf, located. */
  lemma LeafHalvesAt(keys: seq<Key>, vals: seq<Val>, mid: nat, a: PageId, b: PageId, w: Work, base: iset<PageId>)
    requires |keys| == |vals| && mid <= |keys| && ValsAt(vals, w)
    requires a in w.overlay && w.overlay[a] == LeafNode(keys[..mid], StoredVals(vals)[..mid])
    requires b in w.overlay && w.overlay[b] == LeafNode(keys[mid..], StoredVals(vals)[mid..])
    ensures var l, r := AtLeaf(a, keys[..mid], vals[..mid]), AtLeaf(b, keys[mid..], vals[mid..]);
      && AllAt([l, r], w, base)
      && ForestIds([l, r]) == multiset{a, b} + ValIds(vals)
      && Erase(l) == Leaf(keys[..mid], ValBytes(vals)[..mid])
      && Erase(r) == Leaf(keys[mid..], ValBytes(vals)[mid..])
  {
    hide ValAt, At, ValIds, ForestIds, StoredVals, ValBytes;
    var l, r := AtLeaf(a, keys[..mid], vals[..mid]), AtLeaf(b, keys[mid..], vals[mid..]);
    PairIds(l, r);
    ValIdsConcat(vals[..mid], vals[mid..]);
    assert vals == vals[..mid] + vals[mid..];
    SumPairs(a, b, ValIds(vals[..mid]), ValIds(vals[mid..]));
    HalvesOf(vals, mid);
    StagedLeaf(a, keys[..mid], vals[..mid], w, base);
    StagedLeaf(b, keys[mid..], vals[mid..], w, base);
  }

  lemma ForestHalvesOf(f: seq<Located>, mid: nat)
    requires mid <= |f|
    ensures |RootIds(f)| == |EraseAll(f)| == |f|
    ensures RootIds(f)[..mid] == RootIds(f[..mid]) && RootIds(f)[mid..] == RootIds(f[mid..])
    ensures EraseAll(f)[..mid] == EraseAll(f[..mid]) && EraseAll(f)[mid..] == EraseAll(f[mid..])
  {
  }

  lemma HalvesAllAt(f: seq<Located>, mid: nat, w: Work, base: iset<PageId>)
    requires mid <= |f| && AllAt(f, w, base)
    ensures AllAt(f[..mid], w, base) && AllAt(f[mid..], w, base)
  {
    hide At;
  }

  lemma PairAt(l: Located, r: Located, w: Work, base: iset<PageId>)
    requires At(l, w, base) && At(r, w, base)
    ensures AllAt([l, r], w, base)
  {
    hide At;
  }

  lemma NodeHalvesAt(keys: seq<Key>, f: seq<Located>, mid: nat, a: PageId, b: PageId, w: Work, base: iset<PageId>)
    requires |f| == |keys| + 1 && mid < |keys| && AllAt(f, w, base)
    requires a in w.overlay && w.overlay[a] == InternalNode(keys[..mid], RootIds(f)[..mid + 1])
    requires b in w.overlay && w.overlay[b] == InternalNode(keys[mid + 1..], RootIds(f)[mid + 1..])
    ensures var l, r := AtNode(a, keys[..mid], f[..mid + 1]), AtNode(b, keys[mid + 1..], f[mid + 1..]);
      && AllAt([l, r], w, base)
      && ForestIds([l, r]) == multiset{a, b} + ForestIds(f)
      && Erase(l) == Node(keys[..mid], EraseAll(f)[..mid + 1])
      && Erase(r) == Node(keys[mid + 1..], EraseAll(f)[mid + 1..])
  {
    hide ForestIds, At, AllAt, RootIds, EraseAll;
    HalvesAllAt(f, mid + 1, w, base);
    var l, r := AtNode(a, keys[..mid], f[..mid + 1]), AtNode(b, keys[mid + 1..], f[mid + 1..]);
    PairIds(l, r);
    ForestIdsConcat(f[..mid + 1], f[mid + 1..]);
    assert f == f[..mid + 1] + f[mid + 1..];
    SumPairs(a, b, ForestIds(f[..mid + 1]), ForestIds(f[mid + 1..]));
    ForestHalvesOf(f, mid + 1);
    StagedNode(a, keys[..mid], f[..mid + 1], w, base);
    StagedNode(b, keys[mid + 1..], f[mid + 1..], w, base);
    PairAt(l, r, w, base);
  }

  method FinishLeaf(ctx: Ctx, nodeId: PageId, isScratch: bool, keys: seq<Key>, values: seq<StoredValue>, ghost vals: seq<Val>)
    returns (newId: PageId, split: Option<(Key, PageId)>, ghost r: Grown)
    requires |keys| == |vals| && values == StoredVals(vals) && ValsAt(vals, ctx.W())
    requires ctx.Ready(multiset{nodeId} + ValIds(vals)) && isScratch == ctx.IsScratch(nodeId)
    modifies ctx
    ensures Moved(old(ctx.W()), multiset{nodeId} + ValIds(vals), ctx.W(), r.Pages(), ctx.ours, ctx.reclaimWatermark)
    ensures AllAt(r.Trees(), ctx.W(), ctx.base) && r.Names(newId, split)
    ensures r.Erased() == Divide(Leaf(keys, ValBytes(vals)), 0)
  {
    hide Moved, Pages.Ready, ValAt, ValIds, ForestIds;
    ghost var w := ctx.W();
    ReadySub(w, multiset{nodeId} + ValIds(vals), multiset{nodeId}, ctx.ours, ctx.reclaimWatermark);
    ValsChained(vals, w);
    StoredSize(vals);
    if EncodedLen(LeafNode(keys, values)) > SPLIT_THRESHOLD {
      var mid := |keys| / 2;
      var leftId, rightId := PlaceTwo(ctx, nodeId, isScratch, LeafNode(keys[..mid], values[..mid]), LeafNode(keys[mid..], values[mid..]));
      CarryVals(w, nodeId, ctx.W(), multiset{leftId, rightId}, vals, ctx.ours, ctx.reclaimWatermark);
      LeafHalvesAt(keys, vals, mid, leftId, rightId, ctx.W(), ctx.base);
      r := GrownTwo(AtLeaf(leftId, keys[..mid], vals[..mid]), keys[mid], AtLeaf(rightId, keys[mid..], vals[mid..]));
      return leftId, Some((keys[mid], rightId)), r;
    }
    newId := Place(ctx, nodeId, isScratch, LeafNode(keys, values));
    CarryVals(w, nodeId, ctx.W(), multiset{newId}, vals, ctx.ours, ctx.reclaimWatermark);
    r := GrownOne(AtLeaf(newId, keys, vals));
    ForestIdsOne(r.d);
    return newId, None, r;
  }

  method FinishNode(ctx: Ctx, nodeId: PageId, isScratch: bool, keys: seq<Key>, children: seq<PageId>, ghost f: seq<Located>, ghost h: nat)
    returns (newId: PageId, split: Option<(Key, PageId)>, ghost r: Grown)
    requires |f| == |keys| + 1 && children == RootIds(f) && AllAt(f, ctx.W(), ctx.base)
    requires Shape(Node(keys, EraseAll(f)), h)
    requires ctx.Ready(multiset{nodeId} + ForestIds(f)) && isScratch == ctx.IsScratch(nodeId)
    modifies ctx
    ensures Moved(old(ctx.W()), multiset{nodeId} + ForestIds(f), ctx.W(), r.Pages(), ctx.ours, ctx.reclaimWatermark)
    ensures AllAt(r.Trees(), ctx.W(), ctx.base) && r.Names(newId, split)
    ensures r.Erased() == Divide(Node(keys, EraseAll(f)), h)
  {
    hide Moved, Pages.Ready, ForestIds, Shape;
    ghost var w := ctx.W();
    ReadySub(w, multiset{nodeId} + ForestIds(f), multiset{nodeId}, ctx.ours, ctx.reclaimWatermark);
    if EncodedLen(InternalNode(keys, children)) > SPLIT_THRESHOLD {
      var mid := |keys| / 2;
      var leftId, rightId := PlaceTwo(ctx, nodeId, isScratch, InternalNode(keys[..mid], children[..mid + 1]),
                                      InternalNode(keys[mid + 1..], children[mid + 1..]));
      CarryForest(w, nodeId, ctx.W(), multiset{leftId, rightId}, f, ctx.ours, ctx.reclaimWatermark, ctx.base);
      NodeHalvesAt(keys, f, mid, leftId, rightId, ctx.W(), ctx.base);
      r := GrownTwo(AtNode(leftId, keys[..mid], f[..mid + 1]), keys[mid], AtNode(rightId, keys[mid + 1..], f[mid + 1..]));
      return leftId, Some((keys[mid], rightId)), r;
    }
    newId := Place(ctx, nodeId, isScratch, InternalNode(keys, children));
    CarryForest(w, nodeId, ctx.W(), multiset{newId}, f, ctx.ours, ctx.reclaimWatermark, ctx.base);
    r := GrownOne(AtNode(newId, keys, f));
    ForestIdsOne(r.d);
    return newId, None, r;
  }

  // ----- the operation -----

  lemma TopOf(d: Located, w: Work, base: iset<PageId>)
    requires At(d, w, base)
    ensures NodeAt(w, d.id) == Some(NodeOf(d))
    ensures d.AtLeaf? ==> ValsAt(d.vals, w) && Ids(d) == multiset{d.id} + ValIds(d.vals)
    ensures d.AtNode? ==> AllAt(d.children, w, base) && Ids(d) == multiset{d.id} + ForestIds(d.children)
  {
  }

  lemma EraseSplice(f: seq<Located>, i: nat, j: nat, nf: seq<Located>)
    requires i <= j <= |f|
    ensures EraseAll(Splice(f, i, j, nf)) == Splice(EraseAll(f), i, j, EraseAll(nf))
    ensures RootIds(Splice(f, i, j, nf)) == Splice(RootIds(f), i, j, RootIds(nf))
  {
  }

  method InsertRec(ctx: Ctx, nodeId: PageId, key: Key, value: Bytes, ghost d: Located, ghost h: nat)
    returns (newId: PageId, split: Option<(Key, PageId)>, ghost r: Grown)
    requires At(d, ctx.W(), ctx.base) && d.id == nodeId && Shape(Erase(d), h) && ctx.Ready(Ids(d))
    modifies ctx, ctx.pager`pages, ctx.pager`unsynced
    ensures Moved(old(ctx.W()), Ids(d), ctx.W(), r.Pages(), ctx.ours, ctx.reclaimWatermark)
    ensures AllAt(r.Trees(), ctx.W(), ctx.base) && r.Names(newId, split)
    ensures r.Erased() == Insert(Erase(d), h, key, value)
    decreases h
  {
    hide Moved, Pages.Ready, At, ForestIds, Ids, ValIds, Divide, SameAt;
    ghost var w := ctx.W();
    TopOf(d, w, ctx.base);
    var isScratch := ctx.IsScratch(nodeId);
    var node := ctx.Read(nodeId);
    match node
    case LeafNode(keys, values) =>
      newId, split, r := InsertLeaf(ctx, nodeId, isScratch, keys, values, key, value, d);
    case InternalNode(keys, children) =>
      var idx := ChildIndex(keys, key);
      ghost var f := d.children;
      ChildReady(w, d, idx, ctx.ours, ctx.reclaimWatermark);
      assert EraseAll(f)[idx] == Erase(f[idx]);
      var newChildId, childSplit;
      ghost var c;
      newChildId, childSplit, c := InsertRec(ctx, children[idx], key, value, f[idx], h - 1);
      ghost var w1 := ctx.W();
      ChildExchanged(w, d, idx, w1, c.Trees(), ctx.ours, ctx.reclaimWatermark, ctx.base);
      children := children[idx := newChildId];
      match childSplit {
        case Some((sep, siblingId)) =>
          keys := Splice(keys, idx, idx, [sep]);
          children := Splice(children, idx + 1, idx + 1, [siblingId]);
        case None =>
      }
      ghost var f' := Splice(f, idx, idx + 1, c.Trees());
      GrownImage(d, idx, c, key, value, h, newChildId, childSplit, keys, children);
      newId, split, r := FinishNode(ctx, nodeId, isScratch, keys, children, f', h);
      MovedTrans(w, Ids(d), w1, multiset{nodeId} + ForestIds(f'), ctx.W(), r.Pages(), ctx.ours, ctx.reclaimWatermark);
  }

  lemma ChildReady(w: Work, d: Located, i: nat, ours: iset<PageId>, mark: nat)
    requires d.AtNode? && i < |d.children| && Pages.Ready(w, Ids(d), ours, mark)
    ensures Pages.Ready(w, Ids(d.children[i]), ours, mark)
  {
    hide Pages.Ready;
    ForestIdsPart(d.children, i);
    ReadySub(w, Ids(d), Ids(d.children[i]), ours, mark);
  }

  lemma ChildExchanged(w: Work, d: Located, i: nat, w': Work, nf: seq<Located>, ours: iset<PageId>, mark: nat, base: iset<PageId>)
    requires At(d, w, base) && d.AtNode? && i < |d.children| && Pages.Ready(w, Ids(d), ours, mark)
    requires Moved(w, Ids(d.children[i]), w', ForestIds(nf), ours, mark) && AllAt(nf, w', base)
    ensures var f' := Splice(d.children, i, i + 1, nf);
      && Moved(w, Ids(d), w', multiset{d.id} + ForestIds(f'), ours, mark)
      && Pages.Ready(w', multiset{d.id} + ForestIds(f'), ours, mark)
      && AllAt(f', w', base)
    ensures d.id in w.overlay <==> d.id in w'.overlay
  {
    hide Moved, Pages.Ready, ForestIds, At;
    TopOf(d, w, base);
    assert d.children[i..i + 1] == [d.children[i]];
    ForestIdsOne(d.children[i]);
    ExchangeForest(w, d.id, d.children, i, i + 1, w', nf, ours, mark, base);
  }

  /** The vectors after a child's insertion are the images of the spliced children. */
  lemma GrownImage(d: Located, i: nat, c: Grown, key: Key, value: Bytes, h: nat,
                   id: PageId, split: Option<(Key, PageId)>, keys': seq<Key>, children': seq<PageId>)
    requires d.AtNode? && Shape(Erase(d), h) && i == ChildIndex(d.keys, key)
    requires c.Names(id, split) && c.Erased() == Insert(EraseAll(d.children)[i], h - 1, key, value)
    requires var ids := RootIds(d.children)[i := id];
      && keys' == (if split == None then d.keys else Splice(d.keys, i, i, [split.value.0]))
      && children' == (if split == None then ids else Splice(ids, i + 1, i + 1, [split.value.1]))
    ensures var f' := Splice(d.children, i, i + 1, c.Trees());
      && |f'| == |keys'| + 1 && children' == RootIds(f')
      && Shape(Node(keys', EraseAll(f')), h)
      && Insert(Erase(d), h, key, value) == Divide(Node(keys', EraseAll(f')), h)
  {
    assert |EraseAll(d.children)| == |d.keys| + 1;
    hide Divide, Shape, Insert;
    var f' := Splice(d.children, i, i + 1, c.Trees());
    EraseSplice(d.children, i, i + 1, c.Trees());
    assert EraseAll(c.Trees()) == c.Erased().Trees();
    assert Splice(d.keys, i, i, []) == d.keys;
    assert keys' == Splice(d.keys, i, i, c.Erased().Keys());
    InsertUnfold(d.keys, EraseAll(d.children), key, value, h);
    GrownIds(d, i, c, id, split);
  }

  lemma GrownIds(d: Located, i: nat, c: Grown, id: PageId, split: Option<(Key, PageId)>)
    requires d.AtNode? && i < |d.children| && c.Names(id, split)
    ensures var ids := RootIds(d.children)[i := id];
      RootIds(Splice(d.children, i, i + 1, c.Trees())) ==
      if split == None then ids else Splice(ids, i + 1, i + 1, [split.value.1])
  {
    EraseSplice(d.children, i, i + 1, c.Trees());
    if c.GrownOne? {
      assert RootIds(c.Trees()) == [id];
    } else {
      assert RootIds(c.Trees()) == [id, split.value.1];
    }
  }

  lemma InsertUnfold(keys: seq<Key>, children: seq<Tree>, k: Key, v: Bytes, h: nat)
    requires Shape(Node(keys, children), h)
    ensures var i := ChildIndex(keys, k);
      assert i < |children|;
      var r := Insert(children[i], h - 1, k, v);
      var t := Node(Splice(keys, i, i, r.Keys()), Splice(children, i, i + 1, r.Trees()));
      Shape(t, h) && Insert(Node(keys, children), h, k, v) == Divide(t, h)
  {
    hide Divide;
  }

  method InsertLeaf(ctx: Ctx, nodeId: PageId, isScratch: bool, keys: seq<Key>, values: seq<StoredValue>, key: Key, value: Bytes, ghost d: Located)
    returns (newId: PageId, split: Option<(Key, PageId)>, ghost r: Grown)
    requires d.AtLeaf? && d.id == nodeId && NodeOf(d) == LeafNode(keys, values) && |keys| == |d.vals|
    requires At(d, ctx.W(), ctx.base) && ctx.Ready(Ids(d)) && isScratch == ctx.IsScratch(nodeId)
    modifies ctx, ctx.pager`pages, ctx.pager`unsynced
    ensures Moved(old(ctx.W()), Ids(d), ctx.W(), r.Pages(), ctx.ours, ctx.reclaimWatermark)
    ensures AllAt(r.Trees(), ctx.W(), ctx.base) && r.Names(newId, split)
    ensures r.Erased() == Insert(Erase(d), 0, key, value)
  {
    hide Moved, Pages.Ready, At, ForestIds, Ids, ValIds, Divide, ValAt;
    ghost var w := ctx.W();
    TopOf(d, w, ctx.base);
    var keys', values';
    ghost var vals';
    keys', values', vals' := UpsertValue(ctx, keys, values, key, value, nodeId, d.vals);
    ghost var w1 := ctx.W();
    newId, split, r := FinishLeaf(ctx, nodeId, isScratch, keys', values', vals');
    MovedTrans(w, Ids(d), w1, multiset{nodeId} + ValIds(vals'), ctx.W(), r.Pages(), ctx.ours, ctx.reclaimWatermark);
  }

  // ----- put -----

  /** A transaction's tree: nothing, or a located tree and its height. */
  datatype LocatedRoot = NoTree | Planted(d: Located, height: nat) {
    function Id(): Option<PageId> { if NoTree? then None else Some(d.id) }
    ghost function Owned(): multiset<PageId> { if NoTree? then multiset{} else Ids(d) }
    ghost function Nodes(): set<PageId> { if NoTree? then {} else NodeIds(d) }
    ghost predicate Sound() { Planted? ==> Valid(Erase(d), height, None, None) }
    ghost function Abstract(): Root { if NoTree? then Empty else Rooted(Erase(d), height) }
    ghost predicate Trimmed() { Planted? ==> d.keys != [] }
    ghost predicate Here(w: Work, base: iset<PageId>) { Planted? ==> At(d, w, base) }
  }

  method Put(ctx: Ctx, root: Option<PageId>, key: Key, value: Bytes, ghost t: LocatedRoot) returns (newRoot: PageId, ghost t': LocatedRoot)
    requires t.Sound() && t.Id() == root && t.Here(ctx.W(), ctx.base) && ctx.Ready(t.Owned())
    modifies ctx, ctx.pager`pages, ctx.pager`unsynced
    ensures Moved(old(ctx.W()), t.Owned(), ctx.W(), t'.Owned(), ctx.ours, ctx.reclaimWatermark)
    ensures t'.Id() == Some(newRoot) && t'.Here(ctx.W(), ctx.base)
    ensures t'.Sound() && t'.Abstract() == BTreePut.Put(t.Abstract(), key, value)
    ensures t.Trimmed() ==> t'.Trimmed()
  {
    hide Moved, Pages.Ready, At, ForestIds, Ids, Ordered, Insert, Trimmed, LocatedRoot.Trimmed;
    PutTrims(t, key, value);
    PutCorrect(t.Abstract(), key, value);
    match root
    case None =>
      newRoot, t' := PutFirst(ctx, key, value);
    case Some(rootId) =>
      ghost var w := ctx.W();
      ghost var h := t.height;
      var split;
      ghost var r;
      newRoot, split, r := InsertRec(ctx, rootId, key, value, t.d, h);
      match split
      case None =>
        assert r.Trees()[0] == r.d;
        t' := Planted(r.d, h);
        ForestIdsOne(r.d);
      case Some((sep, sibling)) =>
        ghost var w1 := ctx.W();
        ReadyAlone(w, Ids(t.d), w1, r.Pages(), ctx.ours, ctx.reclaimWatermark);
        newRoot := GrowRoot(ctx, newRoot, sep, sibling, r);
        MovedTrans(w, Ids(t.d), w1, r.Pages(), ctx.W(), Ids(AtNode(newRoot, [sep], [r.left, r.right])), ctx.ours, ctx.reclaimWatermark);
        t' := Planted(AtNode(newRoot, [sep], [r.left, r.right]), h + 1);
        assert EraseAll([r.left, r.right]) == [Erase(r.left), Erase(r.right)];
  }

  /** The root of a located tree has a key when that of the tree has. */
  lemma PutTrims(t: LocatedRoot, key: Key, value: Bytes)
    requires t.Sound()
    ensures t.Trimmed() ==> forall t': LocatedRoot :: t'.Abstract() == BTreePut.Put(t.Abstract(), key, value) ==> t'.Trimmed()
  {
    if t.Trimmed() {
      PutTrimmed(t.Abstract(), key, value);
    }
  }

  /** A new root page over the two halves of the old one. */
  method GrowRoot(ctx: Ctx, left: PageId, sep: Key, sibling: PageId, ghost r: Grown) returns (id: PageId)
    requires r.GrownTwo? && r.Names(left, Some((sep, sibling))) && AllAt(r.Trees(), ctx.W(), ctx.base) && ctx.Ready(r.Pages())
    modifies ctx
    ensures var d := AtNode(id, [sep], [r.left, r.right]);
      && Moved(old(ctx.W()), r.Pages(), ctx.W(), Ids(d), ctx.ours, ctx.reclaimWatermark)
      && At(d, ctx.W(), ctx.base)
  {
    hide Moved, Pages.Ready, At, ForestIds, Ids, SameAt;
    ghost var w, f := ctx.W(), r.Trees();
    ReadySub(w, r.Pages(), multiset{}, ctx.ours, ctx.reclaimWatermark);
    id := ctx.Alloc();
    ghost var w1 := ctx.W();
    AddPage(w, id, w1, f, ctx.ours, ctx.reclaimWatermark, ctx.base);
    ReadySub(w1, multiset{id} + ForestIds(f), multiset{id}, ctx.ours, ctx.reclaimWatermark);
    ctx.PutNode(id, InternalNode([sep], [left, sibling]));
    CarryForest(w1, id, ctx.W(), multiset{id}, f, ctx.ours, ctx.reclaimWatermark, ctx.base);
    MovedTrans(w, ForestIds(f), w1, multiset{id} + ForestIds(f), ctx.W(), multiset{id} + ForestIds(f), ctx.ours, ctx.reclaimWatermark);
    assert RootIds(f) == [left, sibling];
    StagedNode(id, [sep], f, ctx.W(), ctx.base);
  }

  lemma AddPage(w: Work, id: PageId, w': Work, f: seq<Located>, ours: iset<PageId>, mark: nat, base: iset<PageId>)
    requires Pages.Ready(w, ForestIds(f), ours, mark) && Moved(w, multiset{}, w', multiset{id}, ours, mark) && AllAt(f, w, base)
    ensures Moved(w, ForestIds(f), w', multiset{id} + ForestIds(f), ours, mark)
    ensures Pages.Ready(w', multiset{id} + ForestIds(f), ours, mark) && AllAt(f, w', base)
  {
    hide Moved, Pages.Ready, At, ForestIds, SameAt;
    assert multiset{} + ForestIds(f) == ForestIds(f);
    ReadyAfter(w, multiset{}, w', multiset{id}, ForestIds(f), ours, mark);
    MovedFrame(w, multiset{}, w', multiset{id}, ForestIds(f), ours, mark);
    AllKept(f, w, w', base);
  }

  method PutFirst(ctx: Ctx, key: Key, value: Bytes) returns (id: PageId, ghost t: LocatedRoot)
    requires ctx.Ready(multiset{})
    modifies ctx, ctx.pager`pages, ctx.pager`unsynced
    ensures Moved(old(ctx.W()), multiset{}, ctx.W(), t.Owned(), ctx.ours, ctx.reclaimWatermark)
    ensures t.Id() == Some(id) && t.Here(ctx.W(), ctx.base)
    ensures t.Abstract() == Rooted(Leaf([key], [value]), 0)
  {
    hide Moved, Pages.Ready, At, ValIds, Ids, SameAt, ValAt;
    ghost var w := ctx.W();
    var stored;
    ghost var v;
    stored, v := ctx.StoreValue(value);
    ghost var w1 := ctx.W();
    OneVal(v, w1);
    ValIdsOne(v);
    ReadyAlone(w, multiset{}, w1, ValIds([v]), ctx.ours, ctx.reclaimWatermark);
    ReadySub(w1, ValIds([v]), multiset{}, ctx.ours, ctx.reclaimWatermark);
    id := ctx.Alloc();
    ghost var w2 := ctx.W();
    AddPageVals(w1, id, w2, [v], ctx.ours, ctx.reclaimWatermark);
    ReadySub(w2, multiset{id} + ValIds([v]), multiset{id}, ctx.ours, ctx.reclaimWatermark);
    ctx.PutNode(id, LeafNode([key], [stored]));
    CarryVals(w2, id, ctx.W(), multiset{id}, [v], ctx.ours, ctx.reclaimWatermark);
    MovedTrans(w, multiset{}, w1, ValIds([v]), w2, multiset{id} + ValIds([v]), ctx.ours, ctx.reclaimWatermark);
    MovedTrans(w, multiset{}, w2, multiset{id} + ValIds([v]), ctx.W(), multiset{id} + ValIds([v]), ctx.ours, ctx.reclaimWatermark);
    assert StoredVals([v]) == [stored] && ValBytes([v]) == [value];
    StagedLeaf(id, [key], [v], ctx.W(), ctx.base);
    t := Planted(AtLeaf(id, [key], [v]), 0);
  }

  lemma AddPageVals(w: Work, id: PageId, w': Work, vals: seq<Val>, ours: iset<PageId>, mark: nat)
    requires Pages.Ready(w, ValIds(vals), ours, mark) && Moved(w, multiset{}, w', multiset{id}, ours, mark) && ValsAt(vals, w)
    ensures Moved(w, ValIds(vals), w', multiset{id} + ValIds(vals), ours, mark)
    ensures Pages.Ready(w', multiset{id} + ValIds(vals), ours, mark) && ValsAt(vals, w')
  {
    hide Moved, Pages.Ready, ValAt, ValIds, SameAt;
    assert multiset{} + ValIds(vals) == ValIds(vals);
    ReadyAfter(w, multiset{}, w', multiset{id}, ValIds(vals), ours, mark);
    MovedFrame(w, multiset{}, w', multiset{id}, ValIds(vals), ours, mark);
    ValsKept(vals, w, w');
  }
}
