/** Pages, where a tree sits in them, and the ledger of page ids a write transaction keeps. */
module Pages {
  import opened Bytes
  import opened SortedList
  import opened BTree

  type PageId = nat

  const CHUNK: nat := 4000

  datatype StoredValue = Inline(bytes: Bytes) | Overflow(head: PageId, len: nat)

  datatype TreeNode =
    | LeafNode(keys: seq<Key>, values: seq<StoredValue>)
    | InternalNode(keys: seq<Key>, children: seq<PageId>)

  /** A page's decoded content. */
  datatype Page =
    | NodePage(node: TreeNode)
    | OverflowPage(next: Option<PageId>, data: Bytes)
    | FreeListPage(next: Option<PageId>, entries: seq<FreeEntry>)

  /** A page obsoleted by the commit of transaction `freedAt`. */
  datatype FreeEntry = FreeEntry(freedAt: nat, page: PageId)

  type Disk = map<PageId, Page>
  type Overlay = map<PageId, TreeNode>

  /** Everything a write transaction's tree operations share. */
  datatype Work = Work(disk: Disk, unsynced: set<PageId>, overlay: Overlay, next: PageId,
                       free: seq<FreeEntry>, obsolete: seq<PageId>, scratch: seq<PageId>)

  function DiskAt(w: Work, p: PageId): Option<Page> {
    if p in w.disk then Some(w.disk[p]) else None
  }

  function OverlayAt(w: Work, p: PageId): Option<TreeNode> {
    if p in w.overlay then Some(w.overlay[p]) else None
  }

  /** The node a descent reads at `p`: the overlay first, then the disk. */
  function NodeAt(w: Work, p: PageId): Option<TreeNode> {
    match OverlayAt(w, p)
    case Some(n) => Some(n)
    case None =>
      match DiskAt(w, p)
      case Some(NodePage(n)) => Some(n)
      case _ => None
  }

  // ----- located trees: a tree together with the pages it occupies -----

  datatype Located = AtLeaf(id: PageId, keys: seq<Key>, vals: seq<Val>) | AtNode(id: PageId, keys: seq<Key>, children: seq<Located>)

  /** A value and the overflow pages that hold it, first page first; none if it is inline. */
  datatype Val = Val(bytes: Bytes, chain: seq<PageId>)

  function Stored(v: Val): StoredValue {
    if v.chain == [] then Inline(v.bytes) else Overflow(v.chain[0], |v.bytes|)
  }

  function StoredVals(vals: seq<Val>): seq<StoredValue> {
    seq(|vals|, i requires 0 <= i < |vals| => Stored(vals[i]))
  }

  function ValBytes(vals: seq<Val>): seq<Bytes> {
    seq(|vals|, i requires 0 <= i < |vals| => vals[i].bytes)
  }

  function RootIds(f: seq<Located>): seq<PageId> {
    seq(|f|, i requires 0 <= i < |f| => f[i].id)
  }

  /** The page image of a located tree's top node. */
  function NodeOf(d: Located): TreeNode {
    match d
    case AtLeaf(_, keys, vals) => LeafNode(keys, StoredVals(vals))
    case AtNode(_, keys, children) => InternalNode(keys, RootIds(children))
  }

  /** Forget the pages. */
  ghost function Erase(d: Located): Tree {
    match d
    case AtLeaf(_, keys, vals) => Leaf(keys, ValBytes(vals))
    case AtNode(_, keys, children) => Node(keys, EraseAll(children))
  }

  ghost function EraseAll(f: seq<Located>): seq<Tree> {
    seq(|f|, i requires 0 <= i < |f| => Erase(f[i]))
  }

  // ----- the pages a tree owns -----

  ghost function ValIds(vals: seq<Val>): multiset<PageId> {
    if vals == [] then multiset{} else multiset(vals[0].chain) + ValIds(vals[1..])
  }

  ghost function Ids(d: Located): multiset<PageId>
    decreases d, 0
  {
    match d
    case AtLeaf(id, _, vals) => multiset{id} + ValIds(vals)
    case AtNode(id, _, children) => multiset{id} + ForestIds(children)
  }

  ghost function ForestIds(f: seq<Located>): multiset<PageId>
    decreases f, 0
  {
    if f == [] then multiset{} else Ids(f[0]) + ForestIds(f[1..])
  }

  /** The node pages among them. */
  ghost function NodeIds(d: Located): set<PageId>
    decreases d
  {
    match d
    case AtLeaf(id, _, _) => {id}
    case AtNode(id, _, children) => {id} + set i, p | 0 <= i < |children| && p in NodeIds(children[i]) :: p
  }

  // ----- being stored -----

  /** `bytes.chunks(CHUNK)`: full chunks, then what remains. */
  function Chunks(bytes: Bytes): (c: seq<Bytes>)
    ensures bytes != [] ==> c != []
  {
    if bytes == [] then []
    else if |bytes| <= CHUNK then [bytes]
    else [bytes[..CHUNK]] + Chunks(bytes[CHUNK..])
  }

  function Join(chunks: seq<Bytes>): Bytes {
    if chunks == [] then [] else chunks[0] + Join(chunks[1..])
  }

  lemma {:induction false} JoinChunks(bytes: Bytes)
    ensures Join(Chunks(bytes)) == bytes
    ensures forall i :: 0 <= i < |Chunks(bytes)| ==> 0 < |Chunks(bytes)[i]| <= CHUNK && (i < |Chunks(bytes)| - 1 ==> |Chunks(bytes)[i]| == 4000)
    ensures |Chunks(bytes)| == (|bytes| + 3999) / 4000
  {
    if |bytes| > CHUNK {
      JoinChunks(bytes[CHUNK..]);
      assert Chunks(bytes)[1..] == Chunks(bytes[CHUNK..]);
    } else if bytes != [] {
      assert Join([bytes]) == bytes + Join([]);
    }
  }

  /** `chain` leads through overflow pages holding these chunks, one each, and ends. */
  ghost predicate ChainAt(chain: seq<PageId>, chunks: seq<Bytes>, w: Work) {
    |chain| == |chunks| &&
    (chain != [] ==>
      && OverlayAt(w, chain[0]) == None
      && DiskAt(w, chain[0]) == Some(OverflowPage(Head(chain[1..]), chunks[0]))
      && ChainAt(chain[1..], chunks[1..], w))
  }

  function Head<T>(s: seq<T>): Option<T> {
    if s == [] then None else Some(s[0])
  }

  /** Small values sit in their leaf; larger ones in a chain. */
  ghost predicate ValAt(v: Val, w: Work) {
    if |v.bytes| <= INLINE_VALUE_LIMIT then v.chain == [] else ChainAt(v.chain, Chunks(v.bytes), w)
  }

  /** Every node is dirty in the overlay, or clean on disk and one of the committed pages `base`. */
  ghost predicate At(d: Located, w: Work, base: iset<PageId>)
    decreases d
  {
    && NodeAt(w, d.id) == Some(NodeOf(d))
    && (d.id in w.overlay || d.id in base)
    && match d
       case AtLeaf(_, _, vals) => forall i :: 0 <= i < |vals| ==> ValAt(vals[i], w)
       case AtNode(_, _, children) => forall i :: 0 <= i < |children| ==> At(children[i], w, base)
  }

  // ----- the ledger -----

  /** The ids from `a` up to `b`, once each. */
  ghost function Span(a: nat, b: nat): (m: multiset<PageId>)
    ensures forall p: PageId :: m[p] == if a <= p < b then 1 else 0
    decreases b
  {
    if a >= b then multiset{} else Span(a, b - 1) + multiset{b - 1}
  }

  function FreeIds(free: seq<FreeEntry>): seq<PageId> {
    seq(|free|, i requires 0 <= i < |free| => free[i].page)
  }

  ghost function Pools(w: Work): multiset<PageId> {
    multiset(FreeIds(w.free)) + multiset(w.obsolete) + multiset(w.scratch)
  }

  /** The pages `ids` and the pools overlap nowhere and hold only allocated ids. */
  ghost predicate Apart(w: Work, ids: multiset<PageId>) {
    ids + Pools(w) <= Span(2, w.next)
  }

  ghost predicate SameAt(w: Work, w': Work, p: PageId) {
    OverlayAt(w, p) == OverlayAt(w', p) && DiskAt(w, p) == DiskAt(w', p)
  }

  /**
   * What a transaction may write, fixed at its start: ids it may draw from the free list under its
   * watermark, and ids never allocated before.
   */
  ghost predicate Owns(w: Work, ours: iset<PageId>, mark: nat) {
    && (forall p: PageId :: p in w.overlay ==> p in ours && p < w.next && p !in Pools(w))
    && (forall p: PageId :: p in w.scratch ==> p in ours)
    && (forall i :: 0 <= i < |w.free| && w.free[i].freedAt <= mark ==> w.free[i].page in ours)
    && (forall p: PageId :: p >= w.next ==> p in ours)
  }

  /**
   * From `w` to `w'` the pages `before` became the pages `after`: every id is accounted for, nothing
   * outside `before` and the pools changed, and only pages the transaction owns were written.
   */
  ghost predicate Moved(w: Work, before: multiset<PageId>, w': Work, after: multiset<PageId>, ours: iset<PageId>, mark: nat) {
    && w.next <= w'.next
    && after + Pools(w') == before + Pools(w) + Span(w.next, w'.next)
    && (forall p: PageId :: p < w.next && p !in before && p !in Pools(w) ==> SameAt(w, w', p))
    && (forall p: PageId :: p !in ours ==> DiskAt(w, p) == DiskAt(w', p))
    && (forall p: PageId :: p in w'.unsynced ==> p in w.unsynced || p in ours)
    && multiset(w'.free) <= multiset(w.free)
    && (forall e: FreeEntry :: e.freedAt > mark ==> multiset(w'.free)[e] == multiset(w.free)[e])
    && Owns(w', ours, mark)
  }

  lemma SpanSplit(a: nat, b: nat, c: nat)
    requires a <= b <= c
    ensures Span(a, c) == Span(a, b) + Span(b, c)
  {
  }

  lemma SumAssoc<T>(a: multiset<T>, b: multiset<T>, c: multiset<T>)
    ensures a + (b + c) == (a + b) + c
  {
  }

  lemma SumSwap<T>(a: multiset<T>, b: multiset<T>, c: multiset<T>)
    ensures a + b + c == b + (a + c)
  {
  }

  lemma SumTrans<T>(a: multiset<T>, s: multiset<T>, b: multiset<T>, s': multiset<T>, c: multiset<T>)
    requires b == a + s && c == b + s'
    ensures c == a + (s + s')
  {
  }

  lemma SumFrame<T>(b: multiset<T>, q: multiset<T>, a: multiset<T>, p: multiset<T>, s: multiset<T>, x: multiset<T>)
    requires b + q == a + p + s
    ensures (b + x) + q == (a + x) + p + s
  {
    assert (b + x) + q == (b + q) + x;
    assert (a + x) + p + s == (a + p + s) + x;
  }

  lemma MovedTrans(w0: Work, a: multiset<PageId>, w1: Work, b: multiset<PageId>, w2: Work, c: multiset<PageId>,
                   ours: iset<PageId>, mark: nat)
    requires Moved(w0, a, w1, b, ours, mark) && Moved(w1, b, w2, c, ours, mark)
    ensures Moved(w0, a, w2, c, ours, mark)
  {
    SpanSplit(w0.next, w1.next, w2.next);
    SumTrans(a + Pools(w0), Span(w0.next, w1.next), b + Pools(w1), Span(w1.next, w2.next), c + Pools(w2));
    forall p: PageId | p < w0.next && p !in a && p !in Pools(w0) ensures SameAt(w0, w2, p) {
      SameTrans(w0, a, w1, b, w2, c, p, ours, mark);
    }
  }

  lemma SameTrans(w0: Work, a: multiset<PageId>, w1: Work, b: multiset<PageId>, w2: Work, c: multiset<PageId>, p: PageId,
                  ours: iset<PageId>, mark: nat)
    requires Moved(w0, a, w1, b, ours, mark) && Moved(w1, b, w2, c, ours, mark)
    requires p < w0.next && p !in a && p !in Pools(w0)
    ensures SameAt(w0, w2, p)
  {
    assert (b + Pools(w1))[p] == a[p] + Pools(w0)[p] + Span(w0.next, w1.next)[p];
    assert SameAt(w0, w1, p) && SameAt(w1, w2, p);
  }

  /** Pages not involved in a move may be carried along. */
  lemma MovedFrame(w: Work, a: multiset<PageId>, w': Work, b: multiset<PageId>, x: multiset<PageId>, ours: iset<PageId>, mark: nat)
    requires Moved(w, a, w', b, ours, mark)
    ensures Moved(w, a + x, w', b + x, ours, mark)
  {
    SumFrame(b, Pools(w'), a, Pools(w), Span(w.next, w'.next), x);
  }

  /** What stands apart before a move stands apart after it, and the bystanders `x` are untouched. */
  lemma MovedApart(w: Work, a: multiset<PageId>, w': Work, b: multiset<PageId>, x: multiset<PageId>, ours: iset<PageId>, mark: nat)
    requires Moved(w, a, w', b, ours, mark) && Apart(w, a + x) && w.next >= 2
    ensures Apart(w', b + x) && w'.next >= 2
    ensures forall p: PageId :: p in x ==> SameAt(w, w', p)
  {
    SpanSplit(2, w.next, w'.next);
    SumFrame(b, Pools(w'), a, Pools(w), Span(w.next, w'.next), x);
    var m := (a + x) + Pools(w);
    forall p: PageId | p in x ensures SameAt(w, w', p) {
      assert m[p] <= Span(2, w.next)[p];
      assert m[p] == a[p] + x[p] + Pools(w)[p];
    }
  }

  /** The ledger is in order, and the pages `ids` stand apart from every pool. */
  ghost predicate Ready(w: Work, ids: multiset<PageId>, ours: iset<PageId>, mark: nat) {
    w.next >= 2 && Apart(w, ids) && Owns(w, ours, mark)
  }

  lemma ReadyAfter(w: Work, a: multiset<PageId>, w': Work, b: multiset<PageId>, x: multiset<PageId>, ours: iset<PageId>, mark: nat)
    requires Ready(w, a + x, ours, mark) && Moved(w, a, w', b, ours, mark)
    ensures Ready(w', b + x, ours, mark)
    ensures forall p: PageId :: p in x ==> SameAt(w, w', p)
  {
    MovedApart(w, a, w', b, x, ours, mark);
  }

  lemma ReadyAlone(w: Work, a: multiset<PageId>, w': Work, b: multiset<PageId>, ours: iset<PageId>, mark: nat)
    requires Ready(w, a, ours, mark) && Moved(w, a, w', b, ours, mark)
    ensures Ready(w', b, ours, mark)
  {
    assert a + multiset{} == a && b + multiset{} == b;
    ReadyAfter(w, a, w', b, multiset{}, ours, mark);
  }

  lemma ReadySub(w: Work, ids: multiset<PageId>, part: multiset<PageId>, ours: iset<PageId>, mark: nat)
    requires Ready(w, ids, ours, mark) && part <= ids
    ensures Ready(w, part, ours, mark)
  {
  }

  // ----- moves leave stored things stored -----

  lemma {:induction false} ChainKept(chain: seq<PageId>, chunks: seq<Bytes>, w: Work, w': Work)
    requires ChainAt(chain, chunks, w)
    requires forall p: PageId :: p in multiset(chain) ==> SameAt(w, w', p)
    ensures ChainAt(chain, chunks, w')
    decreases |chain|
  {
    if chain != [] {
      assert chain == [chain[0]] + chain[1..];
      assert chain[0] in multiset(chain) && SameAt(w, w', chain[0]);
      ChainKept(chain[1..], chunks[1..], w, w');
    }
  }

  lemma ValIdsUnfold(a: seq<Val>)
    ensures ValIds(a) == if a == [] then multiset{} else multiset(a[0].chain) + ValIds(a[1..])
  {
  }

  lemma {:induction false} ValIdsConcat(a: seq<Val>, b: seq<Val>)
    ensures ValIds(a + b) == ValIds(a) + ValIds(b)
  {
    hide ValIds, Ids;
    ValIdsUnfold(a);
    if a == [] {
      assert a + b == b;
    } else {
      ValIdsConcat(a[1..], b);
      ValIdsUnfold(a + b);
      assert (a + b)[0] == a[0] && (a + b)[1..] == a[1..] + b;
      SumAssoc(multiset(a[0].chain), ValIds(a[1..]), ValIds(b));
    }
  }

  lemma ForestIdsUnfold(a: seq<Located>)
    ensures ForestIds(a) == if a == [] then multiset{} else Ids(a[0]) + ForestIds(a[1..])
  {
  }

  lemma {:induction false} ForestIdsConcat(a: seq<Located>, b: seq<Located>)
    ensures ForestIds(a + b) == ForestIds(a) + ForestIds(b)
  {
    hide ForestIds, Ids;
    ForestIdsUnfold(a);
    if a == [] {
      assert a + b == b;
    } else {
      ForestIdsConcat(a[1..], b);
      ForestIdsUnfold(a + b);
      assert (a + b)[0] == a[0] && (a + b)[1..] == a[1..] + b;
      SumAssoc(Ids(a[0]), ForestIds(a[1..]), ForestIds(b));
    }
  }

  /** Splicing changes the pages owned by exactly the pieces exchanged. */
  lemma ValIdsSplice(vals: seq<Val>, i: nat, j: nat, mid: seq<Val>)
    requires i <= j <= |vals|
    ensures var rest := ValIds(vals[..i]) + ValIds(vals[j..]);
      ValIds(vals) == ValIds(vals[i..j]) + rest && ValIds(Splice(vals, i, j, mid)) == ValIds(mid) + rest
  {
    hide ValIds;
    ValIdsThree(vals[..i], mid, vals[j..]);
    ValIdsThree(vals[..i], vals[i..j], vals[j..]);
    assert vals == vals[..i] + vals[i..j] + vals[j..];
  }

  lemma ValIdsThree(a: seq<Val>, b: seq<Val>, c: seq<Val>)
    ensures ValIds(a + b + c) == ValIds(b) + (ValIds(a) + ValIds(c))
  {
    hide ValIds;
    ValIdsConcat(a, b);
    ValIdsConcat(a + b, c);
    SumSwap(ValIds(a), ValIds(b), ValIds(c));
  }

  lemma ForestIdsSplice(f: seq<Located>, i: nat, j: nat, mid: seq<Located>)
    requires i <= j <= |f|
    ensures var rest := ForestIds(f[..i]) + ForestIds(f[j..]);
      ForestIds(f) == ForestIds(f[i..j]) + rest && ForestIds(Splice(f, i, j, mid)) == ForestIds(mid) + rest
  {
    hide ForestIds;
    ForestIdsThree(f[..i], mid, f[j..]);
    ForestIdsThree(f[..i], f[i..j], f[j..]);
    assert f == f[..i] + f[i..j] + f[j..];
  }

  lemma ForestIdsThree(a: seq<Located>, b: seq<Located>, c: seq<Located>)
    ensures ForestIds(a + b + c) == ForestIds(b) + (ForestIds(a) + ForestIds(c))
  {
    hide ForestIds;
    ForestIdsConcat(a, b);
    ForestIdsConcat(a + b, c);
    SumSwap(ForestIds(a), ForestIds(b), ForestIds(c));
  }

  lemma ValIdsOne(v: Val)
    ensures ValIds([v]) == multiset(v.chain)
  {
    assert [v][1..] == [];
  }

  lemma ForestIdsOne(d: Located)
    ensures ForestIds([d]) == Ids(d)
  {
    assert [d][1..] == [];
  }

  lemma ValIdsPart(vals: seq<Val>, i: nat)
    requires i < |vals|
    ensures multiset(vals[i].chain) <= ValIds(vals)
  {
    ValIdsSplice(vals, i, i + 1, []);
    assert vals[i..i + 1] == [vals[i]];
    ValIdsOne(vals[i]);
  }

  lemma ForestIdsPart(f: seq<Located>, i: nat)
    requires i < |f|
    ensures Ids(f[i]) <= ForestIds(f)
  {
    hide ForestIds, Ids;
    ForestIdsSplice(f, i, i + 1, []);
    assert f[i..i + 1] == [f[i]];
    ForestIdsOne(f[i]);
  }

  lemma ValsKept(vals: seq<Val>, w: Work, w': Work)
    requires forall i :: 0 <= i < |vals| ==> ValAt(vals[i], w)
    requires forall p: PageId :: p in ValIds(vals) ==> SameAt(w, w', p)
    ensures forall i :: 0 <= i < |vals| ==> ValAt(vals[i], w')
  {
    forall i | 0 <= i < |vals| ensures ValAt(vals[i], w') {
      ValIdsPart(vals, i);
      if |vals[i].bytes| > INLINE_VALUE_LIMIT {
        ChainKept(vals[i].chain, Chunks(vals[i].bytes), w, w');
      }
    }
  }

  lemma {:induction false} AtKept(d: Located, w: Work, w': Work, base: iset<PageId>)
    requires At(d, w, base)
    requires forall p: PageId :: p in Ids(d) ==> SameAt(w, w', p)
    ensures At(d, w', base)
    decreases d
  {
    match d
    case AtLeaf(id, keys, vals) =>
      assert SameAt(w, w', id);
      ValsKept(vals, w, w');
    case AtNode(id, keys, children) =>
      assert SameAt(w, w', id);
      forall i | 0 <= i < |children| ensures At(children[i], w', base) {
        ForestIdsPart(children, i);
        AtKept(children[i], w, w', base);
      }
  }

  // ----- the elementary moves -----

  /** Replace the entry at `pos` by the last one and shrink (`swap_remove`). */
  function SwapRemove<T>(s: seq<T>, pos: nat): seq<T>
    requires pos < |s|
  {
    s[pos := s[|s| - 1]][..|s| - 1]
  }

  /** The last element takes the place of the removed one; all others stay where they are. */
  lemma SwapRemoveAt<T>(s: seq<T>, pos: nat)
    requires pos < |s|
    ensures |SwapRemove(s, pos)| == |s| - 1
    ensures forall i :: 0 <= i < |s| - 1 ==> SwapRemove(s, pos)[i] == if i == pos then s[|s| - 1] else s[i]
  {
  }

  lemma SwapRemoveBag<T>(s: seq<T>, pos: nat)
    requires pos < |s|
    ensures multiset(SwapRemove(s, pos)) + multiset{s[pos]} == multiset(s)
  {
    var u := s[pos := s[|s| - 1]];
    assert u == u[..|s| - 1] + [s[|s| - 1]];
    assert s == s[..|s| - 1] + [s[|s| - 1]];
  }

  /** An id just allocated is ours to write and is no staged node. */
  ghost predicate Fresh(w: Work, id: PageId, ours: iset<PageId>) {
    id in ours && id !in w.overlay
  }

  lemma AllocScratch(w: Work, ours: iset<PageId>, mark: nat)
    requires Owns(w, ours, mark) && w.scratch != []
    ensures var n := |w.scratch| - 1; var w' := w.(scratch := w.scratch[..n]);
      Moved(w, multiset{}, w', multiset{w.scratch[n]}, ours, mark) && Fresh(w, w.scratch[n], ours)
  {
    var n := |w.scratch| - 1;
    assert w.scratch == w.scratch[..n] + [w.scratch[n]];
    var w' := w.(scratch := w.scratch[..n]);
    assert multiset{w.scratch[n]} + Pools(w') == multiset{} + Pools(w) + Span(w.next, w'.next);
    assert w.scratch[n] in Pools(w);
  }

  lemma FreeLedger(w: Work, pos: nat)
    requires pos < |w.free|
    ensures multiset{w.free[pos].page} + Pools(w.(free := SwapRemove(w.free, pos))) == Pools(w)
    ensures multiset(SwapRemove(w.free, pos)) + multiset{w.free[pos]} == multiset(w.free)
  {
    SwapRemoveBag(w.free, pos);
    SwapRemoveBag(FreeIds(w.free), pos);
    assert FreeIds(SwapRemove(w.free, pos)) == SwapRemove(FreeIds(w.free), pos);
    var bag, bag' := multiset(FreeIds(w.free)), multiset(SwapRemove(FreeIds(w.free), pos));
    assert bag == bag' + multiset{w.free[pos].page};
  }

  lemma AllocFree(w: Work, pos: nat, ours: iset<PageId>, mark: nat)
    requires Owns(w, ours, mark) && pos < |w.free| && w.free[pos].freedAt <= mark
    ensures var w' := w.(free := SwapRemove(w.free, pos));
      Moved(w, multiset{}, w', multiset{w.free[pos].page}, ours, mark) && Fresh(w, w.free[pos].page, ours)
  {
    hide Pools, Owns, SwapRemove, Moved, Fresh;
    FreeLedger(w, pos);
    OwnsLess(w, SwapRemove(w.free, pos), ours, mark);
    FreeIsOurs(w, pos, ours, mark);
    FreeOnly(w, SwapRemove(w.free, pos), w.free[pos], ours, mark);
  }

  lemma FreeOnly(w: Work, free': seq<FreeEntry>, e: FreeEntry, ours: iset<PageId>, mark: nat)
    requires Owns(w.(free := free'), ours, mark) && e.freedAt <= mark
    requires multiset{e.page} + Pools(w.(free := free')) == Pools(w)
    requires multiset(free') + multiset{e} == multiset(w.free)
    ensures Moved(w, multiset{}, w.(free := free'), multiset{e.page}, ours, mark)
  {
    hide Pools, Owns;
    assert Span(w.next, w.next) == multiset{};
  }

  lemma FreeIsOurs(w: Work, pos: nat, ours: iset<PageId>, mark: nat)
    requires Owns(w, ours, mark) && pos < |w.free| && w.free[pos].freedAt <= mark
    ensures Fresh(w, w.free[pos].page, ours)
  {
    FreePooled(w, pos);
    hide Pools;
  }

  lemma FreePooled(w: Work, pos: nat)
    requires pos < |w.free|
    ensures w.free[pos].page in Pools(w)
  {
    assert FreeIds(w.free)[pos] in FreeIds(w.free);
  }

  lemma OwnsLess(w: Work, free': seq<FreeEntry>, ours: iset<PageId>, mark: nat)
    requires Owns(w, ours, mark) && multiset(free') <= multiset(w.free) && Pools(w.(free := free')) <= Pools(w)
    ensures Owns(w.(free := free'), ours, mark)
  {
    forall i | 0 <= i < |free'| ensures free'[i] in w.free {
      assert free'[i] in multiset(free');
    }
  }

  lemma AllocBump(w: Work, ours: iset<PageId>, mark: nat)
    requires Owns(w, ours, mark)
    ensures var w' := w.(next := w.next + 1);
      Moved(w, multiset{}, w', multiset{w.next}, ours, mark) && Fresh(w, w.next, ours)
  {
    hide Pools, Span, Owns;
    PoolsBump(w);
    SpanOne(w.next);
    BumpOwns(w, ours, mark);
  }

  lemma PoolsBump(w: Work)
    ensures Pools(w.(next := w.next + 1)) == Pools(w)
  {
  }

  lemma BumpOwns(w: Work, ours: iset<PageId>, mark: nat)
    requires Owns(w, ours, mark)
    ensures Owns(w.(next := w.next + 1), ours, mark) && Fresh(w, w.next, ours)
  {
    assert Pools(w.(next := w.next + 1)) == Pools(w);
    hide Pools;
  }

  lemma SpanOne(n: nat)
    ensures Span(n, n + 1) == multiset{n}
  {
  }

  /** Staging a node in the overlay. */
  lemma StageNode(w: Work, id: PageId, node: TreeNode, ours: iset<PageId>, mark: nat)
    requires Owns(w, ours, mark) && Apart(w, multiset{id}) && id in ours
    ensures Moved(w, multiset{id}, w.(overlay := w.overlay[id := node]), multiset{id}, ours, mark)
  {
    ApartNotPooled(w, id);
  }

  lemma ApartNotPooled(w: Work, id: PageId)
    requires Apart(w, multiset{id})
    ensures 2 <= id < w.next && id !in Pools(w)
  {
    assert (multiset{id} + Pools(w))[id] <= Span(2, w.next)[id];
  }

  /** Writing an overflow page straight to disk. */
  lemma WriteDirect(w: Work, id: PageId, page: Page, ours: iset<PageId>, mark: nat)
    requires Owns(w, ours, mark) && id in ours
    ensures Moved(w, multiset{id}, w.(disk := w.disk[id := page], unsynced := w.unsynced + {id}), multiset{id}, ours, mark)
  {
  }

  lemma PushObsolete(w: Work, id: PageId, ours: iset<PageId>, mark: nat)
    requires Owns(w, ours, mark) && id !in w.overlay
    ensures Moved(w, multiset{id}, w.(obsolete := w.obsolete + [id]), multiset{}, ours, mark)
  {
    var w' := w.(obsolete := w.obsolete + [id]);
    assert multiset{} + Pools(w') == multiset{id} + Pools(w) + Span(w.next, w'.next);
  }

  /** Discarding one of the transaction's own nodes. */
  lemma RetireScratch(w: Work, id: PageId, ours: iset<PageId>, mark: nat)
    requires Owns(w, ours, mark) && id in w.overlay
    ensures Moved(w, multiset{id}, w.(overlay := w.overlay - {id}, scratch := w.scratch + [id]), multiset{}, ours, mark)
  {
    var w' := w.(overlay := w.overlay - {id}, scratch := w.scratch + [id]);
    assert multiset{} + Pools(w') == multiset{id} + Pools(w) + Span(w.next, w'.next);
  }
}
