/** The allocator and page bookkeeping of src/storage/btree.rs (`Ctx`), with the ledger as its contract. */
module CtxModule {
  import opened Bytes
  import opened BTree
  import opened Pages
  import opened PagerFile

  class Ctx {
    const pager: Pager
    var overlay: Overlay
    var nextPage: PageId
    var freeList: seq<FreeEntry>
    var obsolete: seq<PageId>
    var scratchPool: seq<PageId>
    const reclaimWatermark: nat

    /** The pages this transaction may write, and the node pages of the committed tree it started from. */
    ghost const ours: iset<PageId>
    ghost const base: iset<PageId>

    constructor (pager: Pager, nextPage: PageId, freeList: seq<FreeEntry>, reclaimWatermark: nat,
                 ghost ours: iset<PageId>, ghost base: iset<PageId>)
      ensures this.pager == pager && this.reclaimWatermark == reclaimWatermark && this.ours == ours && this.base == base
      ensures W() == Work(pager.pages, pager.unsynced, map[], nextPage, freeList, [], [])
    {
      this.pager, this.nextPage, this.freeList, this.reclaimWatermark := pager, nextPage, freeList, reclaimWatermark;
      this.ours, this.base := ours, base;
      overlay, obsolete, scratchPool := map[], [], [];
    }

    ghost function W(): Work
      reads this, pager
    {
      Work(pager.pages, pager.unsynced, overlay, nextPage, freeList, obsolete, scratchPool)
    }

    ghost predicate Ready(ids: multiset<PageId>)
      reads this, pager
    {
      Pages.Ready(W(), ids, ours, reclaimWatermark) && pager.mayWrite == ours
    }

    /** The first free-list entry old enough that no live reader can see its page. */
    method FirstReclaimable() returns (pos: nat)
      ensures pos <= |freeList| && (pos < |freeList| ==> freeList[pos].freedAt <= reclaimWatermark)
      ensures forall i :: 0 <= i < pos ==> freeList[i].freedAt > reclaimWatermark
      ensures pos == FirstFree(freeList, reclaimWatermark)
    {
      pos := 0;
      while pos < |freeList| && freeList[pos].freedAt > reclaimWatermark
        invariant pos <= |freeList|
        invariant forall i :: 0 <= i < pos ==> freeList[i].freedAt > reclaimWatermark
        invariant pos + FirstFree(freeList[pos..], reclaimWatermark) == FirstFree(freeList, reclaimWatermark)
      {
        assert freeList[pos..][1..] == freeList[pos + 1..];
        pos := pos + 1;
      }
    }

    /** Scratch first, then a committed page old enough to reclaim, then the end of the file. */
    method Draw() returns (id: PageId)
      modifies this
      ensures (id, W()) == Drawn(old(W()), reclaimWatermark)
    {
      hide FirstFree, SwapRemove;
      if scratchPool != [] {
        id := scratchPool[|scratchPool| - 1];
        scratchPool := scratchPool[..|scratchPool| - 1];
        return;
      }
      var pos := FirstReclaimable();
      if pos < |freeList| {
        id := freeList[pos].page;
        freeList := SwapRemove(freeList, pos);
        return;
      }
      id := nextPage;
      nextPage := nextPage + 1;
    }

    /** What it hands out is a page the transaction may write and that nothing else holds. */
    method Alloc() returns (id: PageId)
      requires Ready(multiset{})
      modifies this
      ensures (id, W()) == Drawn(old(W()), reclaimWatermark)
      ensures Moved(old(W()), multiset{}, W(), multiset{id}, ours, reclaimWatermark)
      ensures Fresh(old(W()), id, ours) && overlay == old(overlay)
    {
      hide Moved, Pages.Ready, Fresh;
      DrawnMoves(W(), ours, reclaimWatermark);
      id := Draw();
    }

    predicate IsScratch(id: PageId)
      reads this
    {
      id in overlay
    }

    method MarkObsolete(id: PageId)
      requires Ready(multiset{id})
      modifies this
      ensures W() == if old(IsScratch(id)) then old(W()) else old(W()).(obsolete := old(obsolete) + [id])
      ensures !old(IsScratch(id)) ==> Moved(old(W()), multiset{id}, W(), multiset{}, ours, reclaimWatermark)
    {
      if !IsScratch(id) {
        PushObsolete(W(), id, ours, reclaimWatermark);
        obsolete := obsolete + [id];
      }
    }

    /** Discard a node for good: the transaction's own page is recycled at once, a committed one later. */
    method Retire(id: PageId)
      requires Ready(multiset{id})
      modifies this
      ensures W() == if old(IsScratch(id)) then old(W()).(overlay := old(overlay) - {id}, scratch := old(scratchPool) + [id])
                     else old(W()).(obsolete := old(obsolete) + [id])
      ensures Moved(old(W()), multiset{id}, W(), multiset{}, ours, reclaimWatermark)
    {
      if id in overlay {
        RetireScratch(W(), id, ours, reclaimWatermark);
        overlay := overlay - {id};
        scratchPool := scratchPool + [id];
      } else {
        PushObsolete(W(), id, ours, reclaimWatermark);
        obsolete := obsolete + [id];
      }
    }

    method PutNode(id: PageId, node: TreeNode)
      requires Ready(multiset{id}) && id in ours
      modifies this
      ensures Moved(old(W()), multiset{id}, W(), multiset{id}, ours, reclaimWatermark)
      ensures W() == old(W()).(overlay := old(overlay)[id := node])
    {
      StageNode(W(), id, node, ours, reclaimWatermark);
      overlay := overlay[id := node];
    }

    method Read(id: PageId) returns (node: TreeNode)
      requires NodeAt(W(), id).Some?
      ensures NodeAt(W(), id) == Some(node)
    {
      if id in overlay {
        node := overlay[id];
      } else {
        var page := pager.ReadPage(id);
        node := page.node;
      }
    }

    /** One overflow page in front of `chain`. */
    method WriteChunk(next: Option<PageId>, chunk: Bytes, ghost chain: seq<PageId>, ghost rest: seq<Bytes>) returns (id: PageId)
      requires Ready(multiset(chain)) && ChainAt(chain, rest, W()) && next == Head(chain)
      modifies this, pager`pages, pager`unsynced
      ensures ChainAt([id] + chain, [chunk] + rest, W()) && Ready(multiset([id] + chain))
      ensures Moved(old(W()), multiset{}, W(), multiset{id}, ours, reclaimWatermark)
      ensures overlay == old(overlay)
    {
      hide Moved, Pages.Ready, ChainAt, Fresh, Drawn;
      ReadyParts(multiset(chain));
      ghost var w := W();
      ReadySub(w, multiset(chain), multiset{}, ours, reclaimWatermark);
      IsReady(multiset{});
      id := Alloc();
      ghost var w' := W();
      FreshIsOurs(w, id, ours);
      pager.WritePage(id, OverflowPage(next, chunk));
      ChunkWritten(w, w', id, next, chunk, chain, rest, ours, reclaimWatermark);
      IsReady(multiset([id] + chain));
    }

    lemma ReadyParts(ids: multiset<PageId>)
      requires Ready(ids)
      ensures Pages.Ready(W(), ids, ours, reclaimWatermark) && pager.mayWrite == ours
    {
    }

    lemma IsReady(ids: multiset<PageId>)
      requires Pages.Ready(W(), ids, ours, reclaimWatermark) && pager.mayWrite == ours
      ensures Ready(ids)
    {
    }

    /** Store a value: inline if small, otherwise as a chain written back to front. */
    method StoreValue(value: Bytes) returns (sv: StoredValue, ghost v: Val)
      requires Ready(multiset{})
      modifies this, pager`pages, pager`unsynced
      ensures Moved(old(W()), multiset{}, W(), multiset(v.chain), ours, reclaimWatermark)
      ensures v.bytes == value && ValAt(v, W()) && sv == Stored(v)
      ensures overlay == old(overlay)
    {
      if |value| <= INLINE_VALUE_LIMIT {
        MovedRefl(W(), ours, reclaimWatermark);
        return Inline(value), Val(value, []);
      }
      var chunks := Chunks(value);
      ghost var chain;
      var next;
      next, chain := WriteChain(chunks);
      return Overflow(next.value, |value|), Val(value, chain);
    }

    method WriteChain(chunks: seq<Bytes>) returns (next: Option<PageId>, ghost chain: seq<PageId>)
      requires Ready(multiset{})
      modifies this, pager`pages, pager`unsynced
      ensures Moved(old(W()), multiset{}, W(), multiset(chain), ours, reclaimWatermark)
      ensures ChainAt(chain, chunks, W()) && next == Head(chain)
      ensures overlay == old(overlay)
    {
      hide Moved, Apart, Owns;
      ghost var w0 := W();
      next, chain := None, [];
      var i := |chunks|;
      assert multiset(chain) == multiset{};
      MovedRefl(w0, ours, reclaimWatermark);
      while i > 0
        invariant 0 <= i <= |chunks|
        invariant ChainAt(chain, chunks[i..], W()) && next == Head(chain)
        invariant Moved(w0, multiset{}, W(), multiset(chain), ours, reclaimWatermark)
        invariant Ready(multiset(chain))
        invariant overlay == old(overlay)
      {
        ghost var w1 := W();
        i := i - 1;
        var id := WriteChunk(next, chunks[i], chain, chunks[i + 1..]);
        MovedChain(w0, w1, W(), chain, id, ours, reclaimWatermark);
        assert chunks[i..] == [chunks[i]] + chunks[i + 1..];
        chain := [id] + chain;
        next := Some(id);
      }
      assert chunks[0..] == chunks;
    }

    method RetireLink(id: PageId, ghost chain: seq<PageId>, ghost chunks: seq<Bytes>)
      requires chain != [] && id == chain[0]
      requires Ready(multiset(chain)) && ChainAt(chain, chunks, W())
      modifies this
      ensures Moved(old(W()), multiset(chain), W(), multiset(chain[1..]), ours, reclaimWatermark)
      ensures ChainAt(chain[1..], chunks[1..], W()) && Ready(multiset(chain[1..]))
      ensures W() == old(W()).(obsolete := old(obsolete) + [id])
    {
      ghost var w, rest := W(), multiset(chain[1..]);
      assert chain == [id] + chain[1..];
      assert multiset(chain) == multiset{id} + rest && rest == multiset{} + rest;
      PushObsolete(w, id, ours, reclaimWatermark);
      obsolete := obsolete + [id];
      MovedFrame(w, multiset{id}, W(), multiset{}, rest, ours, reclaimWatermark);
      MovedApart(w, multiset{id}, W(), multiset{}, rest, ours, reclaimWatermark);
      ChainKept(chain[1..], chunks[1..], w, W());
    }

    /** Hand every page of a discarded value's chain, once each, to later transactions. */
    method RetireValue(sv: StoredValue, ghost v: Val)
      requires Ready(multiset(v.chain)) && ValAt(v, W()) && sv == Stored(v)
      modifies this
      ensures Moved(old(W()), multiset(v.chain), W(), multiset{}, ours, reclaimWatermark)
      ensures W() == old(W()).(obsolete := old(obsolete) + v.chain)
    {
      ghost var w0 := W();
      ReadyOwns(w0, multiset(v.chain), ours, reclaimWatermark);
      if sv.Inline? {
        assert v.chain == [] && obsolete + v.chain == obsolete;
        MovedRefl(w0, ours, reclaimWatermark);
        return;
      }
      hide Moved, Pages.Ready, Chunks, ChainAt;
      RetireChain(sv.head, v.chain, Chunks(v.bytes));
    }

    method RetireChain(head: PageId, ghost pages: seq<PageId>, ghost data: seq<Bytes>)
      requires Ready(multiset(pages)) && ChainAt(pages, data, W()) && Some(head) == Head(pages)
      modifies this
      ensures Moved(old(W()), multiset(pages), W(), multiset{}, ours, reclaimWatermark)
      ensures W() == old(W()).(obsolete := old(obsolete) + pages)
    {
      hide Moved, Pages.Ready, ChainAt;
      var cur := Some(head);
      ghost var chain, chunks, done, w0 := pages, data, [], W();
      StandStill(w0, pages, ours, reclaimWatermark);
      assert obsolete + done == obsolete;
      while cur != None
        invariant cur == Head(chain) && ChainAt(chain, chunks, W()) && Ready(multiset(chain))
        invariant Moved(w0, multiset(pages), W(), multiset(chain), ours, reclaimWatermark)
        invariant W() == w0.(obsolete := w0.obsolete + done) && done + chain == pages
        decreases |chain|
      {
        ghost var w := W();
        ChainTop(chain, chunks, w);
        var page := pager.ReadPage(cur.value);
        RetireLink(cur.value, chain, chunks);
        MovedTrans(w0, multiset(pages), w, multiset(chain), W(), multiset(chain[1..]), ours, reclaimWatermark);
        assert w0.obsolete + done + [chain[0]] == w0.obsolete + (done + [chain[0]]);
        done, chain, chunks := done + [chain[0]], chain[1..], chunks[1..];
        cur := page.next;
      }
      assert done == pages;
    }
  }

  lemma FreshIsOurs(w: Work, id: PageId, ours: iset<PageId>)
    requires Fresh(w, id, ours)
    ensures id in ours && id !in w.overlay
  {
  }

  /** Writing chunk `chunk` to the fresh page `id`, in front of `chain`. */
  lemma ChunkWritten(w: Work, w': Work, id: PageId, next: Option<PageId>, chunk: Bytes, chain: seq<PageId>, rest: seq<Bytes>,
                     ours: iset<PageId>, mark: nat)
    requires Pages.Ready(w, multiset(chain), ours, mark) && ChainAt(chain, rest, w) && next == Head(chain)
    requires Moved(w, multiset{}, w', multiset{id}, ours, mark) && id in ours && id !in w'.overlay
    ensures var x := w'.(disk := w'.disk[id := OverflowPage(next, chunk)], unsynced := w'.unsynced + {id});
      && ChainAt([id] + chain, [chunk] + rest, x) && Pages.Ready(x, multiset([id] + chain), ours, mark)
      && Moved(w, multiset{}, x, multiset{id}, ours, mark)
  {
    hide Moved, Pages.Ready, ChainAt;
    var x := w'.(disk := w'.disk[id := OverflowPage(next, chunk)], unsynced := w'.unsynced + {id});
    MovedOwns(w, multiset{}, w', multiset{id}, ours, mark);
    WriteDirect(w', id, OverflowPage(next, chunk), ours, mark);
    MovedTrans(w, multiset{}, w', multiset{id}, x, multiset{id}, ours, mark);
    assert multiset(chain) == multiset{} + multiset(chain);
    assert multiset([id] + chain) == multiset{id} + multiset(chain);
    ReadyAfter(w, multiset{}, x, multiset{id}, multiset(chain), ours, mark);
    ChainKept(chain, rest, w, x);
    ChainGrows(id, chunk, chain, rest, x);
  }

  lemma MovedOwns(w: Work, a: multiset<PageId>, w': Work, b: multiset<PageId>, ours: iset<PageId>, mark: nat)
    requires Moved(w, a, w', b, ours, mark)
    ensures Owns(w', ours, mark)
  {
  }

  lemma ChainGrows(id: PageId, chunk: Bytes, chain: seq<PageId>, rest: seq<Bytes>, w: Work)
    requires ChainAt(chain, rest, w) && id !in w.overlay && DiskAt(w, id) == Some(OverflowPage(Head(chain), chunk))
    ensures ChainAt([id] + chain, [chunk] + rest, w)
  {
    assert ([id] + chain)[1..] == chain && ([chunk] + rest)[1..] == rest;
  }

  lemma StandStill(w: Work, chain: seq<PageId>, ours: iset<PageId>, mark: nat)
    requires Pages.Ready(w, multiset(chain), ours, mark)
    ensures Moved(w, multiset(chain), w, multiset(chain), ours, mark)
  {
    MovedRefl(w, ours, mark);
    MovedFrame(w, multiset{}, w, multiset{}, multiset(chain), ours, mark);
    assert multiset{} + multiset(chain) == multiset(chain);
  }

  lemma ChainTop(chain: seq<PageId>, chunks: seq<Bytes>, w: Work)
    requires ChainAt(chain, chunks, w) && chain != []
    ensures chunks != [] && chain[0] in w.disk && w.disk[chain[0]] == OverflowPage(Head(chain[1..]), chunks[0])
  {
  }

  lemma ReadyOwns(w: Work, ids: multiset<PageId>, ours: iset<PageId>, mark: nat)
    requires Pages.Ready(w, ids, ours, mark)
    ensures Owns(w, ours, mark)
  {
  }

  /** The position of the first entry freed at or before `mark`, or the length. */
  function FirstFree(free: seq<FreeEntry>, mark: nat): (pos: nat)
    ensures pos <= |free|
  {
    if free == [] || free[0].freedAt <= mark then 0 else 1 + FirstFree(free[1..], mark)
  }

  /** The id the allocator hands out next, and what remains. */
  function Drawn(w: Work, mark: nat): (PageId, Work) {
    var pos := FirstFree(w.free, mark);
    if w.scratch != [] then (w.scratch[|w.scratch| - 1], w.(scratch := w.scratch[..|w.scratch| - 1]))
    else if pos < |w.free| then (w.free[pos].page, w.(free := SwapRemove(w.free, pos)))
    else (w.next, w.(next := w.next + 1))
  }

  /** Whatever it hands out is a page the transaction may write and that nothing else holds. */
  lemma DrawnMoves(w: Work, ours: iset<PageId>, mark: nat)
    requires Pages.Ready(w, multiset{}, ours, mark)
    ensures var d := Drawn(w, mark); Moved(w, multiset{}, d.1, multiset{d.0}, ours, mark) && Fresh(w, d.0, ours)
  {
    ReadyOwns(w, multiset{}, ours, mark);
    ReclaimableIsOld(w.free, mark);
    DrawnIs(w, mark);
    hide *;
    if w.scratch != [] {
      AllocScratch(w, ours, mark);
    } else if FirstFree(w.free, mark) < |w.free| {
      AllocFree(w, FirstFree(w.free, mark), ours, mark);
    } else {
      AllocBump(w, ours, mark);
    }
  }

  lemma DrawnIs(w: Work, mark: nat)
    ensures w.scratch != [] ==> Drawn(w, mark) == (w.scratch[|w.scratch| - 1], w.(scratch := w.scratch[..|w.scratch| - 1]))
    ensures var pos := FirstFree(w.free, mark);
      w.scratch == [] && pos < |w.free| ==> Drawn(w, mark) == (w.free[pos].page, w.(free := SwapRemove(w.free, pos)))
    ensures w.scratch == [] && FirstFree(w.free, mark) == |w.free| ==> Drawn(w, mark) == (w.next, w.(next := w.next + 1))
  {
  }

  /** While a scratch page or a free page old enough is left, the file does not grow. */
  lemma DrawReuses(w: Work, mark: nat)
    ensures var d := Drawn(w, mark);
      (w.scratch != [] || exists i :: 0 <= i < |w.free| && w.free[i].freedAt <= mark) ==>
        && d.1.next == w.next
        && (d.0 in w.scratch || exists i :: 0 <= i < |w.free| && w.free[i].page == d.0 && w.free[i].freedAt <= mark)
  {
    ReclaimableIsOld(w.free, mark);
    DrawnIs(w, mark);
  }

  lemma {:induction false} ReclaimableIsOld(free: seq<FreeEntry>, mark: nat)
    ensures var pos := FirstFree(free, mark);
      (pos < |free| ==> free[pos].freedAt <= mark) && forall i :: 0 <= i < pos ==> free[i].freedAt > mark
  {
    if free != [] && free[0].freedAt > mark {
      ReclaimableIsOld(free[1..], mark);
    }
  }

  lemma MovedRefl(w: Work, ours: iset<PageId>, mark: nat)
    requires Owns(w, ours, mark)
    ensures Moved(w, multiset{}, w, multiset{}, ours, mark)
  {
  }

  lemma MovedChain(w0: Work, w1: Work, w2: Work, chain: seq<PageId>, id: PageId, ours: iset<PageId>, mark: nat)
    requires Moved(w0, multiset{}, w1, multiset(chain), ours, mark)
    requires Moved(w1, multiset{}, w2, multiset{id}, ours, mark)
    ensures Moved(w0, multiset{}, w2, multiset([id] + chain), ours, mark)
  {
    MovedFrame(w1, multiset{}, w2, multiset{id}, multiset(chain), ours, mark);
    assert multiset{} + multiset(chain) == multiset(chain);
    assert multiset{id} + multiset(chain) == multiset([id] + chain);
    MovedTrans(w0, multiset{}, w1, multiset(chain), w2, multiset([id] + chain), ours, mark);
  }
}
