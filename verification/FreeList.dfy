/** The persisted free-page list of src/storage/freelist.rs: a chain of pages, 200 entries each. */
module FreeList {
  import opened Bytes
  import opened Pages
  import opened PagerFile

  const BATCH: nat := 200

  /** `entries.chunks(200)`. */
  function Batches(entries: seq<FreeEntry>): seq<seq<FreeEntry>> {
    if entries == [] then []
    else if |entries| <= BATCH then [entries]
    else [entries[..BATCH]] + Batches(entries[BATCH..])
  }

  lemma {:induction false} BatchesCount(entries: seq<FreeEntry>)
    ensures |Batches(entries)| == (|entries| + 199) / 200
    ensures forall i :: 0 <= i < |Batches(entries)| ==>
              0 < |Batches(entries)[i]| <= 200 && (i < |Batches(entries)| - 1 ==> |Batches(entries)[i]| == 200)
  {
    if |entries| > BATCH {
      BatchesCount(entries[BATCH..]);
    }
  }

  /** `chain` starts at `head`, each page pointing to the next, the last to nothing. */
  ghost predicate Linked(chain: seq<PageId>, head: Option<PageId>, disk: Disk) {
    && head == Head(chain)
    && (chain != [] ==>
          && chain[0] in disk && disk[chain[0]].FreeListPage?
          && Linked(chain[1..], disk[chain[0]].next, disk))
  }

  /** The entries along a chain, in chain order. */
  ghost function Loaded(chain: seq<PageId>, head: Option<PageId>, disk: Disk): seq<FreeEntry>
    requires Linked(chain, head, disk)
    decreases |chain|
  {
    if chain == [] then [] else disk[chain[0]].entries + Loaded(chain[1..], disk[chain[0]].next, disk)
  }

  lemma {:induction false} LinkedKept(chain: seq<PageId>, head: Option<PageId>, disk: Disk, disk': Disk)
    requires Linked(chain, head, disk)
    requires forall p :: p in chain ==> p in disk && p in disk' && disk'[p] == disk[p]
    ensures Linked(chain, head, disk') && Loaded(chain, head, disk') == Loaded(chain, head, disk)
    decreases |chain|
  {
    if chain != [] {
      LinkedKept(chain[1..], disk[chain[0]].next, disk, disk');
    }
  }

  lemma {:induction false} LinkedOnDisk(chain: seq<PageId>, head: Option<PageId>, disk: Disk)
    requires Linked(chain, head, disk)
    ensures forall p :: p in chain ==> p in disk
    decreases |chain|
  {
    if chain != [] {
      LinkedOnDisk(chain[1..], disk[chain[0]].next, disk);
    }
  }

  /** Read the whole persisted list, batch by batch. */
  method Load(pager: Pager, head: Option<PageId>, ghost chain: seq<PageId>) returns (out: seq<FreeEntry>)
    requires Linked(chain, head, pager.pages)
    ensures out == Loaded(chain, head, pager.pages)
  {
    out := [];
    var cur := head;
    ghost var left := chain;
    while cur != None
      invariant Linked(left, cur, pager.pages)
      invariant out + Loaded(left, cur, pager.pages) == Loaded(chain, head, pager.pages)
      decreases |left|
    {
      var page := pager.ReadPage(cur.value);
      assert out + Loaded(left, cur, pager.pages) == (out + page.entries) + Loaded(left[1..], page.next, pager.pages);
      out := out + page.entries;
      cur := page.next;
      left := left[1..];
    }
  }

  function Flatten(batches: seq<seq<FreeEntry>>): seq<FreeEntry> {
    if batches == [] then [] else batches[0] + Flatten(batches[1..])
  }

  lemma {:induction false} FlattenBatches(entries: seq<FreeEntry>)
    ensures Flatten(Batches(entries)) == entries
  {
    if |entries| > BATCH {
      FlattenBatches(entries[BATCH..]);
      assert Batches(entries)[1..] == Batches(entries[BATCH..]);
    } else if entries != [] {
      assert Flatten([entries]) == entries + Flatten([]);
    }
  }

  /** Nothing below page `n` differs, and nothing below it became unsynced. */
  ghost predicate OnlyBeyond(n: PageId, disk: Disk, unsynced: set<PageId>, disk': Disk, unsynced': set<PageId>) {
    && (forall p: PageId :: p < n ==> (p in disk' <==> p in disk))
    && (forall p: PageId :: p < n && p in disk ==> disk'[p] == disk[p])
    && (forall p: PageId :: p in unsynced' ==> p in unsynced || p >= n)
  }

  /** Each batch is linked in front of those before it, so they are read back in reverse order. */
  function BackToFront(batches: seq<seq<FreeEntry>>): seq<FreeEntry> {
    if batches == [] then [] else batches[|batches| - 1] + BackToFront(batches[..|batches| - 1])
  }

  /** What a load finds where, after a store: the batch stored last comes first. */
  lemma {:induction false} BackToFrontAt(batches: seq<seq<FreeEntry>>, i: nat, j: nat)
    requires i < |batches| && j < |batches[i]|
    ensures var at := |Flatten(batches[i + 1..])| + j;
      at < |BackToFront(batches)| && BackToFront(batches)[at] == batches[i][j]
    decreases |batches|
  {
    var n := |batches| - 1;
    if i < n {
      BackToFrontAt(batches[..n], i, j);
      FlattenLast(batches[i + 1..]);
      assert batches[i + 1..][..n - i - 1] == batches[..n][i + 1..];
    } else {
      assert batches[i + 1..] == [];
    }
  }

  lemma {:induction false} FlattenLast(batches: seq<seq<FreeEntry>>)
    requires batches != []
    ensures Flatten(batches) == Flatten(batches[..|batches| - 1]) + batches[|batches| - 1]
  {
    if |batches| == 1 {
      assert Flatten(batches) == batches[0] + Flatten([]);
      assert batches[..0] == [];
    } else {
      FlattenLast(batches[1..]);
      assert batches[1..][..|batches| - 2] == batches[..|batches| - 1][1..];
    }
  }

  lemma {:induction false} BackToFrontSameEntries(batches: seq<seq<FreeEntry>>)
    ensures multiset(BackToFront(batches)) == multiset(Flatten(batches))
    decreases |batches|
  {
    if batches != [] {
      FlattenLast(batches);
      BackToFrontSameEntries(batches[..|batches| - 1]);
    }
  }

  /** A chain on the pages from `first` up to `next` holds these batches. */
  ghost predicate Partial(first: PageId, next: PageId, chain: seq<PageId>, head: Option<PageId>, disk: Disk, batches: seq<seq<FreeEntry>>) {
    && first <= next && multiset(chain) == Span(first, next) && Linked(chain, head, disk)
    && Loaded(chain, head, disk) == BackToFront(batches)
  }

  lemma PartialStep(first: PageId, next: PageId, chain: seq<PageId>, head: Option<PageId>, disk: Disk,
                    batches: seq<seq<FreeEntry>>, batch: seq<FreeEntry>)
    requires Partial(first, next, chain, head, disk, batches)
    ensures Partial(first, next + 1, [next] + chain, Some(next), disk[next := FreeListPage(head, batch)], batches + [batch])
  {
    assert next in chain ==> next in multiset(chain);
    AppendBatch(disk, chain, head, next, batch);
    assert multiset([next] + chain) == multiset{next} + Span(first, next);
    assert multiset([next] + chain) == Span(first, next + 1);
    assert (batches + [batch])[..|batches|] == batches;
  }

  /** Write `entries` as a fresh chain at the end of the file; `Load` returns the same entries, last batch first. */
  method Store(pager: Pager, nextPage: PageId, entries: seq<FreeEntry>) returns (head: Option<PageId>, next': PageId, ghost chain: seq<PageId>)
    requires forall p: PageId :: p >= nextPage ==> p in pager.mayWrite
    modifies pager`pages, pager`unsynced
    ensures Linked(chain, head, pager.pages)
    ensures Loaded(chain, head, pager.pages) == BackToFront(Batches(entries))
    ensures multiset(Loaded(chain, head, pager.pages)) == multiset(entries)
    ensures next' == nextPage + (|entries| + BATCH - 1) / BATCH && multiset(chain) == Span(nextPage, next')
    ensures OnlyBeyond(nextPage, old(pager.pages), old(pager.unsynced), pager.pages, pager.unsynced)
  {
    hide Partial;
    var batches := Batches(entries);
    BatchesCount(entries);
    FlattenBatches(entries);
    BackToFrontSameEntries(batches);
    head, next', chain := None, nextPage, [];
    PartialInit(nextPage, pager.pages);
    assert batches[..0] == [];
    for i := 0 to |batches|
      invariant next' == nextPage + i
      invariant Partial(nextPage, next', chain, head, pager.pages, batches[..i])
      invariant OnlyBeyond(nextPage, old(pager.pages), old(pager.unsynced), pager.pages, pager.unsynced)
    {
      var id := next';
      assert batches[..i + 1] == batches[..i] + [batches[i]];
      PartialStep(nextPage, id, chain, head, pager.pages, batches[..i], batches[i]);
      pager.WritePage(id, FreeListPage(head, batches[i]));
      next', chain, head := next' + 1, [id] + chain, Some(id);
    }
    assert batches[..|batches|] == batches;
    PartialDone(nextPage, next', chain, head, pager.pages, batches);
  }

  lemma PartialInit(first: PageId, disk: Disk)
    ensures Partial(first, first, [], None, disk, [])
  {
  }

  lemma PartialDone(first: PageId, next: PageId, chain: seq<PageId>, head: Option<PageId>, disk: Disk, batches: seq<seq<FreeEntry>>)
    requires Partial(first, next, chain, head, disk, batches)
    ensures Linked(chain, head, disk) && Loaded(chain, head, disk) == BackToFront(batches)
    ensures multiset(chain) == Span(first, next)
  {
  }

  lemma AppendBatch(disk: Disk, chain: seq<PageId>, head: Option<PageId>, id: PageId, batch: seq<FreeEntry>)
    requires Linked(chain, head, disk) && id !in chain
    ensures var disk' := disk[id := FreeListPage(head, batch)];
      && Linked([id] + chain, Some(id), disk')
      && Loaded([id] + chain, Some(id), disk') == batch + Loaded(chain, head, disk)
  {
    var disk' := disk[id := FreeListPage(head, batch)];
    LinkedOnDisk(chain, head, disk);
    LinkedKept(chain, head, disk, disk');
    assert ([id] + chain)[1..] == chain;
  }
}
