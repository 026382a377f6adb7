/**
 * Transactions, snapshot readers and crashes as a transition system: src/storage/txn.rs with the commit
 * ordering and recovery of src/storage/pager.rs.
 */
module Protocol {
  import opened Bytes
  import opened SortedList
  import opened BTree
  import opened BTreePut
  import opened Pages
  import opened PagerFile
  import opened TreePut
  import opened TreeRead
  import opened FreeList

  const U64_MAX: nat := 0xFFFF_FFFF_FFFF_FFFF

  /** A committed version: its meta page, the tree and free list behind it, and every free-list chain page so far. */
  datatype Version = Version(meta: Meta, tree: LocatedRoot, free: seq<FreeEntry>, chain: seq<PageId>, leaked: multiset<PageId>)

  predicate IsPage(p: PageId) {
    p >= 0
  }

  ghost function Everywhere(): iset<PageId> {
    iset p: PageId | IsPage(p)
  }

  /** The tree is what a reader with no overlay sees. */
  ghost predicate OnDisk(t: LocatedRoot, pages: Disk) {
    t.Sound() && t.Here(View(pages, map[]), Everywhere())
  }

  /** Ids 2 to `nextPage` are the tree's pages, the free pages and the free-list chain pages, once each. */
  ghost predicate Balanced(v: Version) {
    && v.meta.nextPage >= 2
    && v.tree.Owned() + multiset(FreeIds(v.free)) + v.leaked == Span(2, v.meta.nextPage)
    && multiset(v.chain) <= v.leaked
    && (forall i :: 0 <= i < |v.free| ==> v.free[i].freedAt <= v.meta.txnId)
  }

  /** Everything a version needs is on disk. */
  ghost predicate Intact(v: Version, pages: Disk) {
    && v.meta.magic == MAGIC && v.meta.root == v.tree.Id()
    && OnDisk(v.tree, pages)
    && Linked(v.chain, v.meta.freeListHead, pages) && Loaded(v.chain, v.meta.freeListHead, pages) == v.free
    && Balanced(v)
  }

  /** The pages a version needs. */
  ghost function Live(v: Version): multiset<PageId> {
    v.tree.Owned() + multiset(v.chain)
  }

  /** Page `p` cannot be handed out to a writer that respects a reader at `t`. */
  ghost predicate Held(v: Version, t: nat, p: PageId) {
    p in v.tree.Owned() || exists i :: 0 <= i < |v.free| && v.free[i].page == p && v.free[i].freedAt > t
  }

  /** A writer with watermark `mark` over version `v` may write page `p`: it is past the end, or free for long enough. */
  ghost predicate Writable(v: Version, mark: nat, p: PageId) {
    p >= v.meta.nextPage || exists i :: 0 <= i < |v.free| && v.free[i].page == p && v.free[i].freedAt <= mark
  }

  ghost function OursOf(v: Version, mark: nat): iset<PageId> {
    iset p: PageId | Writable(v, mark, p)
  }

  ghost function BaseOf(v: Version): iset<PageId> {
    iset p: PageId | p in v.tree.Nodes()
  }

  // ----- what the writer owns is apart from everything committed -----

  lemma BalancedOnce(v: Version, p: PageId)
    requires Balanced(v)
    ensures v.tree.Owned()[p] + multiset(FreeIds(v.free))[p] + v.leaked[p] == if 2 <= p < v.meta.nextPage then 1 else 0
  {
    assert (v.tree.Owned() + multiset(FreeIds(v.free)) + v.leaked)[p] == Span(2, v.meta.nextPage)[p];
  }

  lemma FreeListed(free: seq<FreeEntry>, i: nat)
    requires i < |free|
    ensures multiset(FreeIds(free))[free[i].page] >= 1
  {
    assert FreeIds(free)[i] in FreeIds(free);
  }

  /** Two free entries for one page would count it twice. */
  lemma FreeOnce(free: seq<FreeEntry>, i: nat, j: nat)
    requires i < |free| && j < |free| && i != j && free[i].page == free[j].page
    ensures multiset(FreeIds(free))[free[i].page] >= 2
  {
    var ids, p := FreeIds(free), free[i].page;
    var (a, b) := if i < j then (i, j) else (j, i);
    assert ids == ids[..b] + ids[b..];
    assert ids[..b][a] in ids[..b] && ids[b..][0] in ids[b..];
    assert multiset(ids) == multiset(ids[..b]) + multiset(ids[b..]);
  }

  /** Ours is disjoint from the committed tree, from every chain page, and from pages a reader holds. */
  lemma OursApart(v: Version, mark: nat, p: PageId)
    requires Balanced(v) && p in OursOf(v, mark)
    ensures p !in v.tree.Owned() && p !in v.leaked && p !in Live(v)
    ensures forall t: nat :: t >= mark || t == v.meta.txnId ==> !Held(v, t, p)
  {
    BalancedOnce(v, p);
    if p < v.meta.nextPage {
      var i :| 0 <= i < |v.free| && v.free[i].page == p && v.free[i].freedAt <= mark;
      FreeListed(v.free, i);
      forall t: nat | t >= mark || t == v.meta.txnId ensures !Held(v, t, p) {
        if j :| 0 <= j < |v.free| && v.free[j].page == p && v.free[j].freedAt > t {
          FreeOnce(v.free, i, j);
        }
      }
    } else {
      forall j | 0 <= j < |v.free| ensures v.free[j].page != p {
        FreeListed(v.free, j);
        BalancedOnce(v, v.free[j].page);
      }
    }
  }

  // ----- writing elsewhere keeps a version intact -----

  ghost predicate SameOn(pages: Disk, pages': Disk, ids: multiset<PageId>) {
    forall p: PageId :: p in ids ==> DiskAt(View(pages, map[]), p) == DiskAt(View(pages', map[]), p)
  }

  lemma OnDiskKept(t: LocatedRoot, pages: Disk, pages': Disk)
    requires OnDisk(t, pages) && SameOn(pages, pages', t.Owned())
    ensures OnDisk(t, pages')
  {
    hide At, Ids, Valid;
    if t.Planted? {
      AtKept(t.d, View(pages, map[]), View(pages', map[]), Everywhere());
    }
  }

  lemma IntactKept(v: Version, pages: Disk, pages': Disk)
    requires Intact(v, pages) && SameOn(pages, pages', Live(v))
    ensures Intact(v, pages')
  {
    hide OnDisk, Balanced;
    OnDiskKept(v.tree, pages, pages');
    LinkedOnDisk(v.chain, v.meta.freeListHead, pages);
    forall p | p in v.chain ensures p in pages' && pages'[p] == pages[p] {
      assert p in Live(v);
      assert DiskAt(View(pages, map[]), p) == DiskAt(View(pages', map[]), p);
    }
    LinkedKept(v.chain, v.meta.freeListHead, pages, pages');
  }

  // ----- states -----

  /**
   * A `begin_read` that has copied the meta page but not yet registered, and how many writers have overtaken it:
   * began on a younger version, under a watermark that lets them reuse the pages only this copy still needs.
   */
  datatype Clone = Clone(txn: nat, overtaken: nat)

  /** How far the writer is: still changing the tree, or at one of the steps of its commit. */
  datatype Stage = Writing | Written(next: Version) | Synced(next: Version) | MetaWritten(next: Version) | MetaSynced(next: Version)

  datatype Writer = Writer(work: Work, tree: LocatedRoot, mark: nat, stage: Stage)

  /** `hist[t]` is the tree transaction `t` committed. */
  datatype Sys = Sys(file: File, active: nat, now: Version, hist: seq<LocatedRoot>,
                     readers: seq<nat>, clones: seq<Clone>, writer: Option<Writer>)

  ghost predicate Pinned(s: Sys, t: nat) {
    t in s.readers || Clone(t, 0) in s.clones
  }

  /** The snapshot of transaction `t` is on disk unharmed, and its pages cannot be reused while it is pinned. */
  ghost predicate SnapshotSafe(s: Sys, v: Version, t: nat) {
    && t < |s.hist| && OnDisk(s.hist[t], s.file.pages)
    && forall p: PageId :: p in s.hist[t].Owned() ==> Held(v, t, p)
  }

  /** A meta slot a crash may fall back to without reviving anything newer than `v`. */
  predicate Older(slot: Option<Meta>, v: Version) {
    slot.Some? ==> slot.value.txnId < v.meta.txnId || slot.value == v.meta
  }

  ghost predicate SlotsOk(s: Sys) {
    && |s.file.slots| == 2 && |s.file.durable| == 2 && s.active < 2
    && s.file.slots[s.active] == s.file.durable[s.active] == Some(s.now.meta)
    && var other := 1 - s.active;
       var was, cur := s.file.durable[other], s.file.slots[other];
       match s.writer
       case Some(Writer(_, _, _, MetaWritten(next))) => cur == Some(next.meta) && Older(was, s.now)
       case Some(Writer(_, _, _, MetaSynced(next))) => cur == was == Some(next.meta)
       case _ => cur == was && Older(was, s.now)
  }

  /** The writer's accounts against the version it started from. */
  ghost predicate WorkOk(s: Sys, w: Writer) {
    && w.work.disk == s.file.pages && w.work.unsynced == s.file.unsynced
    && w.work.next >= s.now.meta.nextPage
    && w.tree.Sound() && w.tree.Here(w.work, BaseOf(s.now))
    && w.tree.Owned() + Pools(w.work) + s.now.leaked == Span(2, w.work.next)
    && Owns(w.work, OursOf(s.now, w.mark), w.mark)
    && multiset(w.work.free) <= multiset(s.now.free)
    && (forall e: FreeEntry :: e.freedAt > w.mark ==> multiset(w.work.free)[e] == multiset(s.now.free)[e])
  }

  /** A version ready to be published. */
  ghost predicate NewOk(s: Sys, w: Writer, next: Version) {
    && Intact(next, s.file.pages) && next.tree == w.tree && next.meta.txnId == s.now.meta.txnId + 1
    && forall t: nat, p: PageId :: Guarded(s, w, t) && Held(s.now, t, p) ==> Held(next, t, p)
  }

  /** Snapshots the writer must leave alone: those its watermark saw, and the one it started from. */
  predicate Guarded(s: Sys, w: Writer, t: nat) {
    (w.mark <= t <= s.now.meta.txnId) || t == s.now.meta.txnId
  }

  ghost predicate WriterOk(s: Sys, w: Writer) {
    && (forall t: nat :: Pinned(s, t) ==> Guarded(s, w, t))
    && match w.stage
       case Writing => WorkOk(s, w)
       case Written(next) => NewOk(s, w, next)
       case _ => NewOk(s, w, w.stage.next) && s.file.unsynced == {}
  }

  ghost predicate Inv(s: Sys) {
    && SlotsOk(s)
    && Intact(s.now, s.file.pages)
    && |s.hist| == s.now.meta.txnId + 1 && s.hist[s.now.meta.txnId] == s.now.tree
    && (forall p: PageId :: p in s.file.unsynced ==> p !in Live(s.now))
    && (forall t: nat :: Pinned(s, t) ==> SnapshotSafe(s, s.now, t))
    && (s.writer.Some? ==> WriterOk(s, s.writer.value))
  }

  // ----- steps -----

  predicate Init(s: Sys) {
    var m := Meta(MAGIC, 0, None, META_PAGE_COUNT, None);
    s == Sys(File(map[], {}, [Some(m), Some(m)], [Some(m), Some(m)]), 0, Version(m, NoTree, [], [], multiset{}), [NoTree], [], [], None)
  }

  /** First half of `begin_read`: copy the committed meta. */
  predicate CloneMeta(s: Sys, s': Sys) {
    s' == s.(clones := s.clones + [Clone(s.now.meta.txnId, 0)])
  }

  /** Second half of `begin_read`: register, having been overtaken at most `k` times. */
  predicate Register(s: Sys, s': Sys, i: nat, k: nat) {
    && i < |s.clones| && s.clones[i].overtaken <= k
    && s' == s.(clones := SwapRemove(s.clones, i), readers := s.readers + [s.clones[i].txn])
  }

  predicate DropReader(s: Sys, s': Sys, i: nat) {
    i < |s.readers| && s' == s.(readers := SwapRemove(s.readers, i))
  }

  /** The oldest registered reader, or no limit. */
  function Watermark(readers: seq<nat>): nat {
    if readers == [] then U64_MAX
    else
      var m := Watermark(readers[1..]);
      if |readers| == 1 || readers[0] <= m then readers[0] else m
  }

  /** A writer on version `txn` begins under watermark `mark`. */
  function Overtake(clones: seq<Clone>, txn: nat, mark: nat): seq<Clone> {
    seq(|clones|, i requires 0 <= i < |clones| =>
      Clone(clones[i].txn, clones[i].overtaken + if clones[i].txn < txn && clones[i].txn < mark then 1 else 0))
  }

  ghost predicate BeginWrite(s: Sys, s': Sys) {
    && s.writer == None
    && var work := Work(s.file.pages, s.file.unsynced, map[], s.now.meta.nextPage, s.now.free, [], []);
       s' == s.(writer := Some(Writer(work, s.now.tree, Watermark(s.readers), Writing)),
                clones := Overtake(s.clones, s.now.meta.txnId, Watermark(s.readers)))
  }

  /** What `put` and `delete` promise about the pages; what they do to the records is in `TreePut` and `TreeDelete`. */
  ghost predicate Change(s: Sys, s': Sys) {
    && s.writer.Some? && s.writer.value.stage.Writing?
    && var w := s.writer.value;
       && s'.writer.Some?
       && var w' := s'.writer.value;
          && w' == w.(work := w'.work, tree := w'.tree)
          && Moved(w.work, w.tree.Owned(), w'.work, w'.tree.Owned(), OursOf(s.now, w.mark), w.mark)
          && w'.tree.Sound() && w'.tree.Here(w'.work, BaseOf(s.now)) && (w.tree.Trimmed() ==> w'.tree.Trimmed())
          && s' == s.(file := s.file.(pages := w'.work.disk, unsynced := w'.work.unsynced), writer := Some(w'))
  }

  /** The free list after a commit: what was left over, and what this transaction made obsolete. */
  function Tagged(pages: seq<PageId>, txn: nat): (free: seq<FreeEntry>)
    ensures |free| == |pages| && forall i :: 0 <= i < |pages| ==> free[i].page == pages[i] && free[i].freedAt == txn
  {
    seq(|pages|, i requires 0 <= i < |pages| => FreeEntry(txn, pages[i]))
  }

  /** Every staged node fits a page: the assertion in `encode_page` holds for each page a commit flushes. */
  ghost predicate AllFit(overlay: Overlay) {
    forall p: PageId :: p in overlay ==> EncodedLen(overlay[p]) <= PAGE_SIZE
  }

  /** Commit, first part: flush the overlay, which panics instead if a node does not fit, and store the free list. */
  ghost predicate WriteData(s: Sys, s': Sys) {
    && s.writer.Some? && s.writer.value.stage.Writing?
    && s'.writer.Some? && s'.writer.value.stage.Written?
    && var w, next := s.writer.value, s'.writer.value.stage.next; var x := w.work;
       && s' == s.(file := s.file.(pages := s'.file.pages, unsynced := s'.file.unsynced), writer := Some(w.(stage := Written(next))))
       && AllFit(x.overlay)
       && next.meta == s.now.meta.Advance(w.tree.Id(), next.meta.nextPage, next.meta.freeListHead) && next.tree == w.tree
       && x.next <= next.meta.nextPage && multiset(next.chain) == Span(x.next, next.meta.nextPage)
       && next.leaked == s.now.leaked + multiset(next.chain)
       && Linked(next.chain, next.meta.freeListHead, s'.file.pages)
       && Loaded(next.chain, next.meta.freeListHead, s'.file.pages) == next.free
       && multiset(next.free) == multiset(x.free + Tagged(x.obsolete + x.scratch, next.meta.txnId))
       && (forall p: PageId :: p in x.overlay ==> DiskAt(View(s'.file.pages, map[]), p) == Some(NodePage(x.overlay[p])))
       && (forall p: PageId :: p < x.next && p !in x.overlay ==>
             DiskAt(View(s'.file.pages, map[]), p) == DiskAt(View(s.file.pages, map[]), p))
       && (forall p: PageId :: p in s'.file.unsynced ==> p in s.file.unsynced || p in OursOf(s.now, w.mark))
  }

  /** Commit, second part: make the data durable. */
  predicate SyncData(s: Sys, s': Sys) {
    && s.writer.Some? && s.writer.value.stage.Written?
    && s' == s.(file := s.file.(unsynced := {}, durable := s.file.slots),
                writer := Some(s.writer.value.(stage := Synced(s.writer.value.stage.next))))
  }

  /** Commit, third part: write the other meta slot. */
  predicate WriteMeta(s: Sys, s': Sys) {
    && s.writer.Some? && s.writer.value.stage.Synced? && |s.file.slots| == 2 && s.active < 2
    && var next := s.writer.value.stage.next;
       s' == s.(file := s.file.(slots := s.file.slots[1 - s.active := Some(next.meta)]),
                writer := Some(s.writer.value.(stage := MetaWritten(next))))
  }

  predicate SyncMeta(s: Sys, s': Sys) {
    && s.writer.Some? && s.writer.value.stage.MetaWritten?
    && s' == s.(file := s.file.(unsynced := {}, durable := s.file.slots),
                writer := Some(s.writer.value.(stage := MetaSynced(s.writer.value.stage.next))))
  }

  /** Commit, last part: the new version becomes visible and the writer lock is released. */
  predicate Publish(s: Sys, s': Sys) {
    && s.writer.Some? && s.writer.value.stage.MetaSynced? && s.active < 2
    && var next := s.writer.value.stage.next;
       s' == s.(active := 1 - s.active, now := next, hist := s.hist + [next.tree], writer := None)
  }

  predicate Rollback(s: Sys, s': Sys) {
    s.writer.Some? && s.writer.value.stage.Writing? && s' == s.(writer := None)
  }

  /**
   * What a crash can leave: every page that is not known durable, or that an unfinished operation of the
   * writer may have been writing, comes back with any content; a slot in flight comes back old, new or torn.
   */
  ghost predicate CrashFile(s: Sys, f: File) {
    && |f.slots| == 2 && f.unsynced == {} && f.durable == f.slots
    && (forall p: PageId :: p !in s.file.unsynced && !InFlight(s, p) ==>
          DiskAt(View(f.pages, map[]), p) == DiskAt(View(s.file.pages, map[]), p))
    && |s.file.slots| == 2 && |s.file.durable| == 2
    && CrashSlot(s.file.slots[0], s.file.durable[0], f.slots[0])
    && CrashSlot(s.file.slots[1], s.file.durable[1], f.slots[1])
  }

  predicate CrashSlot(written: Option<Meta>, durable: Option<Meta>, found: Option<Meta>) {
    found == written || found == durable || (found == None && written != durable)
  }

  ghost predicate InFlight(s: Sys, p: PageId) {
    s.writer.Some? && s.writer.value.stage.Writing? && p in OursOf(s.now, s.writer.value.mark)
  }

  /** The versions whose meta page a recovery may find. */
  ghost predicate Recoverable(s: Sys, v: Version) {
    || v == s.now
    || (s.writer.Some? && (s.writer.value.stage.MetaWritten? || s.writer.value.stage.MetaSynced?) && v == s.writer.value.stage.next)
  }

  /** Crash and reopen: readers and writer are gone, and `open` picks a meta slot. */
  ghost predicate Crash(s: Sys, s': Sys) {
    && CrashFile(s, s'.file) && Recover(s'.file.slots).Some?
    && Recoverable(s, s'.now) && Recover(s'.file.slots).value == (s'.active, s'.now.meta)
    && s' == Sys(s'.file, s'.active, s'.now, if s'.now == s.now then s.hist else s.hist + [s'.now.tree], [], [], None)
  }

  ghost predicate Next(s: Sys, s': Sys) {
    || CloneMeta(s, s') || (exists i :: Register(s, s', i, 0)) || (exists i :: DropReader(s, s', i))
    || BeginWrite(s, s') || Change(s, s') || Rollback(s, s')
    || WriteData(s, s') || SyncData(s, s') || WriteMeta(s, s') || SyncMeta(s, s') || Publish(s, s')
    || Crash(s, s')
  }

  // ----- every step keeps the invariant -----

  lemma InitInv(s: Sys)
    requires Init(s)
    ensures Inv(s)
  {
    assert FreeIds([]) == [];
  }

  lemma CloneInv(s: Sys, s': Sys)
    requires Inv(s) && CloneMeta(s, s')
    ensures Inv(s')
  {
    hide Intact, OnDisk, SlotsOk, WorkOk;
    assert OnDisk(s.now.tree, s.file.pages) by { IntactParts(s.now, s.file.pages); }
    forall t: nat | Pinned(s', t) ensures t == s.now.meta.txnId || Pinned(s, t) {
    }
    SameStage(s, s');
  }

  lemma IntactParts(v: Version, pages: Disk)
    requires Intact(v, pages)
    ensures OnDisk(v.tree, pages) && Balanced(v)
  {
  }

  /** Readers come and go without touching the file, the committed version or the writer. */
  lemma SameStage(s: Sys, s': Sys)
    requires s' == s.(readers := s'.readers, clones := s'.clones)
    ensures SlotsOk(s) ==> SlotsOk(s')
    ensures s.writer.Some? && s.writer.value.stage.Writing? && WorkOk(s, s.writer.value) ==> WorkOk(s', s.writer.value)
  {
  }

  lemma RemovedFrom<T>(q: seq<T>, i: nat, x: T)
    requires i < |q| && x in SwapRemove(q, i)
    ensures x in q
  {
  }

  lemma FewerPins(s: Sys, s': Sys)
    requires Inv(s) && s' == s.(readers := s'.readers, clones := s'.clones)
    requires forall t: nat :: Pinned(s', t) ==> Pinned(s, t)
    ensures Inv(s')
  {
    hide Intact, OnDisk, SlotsOk, WorkOk, Pinned;
    SameStage(s, s');
  }

  lemma RegisterInv(s: Sys, s': Sys, i: nat)
    requires Inv(s) && Register(s, s', i, 0)
    ensures Inv(s')
  {
    hide Inv;
    forall t: nat | Pinned(s', t) ensures Pinned(s, t) {
      if Clone(t, 0) in s'.clones {
        RemovedFrom(s.clones, i, Clone(t, 0));
      }
    }
    FewerPins(s, s');
  }

  lemma DropInv(s: Sys, s': Sys, i: nat)
    requires Inv(s) && DropReader(s, s', i)
    ensures Inv(s')
  {
    hide Inv;
    forall t: nat | Pinned(s', t) ensures Pinned(s, t) {
      if t in s'.readers {
        RemovedFrom(s.readers, i, t);
      }
    }
    FewerPins(s, s');
  }

  // ----- begin_write -----

  /** The watermark is the oldest registered reader, and no limit when there is none. */
  lemma {:induction false} WatermarkIsOldest(readers: seq<nat>)
    ensures readers == [] ==> Watermark(readers) == 0xFFFF_FFFF_FFFF_FFFF
    ensures readers != [] ==> Watermark(readers) in readers
    ensures forall t :: t in readers ==> Watermark(readers) <= t
  {
    if readers != [] {
      WatermarkIsOldest(readers[1..]);
      forall t | t in readers ensures Watermark(readers) <= t { WatermarkIsLeast(readers, t); }
      assert readers == [readers[0]] + readers[1..];
    }
  }

  /** A page freed by transaction `freedAt` is past every registered reader. */
  predicate Released(freedAt: nat, readers: seq<nat>) {
    if readers == [] then freedAt <= U64_MAX else forall t :: t in readers ==> freedAt <= t
  }

  /**
   * Neither too little is reused nor too much: a writer that begins may write exactly the pages past the end and those
   * of the free list whose transaction is past every registered reader.
   */
  lemma OursIsReleased(v: Version, readers: seq<nat>, p: PageId)
    ensures p in OursOf(v, Watermark(readers)) <==>
              p >= v.meta.nextPage || exists e :: e in v.free && e.page == p && Released(e.freedAt, readers)
  {
    ReleasedIs(readers);
    if i :| 0 <= i < |v.free| && v.free[i].page == p && v.free[i].freedAt <= Watermark(readers) {
      assert v.free[i] in v.free;
    }
    if e :| e in v.free && e.page == p && Released(e.freedAt, readers) {
      var i :| 0 <= i < |v.free| && v.free[i] == e;
    }
  }

  lemma ReleasedIs(readers: seq<nat>)
    ensures forall freedAt: nat :: Released(freedAt, readers) <==> freedAt <= Watermark(readers)
  {
    WatermarkIsOldest(readers);
  }

  lemma {:induction false} WatermarkIsLeast(readers: seq<nat>, t: nat)
    requires t in readers
    ensures Watermark(readers) <= t
  {
    if t != readers[0] {
      assert t in readers[1..];
      WatermarkIsLeast(readers[1..], t);
    }
  }

  lemma {:induction false} AtRebase(d: Located, w: Work, base: iset<PageId>, w': Work, base': iset<PageId>)
    requires At(d, w, base) && forall p: PageId :: SameAt(w, w', p)
    requires forall p: PageId :: p in NodeIds(d) ==> p in base'
    ensures At(d, w', base')
    decreases d
  {
    AtKept(d, w, w', base);
    if d.AtNode? {
      forall i | 0 <= i < |d.children| ensures At(d.children[i], w', base') {
        AtRebase(d.children[i], w, base, w', base');
      }
    }
  }

  lemma BeginWork(v: Version, pages: Disk, unsynced: set<PageId>, mark: nat)
    requires Intact(v, pages)
    ensures var work := Work(pages, unsynced, map[], v.meta.nextPage, v.free, [], []);
      && v.tree.Here(work, BaseOf(v)) && Owns(work, OursOf(v, mark), mark)
      && v.tree.Owned() + Pools(work) + v.leaked == Span(2, work.next)
  {
    hide At, Linked, Loaded;
    var work := Work(pages, unsynced, map[], v.meta.nextPage, v.free, [], []);
    if v.tree.Planted? {
      assert forall p: PageId :: SameAt(View(pages, map[]), work, p);
      AtRebase(v.tree.d, View(pages, map[]), Everywhere(), work, BaseOf(v));
    }
    assert Pools(work) == multiset(FreeIds(v.free));
  }

  lemma BeginWriteInv(s: Sys, s': Sys)
    requires Inv(s) && BeginWrite(s, s')
    ensures Inv(s')
  {
    hide Intact, OnDisk, Owns, OursOf, BaseOf, Pools, Span, Overtake, Watermark, Live, Held;
    var w := s'.writer.value;
    BeginWork(s.now, s.file.pages, s.file.unsynced, w.mark);
    assert s.now.tree.Sound() by { IntactParts(s.now, s.file.pages); TreeSound(s.now.tree, s.file.pages); }
    forall t: nat | Pinned(s', t) ensures Pinned(s, t) && Guarded(s', w, t) {
      if t in s.readers {
        WatermarkIsLeast(s.readers, t);
        assert Pinned(s, t);
      } else {
        NotOvertaken(s.clones, s.now.meta.txnId, w.mark, t);
        assert Pinned(s, t);
      }
    }
  }

  lemma NotOvertaken(clones: seq<Clone>, txn: nat, mark: nat, t: nat)
    requires Clone(t, 0) in Overtake(clones, txn, mark)
    ensures Clone(t, 0) in clones && (t >= txn || t >= mark)
  {
    var i :| 0 <= i < |clones| && Overtake(clones, txn, mark)[i] == Clone(t, 0);
    assert clones[i] == Clone(t, 0);
  }

  lemma TreeSound(t: LocatedRoot, pages: Disk)
    requires OnDisk(t, pages)
    ensures t.Sound()
  {
  }

  // ----- put and delete, and the data part of commit -----

  /** Writing only owned pages leaves the committed version and every pinned snapshot as they were. */
  lemma CommittedKept(s: Sys, file: File, mark: nat)
    requires Inv(s) && s.writer.Some? && s.writer.value.mark == mark
    requires forall p: PageId :: p !in OursOf(s.now, mark) ==> DiskAt(View(s.file.pages, map[]), p) == DiskAt(View(file.pages, map[]), p)
    requires forall p: PageId :: p in file.unsynced ==> p in s.file.unsynced || p in OursOf(s.now, mark)
    ensures Intact(s.now, file.pages)
    ensures forall p: PageId :: p in file.unsynced ==> p !in Live(s.now)
    ensures forall t: nat :: Pinned(s, t) ==> t < |s.hist| && OnDisk(s.hist[t], file.pages)
  {
    hide OnDisk, SlotsOk, WorkOk, NewOk, Pinned, OursOf, Held, Live;
    var v := s.now;
    IntactParts(v, s.file.pages);
    hide Intact, Balanced;
    forall p: PageId | p in OursOf(v, mark) ensures p !in Live(v) {
      OursApart(v, mark, p);
    }
    IntactKept(v, s.file.pages, file.pages);
    forall t: nat | Pinned(s, t) ensures t < |s.hist| && OnDisk(s.hist[t], file.pages) {
      SnapshotKept(s, file.pages, mark, t);
    }
  }

  lemma SnapshotKept(s: Sys, pages: Disk, mark: nat, t: nat)
    requires SnapshotSafe(s, s.now, t) && Balanced(s.now) && (t >= mark || t == s.now.meta.txnId)
    requires forall p: PageId :: p !in OursOf(s.now, mark) ==> DiskAt(View(s.file.pages, map[]), p) == DiskAt(View(pages, map[]), p)
    ensures OnDisk(s.hist[t], pages)
  {
    hide OnDisk, OursOf, Held, Balanced;
    forall p: PageId | p in s.hist[t].Owned() ensures p !in OursOf(s.now, mark) {
      if p in OursOf(s.now, mark) {
        OursApart(s.now, mark, p);
      }
    }
    OnDiskKept(s.hist[t], s.file.pages, pages);
  }

  lemma ChangeWork(s: Sys, w: Writer, w': Writer, file: File)
    requires WorkOk(s, w) && w' == w.(work := w'.work, tree := w'.tree) && w.work.next >= 2
    requires Moved(w.work, w.tree.Owned(), w'.work, w'.tree.Owned(), OursOf(s.now, w.mark), w.mark)
    requires w'.tree.Sound() && w'.tree.Here(w'.work, BaseOf(s.now))
    requires file.pages == w'.work.disk && file.unsynced == w'.work.unsynced
    ensures WorkOk(s.(file := file, writer := Some(w')), w')
  {
    hide At, Owns, OursOf, BaseOf, Pools, Span;
    WorkLedger(w.work, w.tree.Owned(), w'.work, w'.tree.Owned(), s.now.leaked, OursOf(s.now, w.mark), w.mark);
  }

  lemma WorkLedger(x: Work, ids: multiset<PageId>, x': Work, ids': multiset<PageId>, leaked: multiset<PageId>, ours: iset<PageId>, mark: nat)
    requires Moved(x, ids, x', ids', ours, mark) && ids + Pools(x) + leaked == Span(2, x.next) && x.next >= 2
    ensures ids' + Pools(x') + leaked == Span(2, x'.next)
  {
    hide Owns, Pools, Span;
    SpanSplit(2, x.next, x'.next);
    SumFrame(ids', Pools(x'), ids, Pools(x), Span(x.next, x'.next), leaked);
    LedgerStep(ids', Pools(x'), ids, Pools(x), leaked, Span(x.next, x'.next));
  }

  lemma LedgerStep<T>(b: multiset<T>, q: multiset<T>, a: multiset<T>, p: multiset<T>, x: multiset<T>, s: multiset<T>)
    requires (b + x) + q == (a + x) + p + s
    ensures b + q + x == (a + p + x) + s
  {
    assert b + q + x == (b + x) + q;
    assert (a + p + x) + s == (a + x) + p + s;
  }

  lemma ChangeInv(s: Sys, s': Sys)
    requires Inv(s) && Change(s, s')
    ensures Inv(s')
  {
    hide Intact, OnDisk, SlotsOk, Moved, Live, Held, OursOf, Owns, BaseOf;
    var w, w' := s.writer.value, s'.writer.value;
    assert w.work.next >= 2 by { IntactParts(s.now, s.file.pages); NextPage(s.now); }
    MovedOurs(w.work, w.tree.Owned(), w'.work, w'.tree.Owned(), OursOf(s.now, w.mark), w.mark, s.file.pages, s'.file.pages);
    CommittedKept(s, s'.file, w.mark);
    ChangeWork(s, w, w', s'.file);
    SlotsKept(s, s');
    WriterStepInv(s, s');
  }

  /** Putting the invariant together again after a step of the writer. */
  lemma WriterStepInv(s: Sys, s': Sys)
    requires Inv(s) && s.writer.Some? && s'.writer.Some? && s' == s.(file := s'.file, writer := s'.writer)
    requires s'.writer.value.mark == s.writer.value.mark
    requires SlotsOk(s') && Intact(s.now, s'.file.pages)
    requires forall p: PageId :: p in s'.file.unsynced ==> p !in Live(s.now)
    requires forall t: nat :: Pinned(s, t) ==> t < |s.hist| && OnDisk(s.hist[t], s'.file.pages)
    requires var w' := s'.writer.value;
      (w'.stage.Writing? && WorkOk(s', w')) || (w'.stage.Written? && NewOk(s', w', w'.stage.next))
    ensures Inv(s')
  {
    hide Intact, OnDisk, SlotsOk, WorkOk, NewOk, Live, Held, Pinned;
    var w, w' := s.writer.value, s'.writer.value;
    forall t: nat | Pinned(s', t) ensures SnapshotSafe(s', s.now, t) && Guarded(s', w', t) {
      SamePins(s, s', t);
      assert SnapshotSafe(s, s.now, t) && Guarded(s, w, t);
    }
  }

  lemma SamePins(s: Sys, s': Sys, t: nat)
    requires s'.readers == s.readers && s'.clones == s.clones
    ensures Pinned(s', t) == Pinned(s, t)
  {
  }

  lemma NextPage(v: Version)
    requires Balanced(v)
    ensures v.meta.nextPage >= 2
  {
  }

  lemma SlotsKept(s: Sys, s': Sys)
    requires SlotsOk(s) && s'.file.slots == s.file.slots && s'.file.durable == s.file.durable && s'.active == s.active && s'.now == s.now
    requires s.writer.Some? && s'.writer.Some?
    requires s.writer.value.stage.Writing? || s.writer.value.stage.Written?
    requires s'.writer.value.stage.Writing? || s'.writer.value.stage.Written?
    ensures SlotsOk(s')
  {
  }

  lemma MovedOurs(w: Work, a: multiset<PageId>, w': Work, b: multiset<PageId>, ours: iset<PageId>, mark: nat, pages: Disk, pages': Disk)
    requires Moved(w, a, w', b, ours, mark) && pages == w.disk && pages' == w'.disk
    ensures forall p: PageId :: p !in ours ==> DiskAt(View(pages, map[]), p) == DiskAt(View(pages', map[]), p)
    ensures forall p: PageId :: p in w'.unsynced ==> p in w.unsynced || p in ours
  {
    forall p: PageId | p !in ours ensures DiskAt(View(pages, map[]), p) == DiskAt(View(pages', map[]), p) {
      assert DiskAt(w, p) == DiskAt(w', p);
    }
  }

  /** The overlay has reached the disk and nothing else allocated has changed. */
  ghost predicate FlushedOver(w: Work, pages: Disk) {
    && (forall p: PageId :: p in w.overlay ==> DiskAt(View(pages, map[]), p) == Some(NodePage(w.overlay[p])))
    && (forall p: PageId :: p < w.next && p !in w.overlay ==> DiskAt(View(pages, map[]), p) == DiskAt(w, p))
  }

  /** Flushing turns the staged tree into one a reader without overlay sees. */
  lemma {:induction false} Flushed(d: Located, w: Work, base: iset<PageId>, pages: Disk)
    requires At(d, w, base) && FlushedOver(w, pages)
    requires forall p: PageId :: p in Ids(d) ==> p < w.next
    ensures At(d, View(pages, map[]), Everywhere())
    decreases d
  {
    var w' := View(pages, map[]);
    TopOf(d, w, base);
    FlushedTop(d, w, pages);
    hide FlushedOver;
    match d
    case AtLeaf(id, keys, vals) =>
      forall i | 0 <= i < |vals| ensures ValAt(vals[i], w') {
        ValIdsPart(vals, i);
        forall p: PageId | p in multiset(vals[i].chain) ensures p < w.next { assert p in Ids(d); }
        FlushedVal(vals[i], w, pages);
      }
    case AtNode(id, keys, children) =>
      forall i | 0 <= i < |children| ensures At(children[i], w', Everywhere()) {
        ForestIdsPart(children, i);
        forall p: PageId | p in Ids(children[i]) ensures p < w.next { assert p in Ids(d); }
        Flushed(children[i], w, base, pages);
      }
  }

  lemma FlushedTop(d: Located, w: Work, pages: Disk)
    requires NodeAt(w, d.id) == Some(NodeOf(d)) && FlushedOver(w, pages) && d.id in Ids(d)
    requires forall p: PageId :: p in Ids(d) ==> p < w.next
    ensures NodeAt(View(pages, map[]), d.id) == Some(NodeOf(d)) && d.id in Everywhere()
  {
    assert d.id < w.next;
  }

  lemma FlushedVal(v: Val, w: Work, pages: Disk)
    requires ValAt(v, w) && FlushedOver(w, pages) && forall p: PageId :: p in multiset(v.chain) ==> p < w.next
    ensures ValAt(v, View(pages, map[]))
  {
    if |v.bytes| > INLINE_VALUE_LIMIT {
      FlushedChain(v.chain, Chunks(v.bytes), w, View(pages, map[]));
    }
  }

  lemma {:induction false} FlushedChain(chain: seq<PageId>, chunks: seq<Bytes>, w: Work, w': Work)
    requires ChainAt(chain, chunks, w) && w'.overlay == map[]
    requires forall p: PageId :: p in multiset(chain) && p !in w.overlay ==> DiskAt(w', p) == DiskAt(w, p)
    ensures ChainAt(chain, chunks, w')
    decreases |chain|
  {
    if chain != [] {
      assert chain == [chain[0]] + chain[1..];
      assert chain[0] in multiset(chain);
      FlushedChain(chain[1..], chunks[1..], w, w');
    }
  }

  lemma FreeIdsStep(a: seq<FreeEntry>, i: nat)
    requires i < |a|
    ensures multiset(FreeIds(a)) == multiset(FreeIds(SwapRemove(a, i))) + multiset{a[i].page}
    ensures multiset(SwapRemove(a, i)) == multiset(a) - multiset{a[i]}
  {
    SwapRemoveBag(a, i);
    SwapRemoveBag(FreeIds(a), i);
    assert FreeIds(SwapRemove(a, i)) == SwapRemove(FreeIds(a), i);
  }

  lemma {:induction false} SameBagSameIds(a: seq<FreeEntry>, b: seq<FreeEntry>)
    requires multiset(a) == multiset(b)
    ensures multiset(FreeIds(a)) == multiset(FreeIds(b))
    decreases |a|
  {
    hide FreeIds, SwapRemove;
    assert |a| == |multiset(a)| == |multiset(b)| == |b|;
    if a == [] {
      assert b == [];
    } else {
      assert a[0] in multiset(a);
      InBag(a[0], b);
      var j :| 0 <= j < |b| && b[j] == a[0];
      FreeIdsStep(a, 0);
      FreeIdsStep(b, j);
      SameBagSameIds(SwapRemove(a, 0), SwapRemove(b, j));
    }
  }

  /** The new version's ledger balances: leftovers, obsoleted pages and recycled ids all return to the free list. */
  lemma NewBalanced(now: Version, w: Writer, next: Version)
    requires next.meta.nextPage >= w.work.next >= 2 && next.tree == w.tree && next.meta.txnId == now.meta.txnId + 1
    requires w.tree.Owned() + Pools(w.work) + now.leaked == Span(2, w.work.next)
    requires Balanced(now) && multiset(w.work.free) <= multiset(now.free)
    requires multiset(next.chain) == Span(w.work.next, next.meta.nextPage) && next.leaked == now.leaked + multiset(next.chain)
    requires multiset(next.free) == multiset(w.work.free + Tagged(w.work.obsolete + w.work.scratch, next.meta.txnId))
    ensures Balanced(next)
  {
    var x := w.work;
    NewFreeIds(x, next.free, next.meta.txnId);
    NewTags(now, x, next.free);
    SpanSplit(2, x.next, next.meta.nextPage);
    SumLedger(w.tree.Owned(), Pools(x), now.leaked, multiset(next.chain));
  }

  lemma NewFreeIds(x: Work, free: seq<FreeEntry>, txn: nat)
    requires multiset(free) == multiset(x.free + Tagged(x.obsolete + x.scratch, txn))
    ensures multiset(FreeIds(free)) == Pools(x)
  {
    var tagged := Tagged(x.obsolete + x.scratch, txn);
    SameBagSameIds(free, x.free + tagged);
    assert FreeIds(x.free + tagged) == FreeIds(x.free) + (x.obsolete + x.scratch);
  }

  lemma NewTags(now: Version, x: Work, free: seq<FreeEntry>)
    requires Balanced(now) && multiset(x.free) <= multiset(now.free)
    requires multiset(free) == multiset(x.free + Tagged(x.obsolete + x.scratch, now.meta.txnId + 1))
    ensures forall i :: 0 <= i < |free| ==> free[i].freedAt <= now.meta.txnId + 1
  {
    var tagged := Tagged(x.obsolete + x.scratch, now.meta.txnId + 1);
    forall i | 0 <= i < |free| ensures free[i].freedAt <= now.meta.txnId + 1 {
      assert free[i] in multiset(free);
      if free[i] in x.free {
        assert free[i] in multiset(now.free);
      } else {
        assert free[i] in tagged;
      }
    }
  }

  lemma SumLedger<T>(a: multiset<T>, b: multiset<T>, c: multiset<T>, d: multiset<T>)
    ensures a + b + (c + d) == (a + b + c) + d
  {
  }

  /** An entry of the list is found in any rearrangement of it. */
  lemma InBag(e: FreeEntry, a: seq<FreeEntry>)
    requires multiset(a)[e] > 0
    ensures exists i :: 0 <= i < |a| && a[i] == e
  {
    assert e in a;
  }

  /** Whatever a guarded snapshot held before the commit it holds after: nothing it needs becomes reusable. */
  lemma HeldAcross(s: Sys, w: Writer, next: Version, t: nat, p: PageId)
    requires WorkOk(s, w) && Balanced(s.now) && Guarded(s, w, t) && Held(s.now, t, p)
    requires next.tree == w.tree && next.meta.txnId == s.now.meta.txnId + 1
    requires multiset(next.free) == multiset(w.work.free + Tagged(w.work.obsolete + w.work.scratch, next.meta.txnId))
    ensures Held(next, t, p)
  {
    hide At, BaseOf;
    if p in s.now.tree.Owned() {
      TreePageAcross(s, w, next, p);
    } else {
      var i :| 0 <= i < |s.now.free| && s.now.free[i].page == p && s.now.free[i].freedAt > t;
      var e := s.now.free[i];
      assert e.freedAt <= s.now.meta.txnId;
      hide Owns, Balanced;
      assert multiset(s.now.free)[e] > 0;
      assert multiset(next.free)[e] >= multiset(w.work.free)[e] == multiset(s.now.free)[e];
      InBag(e, next.free);
    }
  }

  lemma TreePageAcross(s: Sys, w: Writer, next: Version, p: PageId)
    requires WorkOk(s, w) && Balanced(s.now) && p in s.now.tree.Owned()
    requires next.tree == w.tree && next.meta.txnId == s.now.meta.txnId + 1
    requires multiset(next.free) == multiset(w.work.free + Tagged(w.work.obsolete + w.work.scratch, next.meta.txnId))
    ensures p in next.tree.Owned() || exists i :: 0 <= i < |next.free| && next.free[i] == FreeEntry(next.meta.txnId, p)
  {
    hide At, BaseOf;
    var x := w.work;
    BalancedOnce(s.now, p);
    assert (w.tree.Owned() + Pools(x) + s.now.leaked)[p] == Span(2, x.next)[p];
    if p !in w.tree.Owned() {
      assert Pools(x)[p] > 0;
      if p in x.scratch {
        OursApart(s.now, w.mark, p);
      }
      if p in FreeIds(x.free) {
        var i :| 0 <= i < |x.free| && x.free[i].page == p;
        assert x.free[i] in multiset(s.now.free);
        var j :| 0 <= j < |s.now.free| && s.now.free[j] == x.free[i];
        FreeListed(s.now.free, j);
      }
      assert p in x.obsolete;
      var k :| 0 <= k < |x.obsolete| && x.obsolete[k] == p;
      var tagged := Tagged(x.obsolete + x.scratch, next.meta.txnId);
      assert tagged[k] == FreeEntry(next.meta.txnId, p);
      assert tagged[k] in x.free + tagged;
      InBag(tagged[k], next.free);
    }
  }

  lemma WriteDataOurs(s: Sys, s': Sys)
    requires Inv(s) && WriteData(s, s')
    ensures var w := s.writer.value;
      && FlushedOver(w.work, s'.file.pages)
      && (forall p: PageId :: p !in OursOf(s.now, w.mark) ==> DiskAt(View(s.file.pages, map[]), p) == DiskAt(View(s'.file.pages, map[]), p))
  {
    hide Inv, Intact, OnDisk, SlotsOk, At, Live, Held, Balanced, Linked, Loaded, Tagged, AllFit, Pools, Span;
    WorkOfInv(s);
    var w, pages, pages' := s.writer.value, s.file.pages, s'.file.pages;
    forall p: PageId | p < w.work.next && p !in w.work.overlay ensures DiskAt(View(pages', map[]), p) == DiskAt(w.work, p) {
      assert DiskAt(View(pages', map[]), p) == DiskAt(View(pages, map[]), p);
    }
  }

  /** The version a commit has written is complete: its tree, its free list and its ledger. */
  lemma NewIntact(s: Sys, s': Sys)
    requires Inv(s) && WriteData(s, s')
    ensures Intact(s'.writer.value.stage.next, s'.file.pages)
  {
    WriteDataOurs(s, s');
    var w, next := s.writer.value, s'.writer.value.stage.next;
    IntactParts(s.now, s.file.pages);
    NextPage(s.now);
    assert s.now.meta.magic == MAGIC;
    hide Intact, SlotsOk, Live, Held, OursOf, At, Owns, BaseOf, FlushedOver, Linked, Pools;
    assert WorkOk(s, w);
    NewBalanced(s.now, w, next);
    if w.tree.Planted? {
      var d, x := w.tree.d, w.work;
      forall p: PageId | p in Ids(d) ensures p < x.next {
        assert (w.tree.Owned() + Pools(x) + s.now.leaked)[p] == Span(2, x.next)[p];
      }
      Flushed(d, x, BaseOf(s.now), s'.file.pages);
    }
    IntactOf(next, s'.file.pages);
  }

  lemma IntactOf(v: Version, pages: Disk)
    requires v.meta.magic == MAGIC && v.meta.root == v.tree.Id() && v.tree.Sound() && v.tree.Here(View(pages, map[]), Everywhere())
    requires Linked(v.chain, v.meta.freeListHead, pages) && Loaded(v.chain, v.meta.freeListHead, pages) == v.free && Balanced(v)
    ensures Intact(v, pages)
  {
  }

  lemma WriteDataInv(s: Sys, s': Sys)
    requires Inv(s) && WriteData(s, s')
    ensures Inv(s')
  {
    WriteDataOurs(s, s');
    NewIntact(s, s');
    var w, w' := s.writer.value, s'.writer.value;
    CommittedKept(s, s'.file, w.mark);
    IntactParts(s.now, s.file.pages);
    hide Intact, OnDisk, SlotsOk, Live, Held, OursOf, At, Owns, BaseOf, FlushedOver, Linked, Pools, Balanced, WorkOk, Loaded, Pinned;
    forall t: nat, p: PageId | Guarded(s', w', t) && Held(s.now, t, p) ensures Held(w'.stage.next, t, p) {
      HeldAcross(s, w, w'.stage.next, t, p);
    }
    SlotsKept(s, s');
    WriterStepInv(s, s');
  }

  // ----- the durable part of commit -----

  lemma StageInv(s: Sys, s': Sys)
    requires Inv(s) && s.writer.Some? && s'.writer.Some? && !s.writer.value.stage.Writing?
    requires s' == s.(file := s'.file, writer := s'.writer) && s'.file.pages == s.file.pages
    requires s'.writer.value == s.writer.value.(stage := s'.writer.value.stage)
    requires !s'.writer.value.stage.Writing? && s'.writer.value.stage.next == s.writer.value.stage.next
    requires s'.file.unsynced == {} && SlotsOk(s')
    ensures Inv(s')
  {
    hide Intact, OnDisk, SlotsOk, WorkOk, Live, Held, Pinned;
    var w, w' := s.writer.value, s'.writer.value;
    assert NewOk(s', w', w'.stage.next);
    forall t: nat | Pinned(s', t) ensures SnapshotSafe(s', s.now, t) && Guarded(s', w', t) {
      SamePins(s, s', t);
      assert SnapshotSafe(s, s.now, t) && Guarded(s, w, t);
    }
  }

  lemma SyncDataInv(s: Sys, s': Sys)
    requires Inv(s) && SyncData(s, s')
    ensures Inv(s')
  {
    hide Inv;
    SlotsOfInv(s);
    StageInv(s, s');
  }

  lemma SlotsOfInv(s: Sys)
    requires Inv(s)
    ensures SlotsOk(s)
    ensures s.writer.Some? && !s.writer.value.stage.Writing? ==> s.writer.value.stage.next.meta.txnId == s.now.meta.txnId + 1
    ensures s.writer.Some? && !s.writer.value.stage.Writing? && !s.writer.value.stage.Written? ==> s.file.unsynced == {}
  {
  }

  lemma WriteMetaInv(s: Sys, s': Sys)
    requires Inv(s) && WriteMeta(s, s')
    ensures Inv(s')
  {
    hide Inv;
    SlotsOfInv(s);
    StageInv(s, s');
  }

  lemma SyncMetaInv(s: Sys, s': Sys)
    requires Inv(s) && SyncMeta(s, s')
    ensures Inv(s')
  {
    hide Inv;
    SlotsOfInv(s);
    StageInv(s, s');
  }

  lemma PublishInv(s: Sys, s': Sys)
    requires Inv(s) && Publish(s, s')
    ensures Inv(s')
  {
    hide OnDisk, Live, Held, Pinned, WorkOk, Linked, Balanced;
    var w, next := s.writer.value, s.writer.value.stage.next;
    assert SlotsOk(s') by { hide Intact, NewOk; }
    hide SlotsOk, Intact;
    forall t: nat | Pinned(s', t) ensures SnapshotSafe(s', next, t) {
      SamePins(s, s', t);
      assert SnapshotSafe(s, s.now, t) && Guarded(s, w, t);
      assert s'.hist[t] == s.hist[t];
    }
  }

  /** Discarding the writer changes nothing that was committed, although its overflow pages were written. */
  lemma RollbackInv(s: Sys, s': Sys)
    requires Inv(s) && Rollback(s, s')
    ensures Inv(s')
    ensures s'.now == s.now && s'.hist == s.hist && s'.file == s.file && Intact(s.now, s'.file.pages)
  {
    hide Intact, OnDisk, WorkOk, Live, Held, Pinned;
    forall t: nat | Pinned(s', t) ensures SnapshotSafe(s', s.now, t) {
      SamePins(s, s', t);
      assert SnapshotSafe(s, s.now, t);
    }
  }

  // ----- crashes -----

  /** After a crash `open` always finds a meta page, and it is the last published one or the one being written. */
  lemma RecoverFinds(s: Sys, f: File)
    requires Inv(s) && CrashFile(s, f)
    ensures Recover(f.slots).Some?
    ensures var m := Recover(f.slots).value.1;
      || m == s.now.meta
      || (s.writer.Some? && (s.writer.value.stage.MetaWritten? || s.writer.value.stage.MetaSynced?) && m == s.writer.value.stage.next.meta)
    ensures Recover(f.slots).value.0 < 2 && f.slots[Recover(f.slots).value.0] == Some(Recover(f.slots).value.1)
  {
    hide Inv, SlotsOk, CrashFile, Recover;
    SlotsOfInv(s);
    OtherSlot(s, f);
    var writing := s.writer.Some? && (s.writer.value.stage.MetaWritten? || s.writer.value.stage.MetaSynced?);
    PickSlot(f.slots, s.active, s.now.meta, if writing then Some(s.writer.value.stage.next.meta) else None);
  }

  lemma PickSlot(slots: seq<Option<Meta>>, active: nat, now: Meta, next: Option<Meta>)
    requires |slots| == 2 && active < 2 && slots[active] == Some(now)
    requires var other := slots[1 - active];
      other.Some? ==> other.value.txnId < now.txnId || other.value == now || other == next
    ensures Recover(slots).Some?
    ensures var found := Recover(slots).value;
      found.0 < 2 && slots[found.0] == Some(found.1) && (found.1 == now || Some(found.1) == next)
  {
  }

  lemma OtherSlot(s: Sys, f: File)
    requires SlotsOk(s) && CrashFile(s, f)
    ensures |f.slots| == 2 && s.active < 2 && f.slots[s.active] == Some(s.now.meta)
    ensures var other := f.slots[1 - s.active];
      || Older(other, s.now)
      || (s.writer.Some? && (s.writer.value.stage.MetaWritten? || s.writer.value.stage.MetaSynced?)
          && other == Some(s.writer.value.stage.next.meta))
  {
    hide InFlight, DiskAt;
  }

  lemma CrashPages(s: Sys, f: File, v: Version)
    requires Inv(s) && CrashFile(s, f) && Recoverable(s, v)
    ensures Intact(v, f.pages)
  {
    hide Inv, CrashFile, Recoverable, Intact, Live;
    LivePages(s, f, v);
    IntactKept(v, s.file.pages, f.pages);
  }

  /** No page a recoverable version needs is in doubt. */
  lemma LivePages(s: Sys, f: File, v: Version)
    requires Inv(s) && CrashFile(s, f) && Recoverable(s, v)
    ensures Intact(v, s.file.pages) && SameOn(s.file.pages, f.pages, Live(v))
  {
    hide OnDisk, SlotsOk, Held, Pinned, OursOf, Linked, Loaded, Owns, At, Pools, BaseOf;
    if v == s.now {
      forall p: PageId | p in Live(v) ensures !InFlight(s, p) {
        if InFlight(s, p) {
          OursApart(v, s.writer.value.mark, p);
        }
      }
    }
  }

  /**
   * Crash atomicity and durability: whatever the crash leaves, recovery yields a complete version,
   * the last one acknowledged or the one being committed, never an older one.
   */
  lemma CrashRecovers(s: Sys, f: File) returns (v: Version)
    requires Inv(s) && CrashFile(s, f)
    ensures Recover(f.slots).Some? && Recover(f.slots).value.1 == v.meta
    ensures Recoverable(s, v) && Intact(v, f.pages) && v.meta.txnId >= s.now.meta.txnId
  {
    RecoverFinds(s, f);
    SlotsOfInv(s);
    hide Inv, CrashFile;
    v := if Recover(f.slots).value.1 == s.now.meta then s.now else s.writer.value.stage.next;
    CrashPages(s, f, v);
  }

  lemma CrashInv(s: Sys, s': Sys)
    requires Inv(s) && Crash(s, s')
    ensures Inv(s')
  {
    RecoverFinds(s, s'.file);
    CrashPages(s, s'.file, s'.now);
    SlotsOfInv(s);
    assert |s.hist| == s.now.meta.txnId + 1 && s.hist[s.now.meta.txnId] == s.now.tree;
    hide Inv, Intact, Live, InFlight;
    assert SlotsOk(s') by { CrashSlots(s, s'); }
    InvAlone(s');
  }

  lemma CrashSlots(s: Sys, s': Sys)
    requires SlotsOk(s) && Crash(s, s')
    requires s.writer.Some? && !s.writer.value.stage.Writing? ==> s.writer.value.stage.next.meta.txnId == s.now.meta.txnId + 1
    ensures SlotsOk(s')
  {
    hide InFlight;
  }

  lemma InvAlone(s: Sys)
    requires SlotsOk(s) && Intact(s.now, s.file.pages) && s.file.unsynced == {}
    requires |s.hist| == s.now.meta.txnId + 1 && s.hist[s.now.meta.txnId] == s.now.tree
    requires s.readers == [] && s.clones == [] && s.writer == None
    ensures Inv(s)
  {
  }

  // ----- whole runs -----

  lemma NextInv(s: Sys, s': Sys)
    requires Inv(s) && Next(s, s')
    ensures Inv(s')
  {
    hide Inv, CloneMeta, Register, DropReader, BeginWrite, Change, Rollback, WriteData, SyncData, WriteMeta, SyncMeta, Publish, Crash;
    if
    case CloneMeta(s, s') => CloneInv(s, s');
    case exists i :: Register(s, s', i, 0) => var i :| Register(s, s', i, 0); RegisterInv(s, s', i);
    case exists i :: DropReader(s, s', i) => var i :| DropReader(s, s', i); DropInv(s, s', i);
    case BeginWrite(s, s') => BeginWriteInv(s, s');
    case Change(s, s') => ChangeInv(s, s');
    case Rollback(s, s') => RollbackInv(s, s');
    case WriteData(s, s') => WriteDataInv(s, s');
    case SyncData(s, s') => SyncDataInv(s, s');
    case WriteMeta(s, s') => WriteMetaInv(s, s');
    case SyncMeta(s, s') => SyncMetaInv(s, s');
    case Publish(s, s') => PublishInv(s, s');
    case Crash(s, s') => CrashInv(s, s');
  }

  ghost predicate IsRun(run: seq<Sys>) {
    && |run| > 0 && Init(run[0])
    && forall i :: 0 <= i < |run| - 1 ==> Next(run[i], run[i + 1])
  }

  lemma {:induction false} RunInv(run: seq<Sys>, i: nat)
    requires IsRun(run) && i < |run|
    ensures Inv(run[i])
    decreases i
  {
    hide Inv, Init, Next;
    if i == 0 {
      InitInv(run[0]);
    } else {
      RunInv(run, i - 1);
      NextInv(run[i - 1], run[i]);
    }
  }

  /** History only grows: what was committed as transaction `t` stays what `t` means. */
  lemma {:induction false} HistoryGrows(run: seq<Sys>, i: nat, j: nat)
    requires IsRun(run) && i <= j < |run|
    ensures run[i].hist <= run[j].hist
    decreases j
  {
    hide Inv, Init, Next;
    if i < j {
      HistoryGrows(run, i, j - 1);
      NextHistory(run[j - 1], run[j]);
    }
  }

  lemma NextHistory(s: Sys, s': Sys)
    requires Next(s, s')
    ensures s.hist <= s'.hist
  {
  }

  /** A reader holding `root` finds exactly the records `l` in these pages. */
  ghost predicate Reads(pages: Disk, root: Option<PageId>, l: seq<Entry>) {
    exists t: LocatedRoot :: OnDisk(t, pages) && t.Id() == root && RootEntries(t.Abstract()) == l
  }

  /** Two chains that start at the same page are the same chain and hold the same chunks. */
  lemma {:induction false} ChainSame(a: seq<PageId>, x: seq<Bytes>, b: seq<PageId>, y: seq<Bytes>, w: Work)
    requires ChainAt(a, x, w) && ChainAt(b, y, w) && Head(a) == Head(b)
    ensures a == b && x == y
  {
    if a != [] {
      ChainSame(a[1..], x[1..], b[1..], y[1..], w);
      assert a == [a[0]] + a[1..] && b == [b[0]] + b[1..];
      assert x == [x[0]] + x[1..] && y == [y[0]] + y[1..];
    }
  }

  lemma ValSame(v: Val, u: Val, w: Work)
    requires ValAt(v, w) && ValAt(u, w) && Stored(v) == Stored(u)
    ensures v == u
  {
    if |v.bytes| > INLINE_VALUE_LIMIT {
      JoinChunks(v.bytes);
      JoinChunks(u.bytes);
      ChainSame(v.chain, Chunks(v.bytes), u.chain, Chunks(u.bytes), w);
    }
  }

  /** A page and what is stored determine the tree there. */
  lemma {:induction false} LocatedSame(d: Located, e: Located, w: Work, b: iset<PageId>)
    requires At(d, w, b) && At(e, w, b) && d.id == e.id
    ensures d == e
    decreases d
  {
    assert NodeOf(d) == NodeOf(e);
    match d
    case AtLeaf(_, keys, vals) =>
      forall i | 0 <= i < |vals| ensures |e.vals| == |vals| && vals[i] == e.vals[i] {
        assert StoredVals(vals)[i] == StoredVals(e.vals)[i];
        ValSame(vals[i], e.vals[i], w);
      }
      assert |StoredVals(vals)| == |StoredVals(e.vals)|;
      assert vals == e.vals;
    case AtNode(_, keys, children) =>
      assert |RootIds(children)| == |RootIds(e.children)|;
      forall i | 0 <= i < |children| ensures children[i] == e.children[i] {
        assert RootIds(children)[i] == RootIds(e.children)[i];
        LocatedSame(children[i], e.children[i], w, b);
      }
      assert children == e.children;
  }

  lemma {:induction false} HeightSame(t: Tree, h: nat, k: nat)
    requires Shape(t, h) && Shape(t, k)
    ensures h == k
    decreases h
  {
    if t.Node? {
      HeightSame(t.children[0], h - 1, k - 1);
    }
  }

  /** What a root leads to is determined by the disk: a reader finds these records and no others. */
  lemma ReadsOne(pages: Disk, root: Option<PageId>, l: seq<Entry>, m: seq<Entry>)
    requires Reads(pages, root, l) && Reads(pages, root, m)
    ensures l == m
  {
    var t: LocatedRoot :| OnDisk(t, pages) && t.Id() == root && RootEntries(t.Abstract()) == l;
    var u: LocatedRoot :| OnDisk(u, pages) && u.Id() == root && RootEntries(u.Abstract()) == m;
    if root.Some? {
      LocatedSame(t.d, u.d, View(pages, map[]), Everywhere());
      HeightSame(Erase(t.d), t.height, u.height);
    }
  }

  /**
   * Snapshot isolation over every run: whatever readers, writers and crashes did in between, a reader
   * registered for transaction `t` still finds the records that were committed when `t` was current.
   */
  lemma SnapshotIsolation(run: seq<Sys>, i: nat, j: nat, t: nat)
    requires IsRun(run) && i <= j < |run|
    requires run[i].now.meta.txnId == t && t in run[j].readers
    ensures run[i].now.tree.Sound()
    ensures forall l :: Reads(run[j].file.pages, run[i].now.meta.root, l) <==> l == RootEntries(run[i].now.tree.Abstract())
  {
    RunInv(run, i);
    RunInv(run, j);
    HistoryGrows(run, i, j);
    hide IsRun, OnDisk, Live, SlotsOk, Held;
    assert Pinned(run[j], t);
    assert SnapshotSafe(run[j], run[j].now, t);
    var tree := run[i].now.tree;
    assert run[j].hist[t] == run[i].hist[t] == tree;
    TreeSound(tree, run[j].file.pages);
    assert OnDisk(tree, run[j].file.pages) && tree.Id() == run[i].now.meta.root;
    ReadsOnly(run[j].file.pages, run[i].now.meta.root, RootEntries(tree.Abstract()));
  }

  lemma ReadsOnly(pages: Disk, root: Option<PageId>, l: seq<Entry>)
    requires Reads(pages, root, l)
    ensures forall m :: Reads(pages, root, m) <==> m == l
  {
    hide Reads;
    forall m | Reads(pages, root, m) ensures m == l {
      ReadsOne(pages, root, m, l);
    }
  }

  /** The committed version itself is always readable. */
  lemma CommittedReadable(run: seq<Sys>, i: nat)
    requires IsRun(run) && i < |run|
    ensures run[i].now.tree.Sound() && Balanced(run[i].now)
    ensures Reads(run[i].file.pages, run[i].now.meta.root, RootEntries(run[i].now.tree.Abstract()))
  {
    RunInv(run, i);
    hide OnDisk, IsRun;
    TreeSound(run[i].now.tree, run[i].file.pages);
  }

  /** Crash at any moment of any run: see `CrashRecovers`. */
  lemma CrashAtomicity(run: seq<Sys>, i: nat, f: File) returns (v: Version)
    requires IsRun(run) && i < |run| && CrashFile(run[i], f)
    ensures Recover(f.slots).Some? && Recover(f.slots).value.1 == v.meta
    ensures Recoverable(run[i], v) && v.meta.txnId >= run[i].now.meta.txnId
    ensures v.tree.Sound() && Reads(f.pages, v.meta.root, RootEntries(v.tree.Abstract()))
    ensures Linked(v.chain, v.meta.freeListHead, f.pages) && Loaded(v.chain, v.meta.freeListHead, f.pages) == v.free && Balanced(v)
  {
    RunInv(run, i);
    v := CrashRecovers(run[i], f);
    hide OnDisk, IsRun, Inv, CrashFile;
    TreeSound(v.tree, f.pages);
  }

  /** What an operation of the writer, or the first part of a commit, may have made of the file so far. */
  ghost predicate MidOperation(s: Sys, mid: File) {
    && s.writer.Some? && s.writer.value.stage.Writing?
    && mid.slots == s.file.slots && mid.durable == s.file.durable
    && (forall p: PageId :: !InFlight(s, p) ==> DiskAt(View(mid.pages, map[]), p) == DiskAt(View(s.file.pages, map[]), p))
    && (forall p: PageId :: p in mid.unsynced ==> p in s.file.unsynced || InFlight(s, p))
  }

  /** A crash in the middle of an operation is covered: pages it was writing are already assumed arbitrary. */
  lemma CrashMidOperation(s: Sys, mid: File, f: File)
    requires Inv(s) && MidOperation(s, mid) && CrashFile(s.(file := mid), f)
    ensures CrashFile(s, f)
  {
    hide Inv, OursOf;
    assert forall p: PageId :: InFlight(s.(file := mid), p) == InFlight(s, p);
  }

  /**
   * Crash atomicity inside an operation: if the file is what an unfinished put, delete or flush has made of it so
   * far, a crash still recovers the whole committed version.
   */
  lemma CrashInsideOperation(run: seq<Sys>, i: nat, mid: File, f: File)
    requires IsRun(run) && i < |run| && MidOperation(run[i], mid) && CrashFile(run[i].(file := mid), f)
    ensures Recover(f.slots).Some? && Recover(f.slots).value.1 == run[i].now.meta && Intact(run[i].now, f.pages)
  {
    RunInv(run, i);
    CrashMidOperation(run[i], mid, f);
    RecoverFinds(run[i], f);
    CrashPages(run[i], f, run[i].now);
    hide Inv, CrashFile, Intact, MidOperation, Recover;
    assert run[i].writer.value.stage.Writing? by { WritingMid(run[i], mid); }
  }

  lemma WritingMid(s: Sys, mid: File)
    requires MidOperation(s, mid)
    ensures s.writer.Some? && s.writer.value.stage.Writing?
  {
  }

  lemma MidStart(s: Sys)
    requires s.writer.Some? && s.writer.value.stage.Writing?
    ensures MidOperation(s, s.file)
  {
  }

  /** Every step that balances the page ledger, such as writing one overflow chunk, goes from one such file to another. */
  lemma LedgerStepIsMid(s: Sys, mid: File, w: Work, a: multiset<PageId>, w': Work, b: multiset<PageId>)
    requires MidOperation(s, mid) && w.disk == mid.pages && w.unsynced == mid.unsynced
    requires Moved(w, a, w', b, OursOf(s.now, s.writer.value.mark), s.writer.value.mark)
    ensures MidOperation(s, mid.(pages := w'.disk, unsynced := w'.unsynced))
  {
    hide OursOf, Pools, Owns;
    forall p: PageId | !InFlight(s, p)
      ensures DiskAt(View(w'.disk, map[]), p) == DiskAt(View(s.file.pages, map[]), p)
    {
      assert DiskAt(w, p) == DiskAt(w', p);
    }
  }

  /** Writing one page that the transaction may write does, whatever is written. */
  lemma OwnWriteIsMid(s: Sys, mid: File, p: PageId, page: Page)
    requires MidOperation(s, mid) && p in OursOf(s.now, s.writer.value.mark)
    ensures MidOperation(s, mid.(pages := mid.pages[p := page], unsynced := mid.unsynced + {p}))
  {
    hide OursOf;
  }

  /** Flushing one staged page does too. */
  lemma FlushStepIsMid(s: Sys, mid: File, p: PageId, page: Page)
    requires Inv(s) && MidOperation(s, mid) && p in s.writer.value.work.overlay
    ensures MidOperation(s, mid.(pages := mid.pages[p := page], unsynced := mid.unsynced + {p}))
  {
    WorkOfInv(s);
    StagedIsOurs(s, s.writer.value, p);
    hide Inv, OursOf, WorkOk, MidOperation;
    OwnWriteIsMid(s, mid, p, page);
  }

  /** And writing free-list pages beyond the old end of the file. */
  lemma BeyondIsMid(s: Sys, mid: File, pages: Disk, unsynced: set<PageId>)
    requires Inv(s) && MidOperation(s, mid)
    requires OnlyBeyond(s.writer.value.work.next, mid.pages, mid.unsynced, pages, unsynced)
    ensures MidOperation(s, mid.(pages := pages, unsynced := unsynced))
  {
    var w := s.writer.value;
    WorkOfInv(s);
    forall p: PageId | p >= w.work.next ensures InFlight(s, p) {
      BeyondIsOurs(s, w, p);
    }
    hide Inv, OursOf, WorkOk, InFlight;
    forall p: PageId | !InFlight(s, p)
      ensures DiskAt(View(pages, map[]), p) == DiskAt(View(s.file.pages, map[]), p)
    {
      assert p < w.work.next;
      assert DiskAt(View(mid.pages, map[]), p) == DiskAt(View(s.file.pages, map[]), p);
    }
  }

  lemma BeyondIsOurs(s: Sys, w: Writer, p: PageId)
    requires WorkOk(s, w) && p >= w.work.next
    ensures p in OursOf(s.now, w.mark)
  {
  }

  /** The transaction that began at `i` is still changing the tree, uncommitted, up to `j`. */
  predicate StillWriting(run: seq<Sys>, i: nat, j: nat) {
    i < j < |run| && forall m :: i < m <= j ==> run[m].writer.Some? && run[m].writer.value.stage.Writing?
  }

  lemma WritingStep(s: Sys, s': Sys)
    requires Next(s, s') && s'.writer.Some? && s'.writer.value.stage.Writing?
    ensures s'.now == s.now && s'.hist == s.hist && s'.active == s.active
    ensures s'.file.slots == s.file.slots && s'.file.durable == s.file.durable
  {
    hide Moved, BeginWrite, Change, WriteData;
    if BeginWrite(s, s') { BeginKeeps(s, s'); }
    if Change(s, s') { ChangeKeeps(s, s'); }
    if WriteData(s, s') { DataIsWritten(s, s'); }
  }

  lemma BeginKeeps(s: Sys, s': Sys)
    requires BeginWrite(s, s')
    ensures s' == s.(writer := s'.writer, clones := s'.clones)
  {
  }

  lemma ChangeKeeps(s: Sys, s': Sys)
    requires Change(s, s')
    ensures s' == s.(file := s.file.(pages := s'.file.pages, unsynced := s'.file.unsynced), writer := s'.writer)
  {
  }

  lemma DataIsWritten(s: Sys, s': Sys)
    requires WriteData(s, s')
    ensures s'.writer.Some? && s'.writer.value.stage.Written?
  {
  }

  lemma {:induction false} WritingKeeps(run: seq<Sys>, i: nat, j: nat)
    requires IsRun(run) && StillWriting(run, i, j)
    ensures run[j].now == run[i].now && run[j].hist == run[i].hist && run[j].active == run[i].active
    ensures run[j].file.slots == run[i].file.slots && run[j].file.durable == run[i].file.durable
    decreases j
  {
    hide Init, Next;
    if i < j - 1 {
      WritingKeeps(run, i, j - 1);
    }
    WritingStep(run[j - 1], run[j]);
  }

  /**
   * Rollback leaves no trace: after any puts and deletes and a rollback, the committed version, its tree and free
   * list, both meta slots and every live snapshot are as they were, although overflow pages were written directly.
   */
  lemma RollbackLeavesNoTrace(run: seq<Sys>, i: nat, j: nat)
    requires IsRun(run) && StillWriting(run, i, j) && j + 1 < |run| && Rollback(run[j], run[j + 1])
    ensures var s, s' := run[i], run[j + 1];
      && s'.now == s.now && s'.hist == s.hist && s'.active == s.active && s'.writer == None
      && s'.file.slots == s.file.slots && s'.file.durable == s.file.durable
      && Intact(s.now, s'.file.pages)
      && (forall t :: t in s'.readers ==> t < |s.hist| && OnDisk(s.hist[t], s'.file.pages))
  {
    WritingKeeps(run, i, j);
    RunInv(run, j + 1);
    hide IsRun, Intact, OnDisk, SlotsOk, Held;
    var s' := run[j + 1];
    forall t | t in s'.readers ensures t < |s'.hist| && OnDisk(s'.hist[t], s'.file.pages) {
      assert Pinned(s', t);
      assert SnapshotSafe(s', s'.now, t);
    }
  }

  /** Page conservation while a transaction runs: every id is in the tree, in a pool, or a chain page, exactly once. */
  lemma PageConservation(run: seq<Sys>, i: nat, p: PageId)
    requires IsRun(run) && i < |run| && run[i].writer.Some? && run[i].writer.value.stage.Writing?
    ensures var w := run[i].writer.value; var x := w.work;
      w.tree.Owned()[p] + multiset(FreeIds(x.free))[p] + multiset(x.obsolete)[p] + multiset(x.scratch)[p] + run[i].now.leaked[p]
      == if 2 <= p < x.next then 1 else 0
  {
    RunInv(run, i);
    hide Inv, IsRun, Owns, At;
    var w := run[i].writer.value;
    assert WorkOk(run[i], w) by { WorkOfInv(run[i]); }
    assert (w.tree.Owned() + Pools(w.work) + run[i].now.leaked)[p] == Span(2, w.work.next)[p];
  }

  lemma WorkOfInv(s: Sys)
    requires Inv(s) && s.writer.Some? && s.writer.value.stage.Writing?
    ensures WorkOk(s, s.writer.value) && Balanced(s.now)
  {
  }

  lemma {:induction false} StagedPageIsNode(d: Located, w: Work, base: iset<PageId>, p: PageId)
    requires At(d, w, base) && p in Ids(d) && p in w.overlay
    ensures p in NodeIds(d)
    decreases d
  {
    TopOf(d, w, base);
    if p != d.id {
      match d
      case AtLeaf(_, _, vals) =>
        ValPage(vals, p, w);
      case AtNode(_, _, children) =>
        var i := ForestPage(children, p);
        StagedPageIsNode(children[i], w, base, p);
    }
  }

  lemma {:induction false} ForestPage(f: seq<Located>, p: PageId) returns (i: nat)
    requires p in ForestIds(f)
    ensures i < |f| && p in Ids(f[i])
  {
    if p in Ids(f[0]) {
      i := 0;
    } else {
      var j := ForestPage(f[1..], p);
      i := j + 1;
    }
  }

  /** Overflow pages are never staged. */
  lemma {:induction false} ValPage(vals: seq<Val>, p: PageId, w: Work)
    requires p in ValIds(vals) && ValsAt(vals, w)
    ensures p !in w.overlay
  {
    if p in multiset(vals[0].chain) {
      assert ValAt(vals[0], w);
      ChainPage(vals[0].chain, Chunks(vals[0].bytes), p, w);
    } else {
      ValPage(vals[1..], p, w);
    }
  }

  lemma {:induction false} ChainPage(chain: seq<PageId>, chunks: seq<Bytes>, p: PageId, w: Work)
    requires ChainAt(chain, chunks, w) && p in chain
    ensures p !in w.overlay
  {
    if p != chain[0] {
      ChainPage(chain[1..], chunks[1..], p, w);
    }
  }

  lemma {:induction false} NodesStagedOrBase(d: Located, w: Work, base: iset<PageId>, p: PageId)
    requires At(d, w, base) && p in NodeIds(d)
    ensures p in w.overlay || p in base
    decreases d
  {
    if p != d.id {
      var i :| 0 <= i < |d.children| && p in NodeIds(d.children[i]);
      NodesStagedOrBase(d.children[i], w, base, p);
    }
  }

  lemma {:induction false} NodeIdsOwned(d: Located, p: PageId)
    requires p in NodeIds(d)
    ensures p in Ids(d)
    decreases d
  {
    if p != d.id {
      var i :| 0 <= i < |d.children| && p in NodeIds(d.children[i]);
      NodeIdsOwned(d.children[i], p);
      ForestIdsPart(d.children, i);
    }
  }

  /** Nothing committed, no free-list chain and no pinned snapshot reaches page `p`. */
  ghost predicate Clear(s: Sys, p: PageId) {
    && p !in s.now.tree.Owned() && p !in s.now.leaked
    && forall t: nat :: Pinned(s, t) ==> t < |s.hist| && p !in s.hist[t].Owned()
  }

  lemma StagedIsOurs(s: Sys, w: Writer, p: PageId)
    requires WorkOk(s, w) && p in w.work.overlay
    ensures p in OursOf(s.now, w.mark)
  {
  }

  /** What the writer may write is clear of everything anyone else can read. */
  lemma OursClear(s: Sys, w: Writer, p: PageId)
    requires Inv(s) && s.writer == Some(w) && w.stage.Writing? && p in OursOf(s.now, w.mark)
    ensures Clear(s, p)
  {
    OursApart(s.now, w.mark, p);
    hide Intact, OnDisk, OursOf, SlotsOk, WorkOk, Held;
    forall t: nat | Pinned(s, t) ensures t < |s.hist| && p !in s.hist[t].Owned() {
      assert Guarded(s, w, t) && SnapshotSafe(s, s.now, t);
      assert !Held(s.now, t, p);
    }
  }

  /**
   * Whatever a transaction has written to disk before its commit, overflow pages included, is clear of the
   * committed tree, of every free-list chain and of every live snapshot.
   */
  lemma WrittenPagesAreClear(run: seq<Sys>, i: nat, j: nat, p: PageId)
    requires IsRun(run) && StillWriting(run, i, j) && BeginWrite(run[i], run[i + 1])
    requires DiskAt(View(run[j].file.pages, map[]), p) != DiskAt(View(run[i].file.pages, map[]), p)
    ensures Clear(run[j], p)
  {
    WrittenIsOurs(run, i, j, p);
    RunInv(run, j);
    hide IsRun, Inv, Clear, OursOf, DiskAt;
    OursClear(run[j], run[j].writer.value, p);
  }

  lemma {:induction false} WrittenIsOurs(run: seq<Sys>, i: nat, j: nat, p: PageId)
    requires IsRun(run) && StillWriting(run, i, j) && BeginWrite(run[i], run[i + 1])
    ensures run[j].now == run[i].now && run[j].writer.value.mark == run[i + 1].writer.value.mark
    ensures p !in OursOf(run[j].now, run[j].writer.value.mark) ==>
              DiskAt(View(run[j].file.pages, map[]), p) == DiskAt(View(run[i].file.pages, map[]), p)
    decreases j
  {
    hide Init, Next, OursOf, DiskAt, BeginWrite, Inv;
    WritingKeeps(run, i, j);
    if j == i + 1 {
      BeginKeeps(run[i], run[j]);
    } else {
      WrittenIsOurs(run, i, j - 1, p);
      RunInv(run, j - 1);
      StepWritesOurs(run[j - 1], run[j], p);
    }
  }

  lemma StepWritesOurs(s: Sys, s': Sys, p: PageId)
    requires Inv(s) && Next(s, s') && s.writer.Some? && s.writer.value.stage.Writing?
    requires s'.writer.Some? && s'.writer.value.stage.Writing?
    ensures s'.writer.value.mark == s.writer.value.mark
    ensures p !in OursOf(s.now, s.writer.value.mark) ==>
              DiskAt(View(s'.file.pages, map[]), p) == DiskAt(View(s.file.pages, map[]), p)
  {
    WritingOr(s, s');
    WorkOfInv(s);
    hide Inv, Next, Change, OursOf, DiskAt, Owns, At;
    if Change(s, s') { ChangeWrites(s, s', p); }
  }

  lemma WritingOr(s: Sys, s': Sys)
    requires Next(s, s') && s.writer.Some? && s.writer.value.stage.Writing?
    requires s'.writer.Some? && s'.writer.value.stage.Writing?
    ensures Change(s, s') || (s'.writer == s.writer && s'.file == s.file)
  {
    hide BeginWrite, Change, WriteData;
    if BeginWrite(s, s') { BeginAlone(s, s'); }
    if WriteData(s, s') { DataIsWritten(s, s'); }
  }

  lemma BeginAlone(s: Sys, s': Sys)
    requires BeginWrite(s, s')
    ensures s.writer == None
  {
  }

  lemma ChangeWrites(s: Sys, s': Sys, p: PageId)
    requires Change(s, s') && s.writer.value.work.disk == s.file.pages
    ensures s'.writer.Some? && s'.writer.value.mark == s.writer.value.mark
    ensures p !in OursOf(s.now, s.writer.value.mark) ==>
              DiskAt(View(s'.file.pages, map[]), p) == DiskAt(View(s.file.pages, map[]), p)
  {
    hide OursOf;
    assert p !in OursOf(s.now, s.writer.value.mark) ==> DiskAt(s.writer.value.work, p) == DiskAt(s'.writer.value.work, p);
  }

  /** Copy-on-write exactness: the pages staged for flushing are the new tree's nodes that the committed tree lacks. */
  lemma CopyOnWriteExact(run: seq<Sys>, i: nat, p: PageId)
    requires IsRun(run) && i < |run| && run[i].writer.Some? && run[i].writer.value.stage.Writing?
    ensures var w := run[i].writer.value;
      && (p in w.work.overlay <==> p in w.tree.Nodes() && p !in run[i].now.tree.Nodes())
      && (p in w.work.overlay ==> Clear(run[i], p))
  {
    RunInv(run, i);
    var s, w := run[i], run[i].writer.value;
    WorkOfInv(s);
    if p in w.work.overlay {
      StagedIsOurs(s, w, p);
      OursClear(s, w, p);
    }
    hide Inv, IsRun, Clear;
    if p in w.work.overlay {
      StagedIsNew(s, w, p);
    } else if p in w.tree.Nodes() {
      NodesStagedOrBase(w.tree.d, w.work, BaseOf(s.now), p);
    }
  }

  lemma StagedIsNew(s: Sys, w: Writer, p: PageId)
    requires WorkOk(s, w) && Balanced(s.now) && p in w.work.overlay
    ensures p in w.tree.Nodes() && p !in s.now.tree.Nodes() && p !in s.now.tree.Owned() && p !in s.now.leaked
  {
    var x := w.work;
    assert p in OursOf(s.now, w.mark) && p < x.next && p !in Pools(x);
    OursApart(s.now, w.mark, p);
    BalancedOnce(s.now, p);
    hide Owns, OursOf, At, Ids, Balanced, Pools;
    assert (w.tree.Owned() + Pools(x) + s.now.leaked)[p] == Span(2, x.next)[p];
    PageTwo(s, w, p);
    assert p in w.tree.Owned();
    StagedPageIsNode(w.tree.d, x, BaseOf(s.now), p);
    if p in s.now.tree.Nodes() {
      NodeIdsOwned(s.now.tree.d, p);
    }
  }

  /** No writer touches the meta pages 0 and 1. */
  lemma PageTwo(s: Sys, w: Writer, p: PageId)
    requires Balanced(s.now) && p in OursOf(s.now, w.mark)
    ensures p >= 2
  {
    if p < s.now.meta.nextPage {
      var i :| 0 <= i < |s.now.free| && s.now.free[i].page == p && s.now.free[i].freedAt <= w.mark;
      FreeListed(s.now.free, i);
      BalancedOnce(s.now, p);
    }
  }
}
