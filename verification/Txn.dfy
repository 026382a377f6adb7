/**
 * The environment and its transaction handles (src/storage/txn.rs). Every state the code passes through is
 * appended to the ghost `trace`, which is a run of `Protocol`; so what holds of all runs holds of this code.
 */
module Txn {
  import opened Bytes
  import opened SortedList
  import opened BTree
  import opened BTreePut
  import BTreeDelete
  import opened Pages
  import opened PagerFile
  import opened CtxModule
  import opened TreePut
  import TreeDelete
  import TreeRead
  import opened FreeList
  import opened Protocol
  import opened PageFit
  import opened Capacity

  ghost function Last(run: seq<Sys>): Sys
    requires |run| > 0
  {
    run[|run| - 1]
  }

  lemma RunNotEmpty(run: seq<Sys>)
    requires IsRun(run)
    ensures |run| > 0
  {
  }

  lemma ExtendRun(run: seq<Sys>, s: Sys)
    requires IsRun(run) && Next(Last(run), s)
    ensures IsRun(run + [s]) && Last(run + [s]) == s
    ensures Last(run).hist <= s.hist
  {
    hide Init;
    NextHistory(Last(run), s);
    hide Next;
    var run' := run + [s];
    assert run'[|run| - 1] == Last(run) && run'[|run|] == s;
  }

  class Environment {
    const pager: Pager
    var committed: Meta
    var writerLocked: bool
    var readers: seq<nat>
    ghost var trace: seq<Sys>

    ghost predicate Valid()
      reads this, pager
    {
      && |trace| > 0 && IsRun(trace) && pager.Valid()
      && var s := Last(trace);
         && s.file == pager.Now() && s.active == pager.activeMetaSlot && s.now.meta == committed
         && s.readers == readers && (s.writer.Some? <==> writerLocked)
    }

    ghost function Now(): Sys
      requires |trace| > 0
      reads this
    {
      Last(trace)
    }

    /** Every tree committed so far, and the writer's, keeps its nodes within the byte bound. */
    ghost predicate Roomy(ks: Keyspace)
      reads this
    {
      |trace| > 0 && AllRoomy(Now(), ks)
    }

    /** A new store. */
    constructor Create()
      ensures Valid() && fresh(pager) && !writerLocked && readers == []
      ensures Now().hist == [NoTree] && Now().now.tree == NoTree && Now().clones == [] && (forall ks: Keyspace :: Roomy(ks))
    {
      pager := new Pager.Create();
      var m := Meta(MAGIC, 0, None, META_PAGE_COUNT, None);
      committed, writerLocked, readers := m, false, [];
      ghost var init := Sys(File(map[], {}, [Some(m), Some(m)], [Some(m), Some(m)]), 0, Version(m, NoTree, [], [], multiset{}), [NoTree], [], [], None);
      trace := [init];
    }

    /** Reopening after a crash, whatever the crash made of the file; never fails. */
    constructor Open(pages: Disk, slots: seq<Option<Meta>>, ghost run: seq<Sys>)
      requires IsRun(run) && CrashFile(Last(run), File(pages, {}, slots, slots))
      ensures Valid() && fresh(pager) && !writerLocked && readers == []
      ensures Recoverable(Last(run), Now().now) && committed == Now().now.meta && committed.txnId >= Last(run).now.meta.txnId
      ensures Last(run).hist <= Now().hist && (forall ks: Keyspace :: AllRoomy(Last(run), ks) ==> Roomy(ks))
    {
      hide Inv, IsRun, Next, CrashFile, Recover, Recoverable;
      ghost var s' := Reopened(run, File(pages, {}, slots, slots));
      SlotFound(slots);
      var found := Pager.Open(pages, slots);
      pager := found.value.0;
      committed := found.value.1;
      writerLocked, readers := false, [];
      trace := run + [s'];
    }

    /** Take a snapshot: copy the committed meta page, then register its transaction id. */
    method BeginRead() returns (r: ReadTxn)
      requires Valid()
      modifies this`readers, this`trace
      ensures Valid() && fresh(r) && r.env == this && r.Valid()
      ensures r.txnId == committed.txnId && r.root == committed.root && readers == old(readers) + [committed.txnId]
      ensures Now().hist == old(Now().hist) && Now().writer == old(Now().writer) && Now().now == old(Now().now)
    {
      var meta := CopyMeta();
      r := Register(meta, |Now().clones| - 1);
    }

    /** First half of `begin_read`; anything else may happen before the second. */
    method CopyMeta() returns (meta: Meta)
      requires Valid()
      modifies this`trace
      ensures Valid() && meta == committed
      ensures Now() == old(Now()).(clones := old(Now().clones) + [Clone(meta.txnId, 0)])
      ensures meta.txnId < |Now().hist| && Now().hist[meta.txnId].Id() == meta.root
    {
      hide IsRun, Inv, Next;
      ghost var s := Now();
      RunInv(trace, |trace| - 1);
      SnapshotRoot(s);
      ghost var s' := s.(clones := s.clones + [Clone(s.now.meta.txnId, 0)]);
      CloneIsNext(s, s');
      ExtendRun(trace, s');
      trace := trace + [s'];
      meta := committed;
    }

    /** Second half, for a copy that no writer has overtaken. */
    method Register(meta: Meta, ghost i: nat) returns (r: ReadTxn)
      requires Valid() && i < |Now().clones| && Now().clones[i] == Clone(meta.txnId, 0)
      requires meta.txnId < |Now().hist| && Now().hist[meta.txnId].Id() == meta.root
      modifies this`readers, this`trace
      ensures Valid() && fresh(r) && r.env == this && r.Valid() && r.txnId == meta.txnId && r.root == meta.root
      ensures readers == old(readers) + [meta.txnId]
      ensures Now() == old(Now()).(clones := SwapRemove(old(Now().clones), i), readers := readers)
    {
      hide IsRun, Inv, Next;
      ghost var s := Now();
      ghost var s' := s.(clones := SwapRemove(s.clones, i), readers := s.readers + [meta.txnId]);
      RegisterIsNext(s, s', i);
      ExtendRun(trace, s');
      trace := trace + [s'];
      readers := readers + [meta.txnId];
      r := new ReadTxn(this, meta.root, meta.txnId);
    }

    /** The least registered transaction id, or no limit. */
    method OldestReaderTxnId() returns (mark: nat)
      ensures mark == Watermark(readers)
      ensures readers == [] ==> mark == U64_MAX
      ensures readers != [] ==> mark in readers && forall t :: t in readers ==> mark <= t
    {
      mark := U64_MAX;
      var i := |readers|;
      while i > 0
        invariant 0 <= i <= |readers| && mark == Watermark(readers[i..])
      {
        i := i - 1;
        assert readers[i..][1..] == readers[i + 1..];
        if i == |readers| - 1 || readers[i] <= mark {
          mark := readers[i];
        }
      }
      assert readers[0..] == readers;
      WatermarkIsOldest(readers);
    }

    /** Start the single write transaction; the caller waits until the lock is free. */
    method BeginWrite() returns (w: WriteTxn)
      requires Valid() && !writerLocked
      modifies this`writerLocked, this`trace, pager`mayWrite
      ensures Valid() && fresh(w) && fresh(w.ctx) && w.env == this && w.Valid()
      ensures w.tree == Now().now.tree && Now().now == old(Now().now) && Now().hist == old(Now().hist)
      ensures Now().clones == Overtake(old(Now().clones), committed.txnId, Watermark(readers))
      ensures forall ks: Keyspace :: old(Roomy(ks)) ==> Roomy(ks)
      ensures w.ctx.reclaimWatermark == Watermark(readers) && w.ctx.freeList == Now().now.free && w.ctx.overlay == map[]
      ensures forall e :: e in w.ctx.freeList ==> (e.freedAt <= w.ctx.reclaimWatermark <==> Released(e.freedAt, readers))
      ensures forall p: PageId :: p in pager.mayWrite <==>
                p >= committed.nextPage || exists e :: e in w.ctx.freeList && e.page == p && Released(e.freedAt, readers)
      ensures (exists e :: e in w.ctx.freeList && Released(e.freedAt, readers)) ==>
                Drawn(w.ctx.W(), w.ctx.reclaimWatermark).1.next == committed.nextPage
    {
      hide IsRun, Inv, Next, RoomyTree;
      ghost var s := Now();
      RunInv(trace, |trace| - 1);
      CommittedParts(s);
      var mark := OldestReaderTxnId();
      var freeList := FreeList.Load(pager, committed.freeListHead, s.now.chain);
      var ctx := new Ctx(pager, committed.nextPage, freeList, mark, OursOf(s.now, mark), BaseOf(s.now));
      ghost var s' := s.(writer := Some(Writer(ctx.W(), s.now.tree, mark, Writing)), clones := Overtake(s.clones, s.now.meta.txnId, mark));
      BeginWriteIsNext(s, s');
      ExtendRun(trace, s');
      trace := trace + [s'];
      writerLocked := true;
      pager.mayWrite := ctx.ours;
      ReuseIs(s.now, readers, ctx.W());
      w := new WriteTxn(this, committed.txnId, committed.root, ctx, s.now.tree);
    }
  }

  /** What the writer may reuse, in terms of the registered readers; and while there is any such page, the file does not grow. */
  lemma ReuseIs(v: Version, readers: seq<nat>, w: Work)
    requires w.free == v.free && w.next == v.meta.nextPage
    ensures var mark := Watermark(readers);
      && (forall e :: e in w.free ==> (e.freedAt <= mark <==> Released(e.freedAt, readers)))
      && (forall p: PageId :: p in OursOf(v, mark) <==>
            p >= v.meta.nextPage || exists e :: e in w.free && e.page == p && Released(e.freedAt, readers))
      && ((exists e :: e in w.free && Released(e.freedAt, readers)) ==> Drawn(w, mark).1.next == v.meta.nextPage)
  {
    hide OursOf, Watermark, Drawn, Released;
    var mark := Watermark(readers);
    ReleasedIs(readers);
    forall p: PageId ensures p in OursOf(v, mark) <==>
      p >= v.meta.nextPage || exists e :: e in w.free && e.page == p && Released(e.freedAt, readers) {
      OursIsReleased(v, readers, p);
    }
    DrawReuses(w, mark);
    if e :| e in w.free && Released(e.freedAt, readers) {
      var i :| 0 <= i < |w.free| && w.free[i] == e;
      assert w.free[i].freedAt <= mark;
    }
  }

  /** The state after reopening what a crash left of the file. */
  lemma Reopened(run: seq<Sys>, f: File) returns (s': Sys)
    requires IsRun(run) && CrashFile(Last(run), f)
    ensures IsRun(run + [s']) && Last(run + [s']) == s' && Last(run).hist <= s'.hist
    ensures |f.slots| == 2 && Recover(f.slots).Some? && (s'.active, s'.now.meta) == Recover(f.slots).value && s'.active < 2
    ensures s'.file == f && s'.readers == [] && s'.clones == [] && s'.writer == None
    ensures Recoverable(Last(run), s'.now) && s'.now.meta.txnId >= Last(run).now.meta.txnId
    ensures forall ks: Keyspace :: AllRoomy(Last(run), ks) ==> AllRoomy(s', ks)
  {
    var s := Last(run);
    hide Inv, Recover, CrashFile, Recoverable, IsRun, Crash, Next;
    RunInv(run, |run| - 1);
    var v := CrashRecovers(s, f);
    RecoverFinds(s, f);
    FileShape(s, f);
    s' := Sys(f, Recover(f.slots).value.0, v, if v == s.now then s.hist else s.hist + [v.tree], [], [], None);
    CrashIsNext(s, f, v, s');
    ExtendRun(run, s');
    ReopenedRoomy(s, f, v, s');
  }

  lemma ReopenedRoomy(s: Sys, f: File, v: Version, s': Sys)
    requires Inv(s) && Recoverable(s, v)
    requires |f.slots| == 2 && Recover(f.slots).Some?
    requires s' == Sys(f, Recover(f.slots).value.0, v, if v == s.now then s.hist else s.hist + [v.tree], [], [], None)
    ensures forall ks: Keyspace :: AllRoomy(s, ks) ==> AllRoomy(s', ks)
  {
    hide Inv, RoomyTree, Recover;
    PendingTree(s);
  }

  lemma SlotFound(slots: seq<Option<Meta>>)
    requires |slots| == 2 && Recover(slots).Some?
    ensures slots != [None, None]
  {
  }

  lemma FileShape(s: Sys, f: File)
    requires CrashFile(s, f)
    ensures |f.slots| == 2
  {
  }

  lemma CrashIsNext(s: Sys, f: File, v: Version, s': Sys)
    requires CrashFile(s, f) && Recoverable(s, v)
    requires Recover(f.slots).Some? && Recover(f.slots).value.1 == v.meta
    requires s' == Sys(f, Recover(f.slots).value.0, v, if v == s.now then s.hist else s.hist + [v.tree], [], [], None)
    ensures Next(s, s')
  {
    assert Crash(s, s') by { hide CrashFile, Recover, Recoverable; }
  }

  lemma CloneIsNext(s: Sys, s': Sys)
    requires s' == s.(clones := s.clones + [Clone(s.now.meta.txnId, 0)])
    ensures Next(s, s')
  {
  }

  lemma RegisterIsNext(s: Sys, s': Sys, i: nat)
    requires i < |s.clones| && s.clones[i].overtaken == 0
    requires s' == s.(clones := SwapRemove(s.clones, i), readers := s.readers + [s.clones[i].txn])
    ensures Next(s, s')
  {
    assert Protocol.Register(s, s', i, 0);
  }

  lemma BeginWriteIsNext(s: Sys, s': Sys)
    requires s.writer == None
    requires var work := Work(s.file.pages, s.file.unsynced, map[], s.now.meta.nextPage, s.now.free, [], []);
      s' == s.(writer := Some(Writer(work, s.now.tree, Watermark(s.readers), Writing)), clones := Overtake(s.clones, s.now.meta.txnId, Watermark(s.readers)))
    ensures Next(s, s')
  {
    assert Protocol.BeginWrite(s, s');
  }

  lemma SnapshotRoot(s: Sys)
    requires Inv(s)
    ensures |s.hist| == s.now.meta.txnId + 1 && s.hist[s.now.meta.txnId].Id() == s.now.meta.root
  {
  }

  lemma CommittedParts(s: Sys)
    requires Inv(s)
    ensures Linked(s.now.chain, s.now.meta.freeListHead, s.file.pages)
    ensures Loaded(s.now.chain, s.now.meta.freeListHead, s.file.pages) == s.now.free
    ensures s.now.meta.root == s.now.tree.Id()
  {
  }

  /** A read-only snapshot. */
  class ReadTxn {
    const env: Environment
    const root: Option<PageId>
    const txnId: nat

    constructor (env: Environment, root: Option<PageId>, txnId: nat)
      ensures this.env == env && this.root == root && this.txnId == txnId
    {
      this.env, this.root, this.txnId := env, root, txnId;
    }

    ghost predicate Valid()
      reads this, env, env.pager
    {
      && env.Valid() && txnId in env.readers
      && txnId < |env.Now().hist| && env.Now().hist[txnId].Id() == root
    }

    /** The tree transaction `txnId` committed. */
    ghost function Snapshot(): LocatedRoot
      requires |env.trace| > 0 && txnId < |env.Now().hist|
      reads this, env
    {
      env.Now().hist[txnId]
    }

    /** Reads see the snapshot's records, whatever has been committed since. */
    method Get(key: Key) returns (r: Option<Bytes>)
      requires Valid()
      ensures Snapshot().Sound() && r == Lookup(RootEntries(Snapshot().Abstract()), key)
    {
      SnapshotReadable(env.trace, txnId);
      hide OnDisk;
      r := TreeRead.Get(env.pager, map[], root, key, Snapshot(), Everywhere());
    }

    method Range(start: Option<Key>, end: Option<Key>) returns (out: seq<Entry>)
      requires Valid()
      ensures Snapshot().Sound() && out == Filter(RootEntries(Snapshot().Abstract()), start, end)
    {
      SnapshotReadable(env.trace, txnId);
      hide OnDisk;
      out := TreeRead.Range(env.pager, map[], root, start, end, Snapshot(), Everywhere());
    }

    /** Deregister. */
    method Drop()
      requires Valid()
      modifies env`readers, env`trace
      ensures env.Valid() && multiset(env.readers) == old(multiset(env.readers)) - multiset{txnId}
      ensures env.Now() == old(env.Now()).(readers := env.readers)
    {
      hide IsRun, Inv, Next;
      var pos := 0;
      while pos < |env.readers| && env.readers[pos] != txnId
        invariant 0 <= pos <= |env.readers|
        invariant forall i :: 0 <= i < pos ==> env.readers[i] != txnId
      {
        pos := pos + 1;
      }
      ghost var s := env.Now();
      SwapRemoveBag(env.readers, pos);
      ghost var s' := s.(readers := SwapRemove(s.readers, pos));
      DropIsNext(s, s', pos);
      ExtendRun(env.trace, s');
      env.trace := env.trace + [s'];
      env.readers := SwapRemove(env.readers, pos);
    }
  }

  lemma DropIsNext(s: Sys, s': Sys, i: nat)
    requires i < |s.readers| && s' == s.(readers := SwapRemove(s.readers, i))
    ensures Next(s, s')
  {
    assert DropReader(s, s', i);
  }

  lemma SnapshotReadable(run: seq<Sys>, t: nat)
    requires IsRun(run) && t in Last(run).readers
    ensures var s := Last(run);
      t < |s.hist| && s.hist[t].Sound() && s.hist[t].Here(TreeRead.View(s.file.pages, map[]), Everywhere())
  {
    RunInv(run, |run| - 1);
    hide IsRun;
    assert Pinned(Last(run), t);
    assert SnapshotSafe(Last(run), Last(run).now, t);
  }

  class WriteTxn {
    const env: Environment
    const baseTxnId: nat
    var root: Option<PageId>
    const ctx: Ctx
    ghost var tree: LocatedRoot

    constructor (env: Environment, baseTxnId: nat, root: Option<PageId>, ctx: Ctx, ghost tree: LocatedRoot)
      ensures this.env == env && this.baseTxnId == baseTxnId && this.root == root && this.ctx == ctx && this.tree == tree
    {
      this.env, this.baseTxnId, this.root, this.ctx, this.tree := env, baseTxnId, root, ctx, tree;
    }

    ghost predicate Valid()
      reads this, env, env.pager, ctx, ctx.pager
    {
      && env.Valid() && ctx.pager == env.pager
      && var s := env.Now();
         && s.writer == Some(Writer(ctx.W(), tree, ctx.reclaimWatermark, Writing))
         && ctx.ours == OursOf(s.now, ctx.reclaimWatermark) && ctx.base == BaseOf(s.now)
         && root == tree.Id() && baseTxnId == s.now.meta.txnId
         && env.pager.mayWrite == ctx.ours
    }

    /**
     * At every moment of an operation: if the file so far is covered by a crash at its start, so is what any write the
     * page file accepts makes of it.
     */
    lemma AnyWriteIsMid(mid: File, p: PageId, page: Page)
      requires |env.trace| > 0 && env.Now().writer.Some? && env.Now().writer.value.mark == ctx.reclaimWatermark
      requires ctx.ours == OursOf(env.Now().now, ctx.reclaimWatermark) && env.pager.mayWrite == ctx.ours
      requires MidOperation(env.Now(), mid) && p in env.pager.mayWrite
      ensures MidOperation(env.Now(), mid.(pages := mid.pages[p := page], unsynced := mid.unsynced + {p}))
    {
      hide MidOperation, OursOf;
      OwnWriteIsMid(env.Now(), mid, p, page);
    }

    /** The records as this transaction sees them. */
    ghost function Records(): seq<Entry>
      requires tree.Sound()
      reads this
    {
      RootEntries(tree.Abstract())
    }

    method Get(key: Key) returns (r: Option<Bytes>)
      requires Valid()
      ensures tree.Sound() && r == Lookup(Records(), key)
    {
      WorkReadable(env.trace, ctx.overlay);
      hide IsRun;
      r := TreeRead.Get(env.pager, ctx.overlay, root, key, tree, ctx.base);
    }

    method Range(start: Option<Key>, end: Option<Key>) returns (out: seq<Entry>)
      requires Valid()
      ensures tree.Sound() && out == Filter(Records(), start, end)
    {
      WorkReadable(env.trace, ctx.overlay);
      hide IsRun;
      out := TreeRead.Range(env.pager, ctx.overlay, root, start, end, tree, ctx.base);
    }

    /** Nothing but the writer's own state and pages it owns has changed. */
    twostate predicate OnlyMine()
      reads this, env, env.pager, ctx, ctx.pager
    {
      && old(Valid()) && Valid()
      && env.Now().now == old(env.Now().now) && env.Now().hist == old(env.Now().hist) && env.Now().clones == old(env.Now().clones)
      && env.readers == old(env.readers) && env.committed == old(env.committed) && env.writerLocked == old(env.writerLocked)
      && env.pager.slots == old(env.pager.slots)
      && old(env.trace) <= env.trace
    }

    method Put(key: Key, value: Bytes)
      requires Valid()
      modifies this`root, this`tree, ctx, env`trace, env.pager`pages, env.pager`unsynced
      ensures OnlyMine()
      ensures old(tree.Sound()) && tree.Sound() && Records() == Upsert(old(Records()), key, value)
      ensures tree.Abstract() == BTreePut.Put(old(tree.Abstract()), key, value)
      ensures MidOperation(old(env.Now()), env.pager.Now())
      ensures forall ks: Keyspace :: old(env.Roomy(ks)) && InSpace(key, ks) ==> env.Roomy(ks)
    {
      PutStaysRoomy(tree, key, value);
      hide RootRoomy, IsRun, Inv, Next, Moved, Pages.Ready, At, BTree.Valid, Owns, OursOf, BaseOf, BTreePut.Put, Upsert, Entries;
      ghost var s := env.Now();
      WorkReady(env.trace);
      PutMeaning(tree, key, value);
      var id;
      ghost var t;
      ghost var w, was := ctx.W(), tree.Owned();
      MidStart(s);
      id, t := TreePut.Put(ctx, root, key, value, tree);
      LedgerStepIsMid(s, s.file, w, was, ctx.W(), t.Owned());
      root, tree := Some(id), t;
      ghost var s' := ChangedSys(s, ctx.W(), t);
      ChangeIsNext(s, s', ctx.W(), t);
      ExtendRun(env.trace, s');
      env.trace := env.trace + [s'];
    }

    /** Returns whether the key existed. */
    method Delete(key: Key) returns (existed: bool)
      requires Valid()
      modifies this`root, this`tree, ctx, env`trace
      ensures OnlyMine()
      ensures old(tree.Sound()) && tree.Sound() && Records() == Remove(old(Records()), key)
      ensures existed == (Lookup(old(Records()), key) != None)
      ensures tree.Abstract() == BTreeDelete.Delete(old(tree.Abstract()), key).0
      ensures forall ks: Keyspace :: old(env.Roomy(ks)) ==> env.Roomy(ks)
    {
      DeleteStaysRoomy(tree, key);
      hide RootRoomy, IsRun, Inv, Next, Moved, Pages.Ready, At, BTree.Valid, Owns, OursOf, BaseOf, BTreeDelete.Delete, Remove, Lookup, Entries;
      ghost var s := env.Now();
      WorkReady(env.trace);
      DeleteMeaning(tree, key);
      ghost var t;
      root, existed, t := TreeDelete.Delete(ctx, root, key, tree);
      tree := t;
      ghost var s' := ChangedSys(s, ctx.W(), t);
      ChangeIsNext(s, s', ctx.W(), t);
      ExtendRun(env.trace, s');
      env.trace := env.trace + [s'];
    }

    /** Valid but for pages the commit has written and not yet logged. */
    ghost predicate MidCommit()
      reads this, env, env.pager, ctx, ctx.pager
    {
      && |env.trace| > 0 && IsRun(env.trace) && env.pager.Valid() && ctx.pager == env.pager && env.writerLocked
      && var s := env.Now();
         && s.active == env.pager.activeMetaSlot && s.now.meta == env.committed && s.readers == env.readers
         && s.writer == Some(Writer(ctx.W().(disk := s.file.pages, unsynced := s.file.unsynced), tree, ctx.reclaimWatermark, Writing))
         && ctx.ours == OursOf(s.now, ctx.reclaimWatermark) && ctx.base == BaseOf(s.now)
         && root == tree.Id() && baseTxnId == s.now.meta.txnId
         && env.pager.mayWrite == ctx.ours && MidOperation(s, env.pager.Now())
    }

    /** So far only staged pages have been written, and only as staged. */
    ghost predicate FlushedSome()
      requires |env.trace| > 0
      reads this, env, env.pager, ctx
    {
      && (forall p: PageId :: p !in ctx.overlay ==> (p in env.pager.pages <==> p in env.Now().file.pages))
      && (forall p: PageId :: p !in ctx.overlay && p in env.pager.pages ==> env.pager.pages[p] == env.Now().file.pages[p])
      && (forall p: PageId :: p in env.pager.unsynced ==> p in env.Now().file.unsynced || p in ctx.overlay)
    }

    /**
     * SYNCPOINT: flush, store the free list, make both durable, then swap the meta page and make that durable.
     * Each numbered point is one step of the protocol, so a crash between any two is covered by its theorems.
     * It succeeds exactly when every staged node fits a page, which is to say, when every node of the transaction's
     * tree does; otherwise `encode_page` panics, nothing is published and unwinding drops the transaction. A store
     * whose trees are within the byte bound never gets there.
     */
    method Commit() returns (ok: bool)
      requires Valid()
      modifies ctx, env, env.pager
      ensures ok == AllFit(old(ctx.overlay)) && old(tree.Sound()) && ok == RootFits(old(tree.Abstract()))
      ensures env.Valid() && !env.writerLocked
      ensures forall ks: Keyspace :: old(env.Roomy(ks)) ==> ok && env.Roomy(ks)
      ensures env.readers == old(env.readers) && env.Now().clones == old(env.Now().clones) && old(env.trace) <= env.trace
      ensures ok ==>
        && env.Now().hist == old(env.Now().hist) + [old(tree)] && env.Now().now.tree == old(tree)
        && env.committed.txnId == old(env.committed.txnId) + 1 && env.committed.root == old(root)
      ensures !ok ==>
        && env.Now().hist == old(env.Now().hist) && env.Now().now == old(env.Now().now)
        && env.committed == old(env.committed) && Intact(env.Now().now, env.pager.pages)
    {
      ghost var t := tree;
      StagedFitIff(env.trace, |env.trace| - 1);
      assert tree.Sound() by { WorkReady(env.trace); }
      RoomyFitting(t);
      hide IsRun, Inv, Next, AllFit, Owns, At, Pools, OursOf, BaseOf, MidOperation, FlushedAll, FlushedSome, RoomyTree, Intact, RootFits;
      ok := FlushOverlay();
      if !ok {
        Unwind();
        return;
      }
      var newMeta;
      ghost var v;
      newMeta, v := WriteData();
      SwapMeta(newMeta, v);
    }

    /** A panic after part of the flush: the pages written stay behind, unlogged and unreachable; the rest is a rollback. */
    method Unwind()
      requires MidCommit() && FlushedSome()
      modifies env`trace, env`writerLocked
      ensures env.Valid() && !env.writerLocked
      ensures env.Now().now == old(env.Now().now) && env.Now().hist == old(env.Now().hist) && env.committed == old(env.committed)
      ensures env.readers == old(env.readers) && env.Now().clones == old(env.Now().clones) && old(env.trace) <= env.trace
      ensures Intact(env.Now().now, env.pager.pages)
    {
      hide IsRun, Inv, Next, Owns, At, Pools, OursOf, BaseOf, MidOperation, Intact;
      ghost var s := env.Now();
      ghost var s' := ChangedSys(s, ctx.W(), tree);
      PartialFlushIsNext(env.trace, ctx.W(), s');
      assert s'.file == env.pager.Now() by { MidSlots(s, env.pager.Now()); }
      Extend(s');
      Rollback();
    }

    /** Every staged page but those in `todo` fits and has been written as staged. */
    ghost predicate FlushedBut(todo: set<PageId>)
      reads this, env, env.pager, ctx
    {
      forall p: PageId :: p in ctx.overlay && p !in todo ==>
        p in env.pager.pages && env.pager.pages[p] == NodePage(ctx.overlay[p]) && EncodedLen(ctx.overlay[p]) <= PAGE_SIZE
    }

    /** Write every staged node to its page, in no particular order, until one does not fit. */
    method FlushOverlay() returns (ok: bool)
      requires Valid()
      modifies env.pager`pages, env.pager`unsynced
      ensures ok == AllFit(ctx.overlay) && MidCommit() && FlushedSome()
      ensures ok ==> FlushedAll(old(ctx.W()), env.pager.pages, env.pager.unsynced)
    {
      hide IsRun, Inv, Next, Owns, At, Pools, OursOf, BaseOf, MidOperation, EncodedLen;
      ghost var s := env.Now();
      RunInv(env.trace, |env.trace| - 1);
      MidStart(s);
      StagedMine();
      var todo := ctx.overlay.Keys;
      while todo != {}
        invariant todo <= ctx.overlay.Keys
        invariant FlushedBut(todo) && FlushedSome() && MidOperation(s, env.pager.Now())
        decreases |todo|
      {
        var id :| id in todo;
        if EncodedLen(ctx.overlay[id]) > PAGE_SIZE {
          return false;
        }
        FlushPage(id, todo);
        todo := todo - {id};
      }
      ok := true;
    }

    method FlushPage(id: PageId, ghost todo: set<PageId>)
      requires |env.trace| > 0 && Inv(env.Now()) && env.Now().writer.Some? && env.Now().writer.value.work.overlay == ctx.overlay
      requires id in todo && id in ctx.overlay && id in env.pager.mayWrite && EncodedLen(ctx.overlay[id]) <= PAGE_SIZE
      requires FlushedBut(todo) && FlushedSome() && MidOperation(env.Now(), env.pager.Now())
      modifies env.pager`pages, env.pager`unsynced
      ensures FlushedBut(todo - {id}) && FlushedSome() && MidOperation(env.Now(), env.pager.Now())
    {
      hide Inv, MidOperation, EncodedLen;
      FlushStepIsMid(env.Now(), env.pager.Now(), id, NodePage(ctx.overlay[id]));
      env.pager.WritePage(id, NodePage(ctx.overlay[id]));
    }

    /** The transaction's obsolete pages join the free list, which is stored at the end of the file. */
    method StoreFreeList(newTxnId: nat) returns (head: Option<PageId>, next: PageId, ghost chain: seq<PageId>)
      requires ctx.pager == env.pager && env.pager.Valid()
      requires forall p: PageId :: p >= ctx.nextPage ==> p in env.pager.mayWrite
      modifies ctx, env.pager`pages, env.pager`unsynced
      ensures env.pager.Valid() && ctx.nextPage == old(ctx.nextPage) && ctx.overlay == old(ctx.overlay)
      ensures Linked(chain, head, env.pager.pages)
      ensures multiset(Loaded(chain, head, env.pager.pages))
           == multiset(old(ctx.freeList) + Tagged(old(ctx.obsolete) + old(ctx.scratchPool), newTxnId))
      ensures Loaded(chain, head, env.pager.pages)
           == BackToFront(Batches(old(ctx.freeList) + Tagged(old(ctx.obsolete) + old(ctx.scratchPool), newTxnId)))
      ensures next >= ctx.nextPage && multiset(chain) == Span(ctx.nextPage, next)
      ensures OnlyBeyond(ctx.nextPage, old(env.pager.pages), old(env.pager.unsynced), env.pager.pages, env.pager.unsynced)
    {
      hide Linked, Loaded, Tagged, Span, OnlyBeyond;
      ctx.obsolete := ctx.obsolete + ctx.scratchPool;
      ctx.freeList := ctx.freeList + Tagged(ctx.obsolete, newTxnId);
      head, next, chain := FreeList.Store(env.pager, ctx.nextPage, ctx.freeList);
    }

    /** Point 1: the overlay is written; now the new free list. */
    method WriteData() returns (newMeta: Meta, ghost v: Version)
      requires MidCommit() && AllFit(ctx.overlay) && FlushedAll(Last(env.trace).writer.value.work, env.pager.pages, env.pager.unsynced)
      modifies ctx, env`trace, env.pager`pages, env.pager`unsynced
      ensures env.Valid() && env.trace == old(env.trace) + [env.Now()]
      ensures newMeta == v.meta && v.tree == tree && v.meta.txnId == env.committed.txnId + 1 && v.meta.root == root
      ensures env.Now().writer.Some? && env.Now().writer.value.stage == Written(v) && env.Now().writer.value.tree == tree
      ensures env.Now().hist == old(env.Now().hist) && env.Now().now == old(env.Now().now) && env.Now().clones == old(env.Now().clones)
      ensures MidOperation(old(env.Now()), env.pager.Now())
    {
      hide *;
      MidFacts();
      ghost var s := Last(env.trace);
      ghost var pages1, unsynced1 := env.pager.pages, env.pager.unsynced;
      var head, next;
      ghost var chain;
      ghost var mid := env.pager.Now();
      FileIs();
      head, next, chain := StoreFreeList(env.committed.txnId + 1);
      BeyondIsMid(s, mid, env.pager.pages, env.pager.unsynced);
      FileIs();
      newMeta := env.committed.Advance(root, next, head);
      v := Version(newMeta, tree, Loaded(chain, head, env.pager.pages), chain, s.now.leaked + multiset(chain));
      VersionWritten(s, v, head, next, chain, pages1, unsynced1, env.pager.pages, env.pager.unsynced);
      LogData(v, pages1, unsynced1);
    }

    lemma FileIs()
      ensures env.pager.Now() == File(env.pager.pages, env.pager.unsynced, env.pager.slots, env.pager.durable)
    {
    }

    /** What the writer has staged it may write. */
    lemma StagedMine()
      requires Valid()
      ensures forall p: PageId :: p in ctx.overlay ==> p in env.pager.mayWrite
    {
      hide Inv, OursOf, BaseOf, IsRun;
      RunInv(env.trace, |env.trace| - 1);
      WorkOfInv(env.Now());
      forall p: PageId | p in ctx.overlay ensures p in ctx.ours {
        StagedIsOurs(env.Now(), env.Now().writer.value, p);
      }
    }

    lemma MidFacts()
      requires MidCommit()
      ensures |env.trace| > 0 && IsRun(env.trace) && env.pager.Valid() && env.writerLocked && ctx.pager == env.pager
      ensures var s := Last(env.trace);
        && env.Now() == s && s.file.slots == env.pager.slots && s.file.durable == env.pager.durable
        && s.active == env.pager.activeMetaSlot && s.now.meta == env.committed && s.readers == env.readers
        && s.writer.Some? && s.writer.value.stage.Writing? && s.writer.value.tree == tree && root == tree.Id()
      ensures var x := Last(env.trace).writer.value.work;
        x.next == ctx.nextPage && x.free == ctx.freeList && x.obsolete == ctx.obsolete && x.scratch == ctx.scratchPool && x.overlay == ctx.overlay
      ensures forall p: PageId :: p >= ctx.nextPage ==> p in env.pager.mayWrite
      ensures Inv(env.Now()) && MidOperation(env.Now(), env.pager.Now())
    {
      hide Inv, OursOf, BaseOf, MidOperation, IsRun;
      MidSlots(env.Now(), env.pager.Now());
      RunInv(env.trace, |env.trace| - 1);
      WorkOfInv(env.Now());
      forall p: PageId | p >= ctx.nextPage ensures p in ctx.ours {
        BeyondIsOurs(env.Now(), env.Now().writer.value, p);
      }
    }

    /** The trace reaches the state in which version `v` is written. */
    ghost method LogData(v: Version, pages1: Disk, unsynced1: set<PageId>)
      requires |env.trace| > 0 && IsRun(env.trace) && env.pager.Valid() && env.writerLocked
      requires var s := Last(env.trace);
        && s.file.slots == env.pager.slots && s.file.durable == env.pager.durable
        && s.active == env.pager.activeMetaSlot && s.now.meta == env.committed && s.readers == env.readers
        && s.writer.Some? && s.writer.value.stage.Writing? && s.writer.value.tree == tree
        && DataWritten(s, v, pages1, unsynced1, env.pager.pages, env.pager.unsynced)
      modifies env`trace
      ensures env.Valid() && env.trace == old(env.trace) + [env.Now()]
      ensures var s := env.Now();
        && s.writer.Some? && s.writer.value.stage == Written(v) && s.writer.value.tree == tree
        && s.hist == old(env.Now().hist) && s.now == old(env.Now().now) && s.clones == old(env.Now().clones)
    {
      hide IsRun, Inv, Next, DataWritten;
      ghost var s := env.Now();
      ghost var s' := WrittenSys(s, v, env.pager.Now());
      WriteDataIsNext(env.trace, s, s', v, pages1, unsynced1);
      Extend(s');
    }

    /** Points 2 to 5: data durable, other meta slot written, meta durable, new version published. */
    method SwapMeta(newMeta: Meta, ghost v: Version)
      requires env.Valid() && newMeta == v.meta && env.Now().writer.Some? && env.Now().writer.value.stage == Written(v)
      modifies env, env.pager
      ensures env.Valid() && !env.writerLocked && env.readers == old(env.readers)
      ensures env.Now().clones == old(env.Now().clones)
      ensures env.committed == newMeta && env.Now().now == v && env.Now().hist == old(env.Now().hist) + [v.tree]
      ensures old(env.trace) <= env.trace
    {
      hide *;
      var nextSlot := WriteMeta(newMeta, v);
      PublishMeta(newMeta, nextSlot, v);
    }

    /** Points 2 and 3: the data made durable, then the meta put in the slot that is not current. */
    method WriteMeta(newMeta: Meta, ghost v: Version) returns (nextSlot: nat)
      requires env.Valid() && newMeta == v.meta && env.Now().writer.Some? && env.Now().writer.value.stage == Written(v)
      modifies env`trace, env.pager
      ensures env.Valid() && nextSlot == 1 - env.pager.activeMetaSlot
      ensures old(env.trace) <= env.trace
      ensures env.Now().writer.Some? && env.Now().writer.value.stage == MetaWritten(v)
      ensures env.Now().hist == old(env.Now().hist) && env.Now().clones == old(env.Now().clones)
    {
      hide IsRun, Inv, Next;
      ghost var s1 := env.Now();
      env.pager.SyncData();
      ghost var s2 := StageSys(s1, env.pager.Now(), Synced(v));
      SyncDataIsNext(s1, s2, v);
      Extend(s2);
      nextSlot := 1 - env.pager.activeMetaSlot;
      env.pager.WriteMetaSlot(nextSlot, newMeta);
      ghost var s3 := StageSys(s2, env.pager.Now(), MetaWritten(v));
      WriteMetaIsNext(s2, s3, v);
      Extend(s3);
    }

    /** Points 4 and 5: the meta made durable, then the new version published. */
    method PublishMeta(newMeta: Meta, nextSlot: nat, ghost v: Version)
      requires env.Valid() && newMeta == v.meta && env.Now().writer.Some? && env.Now().writer.value.stage == MetaWritten(v)
      requires nextSlot == 1 - env.pager.activeMetaSlot
      modifies env, env.pager
      ensures env.Valid() && !env.writerLocked && env.readers == old(env.readers)
      ensures env.Now().clones == old(env.Now().clones)
      ensures env.committed == newMeta && env.Now().now == v && env.Now().hist == old(env.Now().hist) + [v.tree]
      ensures old(env.trace) <= env.trace
    {
      hide IsRun, Inv, Next;
      ghost var s3 := env.Now();
      env.pager.SyncData();
      ghost var s4 := StageSys(s3, env.pager.Now(), MetaSynced(v));
      SyncMetaIsNext(s3, s4, v);
      Extend(s4);
      env.pager.activeMetaSlot := nextSlot;
      env.committed := newMeta;
      env.writerLocked := false;
      ghost var s5 := s4.(active := nextSlot, now := v, hist := s4.hist + [v.tree], writer := None);
      PublishIsNext(s4, s5, v);
      Extend(s5);
    }

    ghost method Extend(s: Sys)
      requires |env.trace| > 0 && IsRun(env.trace) && Next(Last(env.trace), s)
      modifies env`trace
      ensures env.trace == old(env.trace) + [s] && IsRun(env.trace) && Last(env.trace) == s
    {
      ExtendRun(env.trace, s);
      env.trace := env.trace + [s];
    }

    /** Abandon the transaction; the next one starts again from the committed version. */
    method Rollback()
      requires Valid()
      modifies env`trace, env`writerLocked
      ensures env.Valid() && !env.writerLocked
      ensures env.Now().now == old(env.Now().now) && env.Now().hist == old(env.Now().hist) && env.committed == old(env.committed)
      ensures env.readers == old(env.readers) && env.Now().clones == old(env.Now().clones) && old(env.trace) <= env.trace
      ensures Intact(env.Now().now, env.pager.pages)
      ensures forall ks: Keyspace :: old(env.Roomy(ks)) ==> env.Roomy(ks)
    {
      hide IsRun, Inv, Next, Intact;
      ghost var s := env.Now();
      RunInv(env.trace, |env.trace| - 1);
      ghost var s' := s.(writer := None);
      RollbackInv(s, s');
      RollbackIsNext(s, s');
      ExtendRun(env.trace, s');
      env.trace := env.trace + [s'];
      env.writerLocked := false;
    }
  }

  lemma RoomyFitting(t: LocatedRoot)
    ensures forall ks: Keyspace :: RoomyTree(t, ks) ==> TreeFits(t)
  {
    forall ks: Keyspace | RoomyTree(t, ks) ensures TreeFits(t) {
      RoomyTreeFits(t, ks);
    }
  }

  lemma PutStaysRoomy(t: LocatedRoot, key: Key, value: Bytes)
    ensures forall ks: Keyspace :: RoomyTree(t, ks) && InSpace(key, ks) ==> RootRoomy(BTreePut.Put(t.Abstract(), key, value), ks)
  {
    hide RootRoomy;
    forall ks: Keyspace | RoomyTree(t, ks) && InSpace(key, ks) ensures RootRoomy(BTreePut.Put(t.Abstract(), key, value), ks) {
      PutRoomy(t.Abstract(), key, value, ks);
    }
  }

  lemma DeleteStaysRoomy(t: LocatedRoot, key: Key)
    ensures forall ks: Keyspace :: RoomyTree(t, ks) ==> RootRoomy(BTreeDelete.Delete(t.Abstract(), key).0, ks)
  {
    hide RootRoomy;
    forall ks: Keyspace | RoomyTree(t, ks) ensures RootRoomy(BTreeDelete.Delete(t.Abstract(), key).0, ks) {
      DeleteRoomy(t.Abstract(), key, ks);
    }
  }

  lemma MidSlots(s: Sys, mid: File)
    requires MidOperation(s, mid)
    ensures mid.slots == s.file.slots && mid.durable == s.file.durable
  {
  }

  // ----- a flush that stopped half way -----

  lemma {:induction false} ChainUnderOverlay(chain: seq<PageId>, chunks: seq<Bytes>, w: Work, w': Work)
    requires ChainAt(chain, chunks, w) && w'.overlay == w.overlay
    requires forall p: PageId :: p !in w.overlay ==> DiskAt(w, p) == DiskAt(w', p)
    ensures ChainAt(chain, chunks, w')
  {
    hide DiskAt;
    if chain != [] {
      ChainUnderOverlay(chain[1..], chunks[1..], w, w');
    }
  }

  /** Pages hidden under the overlay may hold anything. */
  lemma {:induction false} AtUnderOverlay(d: Located, w: Work, w': Work, base: iset<PageId>)
    requires At(d, w, base) && w'.overlay == w.overlay
    requires forall p: PageId :: p !in w.overlay ==> DiskAt(w, p) == DiskAt(w', p)
    ensures At(d, w', base)
    decreases d
  {
    hide DiskAt;
    assert NodeAt(w, d.id) == NodeAt(w', d.id);
    match d
    case AtLeaf(_, _, vals) =>
      forall i | 0 <= i < |vals| ensures ValAt(vals[i], w') {
        if |vals[i].bytes| > INLINE_VALUE_LIMIT {
          ChainUnderOverlay(vals[i].chain, Chunks(vals[i].bytes), w, w');
        }
      }
    case AtNode(_, _, children) =>
      forall i | 0 <= i < |children| ensures At(children[i], w', base) {
        AtUnderOverlay(children[i], w, w', base);
      }
  }

  lemma PartialFlushIsNext(run: seq<Sys>, x: Work, s': Sys)
    requires IsRun(run) && Last(run).writer.Some? && Last(run).writer.value.stage.Writing?
    requires var w := Last(run).writer.value;
      && x == w.work.(disk := x.disk, unsynced := x.unsynced) && s' == ChangedSys(Last(run), x, w.tree)
      && (forall p: PageId :: p !in x.overlay ==> (p in x.disk <==> p in Last(run).file.pages))
      && (forall p: PageId :: p !in x.overlay && p in x.disk ==> x.disk[p] == Last(run).file.pages[p])
      && (forall p: PageId :: p in x.unsynced ==> p in Last(run).file.unsynced || p in x.overlay)
    ensures Next(Last(run), s')
  {
    hide Inv, IsRun, OursOf, BaseOf, At, Balanced, Owns, Pools, Next;
    RunNotEmpty(run);
    var s, w := Last(run), Last(run).writer.value;
    RunInv(run, |run| - 1);
    WorkOfInv(s);
    assert forall p: PageId :: p !in x.overlay ==> DiskAt(w.work, p) == DiskAt(x, p);
    if w.tree.Planted? {
      AtUnderOverlay(w.tree.d, w.work, x, BaseOf(s.now));
    }
    forall p: PageId | p in x.overlay ensures p in w.tree.Owned() && p in OursOf(s.now, w.mark) {
      StagedIsOurs(s, w, p);
      StagedIsOwned(run, p);
    }
    FlushMoved(w.work, x, w.tree.Owned(), OursOf(s.now, w.mark), w.mark);
    ChangeIsNext(s, s', x, w.tree);
  }

  lemma StagedIsOwned(run: seq<Sys>, p: PageId)
    requires IsRun(run) && Last(run).writer.Some? && Last(run).writer.value.stage.Writing?
    requires p in Last(run).writer.value.work.overlay
    ensures p in Last(run).writer.value.tree.Owned()
  {
    CopyOnWriteExact(run, |run| - 1, p);
    hide IsRun, Clear;
    NodeIdsOwned(Last(run).writer.value.tree.d, p);
  }

  lemma FlushMoved(w: Work, x: Work, ids: multiset<PageId>, ours: iset<PageId>, mark: nat)
    requires Owns(w, ours, mark) && x == w.(disk := x.disk, unsynced := x.unsynced)
    requires forall p: PageId :: p in x.overlay ==> p in ids && p in ours
    requires forall p: PageId :: p !in x.overlay ==> DiskAt(w, p) == DiskAt(x, p)
    requires forall p: PageId :: p in x.unsynced ==> p in w.unsynced || p in x.overlay
    ensures Moved(w, ids, x, ids, ours, mark)
  {
    assert Pools(x) == Pools(w) && Span(w.next, x.next) == multiset{};
    hide DiskAt, Pools, Span;
  }

  lemma PutMeaning(t: LocatedRoot, key: Key, value: Bytes)
    requires t.Sound()
    ensures RootShape(t.Abstract())
    ensures RootEntries(BTreePut.Put(t.Abstract(), key, value)) == Upsert(RootEntries(t.Abstract()), key, value)
  {
    PutCorrect(t.Abstract(), key, value);
  }

  lemma DeleteMeaning(t: LocatedRoot, key: Key)
    requires t.Sound()
    ensures RootShape(t.Abstract())
    ensures var r := BTreeDelete.Delete(t.Abstract(), key);
      && RootEntries(r.0) == Remove(RootEntries(t.Abstract()), key)
      && r.1 == (Lookup(RootEntries(t.Abstract()), key) != None)
  {
    BTreeDelete.DeleteCorrect(t.Abstract(), key);
    LookupIsMapRead(RootEntries(t.Abstract()), key);
  }

  lemma WorkReady(run: seq<Sys>)
    requires IsRun(run) && Last(run).writer.Some? && Last(run).writer.value.stage.Writing?
    ensures var s := Last(run);
      var w := s.writer.value;
      && w.tree.Sound() && w.tree.Here(w.work, BaseOf(s.now))
      && Pages.Ready(w.work, w.tree.Owned(), OursOf(s.now, w.mark), w.mark)
  {
    RunInv(run, |run| - 1);
    var s, w := Last(run), Last(run).writer.value;
    WorkOfInv(s);
    NextPage(s.now);
    hide Inv, IsRun, Balanced, Owns;
    assert w.tree.Owned() + Pools(w.work) <= w.tree.Owned() + Pools(w.work) + s.now.leaked;
  }

  lemma WorkReadable(run: seq<Sys>, overlay: Overlay)
    requires IsRun(run) && Last(run).writer.Some? && Last(run).writer.value.stage.Writing?
    requires overlay == Last(run).writer.value.work.overlay
    ensures var s := Last(run);
      var w := s.writer.value;
      w.tree.Sound() && w.tree.Here(TreeRead.View(s.file.pages, overlay), BaseOf(s.now))
  {
    hide Inv, IsRun, Owns, At, BTree.Valid, Pools, BaseOf, OursOf, Balanced;
    RunNotEmpty(run);
    RunInv(run, |run| - 1);
    var s, w := Last(run), Last(run).writer.value;
    WorkOfInv(s);
    assert forall p: PageId :: SameAt(w.work, TreeRead.View(s.file.pages, overlay), p);
    if w.tree.Planted? {
      AtKept(w.tree.d, w.work, TreeRead.View(s.file.pages, overlay), BaseOf(s.now));
    }
  }

  /** The state after the writer's tree operation. */
  ghost function ChangedSys(s: Sys, work: Work, t: LocatedRoot): Sys
    requires s.writer.Some?
  {
    s.(file := s.file.(pages := work.disk, unsynced := work.unsynced), writer := Some(s.writer.value.(work := work, tree := t)))
  }

  lemma ChangeIsNext(s: Sys, s': Sys, work: Work, t: LocatedRoot)
    requires s.writer.Some? && s.writer.value.stage.Writing? && s' == ChangedSys(s, work, t)
    requires var w := s.writer.value; Moved(w.work, w.tree.Owned(), work, t.Owned(), OursOf(s.now, w.mark), w.mark)
    requires t.Sound() && t.Here(work, BaseOf(s.now)) && (s.writer.value.tree.Trimmed() ==> t.Trimmed())
    ensures Next(s, s')
  {
    hide Moved;
    assert Change(s, s');
  }

  lemma RollbackIsNext(s: Sys, s': Sys)
    requires s.writer.Some? && s.writer.value.stage.Writing? && s' == s.(writer := None)
    ensures Next(s, s')
  {
    assert Protocol.Rollback(s, s');
  }

  ghost function WrittenSys(s: Sys, v: Version, file: File): Sys
    requires s.writer.Some?
  {
    s.(file := s.file.(pages := file.pages, unsynced := file.unsynced), writer := Some(s.writer.value.(stage := Written(v))))
  }

  ghost function StageSys(s: Sys, file: File, stage: Stage): Sys
    requires s.writer.Some?
  {
    s.(file := file, writer := Some(s.writer.value.(stage := stage)))
  }

  /** Flushing has led to `pages1`, and storing the free list from there to `pages`, where version `v` lies complete. */
  ghost predicate DataWritten(s: Sys, v: Version, pages1: Disk, unsynced1: set<PageId>, pages: Disk, unsynced: set<PageId>)
    requires s.writer.Some?
  {
    var w := s.writer.value;
    var x := w.work;
    && v.meta == s.now.meta.Advance(w.tree.Id(), v.meta.nextPage, v.meta.freeListHead) && v.tree == w.tree
    && x.next <= v.meta.nextPage && multiset(v.chain) == Span(x.next, v.meta.nextPage)
    && v.leaked == s.now.leaked + multiset(v.chain)
    && Linked(v.chain, v.meta.freeListHead, pages) && Loaded(v.chain, v.meta.freeListHead, pages) == v.free
    && multiset(v.free) == multiset(x.free + Tagged(x.obsolete + x.scratch, v.meta.txnId)) && AllFit(x.overlay)
    && FlushedAll(x, pages1, unsynced1) && OnlyBeyond(x.next, pages1, unsynced1, pages, unsynced)
  }

  ghost predicate FlushedAll(x: Work, pages: Disk, unsynced: set<PageId>) {
    FlushedOver(x, pages) && forall p: PageId :: p in unsynced ==> p in x.unsynced || p in x.overlay
  }

  lemma VersionWritten(s: Sys, v: Version, head: Option<PageId>, next: PageId, chain: seq<PageId>,
                       pages1: Disk, unsynced1: set<PageId>, pages: Disk, unsynced: set<PageId>)
    requires s.writer.Some? && AllFit(s.writer.value.work.overlay) && FlushedAll(s.writer.value.work, pages1, unsynced1)
    requires var x := s.writer.value.work;
      && next >= x.next && multiset(chain) == Span(x.next, next) && Linked(chain, head, pages)
      && multiset(Loaded(chain, head, pages)) == multiset(x.free + Tagged(x.obsolete + x.scratch, s.now.meta.txnId + 1))
      && OnlyBeyond(x.next, pages1, unsynced1, pages, unsynced)
    requires v == Version(s.now.meta.Advance(s.writer.value.tree.Id(), next, head), s.writer.value.tree, Loaded(chain, head, pages), chain,
                          s.now.leaked + multiset(chain))
    ensures DataWritten(s, v, pages1, unsynced1, pages, unsynced)
    ensures v.meta.txnId == s.now.meta.txnId + 1 && v.meta.root == s.writer.value.tree.Id()
  {
    hide Span, Linked, Loaded, Tagged, OnlyBeyond, FlushedAll;
  }

  lemma WriteDataIsNext(run: seq<Sys>, s: Sys, s': Sys, v: Version, pages1: Disk, unsynced1: set<PageId>)
    requires IsRun(run) && s == Last(run) && s.writer.Some? && s.writer.value.stage.Writing?
    requires s' == WrittenSys(s, v, s'.file) && DataWritten(s, v, pages1, unsynced1, s'.file.pages, s'.file.unsynced)
    ensures Next(s, s')
  {
    RunInv(run, |run| - 1);
    WorkOfInv(s);
    var w := s.writer.value;
    TwoWrites(w.work, pages1, unsynced1, s'.file.pages, s'.file.unsynced, OursOf(s.now, w.mark), w.mark);
    SamePages(w.work, s.file.pages, s'.file.pages);
    hide *;
    IsWriteData(s, s', v);
    WriteDataStep(s, s');
  }

  lemma IsWriteData(s: Sys, s': Sys, v: Version)
    requires s.writer.Some? && s.writer.value.stage.Writing? && s' == WrittenSys(s, v, s'.file)
    requires var w := s.writer.value;
      var x := w.work;
      && v.meta == s.now.meta.Advance(w.tree.Id(), v.meta.nextPage, v.meta.freeListHead) && v.tree == w.tree
      && x.next <= v.meta.nextPage && multiset(v.chain) == Span(x.next, v.meta.nextPage)
      && v.leaked == s.now.leaked + multiset(v.chain)
      && Linked(v.chain, v.meta.freeListHead, s'.file.pages) && Loaded(v.chain, v.meta.freeListHead, s'.file.pages) == v.free
      && multiset(v.free) == multiset(x.free + Tagged(x.obsolete + x.scratch, v.meta.txnId))
      && (forall p: PageId :: p in x.overlay ==> DiskAt(TreeRead.View(s'.file.pages, map[]), p) == Some(NodePage(x.overlay[p])))
      && (forall p: PageId :: p < x.next && p !in x.overlay ==>
            DiskAt(TreeRead.View(s'.file.pages, map[]), p) == DiskAt(TreeRead.View(s.file.pages, map[]), p))
      && (forall p: PageId :: p in s'.file.unsynced ==> p in s.file.unsynced || p in OursOf(s.now, w.mark))
      && AllFit(x.overlay)
    ensures Protocol.WriteData(s, s')
  {
    hide Linked, Loaded, Tagged, OursOf, Span;
  }

  lemma WriteDataStep(s: Sys, s': Sys)
    requires Protocol.WriteData(s, s')
    ensures Next(s, s')
  {
    hide Protocol.WriteData;
  }

  /** Flushing and then writing beyond the old end of the file. */
  lemma TwoWrites(x: Work, pages1: Disk, unsynced1: set<PageId>, pages2: Disk, unsynced2: set<PageId>, ours: iset<PageId>, mark: nat)
    requires Owns(x, ours, mark) && FlushedOver(x, pages1)
    requires forall p: PageId :: p in unsynced1 ==> p in x.unsynced || p in x.overlay
    requires OnlyBeyond(x.next, pages1, unsynced1, pages2, unsynced2)
    ensures FlushedOver(x, pages2)
    ensures forall p: PageId :: p in unsynced2 ==> p in x.unsynced || p in ours
  {
    hide Pools;
    forall p: PageId | p < x.next
      ensures DiskAt(TreeRead.View(pages2, map[]), p) == DiskAt(TreeRead.View(pages1, map[]), p)
    {
    }
  }

  lemma SamePages(x: Work, pages: Disk, pages2: Disk)
    requires FlushedOver(x, pages2) && x.disk == pages
    ensures forall p: PageId :: p in x.overlay ==> DiskAt(TreeRead.View(pages2, map[]), p) == Some(NodePage(x.overlay[p]))
    ensures forall p: PageId :: p < x.next && p !in x.overlay ==>
              DiskAt(TreeRead.View(pages2, map[]), p) == DiskAt(TreeRead.View(pages, map[]), p)
  {
    forall p: PageId | p < x.next && p !in x.overlay
      ensures DiskAt(TreeRead.View(pages2, map[]), p) == DiskAt(TreeRead.View(pages, map[]), p)
    {
      assert DiskAt(TreeRead.View(pages2, map[]), p) == DiskAt(x, p);
    }
  }

  lemma SyncDataIsNext(s: Sys, s': Sys, v: Version)
    requires s.writer.Some? && s.writer.value.stage == Written(v)
    requires s' == StageSys(s, s.file.(unsynced := {}, durable := s.file.slots), Synced(v))
    ensures Next(s, s')
  {
    assert Protocol.SyncData(s, s');
  }

  lemma WriteMetaIsNext(s: Sys, s': Sys, v: Version)
    requires s.writer.Some? && s.writer.value.stage == Synced(v) && |s.file.slots| == 2 && s.active < 2
    requires s' == StageSys(s, s.file.(slots := s.file.slots[1 - s.active := Some(v.meta)]), MetaWritten(v))
    ensures Next(s, s')
  {
    assert WriteMeta(s, s');
  }

  lemma SyncMetaIsNext(s: Sys, s': Sys, v: Version)
    requires s.writer.Some? && s.writer.value.stage == MetaWritten(v)
    requires s' == StageSys(s, s.file.(unsynced := {}, durable := s.file.slots), MetaSynced(v))
    ensures Next(s, s')
  {
    assert SyncMeta(s, s');
  }

  lemma PublishIsNext(s: Sys, s': Sys, v: Version)
    requires s.writer.Some? && s.writer.value.stage == MetaSynced(v) && s.active < 2
    requires s' == s.(active := 1 - s.active, now := v, hist := s.hist + [v.tree], writer := None)
    ensures Next(s, s')
  {
    assert Publish(s, s');
  }
}
