/**
 * When `begin_read` isolates: src/storage/txn.rs:42-46 copies the committed meta page first and registers the reader
 * afterwards. `Protocol` proves isolation when no copy that was overtaken in between may register; here is the converse,
 * by a run in which two commits and a third writer overtake a reader and its page is rewritten.
 */
module Race {
  import opened Bytes
  import opened SortedList
  import BTree
  import opened BTreePut
  import opened Pages
  import opened PagerFile
  import opened TreePut
  import opened TreeRead
  import opened FreeList
  import opened Protocol
  import opened Txn

  /** Between transactions, with no reader registered. */
  ghost predicate AtRest(s: Sys, v: Version, hist: seq<LocatedRoot>, clones: seq<Clone>, pages: Disk) {
    && s.now == v && s.hist == hist && s.clones == clones && s.readers == [] && s.writer == None
    && s.file.pages == pages && s.file.unsynced == {} && |s.file.slots| == 2 && s.active < 2
  }

  // ----- runs in which copies may be overtaken -----

  /** A step in which a copy may still register after having been overtaken `k` times. */
  ghost predicate LooseNext(k: nat, s: Sys, s': Sys) {
    Next(s, s') || exists i :: Register(s, s', i, k)
  }

  ghost predicate IsLooseRun(k: nat, run: seq<Sys>) {
    && |run| > 0 && Init(run[0])
    && forall i :: 0 <= i < |run| - 1 ==> LooseNext(k, run[i], run[i + 1])
  }

  /** Every registered reader finds the records that were committed when its transaction was current. */
  ghost predicate Isolated(run: seq<Sys>) {
    forall i, j :: 0 <= i <= j < |run| && run[i].now.meta.txnId in run[j].readers ==>
      run[i].now.tree.Sound() && Reads(run[j].file.pages, run[i].now.meta.root, RootEntries(run[i].now.tree.Abstract()))
  }

  lemma NotLoose(run: seq<Sys>)
    ensures IsLooseRun(0, run) <==> IsRun(run)
  {
    hide CloneMeta, DropReader, BeginWrite, Change, Rollback, WriteData, SyncData, WriteMeta, SyncMeta, Publish, Crash, Init, Register;
    forall i | 0 <= i < |run| - 1 ensures LooseNext(0, run[i], run[i + 1]) <==> Next(run[i], run[i + 1]) {
    }
  }

  /** What a writer over version `now` starts from. */
  ghost function Fresh(now: Version, disk: Disk): Work {
    Work(disk, {}, map[], now.meta.nextPage, now.free, [], [])
  }

  /** A tree operation on version `now` has led to `x`. */
  ghost predicate Changes(now: Version, disk: Disk, x: Work, v: Version) {
    && Moved(Fresh(now, disk), now.tree.Owned(), x, v.tree.Owned(), OursOf(now, U64_MAX), U64_MAX)
    && v.tree.Sound() && v.tree.Here(x, BaseOf(now)) && v.tree.Trimmed() && x.disk == disk && x.unsynced == {}
  }

  /** Committing `x` writes version `v` and leaves these pages. */
  ghost predicate Commits(now: Version, x: Work, v: Version, pages: Disk) {
    && v.meta == now.meta.Advance(v.tree.Id(), v.meta.nextPage, v.meta.freeListHead) && AllFit(x.overlay)
    && x.next <= v.meta.nextPage && multiset(v.chain) == Span(x.next, v.meta.nextPage)
    && v.leaked == now.leaked + multiset(v.chain)
    && Linked(v.chain, v.meta.freeListHead, pages) && Loaded(v.chain, v.meta.freeListHead, pages) == v.free
    && multiset(v.free) == multiset(x.free + Tagged(x.obsolete + x.scratch, v.meta.txnId))
    && (forall p: PageId :: p in x.overlay ==> DiskAt(View(pages, map[]), p) == Some(NodePage(x.overlay[p])))
    && (forall p: PageId :: p < x.next && p !in x.overlay ==> DiskAt(View(pages, map[]), p) == DiskAt(View(x.disk, map[]), p))
  }

  /** Begin, and one tree operation. */
  lemma BeginAndChange(run: seq<Sys>, now: Version, hist: seq<LocatedRoot>, clones: seq<Clone>, disk: Disk, x: Work, v: Version) returns (run': seq<Sys>)
    requires IsRun(run) && AtRest(Last(run), now, hist, clones, disk) && Changes(now, disk, x, v)
    ensures IsRun(run') && run <= run'
    ensures Last(run') == Last(run).(writer := Some(Writer(x, v.tree, U64_MAX, Writing)), clones := Overtake(clones, now.meta.txnId, U64_MAX))
  {
    var s := Last(run);
    hide IsRun, Inv, Next, Moved, OursOf, BaseOf, At, Overtake, Pools, Span;
    var s1 := s.(writer := Some(Writer(Fresh(now, disk), now.tree, U64_MAX, Writing)), clones := Overtake(clones, now.meta.txnId, U64_MAX));
    BeginWriteIsNext(s, s1);
    ExtendRun(run, s1);
    var s2 := ChangedSys(s1, x, v.tree);
    ChangeIsNext(s1, s2, x, v.tree);
    ExtendRun(run + [s1], s2);
    run' := run + [s1] + [s2];
  }

  /** A whole transaction: begin, one tree operation, commit. */
  lemma OneTxn(run: seq<Sys>, now: Version, hist: seq<LocatedRoot>, clones: seq<Clone>, disk: Disk, x: Work, v: Version, pages: Disk) returns (run': seq<Sys>)
    requires IsRun(run) && AtRest(Last(run), now, hist, clones, disk)
    requires Changes(now, disk, x, v) && Commits(now, x, v, pages)
    ensures IsRun(run') && run <= run' && AtRest(Last(run'), v, hist + [v.tree], Overtake(clones, now.meta.txnId, U64_MAX), pages)
  {
    hide *;
    RunNotEmpty(run);
    ChangesDisk(now, disk, x, v);
    run' := BeginAndChange(run, now, hist, clones, disk, x, v);
    RunNotEmpty(run');
    var s, s0 := Last(run'), Last(run);
    AtRestParts(s0, now, hist, clones, disk);
    var s' := WrittenSys(s, v, s.file.(pages := pages));
    CommitsIsWriteData(s, s', now, x, v, pages, {});
    WriteDataStep(s, s');
    ExtendRun(run', s');
    WrittenParts(s, v, s.file.(pages := pages));
    run' := Swapped(run' + [s'], v);
    IsAtRest(Last(run'), v, hist + [v.tree], Overtake(clones, now.meta.txnId, U64_MAX), pages);
  }

  lemma ChangesDisk(now: Version, disk: Disk, x: Work, v: Version)
    requires Changes(now, disk, x, v)
    ensures x.disk == disk
  {
    hide Moved, At;
  }

  lemma AtRestParts(s: Sys, v: Version, hist: seq<LocatedRoot>, clones: seq<Clone>, pages: Disk)
    requires AtRest(s, v, hist, clones, pages)
    ensures s.now == v && s.hist == hist && s.clones == clones && s.readers == [] && s.writer == None
    ensures s.file.pages == pages && s.file.unsynced == {} && |s.file.slots| == 2 && s.active < 2
  {
  }

  lemma IsAtRest(s: Sys, v: Version, hist: seq<LocatedRoot>, clones: seq<Clone>, pages: Disk)
    requires s.now == v && s.hist == hist && s.clones == clones && s.readers == [] && s.writer == None
    requires s.file.pages == pages && s.file.unsynced == {} && |s.file.slots| == 2 && s.active < 2
    ensures AtRest(s, v, hist, clones, pages)
  {
  }

  lemma WrittenParts(s: Sys, v: Version, file: File)
    requires s.writer.Some?
    ensures WrittenSys(s, v, file)
         == s.(file := s.file.(pages := file.pages, unsynced := file.unsynced), writer := Some(s.writer.value.(stage := Written(v))))
  {
  }

  lemma CommitsIsWriteData(s: Sys, s': Sys, now: Version, x: Work, v: Version, pages: Disk, unsynced: set<PageId>)
    requires Commits(now, x, v, pages) && s.now == now && s.writer.Some? && s.writer.value.stage.Writing?
    requires s.writer.value.work == x && s.writer.value.tree == v.tree && s.file.pages == x.disk && s.file.unsynced == {}
    requires s' == WrittenSys(s, v, s.file.(pages := pages, unsynced := unsynced))
    requires forall p: PageId :: p in unsynced ==> p in OursOf(now, s.writer.value.mark)
    ensures WriteData(s, s')
  {
    hide Linked, Loaded, Tagged, OursOf, Span;
  }

  /** The rest of a commit. */
  lemma Swapped(run: seq<Sys>, v: Version) returns (run': seq<Sys>)
    requires IsRun(run) && Last(run).writer.Some? && Last(run).writer.value.stage == Written(v)
    requires |Last(run).file.slots| == 2 && Last(run).active < 2
    ensures IsRun(run') && run <= run'
    ensures var s := Last(run);
      var slots := s.file.slots[1 - s.active := Some(v.meta)];
      Last(run') == s.(file := File(s.file.pages, {}, slots, slots), active := 1 - s.active, now := v, hist := s.hist + [v.tree], writer := None)
  {
    var s := Last(run);
    hide IsRun, Inv, Next;
    var s1 := StageSys(s, s.file.(unsynced := {}, durable := s.file.slots), Synced(v));
    SyncDataIsNext(s, s1, v);
    ExtendRun(run, s1);
    var s2 := StageSys(s1, s1.file.(slots := s1.file.slots[1 - s1.active := Some(v.meta)]), MetaWritten(v));
    WriteMetaIsNext(s1, s2, v);
    ExtendRun(run + [s1], s2);
    var s3 := StageSys(s2, s2.file.(unsynced := {}, durable := s2.file.slots), MetaSynced(v));
    SyncMetaIsNext(s2, s3, v);
    ExtendRun(run + [s1] + [s2], s3);
    var s4 := s3.(active := 1 - s3.active, now := v, hist := s3.hist + [v.tree], writer := None);
    PublishIsNext(s3, s4, v);
    ExtendRun(run + [s1] + [s2] + [s3], s4);
    run' := run + [s1] + [s2] + [s3] + [s4];
  }

  // ----- the run -----

  /** One record, with the empty key and a one-byte value, in one leaf on page `p`. */
  ghost function One(p: PageId, b: byte): LocatedRoot {
    Planted(AtLeaf(p, [[]], [Val([b], [])]), 0)
  }

  function Image(b: byte): TreeNode {
    LeafNode([[]], [Inline([b])])
  }

  lemma OneIs(p: PageId, b: byte, w: Work, base: iset<PageId>)
    requires NodeAt(w, p) == Some(Image(b)) && (p in w.overlay || p in base)
    ensures One(p, b).Sound() && One(p, b).Here(w, base) && One(p, b).Owned() == multiset{p}
    ensures One(p, b).Id() == Some(p) && One(p, b).Trimmed() && RootEntries(One(p, b).Abstract()) == [Entry([], [b])]
  {
    var vals := [Val([b], [])];
    assert StoredVals(vals) == [Inline([b])] && ValBytes(vals) == [[b]];
    assert ValIds(vals) == multiset([]) + ValIds([]);
  }

  ghost function V0(): Version {
    Version(Meta(MAGIC, 0, None, META_PAGE_COUNT, None), NoTree, [], [], multiset{})
  }

  /** Transaction 1 puts the record on page 2. */
  ghost function V1(): Version {
    Version(Meta(MAGIC, 1, Some(2), 3, None), One(2, 1), [], [], multiset{})
  }

  /** Transaction 2 rewrites it on page 3 and frees page 2; the free list takes page 4. */
  ghost function V2(): Version {
    Version(Meta(MAGIC, 2, Some(3), 5, Some(4)), One(3, 2), [FreeEntry(2, 2)], [4], multiset{4})
  }

  /** Transaction 3 rewrites it on page 2, taken from the free list, and frees page 3; the free list takes page 5. */
  ghost function V3(): Version {
    Version(Meta(MAGIC, 3, Some(2), 6, Some(5)), One(2, 3), [FreeEntry(3, 3)], [5], multiset{4, 5})
  }

  function Pages1(): Disk {
    map[2 := NodePage(Image(1))]
  }

  function Pages2(): Disk {
    map[2 := NodePage(Image(1)), 3 := NodePage(Image(2)), 4 := FreeListPage(None, [FreeEntry(2, 2)])]
  }

  function Pages3(): Disk {
    map[2 := NodePage(Image(3)), 3 := NodePage(Image(2)), 4 := FreeListPage(None, [FreeEntry(2, 2)]), 5 := FreeListPage(None, [FreeEntry(3, 3)])]
  }

  lemma Started() returns (run: seq<Sys>)
    ensures IsRun(run) && |run| == 1 && AtRest(Last(run), V0(), [NoTree], [], map[])
  {
    var m := Meta(MAGIC, 0, None, META_PAGE_COUNT, None);
    run := [Sys(File(map[], {}, [Some(m), Some(m)], [Some(m), Some(m)]), 0, V0(), [NoTree], [], [], None)];
    hide Next;
    assert IsRun(run);
  }

  lemma NoPages()
    ensures forall p: PageId :: multiset([p]) == multiset{p} && Span(p, p + 1) == multiset{p} && Span(p, p) == multiset{}
    ensures FreeIds([]) == []
  {
  }

  /** A rewrite of the record: page `was` becomes obsolete, page `p` holds the new image. */
  lemma Rewritten(now: Version, disk: Disk, was: PageId, x: Work, p: PageId, b: byte, v: Version)
    requires now.tree.Owned() == multiset{was} && v.tree == One(p, b) && 2 <= was < now.meta.nextPage && p != was
    requires x == Work(disk, {}, map[p := Image(b)], x.next, [], [was], [])
    requires || (now.free == [] && p == now.meta.nextPage && x.next == p + 1)
             || (now.free == [FreeEntry(now.meta.txnId, p)] && now.meta.txnId <= U64_MAX && p < now.meta.nextPage && x.next == now.meta.nextPage)
    ensures Changes(now, disk, x, v)
  {
    OneIs(p, b, x, BaseOf(now));
    assert p in OursOf(now, U64_MAX) by {
      if now.free != [] {
        assert now.free[0].page == p;
      }
    }
    hide OursOf, One, At, BaseOf;
    Beyond(now);
    RewrittenMoved(Fresh(now, disk), was, x, p, b, OursOf(now, U64_MAX), U64_MAX);
  }

  lemma Beyond(now: Version)
    ensures forall q: PageId :: q >= now.meta.nextPage ==> q in OursOf(now, U64_MAX)
  {
  }

  lemma RewrittenMoved(w: Work, was: PageId, x: Work, p: PageId, b: byte, ours: iset<PageId>, mark: nat)
    requires w.overlay == map[] && w.obsolete == w.scratch == [] && w.unsynced == {} && w.next >= 2
    requires x == Work(w.disk, {}, map[p := Image(b)], x.next, [], [was], []) && p != was && p in ours && was < w.next
    requires || (w.free == [] && p == w.next && x.next == w.next + 1)
             || (|w.free| == 1 && w.free[0].page == p && w.free[0].freedAt <= mark && p < w.next && x.next == w.next)
    requires forall q: PageId :: q >= w.next ==> q in ours
    ensures Moved(w, multiset{was}, x, multiset{p}, ours, mark)
  {
    hide Pools, Span, Owns;
    RewrittenOwns(x, was, p, b, ours, mark);
    RewrittenLedger(w, was, x, p, b);
  }

  lemma RewrittenOwns(x: Work, was: PageId, p: PageId, b: byte, ours: iset<PageId>, mark: nat)
    requires x.overlay == map[p := Image(b)] && x.free == [] && x.scratch == [] && x.obsolete == [was] && p != was && p in ours && p < x.next
    requires forall q: PageId :: q >= x.next ==> q in ours
    ensures Owns(x, ours, mark) && Pools(x) == multiset{was}
  {
    NoPages();
    assert Pools(x) == multiset{was};
  }

  lemma RewrittenLedger(w: Work, was: PageId, x: Work, p: PageId, b: byte)
    requires w.obsolete == w.scratch == [] && Pools(x) == multiset{was}
    requires (w.free == [] && p == w.next && x.next == w.next + 1) || (|w.free| == 1 && w.free[0].page == p && x.next == w.next)
    ensures multiset{p} + Pools(x) == multiset{was} + Pools(w) + Span(w.next, x.next)
    ensures w.free != [] ==> p in Pools(w)
  {
    NoPages();
    assert FreeIds(w.free) == if w.free == [] then [] else [p];
    assert Pools(w) == multiset(FreeIds(w.free));
    hide Pools, Span, FreeIds;
  }

  lemma OneBatch(p: PageId, e: FreeEntry, pages: Disk)
    requires p in pages && pages[p] == FreeListPage(None, [e])
    ensures Linked([p], Some(p), pages) && Loaded([p], Some(p), pages) == [e]
  {
    assert Linked([p][1..], None, pages);
  }

  lemma FirstChanges(x: Work)
    requires x == Work(map[], {}, map[2 := Image(1)], 3, [], [], [])
    ensures Changes(V0(), map[], x, V1())
  {
    OneIs(2, 1, x, BaseOf(V0()));
    Beyond(V0());
    assert V0().tree.Owned() == multiset{} && V1().tree.Owned() == multiset{2};
    hide OursOf, BaseOf, One, At;
    FirstMoved(x, OursOf(V0(), U64_MAX));
  }

  lemma FirstMoved(x: Work, ours: iset<PageId>)
    requires x == Work(map[], {}, map[2 := Image(1)], 3, [], [], []) && forall q: PageId :: q >= 2 ==> q in ours
    ensures Moved(Work(map[], {}, map[], 2, [], [], []), multiset{}, x, multiset{2}, ours, U64_MAX)
  {
    NoPages();
    assert Pools(x) == multiset{};
  }

  lemma FirstCommits(x: Work)
    requires x == Work(map[], {}, map[2 := Image(1)], 3, [], [], [])
    ensures Commits(V0(), x, V1(), Pages1())
  {
    NoPages();
    assert [] + Tagged([] + [], 1) == [];
    hide Tagged, Span;
  }

  lemma ClonesAndTrees()
    ensures V0().meta.txnId == 0 && Overtake([], 0, U64_MAX) == [] && V1().tree == One(2, 1)
    ensures V1().meta.txnId == 1 && Overtake([Clone(1, 0)], 1, U64_MAX) == [Clone(1, 0)] && V2().tree == One(3, 2)
    ensures V2().meta.txnId == 2 && Overtake([Clone(1, 0)], 2, U64_MAX) == [Clone(1, 1)] && V3().tree == One(2, 3)
  {
  }

  lemma First(run: seq<Sys>) returns (run': seq<Sys>)
    requires IsRun(run) && AtRest(Last(run), V0(), [NoTree], [], map[])
    ensures IsRun(run') && AtRest(Last(run'), V1(), [NoTree, One(2, 1)], [], Pages1())
  {
    hide *;
    var x := Work(map[], {}, map[2 := Image(1)], 3, [], [], []);
    FirstChanges(x);
    FirstCommits(x);
    ClonesAndTrees();
    assert [NoTree] + [One(2, 1)] == [NoTree, One(2, 1)];
    run' := OneTxn(run, V0(), [NoTree], [], map[], x, V1(), Pages1());
  }

  lemma SecondCommits(x: Work)
    requires x == Work(Pages1(), {}, map[3 := Image(2)], 4, [], [2], [])
    ensures Commits(V1(), x, V2(), Pages2())
  {
    NoPages();
    OneBatch(4, FreeEntry(2, 2), Pages2());
    assert [] + Tagged([2] + [], 2) == [FreeEntry(2, 2)];
    hide Linked, Loaded, Tagged, Span;
  }

  lemma Second(run: seq<Sys>) returns (run': seq<Sys>)
    requires IsRun(run) && AtRest(Last(run), V1(), [NoTree, One(2, 1)], [Clone(1, 0)], Pages1())
    ensures IsRun(run') && run <= run' && AtRest(Last(run'), V2(), [NoTree, One(2, 1), One(3, 2)], [Clone(1, 0)], Pages2())
  {
    hide *;
    var x := Work(Pages1(), {}, map[3 := Image(2)], 4, [], [2], []);
    SecondCommits(x);
    SecondChanges(x);
    ClonesAndTrees();
    assert [NoTree, One(2, 1)] + [One(3, 2)] == [NoTree, One(2, 1), One(3, 2)];
    run' := OneTxn(run, V1(), [NoTree, One(2, 1)], [Clone(1, 0)], Pages1(), x, V2(), Pages2());
  }

  lemma SecondChanges(x: Work)
    requires x == Work(Pages1(), {}, map[3 := Image(2)], 4, [], [2], [])
    ensures Changes(V1(), Pages1(), x, V2())
  {
    OneIs(2, 1, View(Pages1(), map[]), Everywhere());
    hide Changes, One;
    Rewritten(V1(), Pages1(), 2, x, 3, 2, V2());
  }

  lemma TaggedOne()
    ensures [] + Tagged([3] + [], 3) == [FreeEntry(3, 3)]
  {
  }

  lemma ThirdCommits(x: Work)
    requires x == Work(Pages2(), {}, map[2 := Image(3)], 5, [], [3], [])
    ensures Commits(V2(), x, V3(), Pages3())
  {
    hide Linked, Loaded, Tagged, Span;
    NoPages();
    OneBatch(5, FreeEntry(3, 3), Pages3());
    TaggedOne();
  }

  lemma ThirdChanges(x: Work)
    requires x == Work(Pages2(), {}, map[2 := Image(3)], 5, [], [3], [])
    ensures Changes(V2(), Pages2(), x, V3())
  {
    OneIs(3, 2, View(Pages2(), map[]), Everywhere());
    hide Changes, One;
    Rewritten(V2(), Pages2(), 3, x, 2, 3, V3());
  }

  lemma Third(run: seq<Sys>) returns (run': seq<Sys>)
    requires IsRun(run) && AtRest(Last(run), V2(), [NoTree, One(2, 1), One(3, 2)], [Clone(1, 0)], Pages2())
    ensures IsRun(run') && run <= run' && AtRest(Last(run'), V3(), [NoTree, One(2, 1), One(3, 2), One(2, 3)], [Clone(1, 1)], Pages3())
  {
    hide *;
    var x := Work(Pages2(), {}, map[2 := Image(3)], 5, [], [3], []);
    ThirdCommits(x);
    ThirdChanges(x);
    ClonesAndTrees();
    assert [NoTree, One(2, 1), One(3, 2)] + [One(2, 3)] == [NoTree, One(2, 1), One(3, 2), One(2, 3)];
    run' := OneTxn(run, V2(), [NoTree, One(2, 1), One(3, 2)], [Clone(1, 0)], Pages2(), x, V3(), Pages3());
  }

  /** The copy of transaction 1's meta page, overtaken once; page 2 now holds transaction 3's record. */
  lemma Overtaken() returns (run: seq<Sys>, first: nat)
    ensures IsRun(run) && AtRest(Last(run), V3(), [NoTree, One(2, 1), One(3, 2), One(2, 3)], [Clone(1, 1)], Pages3())
    ensures first < |run| && run[first].now == V1()
  {
    var m := Meta(MAGIC, 0, None, META_PAGE_COUNT, None);
    var init := Sys(File(map[], {}, [Some(m), Some(m)], [Some(m), Some(m)]), 0, V0(), [NoTree], [], [], None);
    assert IsRun([init]);
    hide IsRun, One, Next;
    run := First([init]);
    first := |run| - 1;
    var s := Last(run);
    var s' := s.(clones := s.clones + [Clone(s.now.meta.txnId, 0)]);
    CloneIsNext(s, s');
    ExtendRun(run, s');
    assert [] + [Clone(1, 0)] == [Clone(1, 0)];
    var run1 := run + [s'];
    var run2 := Second(run1);
    run := Third(run2);
    assert run1[first].now == V1();
    assert run1 <= run2 <= run;
  }

  /** A reader that registers although it was overtaken reads transaction 3's record as transaction 1's. */
  lemma OvertakenReaderMisreads(k: nat) returns (run: seq<Sys>)
    requires k > 0
    ensures IsLooseRun(k, run) && !Isolated(run)
    ensures 1 in Last(run).readers && Reads(Last(run).file.pages, Some(2), [Entry([], [3])])
    ensures !Reads(Last(run).file.pages, Some(2), [Entry([], [1])])
  {
    OneIs(2, 1, View(Pages1(), map[]), Everywhere());
    OneIs(2, 3, View(Pages3(), map[]), Everywhere());
    assert OnDisk(One(2, 3), Pages3());
    assert Reads(Pages3(), Some(2), [Entry([], [3])]);
    ReadsOnly(Pages3(), Some(2), [Entry([], [3])]);
    hide IsRun, OnDisk, One, Next, Reads, Pages3;
    var before, first := Overtaken();
    var s := Last(before);
    var s' := s.(clones := SwapRemove(s.clones, 0), readers := s.readers + [1]);
    run := before + [s'];
    LooseEnd(k, before, s');
    assert run[first] == before[first] && run[|run| - 1] == s' && 1 in s'.readers;
  }

  lemma LooseEnd(k: nat, run: seq<Sys>, s': Sys)
    requires IsRun(run) && Register(Last(run), s', 0, k)
    ensures IsLooseRun(k, run + [s'])
  {
    hide Init, Next, Register;
    var run' := run + [s'];
    forall i | 0 <= i < |run'| - 1 ensures LooseNext(k, run'[i], run'[i + 1]) {
      if i < |run| - 1 {
        assert Next(run[i], run[i + 1]);
      }
    }
  }

  /** Every registered reader of every run reads its snapshot if and only if no copy that was overtaken may register. */
  lemma IsolationIsExact(k: nat)
    ensures (forall run :: IsLooseRun(k, run) ==> Isolated(run)) <==> k == 0
  {
    hide IsRun, IsLooseRun, Reads, Last;
    if k == 0 {
      forall run: seq<Sys> | IsLooseRun(k, run) ensures Isolated(run) {
        NotLoose(run);
        forall i, j | 0 <= i <= j < |run| && run[i].now.meta.txnId in run[j].readers
          ensures run[i].now.tree.Sound() && Reads(run[j].file.pages, run[i].now.meta.root, RootEntries(run[i].now.tree.Abstract()))
        {
          SnapshotIsolation(run, i, j, run[i].now.meta.txnId);
        }
      }
    } else {
      var run := OvertakenReaderMisreads(k);
    }
  }
}
