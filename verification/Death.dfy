/**
 * Crashes of two kinds: a loss of power, after which only synced writes are certain, and the death of the process,
 * after which the operating system still shows every write but nothing has become durable. `open` does not sync
 * (src/storage/pager.rs:96-120). It would have to, in one case, for recovery to survive every mix of the two.
 */
module ProcessDeath {
  import opened Bytes
  import opened SortedList
  import opened BTreePut
  import opened Pages
  import opened PagerFile
  import opened TreePut
  import opened TreeRead
  import opened FreeList
  import opened Protocol
  import opened Txn
  import opened Race

  /**
   * A store is unsettled once it has been reopened on a meta page that was written but not synced: `before` is the
   * version a loss of power may still fall back to.
   */
  datatype Store = Settled(s: Sys) | Unsettled(s: Sys, before: Version)

  predicate Pending(s: Sys) {
    s.writer.Some? && s.writer.value.stage.MetaWritten?
  }

  /** The version whose meta page the operating system shows as the newest. */
  function Shown(s: Sys): Version {
    if s.writer.Some? && (s.writer.value.stage.MetaWritten? || s.writer.value.stage.MetaSynced?) then s.writer.value.stage.next else s.now
  }

  /** The process dies, in the middle of an operation or between two steps of a commit, and the store is reopened. */
  ghost predicate Die(s: Sys, s': Sys) {
    && (if s.writer.Some? && s.writer.value.stage.Writing? then MidOperation(s, s'.file) else s'.file == s.file)
    && |s'.file.slots| == 2 && Recover(s'.file.slots) == Some((s'.active, Shown(s).meta))
    && s' == Sys(s'.file, s'.active, Shown(s), if Shown(s) == s.now then s.hist else s.hist + [Shown(s).tree], [], [], None)
  }

  /** Power is lost while the store is unsettled: either version comes back. */
  ghost predicate PowerLoss(s: Sys, before: Version, s': Sys) {
    && CrashFile(s, s'.file) && Recover(s'.file.slots) == Some((s'.active, s'.now.meta)) && |s.hist| > 0
    && ( || s' == Sys(s'.file, s'.active, s.now, s.hist, [], [], None)
         || s' == Sys(s'.file, s'.active, before, s.hist[..|s.hist| - 1], [], [], None))
  }

  /**
   * A careful store syncs what it was reopened on before it lets a writer begin. In a careless one the writer's own
   * first sync settles it, as long as nothing happens before.
   */
  ghost predicate StoreNext(careful: bool, a: Store, b: Store) {
    match a
    case Settled(s) =>
      || (b.Settled? && (Next(s, b.s) || (Die(s, b.s) && !Pending(s))))
      || (b.Unsettled? && Die(s, b.s) && Pending(s) && b.before == s.now)
    case Unsettled(s, before) =>
      || b == Settled(s.(file := s.file.(unsynced := {}, durable := s.file.slots)))
      || (b.Settled? && PowerLoss(s, before, b.s))
      || (b.Settled? && !careful && SyncData(s, b.s))
      || (b.Unsettled? && b.before == before && (Reading(s, b.s) || Die(s, b.s) || (!careful && BeforeSync(s, b.s))))
  }

  /** A step of a running store up to the writer's first sync. */
  ghost predicate BeforeSync(s: Sys, s': Sys) {
    Next(s, s') && !SyncData(s, s') && !Crash(s, s')
  }

  ghost predicate Reading(s: Sys, s': Sys) {
    CloneMeta(s, s') || (exists i :: Register(s, s', i, 0)) || (exists i :: DropReader(s, s', i))
  }

  ghost predicate IsStoreRun(careful: bool, run: seq<Store>) {
    && |run| > 0 && run[0].Settled? && Init(run[0].s)
    && forall i :: 0 <= i < |run| - 1 ==> StoreNext(careful, run[i], run[i + 1])
  }

  /** The versions a loss of power may bring back: the committed one, one whose meta page is in flight, or what lay before it. */
  ghost predicate Expected(a: Store, v: Version) {
    match a
    case Settled(s) => Recoverable(s, v)
    case Unsettled(s, before) => v == s.now || v == before
  }

  /** `open` finds the meta page of one of these versions, and everything that version needs. */
  ghost predicate Survives(a: Store, f: File) {
    && |f.slots| == 2 && Recover(f.slots).Some?
    && exists v: Version :: v.meta == Recover(f.slots).value.1 && Expected(a, v) && Intact(v, f.pages)
  }

  /** The trees of the transactions whose commit has been acknowledged, or cannot be lost any more. */
  function Acknowledged(a: Store): seq<LocatedRoot> {
    match a
    case Settled(s) => s.hist
    case Unsettled(s, _) => if s.hist == [] then [] else s.hist[..|s.hist| - 1]
  }

  // ----- the invariant -----

  ghost predicate UnsettledOk(s: Sys, before: Version) {
    && UnsettledSlots(s, before)
    && Intact(s.now, s.file.pages) && Intact(before, s.file.pages)
    && |s.hist| == s.now.meta.txnId + 1 && s.hist[s.now.meta.txnId] == s.now.tree && s.hist[before.meta.txnId] == before.tree
    && s.file.unsynced == {} && s.writer == None
    && (forall t: nat :: Pinned(s, t) ==> SnapshotSafe(s, s.now, t))
  }

  ghost predicate UnsettledSlots(s: Sys, before: Version) {
    && |s.file.slots| == 2 && |s.file.durable| == 2 && s.active < 2 && s.now.meta.txnId == before.meta.txnId + 1
    && s.file.slots[s.active] == Some(s.now.meta) && Older(s.file.durable[s.active], before)
    && s.file.slots[1 - s.active] == s.file.durable[1 - s.active] == Some(before.meta)
  }

  ghost predicate StoreOk(a: Store) {
    match a
    case Settled(s) => Inv(s)
    case Unsettled(s, before) => UnsettledOk(s, before)
  }

  lemma SameFile(v: Version, pages: Disk, pages': Disk)
    requires Intact(v, pages) && forall p: PageId :: p in Live(v) ==> DiskAt(View(pages', map[]), p) == DiskAt(View(pages, map[]), p)
    ensures Intact(v, pages')
  {
    hide Intact, Live;
    IntactKept(v, pages, pages');
  }

  lemma ShownOf(s: Sys)
    requires Inv(s) && !(s.writer.Some? && s.writer.value.stage.Writing?)
    ensures Intact(Shown(s), s.file.pages) && |s.hist| == s.now.meta.txnId + 1
    ensures s.hist[s.now.meta.txnId] == s.now.tree && (Shown(s) == s.now || Shown(s).meta.txnId == s.now.meta.txnId + 1)
    ensures Pending(s) ==> s.file.unsynced == {} && Intact(s.now, s.file.pages)
    ensures Shown(s) != s.now ==> s.file.unsynced == {}
    ensures forall p: PageId :: p in s.file.unsynced ==> p !in Live(s.now)
  {
    hide Intact, Live;
  }

  /** The slots after a death that was not in the middle of a meta write. */
  lemma ShownSlots(s: Sys, f: File, active: nat)
    requires SlotsOk(s) && f.slots == s.file.slots && f.durable == s.file.durable && Recover(f.slots) == Some((active, Shown(s).meta))
    requires Shown(s) != s.now ==> Shown(s).meta.txnId == s.now.meta.txnId + 1
    ensures |f.slots| == 2 && |f.durable| == 2 && active < 2 && s.active < 2 && f.slots[active] == Some(Shown(s).meta)
    ensures f.slots[s.active] == f.durable[s.active] == Some(s.now.meta)
    ensures !Pending(s) ==> f.slots == f.durable && Older(f.slots[1 - active], Shown(s))
    ensures Pending(s) && Shown(s) != s.now ==> active == 1 - s.active && Older(f.durable[active], s.now)
  {
  }

  lemma SlotsOf(s: Sys)
    requires Inv(s)
    ensures SlotsOk(s) && (Pending(s) ==> Shown(s).meta.txnId == s.now.meta.txnId + 1)
    ensures Shown(s) != s.now ==> Shown(s).meta.txnId == s.now.meta.txnId + 1
  {
    hide Intact, SlotsOk;
  }

  lemma Alone(s: Sys)
    requires |s.file.slots| == 2 && s.active < 2 && s.file.slots == s.file.durable && s.file.slots[s.active] == Some(s.now.meta)
    requires Older(s.file.slots[1 - s.active], s.now) && Intact(s.now, s.file.pages)
    requires forall p: PageId :: p in s.file.unsynced ==> p !in Live(s.now)
    requires |s.hist| == s.now.meta.txnId + 1 && s.hist[s.now.meta.txnId] == s.now.tree
    requires s.readers == [] && s.clones == [] && s.writer == None
    ensures Inv(s)
  {
    hide Intact, Live;
  }

  /** A death that leaves no unsynced meta page behind is no worse than a rollback. */
  lemma DieSettled(s: Sys, s': Sys)
    requires Inv(s) && Die(s, s') && !Pending(s)
    ensures Inv(s')
  {
    hide Inv, Intact, Live, SlotsOk, Recover, InFlight, MidOperation, Older;
    SlotsOf(s);
    if s.writer.Some? && s.writer.value.stage.Writing? { MidSlots(s, s'.file); }
    ShownSlots(s, s'.file, s'.active);
    if s.writer.Some? && s.writer.value.stage.Writing? {
      DieWriting(s, s'.file);
    } else {
      ShownOf(s);
    }
    Alone(s');
  }

  lemma DieWriting(s: Sys, f: File)
    requires Inv(s) && MidOperation(s, f)
    ensures Intact(s.now, f.pages) && |s.hist| == s.now.meta.txnId + 1 && s.hist[s.now.meta.txnId] == s.now.tree
    ensures forall p: PageId :: p in f.unsynced ==> p !in Live(s.now)
  {
    var v := s.now;
    WorkOfInv(s);
    forall p: PageId | p in Live(v) ensures !InFlight(s, p) {
      if InFlight(s, p) {
        OursApart(v, s.writer.value.mark, p);
      }
    }
    hide WorkOk, SlotsOk, Intact, Live, InFlight, Balanced;
    SameFile(v, s.file.pages, f.pages);
  }

  lemma DiePending(s: Sys, s': Sys)
    requires Inv(s) && Die(s, s') && Pending(s)
    ensures UnsettledOk(s', s.now)
  {
    hide Inv, Intact, Live, SlotsOk, Recover, InFlight, MidOperation, UnsettledOk;
    SlotsOf(s);
    ShownOf(s);
    assert Shown(s).meta.txnId == s.now.meta.txnId + 1;
    ShownSlots(s, s'.file, s'.active);
    FreshlyUnsettled(s', s.now);
  }

  lemma FreshlyUnsettled(s: Sys, before: Version)
    requires UnsettledSlots(s, before) && Intact(s.now, s.file.pages) && Intact(before, s.file.pages)
    requires |s.hist| == s.now.meta.txnId + 1 && s.hist[s.now.meta.txnId] == s.now.tree && s.hist[before.meta.txnId] == before.tree
    requires s.file.unsynced == {} && s.writer == None && s.readers == [] && s.clones == []
    ensures UnsettledOk(s, before)
  {
    hide Intact, SnapshotSafe;
  }

  lemma Settles(s: Sys, before: Version)
    requires UnsettledOk(s, before)
    ensures Inv(s.(file := s.file.(unsynced := {}, durable := s.file.slots)))
  {
    hide Intact, Live, OnDisk, Held;
    var s' := s.(file := s.file.(unsynced := {}, durable := s.file.slots));
    forall t: nat | Pinned(s', t) ensures SnapshotSafe(s', s'.now, t) {
      assert Pinned(s, t) && SnapshotSafe(s, s.now, t);
    }
  }

  lemma ReadingOk(s: Sys, s': Sys, before: Version)
    requires UnsettledOk(s, before) && Reading(s, s')
    ensures UnsettledOk(s', before)
  {
    hide Intact, Live, Held, UnsettledSlots;
    assert OnDisk(s.now.tree, s.file.pages) && Balanced(s.now) by { IntactParts(s.now, s.file.pages); }
    hide OnDisk;
    assert UnsettledSlots(s', before) by { SlotsStay(s, s', before); }
    forall t: nat | Pinned(s', t) ensures SnapshotSafe(s', s'.now, t) {
      StillPinned(s, s', t);
      if Pinned(s, t) {
        assert SnapshotSafe(s, s.now, t);
      } else {
        NowSafe(s');
      }
    }
  }

  lemma NowSafe(s: Sys)
    requires s.now.meta.txnId < |s.hist| && s.hist[s.now.meta.txnId] == s.now.tree && OnDisk(s.now.tree, s.file.pages)
    ensures SnapshotSafe(s, s.now, s.now.meta.txnId)
  {
    hide OnDisk;
  }

  lemma SlotsStay(s: Sys, s': Sys, before: Version)
    requires UnsettledSlots(s, before) && Reading(s, s')
    ensures UnsettledSlots(s', before)
  {
  }

  lemma StillPinned(s: Sys, s': Sys, t: nat)
    requires Reading(s, s') && Pinned(s', t)
    ensures Pinned(s, t) || t == s.now.meta.txnId
    ensures s' == s.(readers := s'.readers, clones := s'.clones)
  {
    if i :| Register(s, s', i, 0) {
      if Clone(t, 0) in s'.clones { RemovedFrom(s.clones, i, Clone(t, 0)); }
    } else if i :| DropReader(s, s', i) {
      if t in s'.readers { RemovedFrom(s.readers, i, t); }
    }
  }

  lemma DieAgain(s: Sys, s': Sys, before: Version)
    requires UnsettledOk(s, before) && Die(s, s')
    ensures UnsettledOk(s', before)
  {
    hide Intact, Live, OnDisk, Held, SnapshotSafe;
  }

  /** Both versions survive a loss of power as long as no writer has begun. */
  lemma BothSurvive(s: Sys, before: Version, f: File)
    requires UnsettledOk(s, before) && CrashFile(s, f)
    ensures Intact(s.now, f.pages) && Intact(before, f.pages)
    ensures Recover(f.slots).Some? && Recover(f.slots).value.0 < 2
    ensures var found := Recover(f.slots).value;
      && f.slots[found.0] == Some(found.1) && (found.1 == s.now.meta || found.1 == before.meta)
      && (found.1 == s.now.meta ==> Older(f.slots[1 - found.0], s.now)) && (found.1 == before.meta ==> Older(f.slots[1 - found.0], before))
  {
    hide Intact, Live, OnDisk, Held, SnapshotSafe;
    assert forall p: PageId :: !InFlight(s, p);
    SameFile(s.now, s.file.pages, f.pages);
    SameFile(before, s.file.pages, f.pages);
  }

  lemma PowerLossOk(s: Sys, before: Version, s': Sys)
    requires UnsettledOk(s, before) && PowerLoss(s, before, s')
    ensures Inv(s')
  {
    hide Intact, Live, OnDisk, Held, SnapshotSafe, Recover, InFlight, UnsettledOk;
    BothSurvive(s, before, s'.file);
    UnsettledHist(s, before);
    Alone(s');
  }

  lemma UnsettledHist(s: Sys, before: Version)
    requires UnsettledOk(s, before)
    ensures |s.hist| == s.now.meta.txnId + 1 && s.hist[s.now.meta.txnId] == s.now.tree
    ensures s.now.meta.txnId == before.meta.txnId + 1 && s.hist[before.meta.txnId] == before.tree
  {
    hide Intact, SnapshotSafe;
  }

  lemma StoreNextOk(a: Store, b: Store)
    requires StoreOk(a) && StoreNext(true, a, b)
    ensures StoreOk(b)
  {
    hide Inv, UnsettledOk, Next, Die, PowerLoss, Reading, Pending;
    match a
    case Settled(s) =>
      if b.Unsettled? {
        DiePending(s, b.s);
      } else if Next(s, b.s) {
        NextInv(s, b.s);
      } else {
        DieSettled(s, b.s);
      }
    case Unsettled(s, before) =>
      if b.Settled? {
        if PowerLoss(s, before, b.s) { PowerLossOk(s, before, b.s); } else { Settles(s, before); }
      } else if Reading(s, b.s) {
        ReadingOk(s, b.s, before);
      } else {
        DieAgain(s, b.s, before);
      }
  }

  lemma {:induction false} StoreRunOk(run: seq<Store>, i: nat)
    requires IsStoreRun(true, run) && i < |run|
    ensures StoreOk(run[i])
    decreases i
  {
    hide Inv, Init, StoreNext, UnsettledOk;
    if i == 0 {
      InitInv(run[0].s);
    } else {
      StoreRunOk(run, i - 1);
      StoreNextOk(run[i - 1], run[i]);
    }
  }

  /**
   * With a sync before any writer begins, every loss of power after any mix of the two brings back a complete version
   * that may be expected, with its own records, and none older than the last acknowledged one.
   */
  lemma CarefulSurvives(run: seq<Store>, i: nat, f: File) returns (v: Version)
    requires IsStoreRun(true, run) && i < |run| && CrashFile(run[i].s, f)
    ensures |f.slots| == 2 && Recover(f.slots).Some? && Recover(f.slots).value.1 == v.meta && Expected(run[i], v) && Intact(v, f.pages)
    ensures v.tree.Sound() && Reads(f.pages, v.meta.root, RootEntries(v.tree.Abstract()))
    ensures |Acknowledged(run[i])| <= v.meta.txnId + 1
  {
    hide IsStoreRun, Inv, UnsettledOk, CrashFile, Intact, Recover;
    StoreRunOk(run, i);
    FileShape(run[i].s, f);
    match run[i] {
      case Settled(s) =>
        v := CrashRecovers(s, f);
        HistLength(s);
      case Unsettled(s, before) =>
        BothSurvive(s, before, f);
        UnsettledHist(s, before);
        v := if Recover(f.slots).value.1 == s.now.meta then s.now else before;
    }
    IntactReads(v, f.pages);
  }

  lemma IntactReads(v: Version, pages: Disk)
    requires Intact(v, pages)
    ensures v.tree.Sound() && Reads(pages, v.meta.root, RootEntries(v.tree.Abstract()))
  {
    hide OnDisk, Balanced;
    TreeSound(v.tree, pages);
  }

  lemma HistLength(s: Sys)
    requires Inv(s)
    ensures |s.hist| == s.now.meta.txnId + 1
  {
  }

  lemma AcknowledgedStep(a: Store, b: Store)
    requires StoreOk(a) && StoreNext(true, a, b)
    ensures Acknowledged(a) <= Acknowledged(b)
  {
    hide Inv, UnsettledOk, Intact, CrashFile, MidOperation;
    match a
    case Settled(s) =>
      if b.Settled? && Next(s, b.s) { NextHistory(s, b.s); }
      SlotsOf(s);
      hide Next, SlotsOk;
    case Unsettled(s, before) =>
      UnsettledHist(s, before);
      hide Next;
  }

  /** Durability over every mix: in a careful store nothing acknowledged is ever lost or changed. */
  lemma {:induction false} AcknowledgedStays(run: seq<Store>, i: nat, j: nat)
    requires IsStoreRun(true, run) && i <= j < |run|
    ensures Acknowledged(run[i]) <= Acknowledged(run[j])
    decreases j
  {
    hide StoreNext, StoreOk, Acknowledged, Init;
    if i < j {
      AcknowledgedStays(run, i, j - 1);
      StoreRunOk(run, j - 1);
      AcknowledgedStep(run[j - 1], run[j]);
    }
  }

  // ----- and without that sync one does -----

  function Final(run: seq<Store>): Store
    requires |run| > 0
  {
    run[|run| - 1]
  }

  lemma ExtendStore(careful: bool, run: seq<Store>, b: Store)
    requires IsStoreRun(careful, run) && StoreNext(careful, Final(run), b)
    ensures IsStoreRun(careful, run + [b]) && Final(run + [b]) == b
  {
    hide Init, StoreNext;
    var run' := run + [b];
    forall i | 0 <= i < |run'| - 1 ensures StoreNext(careful, run'[i], run'[i + 1]) {
      if i == |run| - 1 {
        assert run'[i] == Final(run);
      }
    }
  }

  /** A run without process deaths is a run of the store. */
  lemma Lift(careful: bool, run: seq<Sys>) returns (r: seq<Store>)
    requires IsRun(run)
    ensures IsStoreRun(careful, r) && Final(r) == Settled(Last(run))
  {
    hide Init, Next, Die, PowerLoss, Reading;
    r := seq(|run|, i requires 0 <= i < |run| => Settled(run[i]));
    forall i | 0 <= i < |r| - 1 ensures StoreNext(careful, r[i], r[i + 1]) {
      assert Next(run[i], run[i + 1]);
    }
  }

  /** Transaction 2 has written its meta page and not yet synced it. */
  ghost predicate AlmostAt(s: Sys) {
    && s.now == V1() && s.hist == [NoTree, Race.One(2, 1)]
    && s.writer.Some? && s.writer.value.stage == MetaWritten(V2()) && |s.file.slots| == 2 && s.active < 2
  }

  lemma Almost() returns (run: seq<Sys>)
    ensures IsRun(run) && |run| > 0 && Inv(Last(run)) && AlmostAt(Last(run))
    ensures Last(run).file.pages == Pages2() && Last(run).file.unsynced == {}
  {
    hide *;
    var run0 := Started();
    var run1 := First(run0);
    var x := Work(Pages1(), {}, map[3 := Image(2)], 4, [], [2], []);
    SecondChanges(x);
    SecondCommits(x);
    var run2 := BeginAndChange(run1, V1(), [NoTree, Race.One(2, 1)], [], Pages1(), x, V2());
    run := Written2(run1, run2, x);
    LastInv(run);
  }

  lemma LastInv(run: seq<Sys>)
    requires IsRun(run)
    ensures |run| > 0 && Inv(Last(run))
  {
    RunInv(run, |run| - 1);
  }

  lemma Written2(run1: seq<Sys>, run: seq<Sys>, x: Work) returns (run': seq<Sys>)
    requires IsRun(run1) && AtRest(Last(run1), V1(), [NoTree, Race.One(2, 1)], [], Pages1())
    requires x.disk == Pages1() && x.unsynced == {} && Commits(V1(), x, V2(), Pages2())
    requires IsRun(run) && Last(run) == Last(run1).(writer := Some(Writer(x, V2().tree, U64_MAX, Writing)), clones := Overtake([], V1().meta.txnId, U64_MAX))
    ensures IsRun(run') && |run'| > 0 && AlmostAt(Last(run'))
    ensures Last(run').file.pages == Pages2() && Last(run').file.unsynced == {}
  {
    hide IsRun, Inv, Next, Commits, WriteData, Race.One, V1, V2, Pages1, Pages2, Overtake;
    LastInv(run);
    var s := Last(run);
    var s1 := WrittenSys(s, V2(), s.file.(pages := Pages2()));
    CommitsIsWriteData(s, s1, V1(), x, V2(), Pages2(), {});
    WriteDataStep(s, s1);
    ExtendRun(run, s1);
    var s2 := StageSys(s1, s1.file.(unsynced := {}, durable := s1.file.slots), Synced(V2()));
    SyncDataIsNext(s1, s2, V2());
    ExtendRun(run + [s1], s2);
    var s3 := StageSys(s2, s2.file.(slots := s2.file.slots[1 - s2.active := Some(V2().meta)]), MetaWritten(V2()));
    WriteMetaIsNext(s2, s3, V2());
    ExtendRun(run + [s1] + [s2], s3);
    run' := run + [s1] + [s2] + [s3];
  }

  /**
   * The process dies there; the store is reopened on transaction 2, whose meta page is not durable. The next writer
   * takes page 2 from transaction 2's free list, and power is lost after its flush began: transaction 1's meta page
   * is all that is left, and the only page behind it is gone.
   */
  lemma CarelessLosesAVersion() returns (run: seq<Store>, f: File)
    ensures |run| > 0 && IsStoreRun(false, run) && CrashFile(run[|run| - 1].s, f) && !Survives(run[|run| - 1], f)
  {
    hide *;
    var sysRun := Almost();
    var s := Last(sysRun);
    run := Lift(false, sysRun);
    var d := DiesAlmost(s);
    ExtendStore(false, run, Unsettled(d, V1()));
    run := run + [Unsettled(d, V1())];
    var w := ThirdWriter(d);
    run := Careless(run, d, w);
    f := File(Pages3() - {2}, {}, s.file.durable, s.file.durable);
    FinalIs(run);
    LostPage(w[2], s, f);
  }

  lemma FinalIs(run: seq<Store>)
    requires IsStoreRun(false, run)
    ensures |run| > 0 && Final(run) == run[|run| - 1]
  {
  }

  /** The death, and the store as it is reopened. */
  lemma DiesAlmost(s: Sys) returns (d: Sys)
    requires Inv(s) && AlmostAt(s)
    ensures StoreNext(false, Settled(s), Unsettled(d, V1())) && d.file == s.file && d.now == V2()
    ensures d.readers == [] && d.clones == [] && d.writer == None
    ensures |s.file.slots| == 2 && |s.file.durable| == 2
    ensures Recover(s.file.durable).Some? && Recover(s.file.durable).value.1 == V1().meta
  {
    hide Inv, SlotsOk, Recover, Race.One, Next;
    SlotsOf(s);
    AlmostSlots(s);
    d := Sys(s.file, 1 - s.active, V2(), s.hist + [V2().tree], [], [], None);
    assert Die(s, d);
  }

  lemma AlmostSlots(s: Sys)
    requires SlotsOk(s) && s.now == V1() && s.writer.Some? && s.writer.value.stage == MetaWritten(V2())
    ensures |s.file.slots| == 2 && |s.file.durable| == 2 && s.active < 2
    ensures Recover(s.file.slots) == Some((1 - s.active, V2().meta))
    ensures Recover(s.file.durable).Some? && Recover(s.file.durable).value.1 == V1().meta
  {
    PickSlot(s.file.durable, s.active, V1().meta, None);
    hide Race.One;
  }

  /** The three states of the next transaction, up to its flush. */
  lemma ThirdWriter(d: Sys) returns (w: seq<Sys>)
    requires d.now == V2() && d.file.pages == Pages2() && d.file.unsynced == {} && d.readers == [] && d.clones == [] && d.writer == None
    ensures |w| == 3 && BeforeSync(d, w[0]) && BeforeSync(w[0], w[1]) && BeforeSync(w[1], w[2])
    ensures w[2].file == d.file.(pages := Pages3(), unsynced := {2}) && w[2].writer.Some? && w[2].writer.value.stage == Written(V3())
  {
    hide Next, Changes, Commits, WriteData, Race.One, V2, V3, Pages2, Pages3, Overtake, Moved;
    var x := Work(Pages2(), {}, map[2 := Image(3)], 5, [], [3], []);
    ThirdChanges(x);
    ThirdCommits(x);
    TwoIsOurs();
    var s1 := d.(writer := Some(Writer(Race.Fresh(V2(), Pages2()), V2().tree, U64_MAX, Writing)), clones := Overtake([], V2().meta.txnId, U64_MAX));
    assert Watermark([]) == U64_MAX;
    BeginWriteIsNext(d, s1);
    var s2 := ChangedSys(s1, x, V3().tree);
    ChangedBy(s1, s2, V2(), Pages2(), x, V3());
    var s3 := WrittenSys(s2, V3(), s2.file.(pages := Pages3(), unsynced := {2}));
    CommitsIsWriteData(s2, s3, V2(), x, V3(), Pages3(), {2});
    WriteDataStep(s2, s3);
    w := [s1, s2, s3];
  }

  lemma TwoIsOurs()
    ensures 2 in OursOf(V2(), U64_MAX)
  {
    assert V2().free[0].page == 2;
  }

  lemma ChangedBy(s: Sys, s': Sys, now: Version, disk: Disk, x: Work, v: Version)
    requires Changes(now, disk, x, v) && s.now == now && s.file.pages == disk
    requires s.writer == Some(Writer(Race.Fresh(now, disk), now.tree, U64_MAX, Writing)) && s' == ChangedSys(s, x, v.tree)
    ensures Next(s, s')
  {
    hide Moved, Next, At, OursOf, BaseOf;
    ChangeIsNext(s, s', x, v.tree);
  }

  lemma Careless(run: seq<Store>, d: Sys, w: seq<Sys>) returns (run': seq<Store>)
    requires IsStoreRun(false, run) && Final(run) == Unsettled(d, V1())
    requires |w| == 3 && BeforeSync(d, w[0]) && BeforeSync(w[0], w[1]) && BeforeSync(w[1], w[2])
    ensures IsStoreRun(false, run') && Final(run') == Unsettled(w[2], V1())
  {
    hide IsStoreRun, BeforeSync, V1, Reading, Die, PowerLoss;
    ExtendStore(false, run, Unsettled(w[0], V1()));
    ExtendStore(false, run + [Unsettled(w[0], V1())], Unsettled(w[1], V1()));
    ExtendStore(false, run + [Unsettled(w[0], V1())] + [Unsettled(w[1], V1())], Unsettled(w[2], V1()));
    run' := run + [Unsettled(w[0], V1())] + [Unsettled(w[1], V1())] + [Unsettled(w[2], V1())];
  }

  lemma LostPage(s: Sys, was: Sys, f: File)
    requires |was.file.slots| == 2 && |was.file.durable| == 2
    requires s.file == was.file.(pages := Pages3(), unsynced := {2}) && s.writer.Some? && s.writer.value.stage.Written?
    requires f == File(Pages3() - {2}, {}, was.file.durable, was.file.durable)
    requires Recover(f.slots).Some? && Recover(f.slots).value.1 == V1().meta
    ensures CrashFile(s, f) && forall a :: !Survives(a, f)
  {
    forall v: Version | v.meta == V1().meta ensures !Intact(v, f.pages) {
      NoSuchTree(v, f.pages);
    }
    hide Recover, Intact, Expected;
  }

  lemma NoSuchTree(v: Version, pages: Disk)
    requires v.meta == V1().meta && 2 !in pages
    ensures !Intact(v, pages)
  {
    hide Intact;
    if Intact(v, pages) {
      RootPage(v, pages);
    }
  }

  lemma RootPage(v: Version, pages: Disk)
    requires Intact(v, pages) && v.meta.root.Some?
    ensures v.meta.root.value in pages
  {
    TopOf(v.tree.d, View(pages, map[]), Everywhere());
  }

  /**
   * Recovery brings back an expected version, complete, after every mix of process deaths and losses of power if and
   * only if no writer begins before a sync when the store was reopened on an unsynced meta page.
   */
  lemma SurvivalIsExact(careful: bool)
    ensures (forall run: seq<Store>, i: nat, f :: IsStoreRun(careful, run) && i < |run| && CrashFile(run[i].s, f) ==> Survives(run[i], f)) <==> careful
  {
    hide IsStoreRun, CrashFile, Expected, Intact;
    if careful {
      forall run: seq<Store>, i: nat, f | IsStoreRun(careful, run) && i < |run| && CrashFile(run[i].s, f) ensures Survives(run[i], f) {
        var v := CarefulSurvives(run, i, f);
      }
    } else {
      var run, f := CarelessLosesAVersion();
      var i := |run| - 1;
      assert IsStoreRun(careful, run) && CrashFile(run[i].s, f) && !Survives(run[i], f);
    }
  }
}
