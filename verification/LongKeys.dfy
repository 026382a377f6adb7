/**
 * The length up to which record keys cannot make a task panic is exact: a program that writes one record with an empty
 * key into each of 38 files and seven with keys of 110 bytes into the next is refused by no command, and its commit
 * panics.
 */
module LongKeys {
  import opened Bytes
  import opened SortedList
  import opened BTreePut
  import opened Capacity
  import opened CapacityLimit
  import opened FileControl
  import opened UnitsOfWork
  import opened Growth
  import opened PageFit
  import Txn
  import RegionModule

  const FILES: nat := 39

  function FileName(i: nat): (name: string)
    ensures |name| == i
  {
    seq(i, _ => 'F')
  }

  function FilesUpTo(n: nat): Files
    requires n <= FILES
  {
    if n == 0 then map[] else FilesUpTo(n - 1)[FileName(n - 1) := n - 1]
  }

  lemma {:induction false} FileIsDefined(i: nat, n: nat)
    requires i < n <= FILES
    ensures FileName(i) in FilesUpTo(n) && FilesUpTo(n)[FileName(i)] == i
    decreases n
  {
    if i < n - 1 {
      FileIsDefined(i, n - 1);
    }
  }

  function FileOfRecord(i: nat): nat {
    if i < 38 then i else 38
  }

  function RecordKey(i: nat): Key
    requires i < RECORDS
  {
    if i < 38 then [] else LongKey(i)
  }

  /** What File Control makes of these keys are the keys of the run that overflows. */
  lemma StorageKeyIs(i: nat)
    requires i < RECORDS
    ensures StorageKey(FileOfRecord(i), RecordKey(i)) == K(FiledKeys, i)
  {
    SmallPrefix(FileOfRecord(i));
  }

  lemma SmallPrefix(n: nat)
    requires n < FILES
    ensures BE(n) == [0, 0, 0, n as byte]
  {
    assert BigEndian(0, 3) == [0, 0, 0] by {
      assert BigEndian(0, 1) == [0];
      assert BigEndian(0, 2) == [0, 0];
    }
    assert BigEndian(n, 4) == BigEndian(0, 3) + [n as byte];
  }

  /** Write the records from number `i` on, whatever the responses, and return. */
  function Fill(i: nat): Program
    requires i <= RECORDS
    decreases RECORDS - i
  {
    if i == RECORDS then Return(None)
    else Write(FileName(FileOfRecord(i)), RecordKey(i), V(FiledKeys, i), (r: FileControl.Result<()>) => Fill(i + 1))
  }

  function FillProgram(): Commarea -> Program {
    (c: Commarea) => Fill(0)
  }

  function Programs(): ProgramTable {
    map["FILL" := FillProgram()]
  }

  function Request(): PendingStart {
    PendingStart("FILL", "FILL", None)
  }

  lemma {:induction false} FillAlways(n: nat, i: nat, limit: nat)
    requires i <= RECORDS && limit > MAX_RECORD_KEY
    ensures Always(n, Fill(i), ShortKey(limit))
    decreases n
  {
    if n > 0 && i < RECORDS {
      FillAlways(n - 1, i + 1, limit);
    }
  }

  lemma FillInTable(limit: nat)
    requires limit > MAX_RECORD_KEY
    ensures InTable(Programs(), ShortKey(limit))
  {
    forall n: nat ensures Always(n, Fill(0), ShortKey(limit)) {
      FillAlways(n, 0, limit);
    }
  }

  // ----- what the program does -----

  function StoredUpTo(n: nat): seq<UnitsOfWork.Change>
    requires n <= RECORDS
  {
    seq(n, i requires 0 <= i < n => Stored(K(FiledKeys, i), V(FiledKeys, i)))
  }

  /** The task before record `n`. */
  function Filled(n: nat): Task
    requires n <= RECORDS
  {
    Task([], ApplyAll([], StoredUpTo(n)), StoredUpTo(n), [], [])
  }

  lemma {:induction false} UpsertBelow(l: seq<Entry>, k: Key, v: Bytes, bound: Key)
    requires (forall e :: e in l ==> Less(e.key, bound)) && Less(k, bound)
    ensures forall e :: e in Upsert(l, k, v) ==> Less(e.key, bound)
  {
    if l != [] {
      UpsertBelow(l[1..], k, v, bound);
    }
  }

  lemma {:induction false} NotThere(l: seq<Entry>, k: Key)
    requires forall e :: e in l ==> Less(e.key, k)
    ensures Lookup(l, k) == None
  {
    if l != [] {
      LessIrreflexive(k);
      NotThere(l[1..], k);
    }
  }

  lemma OneMoreRecord(n: nat)
    requires n < RECORDS
    ensures StoredUpTo(n + 1) == StoredUpTo(n) + [Stored(K(FiledKeys, n), V(FiledKeys, n))]
    ensures Filled(n).Changed(Stored(K(FiledKeys, n), V(FiledKeys, n))) == Filled(n + 1)
  {
    assert StoredUpTo(n + 1)[..n] == StoredUpTo(n);
  }

  lemma {:induction false} FilledBelow(n: nat)
    requires n < RECORDS
    ensures forall e :: e in Filled(n).working ==> Less(e.key, K(FiledKeys, n))
  {
    if n > 0 {
      FilledBelow(n - 1);
      OneMoreRecord(n - 1);
      Ascending(FiledKeys, n - 1, n);
      hide K, V, Less;
      forall e | e in Filled(n - 1).working ensures Less(e.key, K(FiledKeys, n)) {
        LessTransitive(e.key, K(FiledKeys, n - 1), K(FiledKeys, n));
      }
      UpsertBelow(Filled(n - 1).working, K(FiledKeys, n - 1), V(FiledKeys, n - 1), K(FiledKeys, n));
    }
  }

  lemma OneWrite(n: nat)
    requires n < RECORDS
    ensures DoWrite(FilesUpTo(FILES), Filled(n), FileName(FileOfRecord(n)), RecordKey(n), V(FiledKeys, n)) == (Ok(()), Filled(n + 1))
  {
    FileIsDefined(FileOfRecord(n), FILES);
    StorageKeyIs(n);
    FilledBelow(n);
    NotThere(Filled(n).working, K(FiledKeys, n));
    OneMoreRecord(n);
    hide K, V, StorageKey, StoredUpTo, FilesUpTo, RecordKey, Lookup;
  }

  lemma {:induction false} FillRuns(n: nat)
    requires n <= RECORDS
    ensures RunBody(RECORDS + 1 - n, Programs(), FilesUpTo(FILES), Fill(n), 1, Filled(n)) == (Done(Ok(None)), Filled(RECORDS))
    decreases RECORDS - n
  {
    hide DoWrite, Filled, K, V, RecordKey, FilesUpTo;
    BodyStep(RECORDS + 1 - n, Programs(), FilesUpTo(FILES), Fill(n), 1, Filled(n));
    if n < RECORDS {
      OneWrite(n);
      FillRuns(n + 1);
    }
  }

  /** The whole dispatch: one task, one unit of work, 45 records. */
  lemma FillDispatched()
    ensures var d := Dispatch(1, RECORDS + 1, Programs(), FilesUpTo(FILES), [], [Request()]);
      d.Some? && AllUnits(d.value.ended) == [UnitOfWork(StoredUpTo(RECORDS), true)]
  {
    hide *;
    FillTask();
    var t := Filled(RECORDS).Commit();
    FilledParts(t);
    DispatchStep(1, RECORDS + 1, Programs(), FilesUpTo(FILES), [], [Request()], []);
    DispatchDone(0, RECORDS + 1, Programs(), FilesUpTo(FILES), t.committed);
    PrecededByNone(Dispatch(1, RECORDS + 1, Programs(), FilesUpTo(FILES), [], [Request()]));
    var e := EndedTask(Request(), Ok(None), t, [Request()][1..]);
    PrecededIs([] + [e], Some(Dispatched(t.committed, [])));
    EndedIs(Request(), Ok(None), t, [Request()][1..]);
    assert [] + [e] + [] == [] + [e];
    UnitsAppend([], e);
    NoUnits([]);
  }

  lemma FillTask()
    ensures RunTask(RECORDS + 1, Programs(), FilesUpTo(FILES), [], Request(), [Request()][1..]) == Some((Ok(None), Filled(RECORDS).Commit()))
  {
    hide *;
    FillRuns(0);
    FillStarts();
    ProgramLaw(RECORDS + 1, Programs(), FilesUpTo(FILES), Request().program, Request().commarea, 1, Filled(0));
    RunTaskIs(RECORDS + 1, Programs(), FilesUpTo(FILES), [], Request(), [Request()][1..]);
  }

  lemma FillStarts()
    ensures Filled(0) == Task([], [], [], [], [Request()][1..]) && 1 <= MAX_LINK_DEPTH
    ensures Request().program in Programs() && Programs()[Request().program](Request().commarea) == Fill(0)
  {
    hide Fill, K, V;
    assert StoredUpTo(0) == [] && [Request()][1..] == [];
  }

  lemma FilledParts(t: Task)
    requires t == Filled(RECORDS).Commit()
    ensures t.queue == [] && t.units == [UnitOfWork(StoredUpTo(RECORDS), true)]
  {
    hide StoredUpTo;
  }

  lemma {:induction false} FillGrows(n: nat)
    requires n <= RECORDS
    ensures GrowAll(Empty, StoredUpTo(n)) == Run(Puts(FiledKeys, n))
  {
    if n > 0 {
      FillGrows(n - 1);
      OneMoreRecord(n - 1);
      PutsStep(FiledKeys, n);
      GrowOne(Empty, StoredUpTo(n - 1), Stored(K(FiledKeys, n - 1), V(FiledKeys, n - 1)));
    }
  }

  /** The tree this unit grows has a leaf of 4098 bytes. */
  lemma FillOverflows()
    ensures !AlwaysFits(Empty, [UnitOfWork(StoredUpTo(RECORDS), true)])
  {
    var u := UnitOfWork(StoredUpTo(RECORDS), true);
    FillGrows(RECORDS);
    RunOverflows(FiledKeys);
    hide StoredUpTo, RootFits, Run, Puts, GrowAll;
    KeptOne(Empty, [], u);
    FitsOne(Empty, [], u);
    assert [] + [u] == [u];
  }

  /**
   * From an empty store, every dispatch of programs that WRITE record keys of at most `limit` bytes grows trees that
   * fit their pages at every commit if and only if `limit` is at most 109. By `RegionModule.Region.StartTask`, that
   * is when no task can panic.
   */
  lemma PanicIsExact(limit: nat)
    ensures (forall budget: nat, fuel: nat, table: ProgramTable, files: Files, queue: seq<PendingStart> ::
               InTable(table, ShortKey(limit)) ==> DispatchFits(budget, fuel, table, files, queue)) <==> limit <= MAX_RECORD_KEY
  {
    hide *;
    if limit <= MAX_RECORD_KEY {
      forall budget: nat, fuel: nat, table: ProgramTable, files: Files, queue: seq<PendingStart> | InTable(table, ShortKey(limit))
        ensures DispatchFits(budget, fuel, table, files, queue)
      {
        EmptyStore(limit);
        DispatchFitsWithin(budget, fuel, table, files, Empty, queue, limit);
        FitsIs(budget, fuel, table, files, queue);
      }
    } else {
      FillInTable(limit);
      FillDispatched();
      FillOverflows();
      FitsIs(1, RECORDS + 1, Programs(), FilesUpTo(FILES), [Request()]);
    }
  }

  /** No commit of this dispatch meets a node too large for its page. */
  ghost predicate DispatchFits(budget: nat, fuel: nat, table: ProgramTable, files: Files, queue: seq<PendingStart>) {
    var d := Dispatch(budget, fuel, table, files, [], queue);
    d.Some? ==> AlwaysFits(Empty, AllUnits(d.value.ended))
  }

  lemma FitsIs(budget: nat, fuel: nat, table: ProgramTable, files: Files, queue: seq<PendingStart>)
    ensures var d := Dispatch(budget, fuel, table, files, [], queue);
      DispatchFits(budget, fuel, table, files, queue) <==> (d.Some? ==> AlwaysFits(Empty, AllUnits(d.value.ended)))
    ensures FILES == 39 && RECORDS == 45
  {
    hide Dispatch, AlwaysFits, AllUnits;
  }

  lemma EmptyStore(limit: nat)
    ensures RootShape(Empty) && RootValid(Empty) && RootRoomy(Empty, FiledKeys) && RootEntries(Empty) == []
    ensures ShortRecords([], limit)
  {
  }

  /** And the region does panic, on a store created a moment ago. */
  method FillPanics() returns (end: RegionModule.TaskEnd)
    ensures end.TaskPanicked?
  {
    hide *;
    var env := new Txn.Environment.Create();
    var fct := new FileControlTable();
    DefineFiles(fct);
    var region := new RegionModule.Region(env, fct);
    region.DefineProgram("FILL", FillProgram());
    RegionIsEmpty(region);
    FillDispatched();
    FillOverflows();
    ghost var units;
    end, units := region.StartTask(1, RECORDS + 1, Request(), []);
  }

  method DefineFiles(fct: FileControlTable)
    requires fct.files == map[] && fct.nextId == 0
    modifies fct
    ensures fct.files == FilesUpTo(FILES)
  {
    for i := 0 to FILES
      invariant fct.files == FilesUpTo(i) && fct.nextId == i
    {
      var id := fct.Define(FileName(i));
    }
  }

  lemma RegionIsEmpty(region: RegionModule.Region)
    requires region.programs == map[]["FILL" := FillProgram()]
    requires region.env.Valid() && region.env.Now().now.tree.NoTree? && !region.env.writerLocked
    ensures region.Valid([]) && region.Tree() == Empty && region.programs == Programs()
  {
  }
}
