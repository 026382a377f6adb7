/**
 * Which trees tasks grow. A unit of work is a series of puts and deletes on the tree, so what the store's tree looks
 * like, and whether a commit can write it, depends only on the units kept before and on the open one.
 */
module Growth {
  import opened Bytes
  import opened SortedList
  import opened BTree
  import opened BTreePut
  import opened BTreeDelete
  import opened Capacity
  import opened FileControl
  import opened UnitsOfWork

  function Grow(r: Root, c: UnitsOfWork.Change): (r': Root)
    requires RootShape(r)
    ensures RootShape(r')
  {
    match c
    case Stored(k, v) => Put(r, k, v)
    case Erased(k) => BTreeDelete.Delete(r, k).0
  }

  function GrowAll(r: Root, cs: seq<UnitsOfWork.Change>): (r': Root)
    requires RootShape(r)
    ensures RootShape(r')
  {
    if cs == [] then r else Grow(GrowAll(r, cs[..|cs| - 1]), cs[|cs| - 1])
  }

  /** The tree after a series of units, of which only the kept ones leave anything. */
  function GrowKept(r: Root, us: seq<UnitOfWork>): (r': Root)
    requires RootShape(r)
    ensures RootShape(r')
  {
    if us == [] then r
    else
      var before := GrowKept(r, us[..|us| - 1]);
      if us[|us| - 1].kept then GrowAll(before, us[|us| - 1].changes) else before
  }

  /** No commit along the way meets a node too large for its page. */
  ghost predicate AlwaysFits(r: Root, us: seq<UnitOfWork>)
    requires RootShape(r)
  {
    forall j :: 0 <= j <= |us| ==> RootFits(GrowKept(r, us[..j]))
  }

  // ----- the tree denotes the records -----

  lemma {:induction false} AllDenoted(r: Root, cs: seq<UnitsOfWork.Change>)
    requires RootShape(r) && RootValid(r)
    ensures RootValid(GrowAll(r, cs)) && RootEntries(GrowAll(r, cs)) == ApplyAll(RootEntries(r), cs)
  {
    if cs != [] {
      var before := GrowAll(r, cs[..|cs| - 1]);
      AllDenoted(r, cs[..|cs| - 1]);
      hide Put, BTreeDelete.Delete, RootEntries, RootValid, Upsert, Remove;
      match cs[|cs| - 1]
      case Stored(k, v) => PutCorrect(before, k, v);
      case Erased(k) => DeleteCorrect(before, k);
    }
  }

  /** The tree grown by a series of units denotes the records the series leaves. */
  lemma {:induction false} KeptDenoted(r: Root, us: seq<UnitOfWork>)
    requires RootShape(r) && RootValid(r)
    ensures RootValid(GrowKept(r, us)) && RootEntries(GrowKept(r, us)) == ApplyKept(RootEntries(r), us)
  {
    if us != [] {
      KeptDenoted(r, us[..|us| - 1]);
      AllDenoted(GrowKept(r, us[..|us| - 1]), us[|us| - 1].changes);
    }
  }

  // ----- more units -----

  lemma GrowOne(r: Root, cs: seq<UnitsOfWork.Change>, c: UnitsOfWork.Change)
    requires RootShape(r)
    ensures GrowAll(r, cs + [c]) == Grow(GrowAll(r, cs), c)
  {
    assert (cs + [c])[..|cs|] == cs;
  }

  lemma KeptOne(r: Root, us: seq<UnitOfWork>, u: UnitOfWork)
    requires RootShape(r)
    ensures GrowKept(r, us + [u]) == if u.kept then GrowAll(GrowKept(r, us), u.changes) else GrowKept(r, us)
  {
    assert (us + [u])[..|us|] == us;
  }

  /** A series that overflows does so whatever comes after. */
  lemma FitsPrefix(r: Root, us: seq<UnitOfWork>, vs: seq<UnitOfWork>)
    requires RootShape(r) && us <= vs && AlwaysFits(r, vs)
    ensures AlwaysFits(r, us) && RootFits(GrowKept(r, us))
  {
    forall j | 0 <= j <= |us| ensures RootFits(GrowKept(r, us[..j])) {
      assert vs[..j] == us[..j];
    }
    assert us[..|us|] == us;
  }

  lemma FitsOne(r: Root, us: seq<UnitOfWork>, u: UnitOfWork)
    requires RootShape(r)
    ensures AlwaysFits(r, us + [u]) <==> AlwaysFits(r, us) && RootFits(GrowKept(r, us + [u]))
  {
    hide GrowKept, RootFits;
    var all := us + [u];
    if AlwaysFits(r, all) {
      FitsPrefix(r, us, all);
      FitsPrefix(r, all, all);
    }
    if AlwaysFits(r, us) && RootFits(GrowKept(r, all)) {
      forall j | 0 <= j <= |all| ensures RootFits(GrowKept(r, all[..j])) {
        assert all[..j] == if j <= |us| then us[..j] else all;
      }
    }
  }

  lemma {:induction false} KeptConcat(r: Root, us: seq<UnitOfWork>, vs: seq<UnitOfWork>)
    requires RootShape(r)
    ensures GrowKept(r, us + vs) == GrowKept(GrowKept(r, us), vs)
    decreases |vs|
  {
    if vs == [] {
      assert us + vs == us;
    } else {
      var last := |vs| - 1;
      KeptConcat(r, us, vs[..last]);
      assert (us + vs)[..|us + vs| - 1] == us + vs[..last];
    }
  }

  lemma FitsConcat(r: Root, us: seq<UnitOfWork>, vs: seq<UnitOfWork>)
    requires RootShape(r)
    ensures AlwaysFits(r, us + vs) <==> AlwaysFits(r, us) && AlwaysFits(GrowKept(r, us), vs)
  {
    var all := us + vs;
    if AlwaysFits(r, all) {
      FitsPrefix(r, us, all);
      forall j | 0 <= j <= |vs| ensures RootFits(GrowKept(GrowKept(r, us), vs[..j])) {
        KeptConcat(r, us, vs[..j]);
        assert all[..|us| + j] == us + vs[..j];
      }
    }
    if AlwaysFits(r, us) && AlwaysFits(GrowKept(r, us), vs) {
      forall j | 0 <= j <= |all| ensures RootFits(GrowKept(r, all[..j])) {
        if j <= |us| {
          assert all[..j] == us[..j];
        } else {
          KeptConcat(r, us, vs[..j - |us|]);
          assert all[..j] == us + vs[..j - |us|];
        }
      }
    }
  }

  // ----- programs that WRITE short keys only -----

  predicate StorageSized(k: Key, limit: nat) {
    4 <= |k| <= 4 + limit
  }

  ghost predicate ShortRecords(l: seq<Entry>, limit: nat) {
    forall e :: e in l ==> StorageSized(e.key, limit)
  }

  ghost predicate ShortChanges(cs: seq<UnitsOfWork.Change>, limit: nat) {
    forall c :: c in cs && c.Stored? ==> StorageSized(c.key, limit)
  }

  ghost predicate ShortUnits(us: seq<UnitOfWork>, limit: nat) {
    forall u :: u in us ==> ShortChanges(u.changes, limit)
  }

  ghost predicate ShortTask(t: Task, limit: nat) {
    && ShortRecords(t.committed, limit) && ShortRecords(t.working, limit)
    && ShortChanges(t.open, limit) && ShortUnits(t.units, limit)
  }

  lemma {:induction false} UpsertShort(l: seq<Entry>, k: Key, v: Bytes, limit: nat)
    requires ShortRecords(l, limit) && StorageSized(k, limit)
    ensures ShortRecords(Upsert(l, k, v), limit)
  {
    if l != [] {
      UpsertShort(l[1..], k, v, limit);
    }
  }

  lemma {:induction false} RemoveShort(l: seq<Entry>, k: Key, limit: nat)
    requires ShortRecords(l, limit)
    ensures ShortRecords(Remove(l, k), limit)
  {
    if l != [] {
      RemoveShort(l[1..], k, limit);
    }
  }

  lemma {:induction false} StoredShort(l: seq<Entry>, k: Key, limit: nat)
    requires ShortRecords(l, limit) && Lookup(l, k).Some?
    ensures StorageSized(k, limit)
  {
    if l[0].key != k {
      StoredShort(l[1..], k, limit);
    }
  }

  lemma ChangedShort(t: Task, c: UnitsOfWork.Change, limit: nat)
    requires ShortTask(t, limit) && (c.Stored? ==> StorageSized(c.key, limit))
    ensures ShortTask(t.Changed(c), limit)
  {
    match c
    case Stored(k, v) => UpsertShort(t.working, k, v, limit);
    case Erased(k) => RemoveShort(t.working, k, limit);
  }

  lemma ClosedShort(t: Task, limit: nat)
    requires ShortTask(t, limit)
    ensures ShortTask(t.Commit(), limit) && ShortTask(t.Undo(), limit)
  {
  }

  /** A REWRITE or DELETE meets only keys that were written before. */
  lemma CommandShort(files: Files, t: Task, file: string, key: Key, data: Bytes, limit: nat)
    requires ShortTask(t, limit)
    ensures |key| <= limit ==> ShortTask(DoWrite(files, t, file, key, data).1, limit)
    ensures ShortTask(DoRewrite(files, t, file, key, data).1, limit)
    ensures ShortTask(DoDelete(files, t, file, key).1, limit)
  {
    hide ShortTask, Upsert, Remove;
    if file in files {
      var sk := StorageKey(files[file], key);
      StorageKeyLength(files[file], key);
      ChangedShort(t, Erased(sk), limit);
      if |key| <= limit { ChangedShort(t, Stored(sk, data), limit); }
      if Lookup(t.working, sk).Some? {
        assert ShortRecords(t.working, limit) by { WorkingShort(t, limit); }
        StoredShort(t.working, sk, limit);
        ChangedShort(t, Stored(sk, data), limit);
      }
    }
  }

  lemma WorkingShort(t: Task, limit: nat)
    requires ShortTask(t, limit)
    ensures ShortRecords(t.working, limit)
  {
  }

  lemma QueuedShort(t: Task, request: PendingStart, limit: nat)
    requires ShortTask(t, limit)
    ensures ShortTask(t.(queue := t.queue + [request]), limit)
  {
  }

  /** Along every run of programs that WRITE only short keys, every change puts a short key. */
  lemma {:induction false} RunShort(fuel: nat, table: ProgramTable, files: Files, p: Program, level: nat, t: Task, limit: nat)
    requires 1 <= level <= MAX_LINK_DEPTH && InTable(table, ShortKey(limit)) && Throughout(p, ShortKey(limit)) && ShortTask(t, limit)
    ensures ShortTask(RunBody(fuel, table, files, p, level, t).1, limit)
    decreases fuel, 0
  {
    hide *;
    if fuel == 0 {
      BodyExhausted(table, files, p, level, t);
    } else {
      BodyStep(fuel, table, files, p, level, t);
      ThroughoutStep(p, ShortKey(limit));
      match p
      case Return(_) =>
      case Abend(_) =>
      case Xctl(name, c) => ProgramShort(fuel - 1, table, files, name, c, level, t, limit);
      case Read(file, key, next) => RunShort(fuel - 1, table, files, next(DoRead(files, t.working, file, key)), level, t, limit);
      case Write(file, key, data, next) =>
        WriteIsShort(p, limit);
        CommandShort(files, t, file, key, data, limit);
        var d := DoWrite(files, t, file, key, data);
        RunShort(fuel - 1, table, files, next(d.0), level, d.1, limit);
      case Rewrite(file, key, data, next) =>
        CommandShort(files, t, file, key, data, limit);
        var d := DoRewrite(files, t, file, key, data);
        RunShort(fuel - 1, table, files, next(d.0), level, d.1, limit);
      case Delete(file, key, next) =>
        CommandShort(files, t, file, key, [], limit);
        var d := DoDelete(files, t, file, key);
        RunShort(fuel - 1, table, files, next(d.0), level, d.1, limit);
      case Browse(file, start, most, next) =>
        RunShort(fuel - 1, table, files, next(DoBrowse(files, t.working, file, start, most)), level, t, limit);
      case Link(name, c, next) =>
        var d := LinkStep(fuel - 1, table, files, name, c, level, t);
        LinkShort(fuel - 1, table, files, name, c, level, t, limit);
        if d.0.Done? {
          RunShort(fuel - 1, table, files, next(d.0.result), level, d.1, limit);
        }
      case Start(request, then_) =>
        QueuedShort(t, request, limit);
        RunShort(fuel - 1, table, files, then_, level, t.(queue := t.queue + [request]), limit);
      case Syncpoint(then_) =>
        ClosedShort(t, limit);
        RunShort(fuel - 1, table, files, then_, level, t.Commit(), limit);
      case SyncpointRollback(then_) =>
        ClosedShort(t, limit);
        RunShort(fuel - 1, table, files, then_, level, t.Undo(), limit);
    }
  }

  lemma WriteIsShort(p: Program, limit: nat)
    requires Throughout(p, ShortKey(limit))
    ensures p.Write? ==> |p.key| <= limit
  {
    assert Always(0, p, ShortKey(limit));
  }

  lemma {:induction false} LinkShort(fuel: nat, table: ProgramTable, files: Files, name: string, c: Commarea, level: nat, t: Task, limit: nat)
    requires 1 <= level <= MAX_LINK_DEPTH && InTable(table, ShortKey(limit)) && ShortTask(t, limit)
    ensures ShortTask(LinkStep(fuel, table, files, name, c, level, t).1, limit)
    decreases fuel, 2
  {
    hide RunProgram, ShortTask, InTable;
    if level < MAX_LINK_DEPTH {
      ProgramShort(fuel, table, files, name, c, level + 1, t, limit);
    }
  }

  lemma {:induction false} ProgramShort(fuel: nat, table: ProgramTable, files: Files, name: string, c: Commarea, level: nat, t: Task, limit: nat)
    requires 1 <= level <= MAX_LINK_DEPTH && InTable(table, ShortKey(limit)) && ShortTask(t, limit)
    ensures ShortTask(RunProgram(fuel, table, files, name, c, level, t).1, limit)
    decreases fuel, 1
  {
    hide RunBody, ShortTask, Throughout;
    if name in table {
      RunShort(fuel, table, files, table[name](c), level, t, limit);
    }
  }

  // ----- short keys grow trees that fit -----

  lemma {:induction false} GrowRoomy(r: Root, cs: seq<UnitsOfWork.Change>)
    requires RootShape(r) && RootValid(r) && RootRoomy(r, FiledKeys) && ShortChanges(cs, MAX_RECORD_KEY)
    ensures RootRoomy(GrowAll(r, cs), FiledKeys)
  {
    if cs != [] {
      var before, c := GrowAll(r, cs[..|cs| - 1]), cs[|cs| - 1];
      assert c in cs;
      AllDenoted(r, cs[..|cs| - 1]);
      GrowRoomy(r, cs[..|cs| - 1]);
      hide RootRoomy, RootValid, Put, BTreeDelete.Delete;
      match c
      case Stored(k, v) => PutRoomy(before, k, v, FiledKeys);
      case Erased(k) => DeleteRoomy(before, k, FiledKeys);
    }
  }

  lemma {:induction false} KeptRoomy(r: Root, us: seq<UnitOfWork>)
    requires RootShape(r) && RootValid(r) && RootRoomy(r, FiledKeys) && ShortUnits(us, MAX_RECORD_KEY)
    ensures RootRoomy(GrowKept(r, us), FiledKeys)
  {
    if us != [] {
      KeptRoomy(r, us[..|us| - 1]);
      KeptDenoted(r, us[..|us| - 1]);
      assert us[|us| - 1] in us;
      GrowRoomy(GrowKept(r, us[..|us| - 1]), us[|us| - 1].changes);
    }
  }

  lemma ShortAlwaysFits(r: Root, us: seq<UnitOfWork>)
    requires RootShape(r) && RootValid(r) && RootRoomy(r, FiledKeys) && ShortUnits(us, MAX_RECORD_KEY)
    ensures AlwaysFits(r, us)
  {
    hide RootRoomy, RootValid, GrowKept, RootFits;
    forall j | 0 <= j <= |us| ensures RootFits(GrowKept(r, us[..j])) {
      KeptRoomy(r, us[..j]);
      RoomyRootFits(GrowKept(r, us[..j]), FiledKeys);
    }
  }

  lemma TaskShort(fuel: nat, table: ProgramTable, files: Files, committed: seq<Entry>, request: PendingStart, waiting: seq<PendingStart>, limit: nat)
    requires InTable(table, ShortKey(limit)) && ShortRecords(committed, limit)
    ensures var o := RunTask(fuel, table, files, committed, request, waiting); o.Some? ==> ShortTask(o.value.1, limit)
  {
    hide InTable, RunProgram;
    var t0 := Task(committed, committed, [], [], waiting);
    ProgramShort(fuel, table, files, request.program, request.commarea, 1, t0, limit);
    ClosedShort(RunProgram(fuel, table, files, request.program, request.commarea, 1, t0).1, limit);
  }

  /** However many tasks a request leads to, their units put short keys only. */
  lemma {:induction false} DispatchShort(budget: nat, fuel: nat, table: ProgramTable, files: Files, committed: seq<Entry>, queue: seq<PendingStart>, limit: nat)
    requires InTable(table, ShortKey(limit)) && ShortRecords(committed, limit)
    ensures var d := Dispatch(budget, fuel, table, files, committed, queue); d.Some? ==> ShortUnits(AllUnits(d.value.ended), limit)
    decreases budget
  {
    hide InTable, RunTask, ShortRecords, ShortChanges;
    if queue != [] && budget > 0 {
      TaskShort(fuel, table, files, committed, queue[0], queue[1..], limit);
      var o := RunTask(fuel, table, files, committed, queue[0], queue[1..]);
      if o.Some? {
        DispatchShort(budget - 1, fuel, table, files, o.value.1.committed, o.value.1.queue, limit);
        var rest := Dispatch(budget - 1, fuel, table, files, o.value.1.committed, o.value.1.queue);
        if rest.Some? {
          var e := EndedTask(queue[0], o.value.0, o.value.1, queue[1..]);
          assert ([e] + rest.value.ended)[1..] == rest.value.ended;
        }
      }
    }
  }

  lemma DispatchFitsWithin(budget: nat, fuel: nat, table: ProgramTable, files: Files, r: Root, queue: seq<PendingStart>, limit: nat)
    requires RootShape(r) && RootValid(r) && RootRoomy(r, FiledKeys) && ShortRecords(RootEntries(r), limit)
    requires InTable(table, ShortKey(limit)) && limit <= MAX_RECORD_KEY
    ensures var d := Dispatch(budget, fuel, table, files, RootEntries(r), queue); d.Some? ==> AlwaysFits(r, AllUnits(d.value.ended))
  {
    hide *;
    DispatchShort(budget, fuel, table, files, RootEntries(r), queue, limit);
    var d := Dispatch(budget, fuel, table, files, RootEntries(r), queue);
    if d.Some? {
      ShorterUnits(AllUnits(d.value.ended), limit);
      ShortAlwaysFits(r, AllUnits(d.value.ended));
    }
  }

  /** In a store within the bound the records themselves have short keys. */
  lemma RoomyRecords(r: Root)
    requires RootShape(r) && RootRoomy(r, FiledKeys)
    ensures ShortRecords(RootEntries(r), MAX_RECORD_KEY)
  {
    forall e | e in RootEntries(r) ensures StorageSized(e.key, MAX_RECORD_KEY) {
      RoomyKeys(r.tree, r.height, e, FiledKeys);
    }
  }

  /**
   * Programs that WRITE record keys of at most 109 bytes grow only trees that fit, whatever they do, from any store
   * that keeps the byte bound.
   */
  lemma ShortDispatchFits(budget: nat, fuel: nat, table: ProgramTable, files: Files, r: Root, queue: seq<PendingStart>)
    requires RootShape(r) && RootValid(r) && RootRoomy(r, FiledKeys) && InTable(table, ShortKey(MAX_RECORD_KEY))
    ensures var d := Dispatch(budget, fuel, table, files, RootEntries(r), queue); d.Some? ==> AlwaysFits(r, AllUnits(d.value.ended))
  {
    hide *;
    RoomyRecords(r);
    DispatchFitsWithin(budget, fuel, table, files, r, queue, MAX_RECORD_KEY);
  }

  lemma ShorterUnits(us: seq<UnitOfWork>, limit: nat)
    requires ShortUnits(us, limit)
    ensures limit <= MAX_RECORD_KEY ==> ShortUnits(us, MAX_RECORD_KEY)
  {
  }
}
