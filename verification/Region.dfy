/**
 * The region of src/runtime/region.rs on the real environment: `ExecCtx` runs a program's commands on the open
 * write transaction and is proved equal, command by command, to the semantics in `UnitsOfWork`.
 */
module RegionModule {
  import opened Bytes
  import opened SortedList
  import opened BTreePut
  import opened TreePut
  import opened Protocol
  import opened Txn
  import opened FileControl
  import opened UnitsOfWork
  import opened PageFit
  import opened Capacity
  import opened Growth
  import opened StackMachine
  import BTreeDelete

  /** The committed store holds exactly the records `l`, all of them File Control's. */
  ghost predicate Holds(env: Environment, l: seq<Entry>)
    reads env, env.pager
  {
    && env.Valid() && env.Now().now.tree.Sound()
    && RootEntries(env.Now().now.tree.Abstract()) == l && AllFiled(l)
  }

  lemma FiledSound(w: WriteTxn)
    requires Filed(w)
    ensures w.Valid() && w.env.Valid() && w.tree.Sound() && AllFiled(w.Records())
  {
  }

  ghost predicate Shows(t: LocatedRoot, l: seq<Entry>) {
    t.Sound() && RootEntries(t.Abstract()) == l && AllFiled(l)
  }

  lemma HoldsNow(env: Environment, l: seq<Entry>)
    requires env.Valid() && Shows(env.Now().now.tree, l)
    ensures Holds(env, l)
  {
  }

  lemma RecordsAre(w: WriteTxn)
    requires Filed(w)
    ensures w.tree.Sound() && Shows(w.tree, w.Records())
  {
  }

  lemma UndoIs(t: Task)
    ensures t.Undo().committed == t.committed == t.Undo().working && t.Undo().queue == t.queue
    ensures t.Commit().committed == t.working == t.Commit().working && t.Commit().queue == t.queue
  {
  }

  // ----- the tree, as the units grow it -----

  /** The committed tree is the one the kept units grow from `root`, and every commit on the way met only nodes that fit. */
  ghost predicate Rests(committed: LocatedRoot, t: Task, root: Root) {
    && RootShape(root) && committed.Sound()
    && committed.Abstract() == GrowKept(root, t.units) && AlwaysFits(root, t.units)
  }

  /** The transaction's tree is the one the open unit grows from there. */
  ghost predicate Follows(committed: LocatedRoot, working: LocatedRoot, t: Task, root: Root) {
    Rests(committed, t, root) && working.Sound() && working.Abstract() == GrowAll(GrowKept(root, t.units), t.open)
  }

  /** To commit the open unit is to write a node that does not fit its page. */
  ghost predicate Overflows(t: Task, root: Root) {
    RootShape(root) && !RootFits(GrowKept(root, t.Commit().units))
  }

  lemma FollowsStart(tree: LocatedRoot, l: seq<Entry>, queue: seq<PendingStart>)
    requires TreeFits(tree)
    ensures Follows(tree, tree, Task(l, l, [], [], queue), tree.Abstract())
  {
  }

  lemma FollowsChanged(committed: LocatedRoot, working: LocatedRoot, next: LocatedRoot, t: Task, c: UnitsOfWork.Change, root: Root)
    requires Follows(committed, working, t, root) && next.Sound() && next.Abstract() == Grow(working.Abstract(), c)
    ensures Follows(committed, next, t.Changed(c), root)
  {
    GrowOne(GrowKept(root, t.units), t.open, c);
    hide GrowAll, GrowKept, Grow, AlwaysFits;
  }

  lemma FollowsCommit(committed: LocatedRoot, working: LocatedRoot, t: Task, root: Root)
    requires Follows(committed, working, t, root)
    ensures RootShape(working.Abstract())
    ensures RootFits(working.Abstract()) ==> Follows(working, working, t.Commit(), root)
    ensures !RootFits(working.Abstract()) ==> Overflows(t, root)
  {
    var u := UnitOfWork(t.open, true);
    KeptOne(root, t.units, u);
    FitsOne(root, t.units, u);
    NoChanges(GrowKept(root, t.units + [u]));
    hide GrowAll, GrowKept, AlwaysFits, RootFits;
  }

  lemma FollowsUndo(committed: LocatedRoot, working: LocatedRoot, t: Task, root: Root)
    requires Follows(committed, working, t, root)
    ensures Follows(committed, committed, t.Undo(), root)
  {
    var u := UnitOfWork(t.open, false);
    KeptOne(root, t.units, u);
    FitsPrefix(root, t.units, t.units);
    FitsOne(root, t.units, u);
    NoChanges(GrowKept(root, t.units + [u]));
    hide GrowAll, GrowKept, AlwaysFits, RootFits;
  }

  lemma NoChanges(r: Root)
    requires RootShape(r)
    ensures GrowAll(r, []) == r
  {
  }

  lemma FollowsTask(committed: LocatedRoot, working: LocatedRoot, t: Task, t': Task, root: Root)
    requires Follows(committed, working, t, root) && t'.open == t.open && t'.units == t.units
    ensures Follows(committed, working, t', root) && Rests(committed, t', root)
  {
  }

  lemma FollowsRests(tree: LocatedRoot, t: Task, root: Root)
    ensures Follows(tree, tree, t, root) ==> Rests(tree, t, root)
  {
  }

  lemma WriteFollows(fct: FileControlTable, t: Task, file: string, key: Key, data: Bytes, r: Result<()>,
                      committed: LocatedRoot, working: LocatedRoot, next: LocatedRoot, root: Root)
    requires Follows(committed, working, t, root) && next.Sound() && r == DoWrite(fct.files, t, file, key, data).0
    requires r.Ok? ==> fct.Resolve(file).Ok? && next.Abstract() == BTreePut.Put(working.Abstract(), StorageKey(fct.Resolve(file).value, key), data)
    requires r.Err? ==> next == working
    ensures Follows(committed, next, DoWrite(fct.files, t, file, key, data).1, root)
  {
    hide Follows, StorageKey, BTreePut.Put;
    if r.Ok? {
      FollowsChanged(committed, working, next, t, Stored(StorageKey(fct.files[file], key), data), root);
    }
  }

  lemma RewriteFollows(fct: FileControlTable, t: Task, file: string, key: Key, data: Bytes, r: Result<()>,
                      committed: LocatedRoot, working: LocatedRoot, next: LocatedRoot, root: Root)
    requires Follows(committed, working, t, root) && next.Sound() && r == DoRewrite(fct.files, t, file, key, data).0
    requires r.Ok? ==> fct.Resolve(file).Ok? && next.Abstract() == BTreePut.Put(working.Abstract(), StorageKey(fct.Resolve(file).value, key), data)
    requires r.Err? ==> next == working
    ensures Follows(committed, next, DoRewrite(fct.files, t, file, key, data).1, root)
  {
    hide Follows, StorageKey, BTreePut.Put;
    if r.Ok? {
      FollowsChanged(committed, working, next, t, Stored(StorageKey(fct.files[file], key), data), root);
    }
  }

  lemma DeleteFollows(fct: FileControlTable, t: Task, file: string, key: Key,
                      committed: LocatedRoot, working: LocatedRoot, next: LocatedRoot, root: Root)
    requires Follows(committed, working, t, root) && next.Sound()
    requires if fct.Resolve(file).Ok? then next.Abstract() == BTreeDelete.Delete(working.Abstract(), StorageKey(fct.Resolve(file).value, key)).0
             else next == working
    ensures Follows(committed, next, DoDelete(fct.files, t, file, key).1, root)
  {
    hide Follows, StorageKey, BTreeDelete.Delete;
    if file in fct.files {
      FollowsChanged(committed, working, next, t, Erased(StorageKey(fct.files[file], key)), root);
    }
  }

  /** Every committed tree fits, for its commit succeeded. */
  lemma HoldsFits(env: Environment, l: seq<Entry>)
    requires Holds(env, l)
    ensures TreeFits(env.Now().now.tree)
  {
    CommittedFits(env.trace, |env.trace| - 1);
    hide IsRun;
  }

  /** The store as a transaction that has just begun on it finds it. */
  lemma Begun(w: WriteTxn, l: seq<Entry>)
    requires Holds(w.env, l) && w.Valid() && w.tree == w.env.Now().now.tree
    ensures Filed(w) && w.Records() == l
  {
  }

  lemma HoldsValid(env: Environment, l: seq<Entry>)
    requires Holds(env, l)
    ensures env.Valid() && AllFiled(l) && Shows(env.Now().now.tree, l)
  {
  }

  /** How a program's own run ended: by RETURN, XCTL or an error, or by the panic of a commit that met an oversized node. */
  datatype ProgramOutcome = Exhausted | Panicked | Failed(error: CicsError) | Returned(commarea: Commarea) | Transferred(program: string, commarea: Commarea)

  /** How a LINK or a SYNCPOINT left its program: with the rest to run, or not at all. */
  datatype Suspension = Resumed(rest: Program) | NeverBack | Died

  datatype LoopEnd = LoopPanicked | Finished(outcome: Outcome)

  datatype TaskEnd = TaskExhausted | TaskPanicked | Answered(result: Result<Commarea>)

  class ExecCtx {
    const env: Environment
    const programs: ProgramTable
    const fct: FileControlTable
    var txn: WriteTxn
    var pendingStarts: seq<PendingStart>
    ghost var task: Task
    ghost const initial: seq<Entry>
    ghost const root: Root

    constructor (env: Environment, programs: ProgramTable, fct: FileControlTable, txn: WriteTxn, pendingStarts: seq<PendingStart>, ghost l: seq<Entry>)
      requires Holds(env, l) && txn.env == env && txn.Valid() && txn.tree == env.Now().now.tree
      ensures this.env == env && this.programs == programs && this.fct == fct && this.txn == txn
      ensures Valid() && task == Task(l, l, [], [], pendingStarts) && initial == l && root == env.Now().now.tree.Abstract()
    {
      HoldsFits(env, l);
      FollowsStart(txn.tree, l, pendingStarts);
      hide Follows;
      root := env.Now().now.tree.Abstract();
      this.env, this.programs, this.fct, this.txn, this.pendingStarts := env, programs, fct, txn, pendingStarts;
      task, initial := Task(l, l, [], [], pendingStarts), l;
    }

    /** The open transaction shows the task's working records over its committed ones. */
    ghost predicate Valid()
      reads this, env, env.pager, txn, txn.ctx, txn.ctx.pager
    {
      && txn.env == env && Filed(txn) && txn.Records() == task.working
      && Holds(env, task.committed) && pendingStarts == task.queue && Faithful(task, initial)
      && Follows(env.Now().now.tree, txn.tree, task, root)
    }

    /** After a panic the transaction is gone, and the store holds exactly the units closed before. */
    ghost predicate Dropped()
      reads this, env, env.pager
    {
      && Holds(env, task.committed) && !env.writerLocked && Faithful(task, initial)
      && Rests(env.Now().now.tree, task, root)
    }

    /** A panic, at a commit that the semantics, which does not know panics, goes past on its way to these units. */
    ghost predicate Stopped(units: seq<UnitOfWork>)
      reads this, env, env.pager
    {
      Dropped() && Overflows(task, root) && task.Commit().units <= units
    }

    /** What validity says, and what is enough for it. */
    lemma Opened()
      requires Valid()
      ensures txn.env == env && Filed(txn) && AllFiled(task.working) && txn.Records() == task.working
      ensures Holds(env, task.committed) && Shows(env.Now().now.tree, task.committed)
      ensures pendingStarts == task.queue && Faithful(task, initial)
      ensures Follows(env.Now().now.tree, txn.tree, task, root)
    {
    }

    /** What is left after the task. */
    lemma Left()
      requires Dropped()
      ensures Holds(env, task.committed) && !env.writerLocked && task.committed == ApplyKept(initial, task.units)
      ensures RootShape(root) && |env.trace| > 0 && env.Now().now.tree.Sound()
      ensures env.Now().now.tree.Abstract() == GrowKept(root, task.units) && AlwaysFits(root, task.units)
    {
    }

    lemma StoppedParts(units: seq<UnitOfWork>)
      requires Stopped(units)
      ensures Dropped() && Overflows(task, root) && task.Commit().units <= units
    {
    }

    lemma Drops()
      requires Holds(env, task.committed) && !env.writerLocked && Faithful(task, initial)
      requires Rests(env.Now().now.tree, task, root)
      ensures Dropped()
    {
    }

    lemma Stops(units: seq<UnitOfWork>)
      requires Dropped() && Overflows(task, root) && task.Commit().units <= units
      ensures Stopped(units)
    {
    }

    lemma StillStopped(units: seq<UnitOfWork>, more: seq<UnitOfWork>)
      requires Stopped(units) && units <= more
      ensures Stopped(more)
    {
      hide Dropped, Overflows;
    }

    lemma Reopens()
      requires txn.env == env && Filed(txn) && txn.Records() == task.working
      requires Holds(env, task.committed) && pendingStarts == task.queue && Faithful(task, initial)
      requires Follows(env.Now().now.tree, txn.tree, task, root)
      ensures Valid()
    {
    }

    /** EXEC CICS READ. */
    method Read(file: string, key: Key) returns (r: Result<Bytes>)
      requires Valid()
      ensures r == DoRead(fct.files, task.working, file, key)
      ensures AllFiled(task.working) && ReadAnswer(r, fct.files, task.working, file, key)
    {
      hide StorageKey, Lookup, FileRecords, Holds, ReadAnswer;
      ReadAnswers(fct.files, task.working, file, key);
      r := ExecRead(txn, fct, file, key);
      if file in fct.files {
        ReadIsLocal(task.working, fct.files[file], key);
      }
    }

    /** EXEC CICS WRITE. */
    method Write(file: string, key: Key, data: Bytes) returns (r: Result<()>)
      requires Valid()
      modifies `task, txn, txn.ctx, env`trace, env.pager`pages, env.pager`unsynced
      ensures Valid() && (r, task) == DoWrite(fct.files, old(task), file, key, data)
      ensures old(env.Roomy(FiledKeys)) && |key| <= MAX_RECORD_KEY ==> env.Roomy(FiledKeys)
    {
      hide *;
      Opened();
      ghost var was := txn.tree;
      r := ExecWrite(txn, fct, file, key, data);
      FiledSound(txn);
      WriteAgrees(fct, task, file, key, data, r, txn.Records());
      HoldsNow(env, task.committed);
      WriteFaithful(fct.files, task, file, key, data, initial);
      WriteFollows(fct, task, file, key, data, r, env.Now().now.tree, was, txn.tree, root);
      task := DoWrite(fct.files, task, file, key, data).1;
      Reopens();
    }

    /** EXEC CICS REWRITE. */
    method Rewrite(file: string, key: Key, data: Bytes) returns (r: Result<()>)
      requires Valid()
      modifies `task, txn, txn.ctx, env`trace, env.pager`pages, env.pager`unsynced
      ensures Valid() && (r, task) == DoRewrite(fct.files, old(task), file, key, data)
      ensures old(env.Roomy(FiledKeys)) ==> env.Roomy(FiledKeys)
    {
      hide *;
      Opened();
      ghost var was := txn.tree;
      r := ExecRewrite(txn, fct, file, key, data);
      FiledSound(txn);
      RewriteAgrees(fct, task, file, key, data, r, txn.Records());
      HoldsNow(env, task.committed);
      WriteFaithful(fct.files, task, file, key, data, initial);
      RewriteFollows(fct, task, file, key, data, r, env.Now().now.tree, was, txn.tree, root);
      task := DoRewrite(fct.files, task, file, key, data).1;
      Reopens();
    }

    /** EXEC CICS DELETE. */
    method Delete(file: string, key: Key) returns (r: Result<()>)
      requires Valid()
      modifies `task, txn, txn.ctx, env`trace
      ensures Valid() && (r, task) == DoDelete(fct.files, old(task), file, key)
      ensures old(env.Roomy(FiledKeys)) ==> env.Roomy(FiledKeys)
    {
      hide *;
      Opened();
      ghost var was := txn.tree;
      r := ExecDelete(txn, fct, file, key);
      FiledSound(txn);
      DeleteAgrees(fct, task, file, key, r, txn.Records());
      HoldsNow(env, task.committed);
      WriteFaithful(fct.files, task, file, key, [], initial);
      DeleteFollows(fct, task, file, key, env.Now().now.tree, was, txn.tree, root);
      task := DoDelete(fct.files, task, file, key).1;
      Reopens();
    }

    /** EXEC CICS STARTBR, READNEXT and ENDBR in one. */
    method Browse(file: string, start: Option<Key>, limit: nat) returns (r: Result<seq<Entry>>)
      requires Valid()
      ensures r == DoBrowse(fct.files, task.working, file, start, limit)
      ensures AllFiled(task.working) && BrowseAnswer(r, fct.files, task.working, file, start, limit)
    {
      hide StorageKey, FileRecords, Scan, Page, Holds, BrowseAnswer;
      BrowseAnswers(fct.files, task.working, file, start, limit);
      r := ExecBrowse(txn, fct, file, start, limit);
      if file in fct.files {
        assert DoBrowse(fct.files, task.working, file, start, limit).value == r.value;
      }
    }

    /** EXEC CICS START. */
    method Start(request: PendingStart)
      requires Valid()
      modifies `task, `pendingStarts
      ensures Valid() && task == old(task).(queue := old(task.queue) + [request]) && pendingStarts == old(pendingStarts) + [request]
    {
      FollowsTask(env.Now().now.tree, txn.tree, task, task.(queue := task.queue + [request]), root);
      hide Follows, Holds, Filed;
      pendingStarts := pendingStarts + [request];
      task := task.(queue := task.queue + [request]);
    }

    /** EXEC CICS SYNCPOINT: commit, and open a fresh unit of work; or panic, if a staged node does not fit its page. */
    method Syncpoint() returns (ok: bool)
      requires Valid()
      modifies `task, `txn, txn.ctx, env, env.pager
      ensures ok ==> Valid() && task == old(task).Commit() && fresh(txn) && fresh(txn.ctx)
      ensures !ok ==> Dropped() && task == old(task) && Overflows(task, root)
      ensures old(env.Roomy(FiledKeys)) ==> ok && env.Roomy(FiledKeys)
    {
      hide *;
      Opened();
      FiledSound(txn);
      RecordsAre(txn);
      FollowsCommit(env.Now().now.tree, txn.tree, task, root);
      FollowsTask(env.Now().now.tree, txn.tree, task, task, root);
      ok := txn.Commit();
      ClosedFaithful(task, initial);
      if !ok {
        HoldsNow(env, task.committed);
        Drops();
        return;
      }
      txn := env.BeginWrite();
      HoldsNow(env, task.working);
      Begun(txn, task.working);
      task := task.Commit();
      UndoIs(old(task));
      Reopens();
    }

    /** EXEC CICS SYNCPOINT ROLLBACK: discard, and open a fresh unit of work. */
    method SyncpointRollback()
      requires Valid()
      modifies `task, `txn, env`trace, env`writerLocked, env.pager`mayWrite
      ensures Valid() && task == old(task).Undo()
      ensures fresh(txn) && fresh(txn.ctx)
      ensures old(env.Roomy(FiledKeys)) ==> env.Roomy(FiledKeys)
    {
      hide *;
      Opened();
      FiledSound(txn);
      ghost var l := task.committed;
      ClosedFaithful(task, initial);
      FollowsUndo(env.Now().now.tree, txn.tree, task, root);
      txn.Rollback();
      txn := env.BeginWrite();
      HoldsNow(env, l);
      Begun(txn, l);
      task := task.Undo();
      UndoIs(old(task));
      Reopens();
    }

    /** The end of a task: a normal one commits, or panics; an abend backs out. */
    method Close(normal: bool) returns (ok: bool)
      requires Valid()
      modifies `task, txn.ctx, env, env.pager
      ensures Dropped() && (!normal ==> ok)
      ensures task == if !ok then old(task) else if normal then old(task).Commit() else old(task).Undo()
      ensures !ok ==> Overflows(task, root)
      ensures pendingStarts == task.queue
      ensures old(env.Roomy(FiledKeys)) ==> ok && env.Roomy(FiledKeys)
    {
      hide *;
      Opened();
      FiledSound(txn);
      RecordsAre(txn);
      ClosedFaithful(task, initial);
      UndoIs(task);
      ghost var now, mine := env.Now().now.tree, txn.tree;
      FollowsCommit(now, mine, task, root);
      FollowsUndo(now, mine, task, root);
      FollowsTask(now, mine, task, task, root);
      FollowsRests(mine, task.Commit(), root);
      FollowsRests(now, task.Undo(), root);
      if normal {
        ok := txn.Commit();
        if ok {
          HoldsNow(env, task.working);
          task := task.Commit();
        } else {
          HoldsNow(env, task.committed);
        }
      } else {
        txn.Rollback();
        HoldsNow(env, task.committed);
        task, ok := task.Undo(), true;
      }
      Drops();
    }

    /** EXEC CICS LINK: run another program one level deeper; too deep a nest is an error the caller sees. */
    method LinkTo(fuel: nat, program: string, commarea: Commarea, level: nat) returns (end: LoopEnd)
      requires Valid() && 1 <= level <= MAX_LINK_DEPTH
      modifies this, txn, txn.ctx, env, env.pager
      ensures end.Finished? ==>
        && Valid() && fresh({txn, txn.ctx} - old({txn, txn.ctx}))
        && (end.outcome, task) == LinkStep(fuel, programs, fct.files, program, commarea, level, old(task))
      ensures end.LoopPanicked? ==> Stopped(LinkStep(fuel, programs, fct.files, program, commarea, level, old(task)).1.units)
      ensures old(env.Roomy(FiledKeys)) && InTable(programs, ShortKey(MAX_RECORD_KEY)) ==> end.Finished? && env.Roomy(FiledKeys)
      decreases fuel, 2
    {
      hide Filed, Holds, Faithful, Follows, Stopped, AllRoomy, InTable, RunProgram;
      if level + 1 > MAX_LINK_DEPTH {
        end := Finished(Done(Err(LinkStackOverflow(program))));
      } else {
        end := RunProgramLoop(fuel, program, commarea, level + 1);
      }
    }

    /** Run programs at one link level, following XCTLs, until control returns. */
    method RunProgramLoop(fuel: nat, program: string, commarea: Commarea, level: nat) returns (end: LoopEnd)
      requires Valid() && 1 <= level <= MAX_LINK_DEPTH
      modifies this, txn, txn.ctx, env, env.pager
      ensures end.Finished? ==>
        && Valid() && fresh({txn, txn.ctx} - old({txn, txn.ctx}))
        && (end.outcome, task) == RunProgram(fuel, programs, fct.files, program, commarea, level, old(task))
      ensures end.LoopPanicked? ==> Stopped(RunProgram(fuel, programs, fct.files, program, commarea, level, old(task)).1.units)
      ensures old(env.Roomy(FiledKeys)) && InTable(programs, ShortKey(MAX_RECORD_KEY)) ==> end.Finished? && env.Roomy(FiledKeys)
      decreases fuel, 1
    {
      hide Filed, Holds, Faithful, Follows, Stopped, AllRoomy, Throughout, RunBody;
      ghost var small := env.Roomy(FiledKeys) && InTable(programs, ShortKey(MAX_RECORD_KEY));
      var name, c := program, commarea;
      var left: nat := fuel;
      while true
        invariant left <= fuel && Valid() && fresh({txn, txn.ctx} - old({txn, txn.ctx}))
        invariant RunProgram(left, programs, fct.files, name, c, level, task)
               == RunProgram(fuel, programs, fct.files, program, commarea, level, old(task))
        invariant small ==> env.Roomy(FiledKeys)
        decreases left
      {
        if name !in programs {
          return Finished(Done(Err(ProgramNotFound(name))));
        }
        var stop;
        stop, left := Execute(left, programs[name](c), level);
        match stop
        case Exhausted => return Finished(OutOfFuel);
        case Panicked => return LoopPanicked;
        case Failed(e) => return Finished(Done(Err(e)));
        case Returned(r) => return Finished(Done(Ok(r)));
        case Transferred(next, passed) => name, c := next, passed;
      }
    }

    /** A command that neither leaves the program nor commits: File Control, START and SYNCPOINT ROLLBACK. */
    method Command(fuel: nat, p: Program, level: nat) returns (q: Program)
      requires Valid() && 1 <= level <= MAX_LINK_DEPTH
      requires p.Read? || p.Write? || p.Rewrite? || p.Delete? || p.Browse? || p.Start? || p.SyncpointRollback?
      modifies this, txn, txn.ctx, env, env.pager
      ensures Valid() && fresh({txn, txn.ctx} - old({txn, txn.ctx}))
      ensures RunBody(fuel + 1, programs, fct.files, p, level, old(task)) == RunBody(fuel, programs, fct.files, q, level, task)
      ensures old(env.Roomy(FiledKeys)) && Throughout(p, ShortKey(MAX_RECORD_KEY)) ==> env.Roomy(FiledKeys) && Throughout(q, ShortKey(MAX_RECORD_KEY))
    {
      hide *;
      BodyStep(fuel + 1, programs, fct.files, p, level, task);
      if Throughout(p, ShortKey(MAX_RECORD_KEY)) { ThroughoutStep(p, ShortKey(MAX_RECORD_KEY)); WriteIsShort(p, MAX_RECORD_KEY); }
      match p
      case Read(file, key, next) =>
        var r := Read(file, key);
        q := next(r);
      case Write(file, key, data, next) =>
        var r := Write(file, key, data);
        q := next(r);
      case Rewrite(file, key, data, next) =>
        var r := Rewrite(file, key, data);
        q := next(r);
      case Delete(file, key, next) =>
        var r := Delete(file, key);
        q := next(r);
      case Browse(file, start, limit, next) =>
        var r := Browse(file, start, limit);
        q := next(r);
      case Start(request, then_) =>
        Start(request);
        q := then_;
      case SyncpointRollback(then_) =>
        SyncpointRollback();
        q := then_;
    }

    /** A LINK or a SYNCPOINT: the commands at which the task may panic, or the program not come back. */
    method Suspend(fuel: nat, p: Program, level: nat) returns (r: Suspension)
      requires Valid() && 1 <= level <= MAX_LINK_DEPTH && (p.Link? || p.Syncpoint?)
      modifies this, txn, txn.ctx, env, env.pager
      ensures !r.Died? ==>
        && Valid() && fresh({txn, txn.ctx} - old({txn, txn.ctx}))
        && RunBody(fuel + 1, programs, fct.files, p, level, old(task)) ==
           if r.Resumed? then RunBody(fuel, programs, fct.files, r.rest, level, task) else (OutOfFuel, task)
      ensures r.Died? ==> Stopped(RunBody(fuel + 1, programs, fct.files, p, level, old(task)).1.units)
      ensures old(env.Roomy(FiledKeys)) && InTable(programs, ShortKey(MAX_RECORD_KEY)) && Throughout(p, ShortKey(MAX_RECORD_KEY)) ==>
        !r.Died? && env.Roomy(FiledKeys) && (r.Resumed? ==> Throughout(r.rest, ShortKey(MAX_RECORD_KEY)))
      decreases fuel, 3
    {
      hide *;
      BodyStep(fuel + 1, programs, fct.files, p, level, task);
      if Throughout(p, ShortKey(MAX_RECORD_KEY)) { ThroughoutStep(p, ShortKey(MAX_RECORD_KEY)); }
      Opened();
      r := Died;
      if p.Syncpoint? {
        ClosedFaithful(task, initial);
        RunFaithful(fuel, programs, fct.files, p.then_, level, task.Commit(), initial);
        var ok := Syncpoint();
        if ok {
          return Resumed(p.then_);
        }
        Stops(RunBody(fuel + 1, programs, fct.files, p, level, old(task)).1.units);
      } else {
        LinkUnits(fuel + 1, programs, fct.files, p, level, task, initial);
        var end := LinkTo(fuel, p.program, p.commarea, level);
        if end.LoopPanicked? {
          StillStopped(LinkStep(fuel, programs, fct.files, p.program, p.commarea, level, old(task)).1.units,
                       RunBody(fuel + 1, programs, fct.files, p, level, old(task)).1.units);
        } else if end.outcome.OutOfFuel? {
          r := NeverBack;
        } else {
          return Resumed(p.onReturn(end.outcome.result));
        }
      }
    }

    /** One program's own commands, up to its RETURN, XCTL or error; `left` is the fuel an XCTL goes on with. */
    method Execute(fuel: nat, program: Program, level: nat) returns (stop: ProgramOutcome, left: nat)
      requires Valid() && 1 <= level <= MAX_LINK_DEPTH
      modifies this, txn, txn.ctx, env, env.pager
      ensures !stop.Panicked? ==>
        && Valid() && fresh({txn, txn.ctx} - old({txn, txn.ctx}))
        && RunBody(fuel, programs, fct.files, program, level, old(task)) ==
           match stop
           case Exhausted => (OutOfFuel, task)
           case Failed(e) => (Done(Err(e)), task)
           case Returned(c) => (Done(Ok(c)), task)
           case Transferred(name, c) => RunProgram(left, programs, fct.files, name, c, level, task)
      ensures left <= fuel && (stop.Transferred? ==> left < fuel)
      ensures stop.Panicked? ==> Stopped(RunBody(fuel, programs, fct.files, program, level, old(task)).1.units)
      ensures old(env.Roomy(FiledKeys)) && InTable(programs, ShortKey(MAX_RECORD_KEY)) && Throughout(program, ShortKey(MAX_RECORD_KEY)) ==> !stop.Panicked? && env.Roomy(FiledKeys)
      decreases fuel, 0
    {
      hide *;
      ghost var small := env.Roomy(FiledKeys) && InTable(programs, ShortKey(MAX_RECORD_KEY)) && Throughout(program, ShortKey(MAX_RECORD_KEY));
      var p := program;
      left := fuel;
      while left > 0
        invariant left <= fuel && Valid() && fresh({txn, txn.ctx} - old({txn, txn.ctx}))
        invariant RunBody(left, programs, fct.files, p, level, task) == RunBody(fuel, programs, fct.files, program, level, old(task))
        invariant small ==> env.Roomy(FiledKeys) && Throughout(p, ShortKey(MAX_RECORD_KEY))
      {
        BodyStep(left, programs, fct.files, p, level, task);
        if small { ThroughoutStep(p, ShortKey(MAX_RECORD_KEY)); }
        left := left - 1;
        if p.Return? {
          return Returned(p.commarea), left;
        } else if p.Abend? {
          return Failed(p.error), left;
        } else if p.Xctl? {
          return Transferred(p.program, p.commarea), left;
        } else if p.Link? || p.Syncpoint? {
          var r := Suspend(left, p, level);
          if !r.Resumed? {
            return if r.Died? then Panicked else Exhausted, left;
          }
          p := r.rest;
        } else {
          p := Command(left, p, level);
        }
      }
      BodyExhausted(programs, fct.files, p, level, task);
      stop := Exhausted;
    }
  }

  lemma WriteAgrees(fct: FileControlTable, t: Task, file: string, key: Key, data: Bytes, r: Result<()>, now: seq<Entry>)
    requires AllFiled(t.working)
    requires fct.Resolve(file).Err? ==> r == Err(FileNotFound(file))
    requires fct.Resolve(file).Ok? ==>
      if Lookup(FileRecords(t.working, fct.Resolve(file).value), key).Some? then r == Err(DuplicateKey(key, file)) else r == Ok(())
    requires r.Ok? ==> fct.Resolve(file).Ok? && now == Upsert(t.working, StorageKey(fct.Resolve(file).value, key), data)
    requires r.Err? ==> now == t.working
    ensures var d := DoWrite(fct.files, t, file, key, data);
      r == d.0 && now == d.1.working && d.1.committed == t.committed && d.1.queue == t.queue
  {
    if file in fct.files {
      ReadIsLocal(t.working, fct.files[file], key);
    }
    hide StorageKey, Lookup, FileRecords, Upsert, Remove;
  }

  lemma RewriteAgrees(fct: FileControlTable, t: Task, file: string, key: Key, data: Bytes, r: Result<()>, now: seq<Entry>)
    requires AllFiled(t.working)
    requires fct.Resolve(file).Err? ==> r == Err(FileNotFound(file))
    requires fct.Resolve(file).Ok? ==>
      if Lookup(FileRecords(t.working, fct.Resolve(file).value), key).None? then r == Err(RecordNotFound(key, file)) else r == Ok(())
    requires r.Ok? ==> fct.Resolve(file).Ok? && now == Upsert(t.working, StorageKey(fct.Resolve(file).value, key), data)
    requires r.Err? ==> now == t.working
    ensures var d := DoRewrite(fct.files, t, file, key, data);
      r == d.0 && now == d.1.working && d.1.committed == t.committed && d.1.queue == t.queue
  {
    if file in fct.files {
      ReadIsLocal(t.working, fct.files[file], key);
    }
    hide StorageKey, Lookup, FileRecords, Upsert, Remove;
  }

  lemma DeleteAgrees(fct: FileControlTable, t: Task, file: string, key: Key, r: Result<()>, now: seq<Entry>)
    requires AllFiled(t.working)
    requires fct.Resolve(file).Err? ==> r == Err(FileNotFound(file))
    requires fct.Resolve(file).Ok? ==>
      if Lookup(FileRecords(t.working, fct.Resolve(file).value), key).None? then r == Err(RecordNotFound(key, file)) else r == Ok(())
    requires r.Ok? ==> fct.Resolve(file).Ok? && now == Remove(t.working, StorageKey(fct.Resolve(file).value, key))
    requires r.Err? ==> now == t.working
    ensures var d := DoDelete(fct.files, t, file, key);
      r == d.0 && now == d.1.working && d.1.committed == t.committed && d.1.queue == t.queue
  {
    if file in fct.files {
      ReadIsLocal(t.working, fct.files[file], key);
      if r.Err? {
        RemoveMissing(t.working, StorageKey(fct.files[file], key));
      }
    }
    hide StorageKey, Lookup, FileRecords, Upsert, Remove;
  }

  class Region {
    const env: Environment
    const fct: FileControlTable
    var programs: ProgramTable

    ghost predicate Valid(l: seq<Entry>)
      reads this, env, env.pager
    {
      Holds(env, l) && !env.writerLocked
    }

    constructor (env: Environment, fct: FileControlTable)
      ensures this.env == env && this.fct == fct && programs == map[]
    {
      this.env, this.fct, programs := env, fct, map[];
    }

    method DefineProgram(name: string, program: Commarea -> Program)
      modifies `programs
      ensures programs == old(programs)[name := program]
    {
      programs := programs[name := program];
    }

    /**
     * One task in its own unit of work: a normal end commits, an abend backs out, a panic keeps the units closed before.
     * It panics exactly when the tree that the units grow has, at some commit, a node too large for its page.
     */
    method RunOne(fuel: nat, request: PendingStart, waiting: seq<PendingStart>, ghost l: seq<Entry>)
      returns (end: TaskEnd, queue: seq<PendingStart>, ghost t: Task)
      requires Valid(l)
      modifies env, env.pager
      ensures end.TaskExhausted? ==> RunTask(fuel, programs, fct.files, l, request, waiting) == None
      ensures !end.TaskExhausted? ==>
        && Valid(t.committed) && t.committed == ApplyKept(l, t.units) && Grown(old(Tree()), t.units)
      ensures end.TaskPanicked? ==> Overflows(t, old(Tree()))
      ensures end.TaskPanicked? && RunTask(fuel, programs, fct.files, l, request, waiting).Some? ==>
        t.Commit().units <= RunTask(fuel, programs, fct.files, l, request, waiting).value.1.units
      ensures end.Answered? ==> RunTask(fuel, programs, fct.files, l, request, waiting) == Some((end.result, t)) && queue == t.queue
      ensures old(env.Roomy(FiledKeys)) && InTable(programs, ShortKey(MAX_RECORD_KEY)) ==>
        !end.TaskPanicked? && (end.Answered? ==> env.Roomy(FiledKeys))
    {
      hide *;
      Opens(l);
      HoldsValid(env, l);
      RunTaskIs(fuel, programs, fct.files, l, request, waiting);
      var txn := env.BeginWrite();
      HoldsNow(env, l);
      var ctx := new ExecCtx(env, programs, fct, txn, waiting, l);
      var run := ctx.RunProgramLoop(fuel, request.program, request.commarea, 1);
      queue, t := ctx.pendingStarts, ctx.task;
      if run.LoopPanicked? {
        ctx.StoppedParts(RunProgram(fuel, programs, fct.files, request.program, request.commarea, 1, Task(l, l, [], [], waiting)).1.units);
        ctx.Left();
        Closes(t.committed);
        IsGrown(ctx.root, t.units);
        return TaskPanicked, queue, t;
      }
      var o := run.outcome;
      if o.OutOfFuel? {
        return TaskExhausted, queue, t;
      }
      var ok := ctx.Close(o.result.Ok?);
      ctx.Left();
      t := ctx.task;
      Closes(t.committed);
      IsGrown(ctx.root, t.units);
      end := if ok then Answered(o.result) else TaskPanicked;
    }

    lemma Opens(l: seq<Entry>)
      requires Valid(l)
      ensures Holds(env, l) && !env.writerLocked && |env.trace| > 0 && env.Now().now.tree.Sound()
      ensures Tree() == env.Now().now.tree.Abstract() && TreeFits(env.Now().now.tree)
    {
      HoldsFits(env, l);
    }

    lemma Closes(l: seq<Entry>)
      requires Holds(env, l) && !env.writerLocked
      ensures Valid(l) && |env.trace| > 0 && env.Now().now.tree.Sound() && Tree() == env.Now().now.tree.Abstract()
    {
    }

    lemma IsGrown(root: Root, units: seq<UnitOfWork>)
      requires RootShape(root) && |env.trace| > 0 && env.Now().now.tree.Sound()
      requires Tree() == GrowKept(root, units) && AlwaysFits(root, units)
      ensures Grown(root, units)
    {
    }

    lemma GrownIs(root: Root, units: seq<UnitOfWork>)
      requires Grown(root, units)
      ensures RootShape(root) && |env.trace| > 0 && env.Now().now.tree.Sound() && Tree() == GrowKept(root, units) && AlwaysFits(root, units)
    {
    }

    lemma GrownMore(root: Root, units: seq<UnitOfWork>, more: seq<UnitOfWork>)
      requires RootShape(root) && AlwaysFits(root, units) && Grown(GrowKept(root, units), more)
      ensures Grown(root, units + more)
    {
      KeptConcat(root, units, more);
      FitsConcat(root, units, more);
      hide AlwaysFits, GrowKept;
    }

    /** The committed tree. */
    ghost function Tree(): (r: Root)
      requires |env.trace| > 0 && env.Now().now.tree.Sound()
      reads env
      ensures RootShape(r)
    {
      env.Now().now.tree.Abstract()
    }

    /** The committed tree is what these units have made of `root`, and none of their commits met an oversized node. */
    ghost predicate Grown(root: Root, units: seq<UnitOfWork>)
      reads env
    {
      && RootShape(root) && |env.trace| > 0 && env.Now().now.tree.Sound()
      && Tree() == GrowKept(root, units) && AlwaysFits(root, units)
    }

    /**
     * EXEC CICS START from outside: run the task and every task started on the way, front of the queue first.
     * An answer is the first task's, and the store is then the fold over the kept units of all tasks. A commit that
     * panics stops everything with the units closed so far kept. It happens exactly when the tree that the units of the
     * semantics grow has, at one of their commits, a node too large for its page; never, then, if no program WRITEs a
     * key of more than 109 bytes. `TaskExhausted` only when the fuel ran out.
     */
    method StartTask(budget: nat, fuel: nat, request: PendingStart, ghost l: seq<Entry>) returns (end: TaskEnd, ghost units: seq<UnitOfWork>)
      requires Valid(l)
      modifies env, env.pager
      ensures end.Answered? ==>
        var d := Dispatch(budget, fuel, programs, fct.files, l, [request]);
        && d.Some? && units == AllUnits(d.value.ended) && |d.value.ended| > 0 && end.result == d.value.ended[0].result
        && Valid(d.value.committed)
      ensures !end.TaskExhausted? ==> Valid(ApplyKept(l, units)) && Grown(old(Tree()), units)
      ensures end.TaskExhausted? ==> Dispatch(budget, fuel, programs, fct.files, l, [request]) == None
      ensures end.TaskPanicked? ==> exists u: UnitOfWork :: u.kept && !RootFits(GrowKept(old(Tree()), units + [u]))
      ensures var d := Dispatch(budget, fuel, programs, fct.files, l, [request]);
        d.Some? ==> (end.TaskPanicked? <==> !AlwaysFits(old(Tree()), AllUnits(d.value.ended)))
      ensures end.Answered? ==>
        exists n: nat, t :: Steps(n, programs, fct.files, EntryState(programs, request, l)) == State(Answer(end.result), [], t)
      ensures forall r :: budget > 0 && fuel > 0 && Load(programs, request.program, request.commarea) == Answer(r) ==> end == Answered(r)
      ensures old(env.Roomy(FiledKeys)) && InTable(programs, ShortKey(MAX_RECORD_KEY)) ==>
        !end.TaskPanicked? && (end.Answered? ==> env.Roomy(FiledKeys))
    {
      hide *;
      Opens(l);
      ghost var small := env.Roomy(FiledKeys) && InTable(programs, ShortKey(MAX_RECORD_KEY));
      ghost var root := Tree();
      AnsweredAtOnce(root, env.Now().now.tree, budget, fuel, programs, fct.files, l, request);
      var queue := [request];
      var result: Option<Result<Commarea>> := None;
      var left: nat := budget;
      ghost var committed, ended := l, [];
      ghost var all := Dispatch(budget, fuel, programs, fct.files, l, queue);
      PrecededByNone(all);
      NoUnits(l);
      NoGrowth(root);
      IsGrown(root, []);
      units := [];
      while queue != []
        invariant Valid(committed) && left <= budget && (small ==> env.Roomy(FiledKeys))
        invariant units == AllUnits(ended) && committed == ApplyKept(l, units) && Grown(root, units)
        invariant all == PrecededAll(ended, Dispatch(left, fuel, programs, fct.files, committed, queue))
        invariant if ended == [] then result == None && queue != [] else result == Some(ended[0].result)
        decreases left
      {
        DispatchStep(left, fuel, programs, fct.files, committed, queue, ended);
        if left == 0 {
          return TaskExhausted, units;
        }
        GrownIs(root, units);
        var req, waiting := queue[0], queue[1..];
        ghost var t;
        end, queue, t := RunOne(fuel, req, waiting, committed);
        if end.TaskExhausted? {
          return;
        }
        ApplyKeptConcat(l, units, t.units);
        GrownMore(root, units, t.units);
        if end.TaskPanicked? {
          PanicUnit(root, units, t);
          ghost var o := RunTask(fuel, programs, fct.files, committed, req, waiting);
          PanicCounts(root, ended, o, req, waiting, t, if o.None? then None else
                        Dispatch(left - 1, fuel, programs, fct.files, o.value.1.committed, o.value.1.queue), all);
          units := units + t.units;
          return;
        }
        ghost var e := EndedTask(req, end.result, t, waiting);
        EndedIs(req, end.result, t, waiting);
        UnitsAppend(ended, e);
        left := left - 1;
        result := if result.None? then Some(end.result) else result;
        units, ended, committed := units + t.units, ended + [e], t.committed;
      }
      DispatchDone(left, fuel, programs, fct.files, committed);
      PrecededIs(ended, Some(Dispatched(committed, [])));
      assert ended + [] == ended;
      GrownIs(root, units);
      end := Answered(result.value);
      FirstAnswer(budget, fuel, programs, fct.files, l, request);
    }
  }

  /** A program that ends at once changes nothing, so its task can neither panic nor run out. */
  lemma AnsweredAtOnce(root: Root, tree: LocatedRoot, budget: nat, fuel: nat, table: ProgramTable, files: Files, l: seq<Entry>, request: PendingStart)
    requires TreeFits(tree) && root == tree.Abstract()
    ensures forall r :: budget > 0 && fuel > 0 && Load(table, request.program, request.commarea) == Answer(r) ==>
      var d := Dispatch(budget, fuel, table, files, l, [request]);
      d.Some? && |d.value.ended| > 0 && d.value.ended[0].result == r && AlwaysFits(root, AllUnits(d.value.ended))
  {
    hide Load, Dispatch, RootFits, AlwaysFits;
    forall r | budget > 0 && fuel > 0 && Load(table, request.program, request.commarea) == Answer(r)
      ensures var d := Dispatch(budget, fuel, table, files, l, [request]);
        d.Some? && |d.value.ended| > 0 && d.value.ended[0].result == r && AlwaysFits(root, AllUnits(d.value.ended))
    {
      EndsAtOnce(budget, fuel, table, files, l, request, r);
      EmptyUnit(root, UnitOfWork([], r.Ok?));
      var ended := Dispatch(budget, fuel, table, files, l, [request]).value.ended;
      assert ended[1..] == [] && AllUnits([]) == [];
      assert AllUnits(ended) == ended[0].units + [] == [UnitOfWork([], r.Ok?)];
    }
  }

  lemma EmptyUnit(root: Root, u: UnitOfWork)
    requires RootShape(root) && RootFits(root) && u.changes == []
    ensures AlwaysFits(root, [u])
  {
    assert [u][..1] == [u] && [u][..0] == [];
  }

  lemma NoGrowth(r: Root)
    requires RootShape(r)
    ensures GrowKept(r, []) == r && (RootFits(r) ==> AlwaysFits(r, []))
  {
  }

  /** The unit whose commit panicked, after all the units before it. */
  lemma PanicUnit(root: Root, before: seq<UnitOfWork>, t: Task)
    requires RootShape(root) && Overflows(t, GrowKept(root, before))
    ensures UnitOfWork(t.open, true).kept && !RootFits(GrowKept(root, before + t.units + [UnitOfWork(t.open, true)]))
  {
    KeptConcat(root, before, t.Commit().units);
    assert before + t.Commit().units == before + t.units + [UnitOfWork(t.open, true)];
  }

  /** It is one of the units of the semantics, if that ends; and these units, then, do not all fit. */
  lemma PanicCounts(root: Root, ended: seq<Ended>, o: Option<(Result<Commarea>, Task)>, request: PendingStart, waiting: seq<PendingStart>,
                    t: Task, rest: Option<Dispatched>, all: Option<Dispatched>)
    requires RootShape(root) && Overflows(t, GrowKept(root, AllUnits(ended)))
    requires o.Some? ==> t.Commit().units <= o.value.1.units
    requires all == if o.None? then None else PrecededAll(ended + [EndedTask(request, o.value.0, o.value.1, waiting)], rest)
    ensures all.Some? ==> !AlwaysFits(root, AllUnits(all.value.ended))
  {
    if all.Some? {
      var e := EndedTask(request, o.value.0, o.value.1, waiting);
      var units := AllUnits(ended) + t.Commit().units;
      UnitsAppend(ended, e);
      UnitsPrefix(ended + [e], all.value.ended);
      KeptConcat(root, AllUnits(ended), t.Commit().units);
      hide AllUnits, AlwaysFits, GrowKept, RootFits;
      if AlwaysFits(root, AllUnits(all.value.ended)) {
        FitsPrefix(root, units, AllUnits(all.value.ended));
      }
    }
  }

  lemma {:induction false} UnitsPrefix(es: seq<Ended>, all: seq<Ended>)
    requires es <= all
    ensures AllUnits(es) <= AllUnits(all)
  {
    if es != [] {
      UnitsPrefix(es[1..], all[1..]);
    }
  }
}
