/**
 * Tasks, programs and units of work (src/runtime/region.rs and program.rs) as a semantics over record lists.
 * A program is the tree of the commands it may issue, each continued by a function of the command's response.
 */
module UnitsOfWork {
  import opened Bytes
  import opened SortedList
  import opened FileControl

  const MAX_LINK_DEPTH: nat := 64

  type Commarea = Option<Bytes>

  datatype PendingStart = PendingStart(tranid: string, program: string, commarea: Commarea)

  datatype Program =
    | Return(commarea: Commarea)
    | Xctl(program: string, commarea: Commarea)
    | Abend(error: CicsError)
    | Read(file: string, key: Key, onBytes: Result<Bytes> -> Program)
    | Write(file: string, key: Key, data: Bytes, onDone: Result<()> -> Program)
    | Rewrite(file: string, key: Key, data: Bytes, onDone: Result<()> -> Program)
    | Delete(file: string, key: Key, onDone: Result<()> -> Program)
    | Browse(file: string, start: Option<Key>, limit: nat, onRows: Result<seq<Entry>> -> Program)
    | Link(program: string, commarea: Commarea, onReturn: Result<Commarea> -> Program)
    | Start(request: PendingStart, then_: Program)
    | Syncpoint(then_: Program)
    | SyncpointRollback(then_: Program)

  type ProgramTable = map<string, Commarea -> Program>

  // ----- units of work -----

  datatype Change = Stored(key: Key, value: Bytes) | Erased(key: Key)

  /** The changes between two syncpoints, and whether they were kept. */
  datatype UnitOfWork = UnitOfWork(changes: seq<Change>, kept: bool)

  function Apply(l: seq<Entry>, c: Change): seq<Entry> {
    match c
    case Stored(k, v) => Upsert(l, k, v)
    case Erased(k) => Remove(l, k)
  }

  function ApplyAll(l: seq<Entry>, cs: seq<Change>): seq<Entry> {
    if cs == [] then l else Apply(ApplyAll(l, cs[..|cs| - 1]), cs[|cs| - 1])
  }

  /** The effect of a series of units: all of each kept one, nothing of any other. */
  function ApplyKept(l: seq<Entry>, us: seq<UnitOfWork>): seq<Entry> {
    if us == [] then l
    else
      var before := ApplyKept(l, us[..|us| - 1]);
      if us[|us| - 1].kept then ApplyAll(before, us[|us| - 1].changes) else before
  }

  /** A running task: committed and working records, the open unit's changes, the closed units, the START queue. */
  datatype Task = Task(committed: seq<Entry>, working: seq<Entry>, open: seq<Change>, units: seq<UnitOfWork>, queue: seq<PendingStart>) {
    function Changed(c: Change): Task {
      this.(working := Apply(working, c), open := open + [c])
    }
    /** SYNCPOINT, and the end of a task that returned. */
    function Commit(): Task {
      this.(committed := working, open := [], units := units + [UnitOfWork(open, true)])
    }
    /** SYNCPOINT ROLLBACK, and the end of a task that abended. */
    function Undo(): Task {
      this.(working := committed, open := [], units := units + [UnitOfWork(open, false)])
    }
  }

  /** Nothing but kept units ever reaches the committed records, and the open unit is all that is pending. */
  ghost predicate Faithful(t: Task, initial: seq<Entry>) {
    t.committed == ApplyKept(initial, t.units) && t.working == ApplyAll(t.committed, t.open)
  }

  lemma ChangedFaithful(t: Task, c: Change, initial: seq<Entry>)
    requires Faithful(t, initial)
    ensures Faithful(t.Changed(c), initial)
  {
    assert (t.open + [c])[..|t.open|] == t.open;
  }

  lemma ClosedFaithful(t: Task, initial: seq<Entry>)
    requires Faithful(t, initial)
    ensures Faithful(t.Commit(), initial) && Faithful(t.Undo(), initial)
    ensures t.units <= t.Commit().units && t.units <= t.Undo().units && t.queue == t.Commit().queue == t.Undo().queue
  {
    assert (t.units + [UnitOfWork(t.open, true)])[..|t.units|] == t.units;
    assert (t.units + [UnitOfWork(t.open, false)])[..|t.units|] == t.units;
  }

  // ----- commands -----

  type Files = map<string, FileId>

  function DoRead(files: Files, l: seq<Entry>, file: string, key: Key): Result<Bytes> {
    if file !in files then Err(FileNotFound(file))
    else
      match Lookup(l, StorageKey(files[file], key))
      case Some(v) => Ok(v)
      case None => Err(RecordNotFound(key, file))
  }

  function DoWrite(files: Files, t: Task, file: string, key: Key, data: Bytes): (Result<()>, Task) {
    if file !in files then (Err(FileNotFound(file)), t)
    else if Lookup(t.working, StorageKey(files[file], key)).Some? then (Err(DuplicateKey(key, file)), t)
    else (Ok(()), t.Changed(Stored(StorageKey(files[file], key), data)))
  }

  function DoRewrite(files: Files, t: Task, file: string, key: Key, data: Bytes): (Result<()>, Task) {
    if file !in files then (Err(FileNotFound(file)), t)
    else if Lookup(t.working, StorageKey(files[file], key)).None? then (Err(RecordNotFound(key, file)), t)
    else (Ok(()), t.Changed(Stored(StorageKey(files[file], key), data)))
  }

  /** The tree is asked to delete before the code looks whether there was such a record; if not, nothing is erased. */
  function DoDelete(files: Files, t: Task, file: string, key: Key): (Result<()>, Task) {
    if file !in files then (Err(FileNotFound(file)), t)
    else
      (if Lookup(t.working, StorageKey(files[file], key)).None? then Err(RecordNotFound(key, file)) else Ok(()),
       t.Changed(Erased(StorageKey(files[file], key))))
  }

  /** Rows of a browse, prefix stripped; keys are at least four bytes long in a filed list. */
  function DoBrowse(files: Files, l: seq<Entry>, file: string, start: Option<Key>, limit: nat): Result<seq<Entry>> {
    if file !in files then Err(FileNotFound(file))
    else
      var rows := Scan(l, files[file], if start.Some? then start.value else [], limit);
      Ok(seq(|rows|, i requires 0 <= i < |rows| => if |rows[i].key| >= 4 then Entry(rows[i].key[4..], rows[i].value) else rows[i]))
  }

  /** READ answers the file's record, or which error. */
  ghost predicate ReadAnswer(r: Result<Bytes>, files: Files, l: seq<Entry>, file: string, key: Key)
    requires AllFiled(l)
  {
    if file !in files then r == Err(FileNotFound(file))
    else
      var found := Lookup(FileRecords(l, files[file]), key);
      if found.Some? then r == Ok(found.value) else r == Err(RecordNotFound(key, file))
  }

  /** A browse answers the file's first records from the start key on, except in the one file whose upper bound wraps. */
  ghost predicate BrowseAnswer(r: Result<seq<Entry>>, files: Files, l: seq<Entry>, file: string, start: Option<Key>, limit: nat)
    requires AllFiled(l)
  {
    if file !in files then r == Err(FileNotFound(file))
    else
      r.Ok? && if files[file] < 0xFFFF_FFFF then FirstRecords(r.value, l, files[file], if start.Some? then start.value else [], limit) else r.value == []
  }

  lemma ReadAnswers(files: Files, l: seq<Entry>, file: string, key: Key)
    requires AllFiled(l)
    ensures ReadAnswer(DoRead(files, l, file, key), files, l, file, key)
  {
    if file in files {
      ReadIsLocal(l, files[file], key);
    }
    hide StorageKey, Lookup, FileRecords;
  }

  lemma BrowseAnswers(files: Files, l: seq<Entry>, file: string, start: Option<Key>, limit: nat)
    requires AllFiled(l)
    ensures BrowseAnswer(DoBrowse(files, l, file, start, limit), files, l, file, start, limit)
  {
    hide FirstRecords, Scan, Page, StorageKey;
    if file in files {
      var from := if start.Some? then start.value else [];
      BrowseIsRightIff(l, files[file], from, limit);
      assert DoBrowse(files, l, file, start, limit).value == Strip(Scan(l, files[file], from, limit));
    }
  }

  // ----- running programs -----

  datatype Outcome = OutOfFuel | Done(result: Result<Commarea>)

  /** Run the named program at a link level, following XCTLs, until control returns. */
  function RunProgram(fuel: nat, table: ProgramTable, files: Files, name: string, commarea: Commarea, level: nat, t: Task): (Outcome, Task)
    requires 1 <= level <= MAX_LINK_DEPTH
    decreases fuel, 1
  {
    if name !in table then (Done(Err(ProgramNotFound(name))), t)
    else RunBody(fuel, table, files, table[name](commarea), level, t)
  }

  /** One LINK; the nested run happens one level deeper, or not at all. */
  function LinkStep(fuel: nat, table: ProgramTable, files: Files, name: string, commarea: Commarea, level: nat, t: Task): (Outcome, Task)
    requires 1 <= level <= MAX_LINK_DEPTH
    decreases fuel, 2
  {
    if level + 1 > MAX_LINK_DEPTH then (Done(Err(LinkStackOverflow(name))), t)
    else RunProgram(fuel, table, files, name, commarea, level + 1, t)
  }

  function RunBody(fuel: nat, table: ProgramTable, files: Files, p: Program, level: nat, t: Task): (Outcome, Task)
    requires 1 <= level <= MAX_LINK_DEPTH
    decreases fuel, 0
  {
    if fuel == 0 then (OutOfFuel, t)
    else
      match p
      case Return(c) => (Done(Ok(c)), t)
      case Abend(e) => (Done(Err(e)), t)
      case Xctl(name, c) => RunProgram(fuel - 1, table, files, name, c, level, t)
      case Read(file, key, next) => RunBody(fuel - 1, table, files, next(DoRead(files, t.working, file, key)), level, t)
      case Write(file, key, data, next) =>
        var (r, t') := DoWrite(files, t, file, key, data);
        RunBody(fuel - 1, table, files, next(r), level, t')
      case Rewrite(file, key, data, next) =>
        var (r, t') := DoRewrite(files, t, file, key, data);
        RunBody(fuel - 1, table, files, next(r), level, t')
      case Delete(file, key, next) =>
        var (r, t') := DoDelete(files, t, file, key);
        RunBody(fuel - 1, table, files, next(r), level, t')
      case Browse(file, start, limit, next) =>
        RunBody(fuel - 1, table, files, next(DoBrowse(files, t.working, file, start, limit)), level, t)
      case Link(name, c, next) =>
        var (o, t') := LinkStep(fuel - 1, table, files, name, c, level, t);
        if o.OutOfFuel? then (o, t') else RunBody(fuel - 1, table, files, next(o.result), level, t')
      case Start(request, then_) => RunBody(fuel - 1, table, files, then_, level, t.(queue := t.queue + [request]))
      case Syncpoint(then_) => RunBody(fuel - 1, table, files, then_, level, t.Commit())
      case SyncpointRollback(then_) => RunBody(fuel - 1, table, files, then_, level, t.Undo())
  }

  lemma BodyExhausted(table: ProgramTable, files: Files, p: Program, level: nat, t: Task)
    requires 1 <= level <= MAX_LINK_DEPTH
    ensures RunBody(0, table, files, p, level, t) == (OutOfFuel, t)
  {
  }

  /** One command of a run. */
  lemma BodyStep(fuel: nat, table: ProgramTable, files: Files, p: Program, level: nat, t: Task)
    requires 1 <= level <= MAX_LINK_DEPTH && fuel > 0
    ensures var run := RunBody(fuel, table, files, p, level, t);
      match p
      case Return(c) => run == (Done(Ok(c)), t)
      case Abend(e) => run == (Done(Err(e)), t)
      case Xctl(name, c) => run == RunProgram(fuel - 1, table, files, name, c, level, t)
      case Read(file, key, next) => run == RunBody(fuel - 1, table, files, next(DoRead(files, t.working, file, key)), level, t)
      case Write(file, key, data, next) =>
        var d := DoWrite(files, t, file, key, data); run == RunBody(fuel - 1, table, files, next(d.0), level, d.1)
      case Rewrite(file, key, data, next) =>
        var d := DoRewrite(files, t, file, key, data); run == RunBody(fuel - 1, table, files, next(d.0), level, d.1)
      case Delete(file, key, next) =>
        var d := DoDelete(files, t, file, key); run == RunBody(fuel - 1, table, files, next(d.0), level, d.1)
      case Browse(file, start, limit, next) =>
        run == RunBody(fuel - 1, table, files, next(DoBrowse(files, t.working, file, start, limit)), level, t)
      case Link(name, c, next) =>
        var d := LinkStep(fuel - 1, table, files, name, c, level, t);
        run == if d.0.OutOfFuel? then d else RunBody(fuel - 1, table, files, next(d.0.result), level, d.1)
      case Start(request, then_) => run == RunBody(fuel - 1, table, files, then_, level, t.(queue := t.queue + [request]))
      case Syncpoint(then_) => run == RunBody(fuel - 1, table, files, then_, level, t.Commit())
      case SyncpointRollback(then_) => run == RunBody(fuel - 1, table, files, then_, level, t.Undo())
  {
    hide DoRead, DoWrite, DoRewrite, DoDelete, DoBrowse, RunProgram, LinkStep;
  }

  /** What a name leads to: the program the table yields for exactly this COMMAREA, or an error that leaves the task alone. */
  lemma ProgramLaw(fuel: nat, table: ProgramTable, files: Files, name: string, c: Commarea, level: nat, t: Task)
    requires 1 <= level <= MAX_LINK_DEPTH
    ensures RunProgram(fuel, table, files, name, c, level, t) ==
      if name in table then RunBody(fuel, table, files, table[name](c), level, t) else (Done(Err(ProgramNotFound(name))), t)
  {
  }

  /** LINK: at level 64 an error the caller sees; else the program, one level deeper, and then the caller with its answer. */
  lemma LinkLaw(fuel: nat, table: ProgramTable, files: Files, p: Program, level: nat, t: Task)
    requires 1 <= level <= MAX_LINK_DEPTH && fuel > 0 && p.Link?
    ensures MAX_LINK_DEPTH == 64
    ensures var run := RunBody(fuel, table, files, p, level, t);
      if level == 64 then run == RunBody(fuel - 1, table, files, (p.onReturn)(Err(LinkStackOverflow(p.program))), level, t)
      else if p.program !in table then run == RunBody(fuel - 1, table, files, (p.onReturn)(Err(ProgramNotFound(p.program))), level, t)
      else
        var d := RunBody(fuel - 1, table, files, table[p.program](p.commarea), level + 1, t);
        run == if d.0.OutOfFuel? then d else RunBody(fuel - 1, table, files, (p.onReturn)(d.0.result), level, d.1)
  {
    hide RunBody;
    BodyStep(fuel, table, files, p, level, t);
  }

  /** However programs LINK, XCTL, syncpoint and fail, the records stay faithful to the units closed so far. */
  lemma {:induction false} RunFaithful(fuel: nat, table: ProgramTable, files: Files, p: Program, level: nat, t: Task, initial: seq<Entry>)
    requires 1 <= level <= MAX_LINK_DEPTH && Faithful(t, initial)
    ensures var t' := RunBody(fuel, table, files, p, level, t).1;
      Faithful(t', initial) && t.units <= t'.units && t.queue <= t'.queue
    decreases fuel, 0
  {
    hide *;
    if fuel == 0 {
      BodyExhausted(table, files, p, level, t);
    } else {
      BodyStep(fuel, table, files, p, level, t);
      match p
      case Return(_) =>
      case Abend(_) =>
      case Xctl(name, c) => ProgramFaithful(fuel - 1, table, files, name, c, level, t, initial);
      case Read(file, key, next) =>
        RunFaithful(fuel - 1, table, files, next(DoRead(files, t.working, file, key)), level, t, initial);
      case Write(file, key, data, next) =>
        WriteFaithful(files, t, file, key, data, initial);
        var d := DoWrite(files, t, file, key, data);
        RunFaithful(fuel - 1, table, files, next(d.0), level, d.1, initial);
      case Rewrite(file, key, data, next) =>
        WriteFaithful(files, t, file, key, data, initial);
        var d := DoRewrite(files, t, file, key, data);
        RunFaithful(fuel - 1, table, files, next(d.0), level, d.1, initial);
      case Delete(file, key, next) =>
        WriteFaithful(files, t, file, key, [], initial);
        var d := DoDelete(files, t, file, key);
        RunFaithful(fuel - 1, table, files, next(d.0), level, d.1, initial);
      case Browse(file, start, limit, next) =>
        RunFaithful(fuel - 1, table, files, next(DoBrowse(files, t.working, file, start, limit)), level, t, initial);
      case Link(name, c, next) =>
        LinkFaithful(fuel - 1, table, files, name, c, level, t, initial);
        var d := LinkStep(fuel - 1, table, files, name, c, level, t);
        if d.0.Done? {
          RunFaithful(fuel - 1, table, files, next(d.0.result), level, d.1, initial);
        }
      case Start(request, then_) =>
        QueueFaithful(t, request, initial);
        RunFaithful(fuel - 1, table, files, then_, level, t.(queue := t.queue + [request]), initial);
      case Syncpoint(then_) =>
        ClosedFaithful(t, initial);
        RunFaithful(fuel - 1, table, files, then_, level, t.Commit(), initial);
      case SyncpointRollback(then_) =>
        ClosedFaithful(t, initial);
        RunFaithful(fuel - 1, table, files, then_, level, t.Undo(), initial);
    }
  }

  lemma {:induction false} LinkFaithful(fuel: nat, table: ProgramTable, files: Files, name: string, c: Commarea, level: nat, t: Task, initial: seq<Entry>)
    requires 1 <= level <= MAX_LINK_DEPTH && Faithful(t, initial)
    ensures var t' := LinkStep(fuel, table, files, name, c, level, t).1;
      Faithful(t', initial) && t.units <= t'.units && t.queue <= t'.queue
    decreases fuel, 2
  {
    hide Faithful, RunProgram;
    if level < MAX_LINK_DEPTH {
      ProgramFaithful(fuel, table, files, name, c, level + 1, t, initial);
    }
  }

  lemma {:induction false} ProgramFaithful(fuel: nat, table: ProgramTable, files: Files, name: string, c: Commarea, level: nat, t: Task, initial: seq<Entry>)
    requires 1 <= level <= MAX_LINK_DEPTH && Faithful(t, initial)
    ensures var t' := RunProgram(fuel, table, files, name, c, level, t).1;
      Faithful(t', initial) && t.units <= t'.units && t.queue <= t'.queue
    decreases fuel, 1
  {
    hide Faithful, RunBody;
    if name in table {
      RunFaithful(fuel, table, files, table[name](c), level, t, initial);
    }
  }

  /** What a nested run closed stays closed in the run that LINKed to it. */
  lemma LinkUnits(fuel: nat, table: ProgramTable, files: Files, p: Program, level: nat, t: Task, initial: seq<Entry>)
    requires 1 <= level <= MAX_LINK_DEPTH && fuel > 0 && p.Link? && Faithful(t, initial)
    ensures LinkStep(fuel - 1, table, files, p.program, p.commarea, level, t).1.units <= RunBody(fuel, table, files, p, level, t).1.units
  {
    hide *;
    BodyStep(fuel, table, files, p, level, t);
    LinkFaithful(fuel - 1, table, files, p.program, p.commarea, level, t, initial);
    var d := LinkStep(fuel - 1, table, files, p.program, p.commarea, level, t);
    if d.0.Done? {
      RunFaithful(fuel - 1, table, files, (p.onReturn)(d.0.result), level, d.1, initial);
    }
  }

  lemma WriteFaithful(files: Files, t: Task, file: string, key: Key, data: Bytes, initial: seq<Entry>)
    requires Faithful(t, initial)
    ensures var t' := DoWrite(files, t, file, key, data).1; Faithful(t', initial) && t'.units == t.units && t'.queue == t.queue
    ensures var t' := DoRewrite(files, t, file, key, data).1; Faithful(t', initial) && t'.units == t.units && t'.queue == t.queue
    ensures var t' := DoDelete(files, t, file, key).1; Faithful(t', initial) && t'.units == t.units && t'.queue == t.queue
  {
    hide Faithful, StorageKey;
    if file in files {
      ChangedFaithful(t, Stored(StorageKey(files[file], key), data), initial);
      ChangedFaithful(t, Erased(StorageKey(files[file], key)), initial);
    }
  }

  lemma QueueFaithful(t: Task, request: PendingStart, initial: seq<Entry>)
    requires Faithful(t, initial)
    ensures Faithful(t.(queue := t.queue + [request]), initial)
  {
  }

  // ----- fuel is not observable -----

  /** A run that ended goes the same way on more fuel. */
  lemma {:induction false} MoreFuel(fuel: nat, more: nat, table: ProgramTable, files: Files, p: Program, level: nat, t: Task)
    requires 1 <= level <= MAX_LINK_DEPTH && fuel <= more && RunBody(fuel, table, files, p, level, t).0.Done?
    ensures RunBody(more, table, files, p, level, t) == RunBody(fuel, table, files, p, level, t)
    decreases fuel, 0
  {
    hide DoRead, DoWrite, DoRewrite, DoDelete, DoBrowse;
    match p
    case Return(_) =>
    case Abend(_) =>
    case Xctl(name, c) => MoreProgramFuel(fuel - 1, more - 1, table, files, name, c, level, t);
    case Read(file, key, next) => MoreFuel(fuel - 1, more - 1, table, files, next(DoRead(files, t.working, file, key)), level, t);
    case Write(file, key, data, next) =>
      var (r, t') := DoWrite(files, t, file, key, data);
      MoreFuel(fuel - 1, more - 1, table, files, next(r), level, t');
    case Rewrite(file, key, data, next) =>
      var (r, t') := DoRewrite(files, t, file, key, data);
      MoreFuel(fuel - 1, more - 1, table, files, next(r), level, t');
    case Delete(file, key, next) =>
      var (r, t') := DoDelete(files, t, file, key);
      MoreFuel(fuel - 1, more - 1, table, files, next(r), level, t');
    case Browse(file, start, limit, next) =>
      MoreFuel(fuel - 1, more - 1, table, files, next(DoBrowse(files, t.working, file, start, limit)), level, t);
    case Link(name, c, next) =>
      if level < MAX_LINK_DEPTH {
        MoreProgramFuel(fuel - 1, more - 1, table, files, name, c, level + 1, t);
      }
      var (o, t') := LinkStep(fuel - 1, table, files, name, c, level, t);
      MoreFuel(fuel - 1, more - 1, table, files, next(o.result), level, t');
    case Start(request, then_) => MoreFuel(fuel - 1, more - 1, table, files, then_, level, t.(queue := t.queue + [request]));
    case Syncpoint(then_) => MoreFuel(fuel - 1, more - 1, table, files, then_, level, t.Commit());
    case SyncpointRollback(then_) => MoreFuel(fuel - 1, more - 1, table, files, then_, level, t.Undo());
  }

  lemma {:induction false} MoreProgramFuel(fuel: nat, more: nat, table: ProgramTable, files: Files, name: string, c: Commarea, level: nat, t: Task)
    requires 1 <= level <= MAX_LINK_DEPTH && fuel <= more && RunProgram(fuel, table, files, name, c, level, t).0.Done?
    ensures RunProgram(more, table, files, name, c, level, t) == RunProgram(fuel, table, files, name, c, level, t)
    decreases fuel, 1
  {
    hide RunBody;
    if name in table {
      MoreFuel(fuel, more, table, files, table[name](c), level, t);
    }
  }

  // ----- what a program never does -----

  /** Along every path of at most `n` commands, whatever the responses, each command satisfies `ok`. */
  ghost predicate Always(n: nat, p: Program, ok: Program -> bool)
    decreases n
  {
    && ok(p)
    && (n > 0 ==>
          match p
          case Return(_) => true
          case Abend(_) => true
          case Xctl(_, _) => true
          case Read(_, _, next) => forall r :: Always(n - 1, next(r), ok)
          case Write(_, _, _, next) => forall r :: Always(n - 1, next(r), ok)
          case Rewrite(_, _, _, next) => forall r :: Always(n - 1, next(r), ok)
          case Delete(_, _, next) => forall r :: Always(n - 1, next(r), ok)
          case Browse(_, _, _, next) => forall r :: Always(n - 1, next(r), ok)
          case Link(_, _, next) => forall r :: Always(n - 1, next(r), ok)
          case Start(_, then_) => Always(n - 1, then_, ok)
          case Syncpoint(then_) => Always(n - 1, then_, ok)
          case SyncpointRollback(then_) => Always(n - 1, then_, ok))
  }

  ghost predicate Throughout(p: Program, ok: Program -> bool) {
    forall n: nat :: Always(n, p, ok)
  }

  ghost predicate InTable(table: ProgramTable, ok: Program -> bool) {
    forall name, c: Commarea :: name in table ==> Throughout(table[name](c), ok)
  }

  /** `q` continues `p`, on some response. */
  ghost predicate Continues(p: Program, q: Program) {
    match p
    case Return(_) => false
    case Abend(_) => false
    case Xctl(_, _) => false
    case Read(_, _, next) => exists r :: q == next(r)
    case Write(_, _, _, next) => exists r :: q == next(r)
    case Rewrite(_, _, _, next) => exists r :: q == next(r)
    case Delete(_, _, next) => exists r :: q == next(r)
    case Browse(_, _, _, next) => exists r :: q == next(r)
    case Link(_, _, next) => exists r :: q == next(r)
    case Start(_, then_) => q == then_
    case Syncpoint(then_) => q == then_
    case SyncpointRollback(then_) => q == then_
  }

  lemma NextThroughout(p: Program, q: Program, ok: Program -> bool)
    requires Throughout(p, ok) && Continues(p, q)
    ensures ok(p) && Throughout(q, ok)
  {
    assert Always(0, p, ok);
    forall n: nat ensures Always(n, q, ok) {
      assert Always(n + 1, p, ok);
    }
  }

  /** What holds throughout a program holds throughout each of its continuations. */
  lemma ThroughoutStep(p: Program, ok: Program -> bool)
    requires Throughout(p, ok)
    ensures match p
      case Return(_) => true
      case Abend(_) => true
      case Xctl(_, _) => true
      case Read(_, _, next) => forall r :: Throughout(next(r), ok)
      case Write(_, _, _, next) => forall r :: Throughout(next(r), ok)
      case Rewrite(_, _, _, next) => forall r :: Throughout(next(r), ok)
      case Delete(_, _, next) => forall r :: Throughout(next(r), ok)
      case Browse(_, _, _, next) => forall r :: Throughout(next(r), ok)
      case Link(_, _, next) => forall r :: Throughout(next(r), ok)
      case Start(_, then_) => Throughout(then_, ok)
      case Syncpoint(then_) => Throughout(then_, ok)
      case SyncpointRollback(then_) => Throughout(then_, ok)
  {
    forall q | Continues(p, q) ensures Throughout(q, ok) {
      NextThroughout(p, q, ok);
    }
    hide Throughout;
  }

  /** Commands that WRITE no key of more than `limit` bytes. */
  function ShortKey(limit: nat): Program -> bool {
    (p: Program) => p.Write? ==> |p.key| <= limit
  }

  predicate NoSyncpoint(p: Program) {
    !p.Syncpoint?
  }

  /** Programs that never SYNCPOINT commit nothing before their task ends. */
  lemma {:induction false} NothingCommitted(fuel: nat, table: ProgramTable, files: Files, p: Program, level: nat, t: Task)
    requires 1 <= level <= MAX_LINK_DEPTH && InTable(table, NoSyncpoint) && Throughout(p, NoSyncpoint)
    ensures RunBody(fuel, table, files, p, level, t).1.committed == t.committed
    decreases fuel, 0
  {
    hide DoRead, DoBrowse, Apply, Throughout, Always, StorageKey, Lookup;
    if fuel > 0 {
      match p
      case Return(_) =>
      case Abend(_) =>
      case Xctl(name, c) => ProgramCommitsNothing(fuel - 1, table, files, name, c, level, t);
      case Read(file, key, next) =>
        var r := DoRead(files, t.working, file, key);
        NextThroughout(p, next(r), NoSyncpoint);
        NothingCommitted(fuel - 1, table, files, next(r), level, t);
      case Write(file, key, data, next) =>
        var (r, t') := DoWrite(files, t, file, key, data);
        NextThroughout(p, next(r), NoSyncpoint);
        NothingCommitted(fuel - 1, table, files, next(r), level, t');
      case Rewrite(file, key, data, next) =>
        var (r, t') := DoRewrite(files, t, file, key, data);
        NextThroughout(p, next(r), NoSyncpoint);
        NothingCommitted(fuel - 1, table, files, next(r), level, t');
      case Delete(file, key, next) =>
        var (r, t') := DoDelete(files, t, file, key);
        NextThroughout(p, next(r), NoSyncpoint);
        NothingCommitted(fuel - 1, table, files, next(r), level, t');
      case Browse(file, start, limit, next) =>
        var r := DoBrowse(files, t.working, file, start, limit);
        NextThroughout(p, next(r), NoSyncpoint);
        NothingCommitted(fuel - 1, table, files, next(r), level, t);
      case Link(name, c, next) =>
        if level < MAX_LINK_DEPTH {
          ProgramCommitsNothing(fuel - 1, table, files, name, c, level + 1, t);
        }
        var (o, t') := LinkStep(fuel - 1, table, files, name, c, level, t);
        if o.Done? {
          NextThroughout(p, next(o.result), NoSyncpoint);
          NothingCommitted(fuel - 1, table, files, next(o.result), level, t');
        }
      case Start(request, then_) =>
        NextThroughout(p, then_, NoSyncpoint);
        NothingCommitted(fuel - 1, table, files, then_, level, t.(queue := t.queue + [request]));
      case Syncpoint(then_) =>
        NextThroughout(p, then_, NoSyncpoint);
      case SyncpointRollback(then_) =>
        NextThroughout(p, then_, NoSyncpoint);
        NothingCommitted(fuel - 1, table, files, then_, level, t.Undo());
    }
  }

  lemma {:induction false} ProgramCommitsNothing(fuel: nat, table: ProgramTable, files: Files, name: string, c: Commarea, level: nat, t: Task)
    requires 1 <= level <= MAX_LINK_DEPTH && InTable(table, NoSyncpoint)
    ensures RunProgram(fuel, table, files, name, c, level, t).1.committed == t.committed
    decreases fuel, 1
  {
    hide RunBody, Throughout;
    if name in table {
      NothingCommitted(fuel, table, files, table[name](c), level, t);
    }
  }

  // ----- the dispatch loop -----

  /** A task that has ended: what it answered, its units of work in order, and the tasks it asked to START. */
  datatype Ended = Ended(request: PendingStart, result: Result<Commarea>, units: seq<UnitOfWork>, started: seq<PendingStart>)

  datatype Dispatched = Dispatched(committed: seq<Entry>, ended: seq<Ended>)

  /** Run one request as a task: a normal end is a syncpoint, an abend a backout. `None` when the fuel ran out. */
  function RunTask(fuel: nat, table: ProgramTable, files: Files, committed: seq<Entry>, request: PendingStart, waiting: seq<PendingStart>): Option<(Result<Commarea>, Task)> {
    var (o, t) := RunProgram(fuel, table, files, request.program, request.commarea, 1, Task(committed, committed, [], [], waiting));
    if o.OutOfFuel? then None else Some((o.result, if o.result.Ok? then t.Commit() else t.Undo()))
  }

  /** What a task is, in terms of its program's run. */
  lemma RunTaskIs(fuel: nat, table: ProgramTable, files: Files, committed: seq<Entry>, request: PendingStart, waiting: seq<PendingStart>)
    ensures var o := RunProgram(fuel, table, files, request.program, request.commarea, 1, Task(committed, committed, [], [], waiting));
      var task := RunTask(fuel, table, files, committed, request, waiting);
      if o.0.OutOfFuel? then task == None
      else task == Some((o.0.result, if o.0.result.Ok? then o.1.Commit() else o.1.Undo())) && o.1.units <= task.value.1.units
    ensures 1 <= MAX_LINK_DEPTH
  {
  }

  /** Run the front request until the queue is empty; tasks started meanwhile join at the back. */
  function Dispatch(budget: nat, fuel: nat, table: ProgramTable, files: Files, committed: seq<Entry>, queue: seq<PendingStart>): Option<Dispatched>
    decreases budget
  {
    if queue == [] then Some(Dispatched(committed, []))
    else if budget == 0 then None
    else
      var task := RunTask(fuel, table, files, committed, queue[0], queue[1..]);
      if task.None? then None
      else
        var (r, t) := task.value;
        PrecededAll([EndedTask(queue[0], r, t, queue[1..])], Dispatch(budget - 1, fuel, table, files, t.committed, t.queue))
  }

  /** The queue behind a task only ever grows at the back. */
  function EndedTask(request: PendingStart, result: Result<Commarea>, t: Task, waiting: seq<PendingStart>): Ended {
    Ended(request, result, t.units, if waiting <= t.queue then t.queue[|waiting|..] else [])
  }

  function PrecededAll(es: seq<Ended>, d: Option<Dispatched>): Option<Dispatched> {
    if d.None? then None else Some(Dispatched(d.value.committed, es + d.value.ended))
  }

  lemma DispatchStep(budget: nat, fuel: nat, table: ProgramTable, files: Files, committed: seq<Entry>, queue: seq<PendingStart>, before: seq<Ended>)
    requires queue != []
    ensures var all := PrecededAll(before, Dispatch(budget, fuel, table, files, committed, queue));
      if budget == 0 || RunTask(fuel, table, files, committed, queue[0], queue[1..]).None? then all == None
      else
        var done := RunTask(fuel, table, files, committed, queue[0], queue[1..]).value;
        all == PrecededAll(before + [EndedTask(queue[0], done.0, done.1, queue[1..])],
                           Dispatch(budget - 1, fuel, table, files, done.1.committed, done.1.queue))
  {
    hide RunTask;
    if budget > 0 && RunTask(fuel, table, files, committed, queue[0], queue[1..]).Some? {
      var (r, t) := RunTask(fuel, table, files, committed, queue[0], queue[1..]).value;
      var e, d := EndedTask(queue[0], r, t, queue[1..]), Dispatch(budget - 1, fuel, table, files, t.committed, t.queue);
      hide Dispatch, EndedTask;
      if d.Some? {
        assert before + ([e] + d.value.ended) == before + [e] + d.value.ended;
      }
    }
  }

  lemma DispatchDone(budget: nat, fuel: nat, table: ProgramTable, files: Files, committed: seq<Entry>)
    ensures Dispatch(budget, fuel, table, files, committed, []) == Some(Dispatched(committed, []))
  {
  }

  lemma PrecededIs(es: seq<Ended>, d: Option<Dispatched>)
    ensures PrecededAll(es, d) == if d.None? then None else Some(Dispatched(d.value.committed, es + d.value.ended))
  {
  }

  lemma EndedIs(request: PendingStart, result: Result<Commarea>, t: Task, waiting: seq<PendingStart>)
    ensures var e := EndedTask(request, result, t, waiting); e.units == t.units && e.result == result && e.request == request
  {
  }

  lemma PrecededByNone(d: Option<Dispatched>)
    ensures PrecededAll([], d) == d
  {
    if d.Some? {
      assert [] + d.value.ended == d.value.ended;
    }
  }

  function AllUnits(es: seq<Ended>): seq<UnitOfWork> {
    if es == [] then [] else es[0].units + AllUnits(es[1..])
  }

  lemma {:induction false} UnitsAppend(es: seq<Ended>, e: Ended)
    ensures AllUnits(es + [e]) == AllUnits(es) + e.units
  {
    if es == [] {
      assert ([] + [e])[1..] == [];
    } else {
      UnitsAppend(es[1..], e);
      assert (es + [e])[1..] == es[1..] + [e];
    }
  }

  lemma NoUnits(l: seq<Entry>)
    ensures AllUnits([]) == [] && ApplyKept(l, []) == l
  {
  }

  function AllStarted(es: seq<Ended>): seq<PendingStart> {
    if es == [] then [] else es[0].started + AllStarted(es[1..])
  }

  function Requests(es: seq<Ended>): seq<PendingStart> {
    seq(|es|, i requires 0 <= i < |es| => es[i].request)
  }

  /** A task's last unit is kept exactly when it returned normally. */
  ghost predicate EndsRight(e: Ended) {
    |e.units| > 0 && e.units[|e.units| - 1].kept == e.result.Ok?
  }

  lemma {:induction false} ApplyKeptConcat(l: seq<Entry>, us: seq<UnitOfWork>, vs: seq<UnitOfWork>)
    ensures ApplyKept(l, us + vs) == ApplyKept(ApplyKept(l, us), vs)
    decreases |vs|
  {
    if vs == [] {
      assert us + vs == us;
    } else {
      var last := |vs| - 1;
      ApplyKeptConcat(l, us, vs[..last]);
      assert (us + vs)[..|us + vs| - 1] == us + vs[..last];
    }
  }

  lemma RunTaskFaithful(fuel: nat, table: ProgramTable, files: Files, committed: seq<Entry>, request: PendingStart, waiting: seq<PendingStart>)
    ensures var task := RunTask(fuel, table, files, committed, request, waiting);
      task.Some? ==>
        var t := task.value.1;
        && t.committed == t.working == ApplyKept(committed, t.units) && waiting <= t.queue
        && |t.units| > 0 && t.units[|t.units| - 1].kept == task.value.0.Ok?
  {
    var t0 := Task(committed, committed, [], [], waiting);
    ProgramFaithful(fuel, table, files, request.program, request.commarea, 1, t0, committed);
    ClosedFaithful(RunProgram(fuel, table, files, request.program, request.commarea, 1, t0).1, committed);
    hide RunProgram;
  }

  /** `d` is the fold over its kept units, and `queue` and everything started since has been dispatched in order. */
  ghost predicate InOrder(committed: seq<Entry>, queue: seq<PendingStart>, d: Dispatched) {
    && d.committed == ApplyKept(committed, AllUnits(d.ended))
    && Requests(d.ended) == queue + AllStarted(d.ended)
    && forall i :: 0 <= i < |d.ended| ==> EndsRight(d.ended[i])
  }

  /**
   * Units of work over whole runs: the store ends as the fold, in dispatch order, of exactly the kept units of
   * every task; tasks are dispatched first come first served; a task's last unit is kept iff it did not abend.
   */
  lemma {:induction false} DispatchIsFold(budget: nat, fuel: nat, table: ProgramTable, files: Files, committed: seq<Entry>, queue: seq<PendingStart>)
    ensures var d := Dispatch(budget, fuel, table, files, committed, queue); d.Some? ==> InOrder(committed, queue, d.value)
    decreases budget
  {
    hide RunTask, ApplyKept, EndsRight, Requests, Dispatch, InOrder;
    if queue == [] {
      DispatchDone(budget, fuel, table, files, committed);
      NothingToDo(committed);
    } else {
      PrecededByNone(Dispatch(budget, fuel, table, files, committed, queue));
      DispatchStep(budget, fuel, table, files, committed, queue, []);
      RunTaskFaithful(fuel, table, files, committed, queue[0], queue[1..]);
      var task := RunTask(fuel, table, files, committed, queue[0], queue[1..]);
      if budget > 0 && task.Some? {
        var (r, t) := task.value;
        DispatchIsFold(budget - 1, fuel, table, files, t.committed, t.queue);
        var rest := Dispatch(budget - 1, fuel, table, files, t.committed, t.queue);
        if rest.Some? {
          OneMore(committed, queue, r, t, rest.value);
          assert [] + [EndedTask(queue[0], r, t, queue[1..])] == [EndedTask(queue[0], r, t, queue[1..])];
        }
      }
    }
  }

  lemma NothingToDo(committed: seq<Entry>)
    ensures InOrder(committed, [], Dispatched(committed, []))
  {
  }

  lemma OneMore(committed: seq<Entry>, queue: seq<PendingStart>, r: Result<Commarea>, t: Task, d: Dispatched)
    requires queue != [] && queue[1..] <= t.queue && t.committed == ApplyKept(committed, t.units)
    requires |t.units| > 0 && t.units[|t.units| - 1].kept == r.Ok?
    requires InOrder(t.committed, t.queue, d)
    ensures InOrder(committed, queue, Dispatched(d.committed, [EndedTask(queue[0], r, t, queue[1..])] + d.ended))
  {
    hide ApplyKept, AllUnits, AllStarted, Requests;
    var e := EndedTask(queue[0], r, t, queue[1..]);
    assert t.queue == queue[1..] + e.started;
    ApplyKeptConcat(committed, t.units, AllUnits(d.ended));
    EndedFront(e, d.ended, queue, t.queue);
  }

  lemma EndedFront(e: Ended, es: seq<Ended>, queue: seq<PendingStart>, next: seq<PendingStart>)
    requires queue != [] && e.request == queue[0] && next == queue[1..] + e.started
    requires Requests(es) == next + AllStarted(es)
    ensures AllUnits([e] + es) == e.units + AllUnits(es)
    ensures Requests([e] + es) == queue + AllStarted([e] + es)
  {
    assert ([e] + es)[1..] == es;
    assert Requests([e] + es) == [e.request] + Requests(es);
  }

  /** A task that abends leaves no trace if no program it can reach, by LINK or XCTL, issues a SYNCPOINT. */
  lemma AbendLeavesNoTrace(fuel: nat, table: ProgramTable, files: Files, committed: seq<Entry>, request: PendingStart, waiting: seq<PendingStart>)
    requires InTable(table, NoSyncpoint)
    requires var o := RunTask(fuel, table, files, committed, request, waiting); o.Some? && o.value.0.Err?
    ensures RunTask(fuel, table, files, committed, request, waiting).value.1.committed == committed
  {
    hide InTable, RunProgram;
    ProgramCommitsNothing(fuel, table, files, request.program, request.commarea, 1, Task(committed, committed, [], [], waiting));
  }

  /** More tasks or more fuel change nothing once the queue has been worked off: the outcome is the programs' own. */
  lemma {:induction false} FuelIsUnobservable(budget: nat, fuel: nat, b: nat, f: nat, table: ProgramTable, files: Files, committed: seq<Entry>, queue: seq<PendingStart>)
    requires Dispatch(budget, fuel, table, files, committed, queue).Some? && b >= budget && f >= fuel
    ensures Dispatch(b, f, table, files, committed, queue) == Dispatch(budget, fuel, table, files, committed, queue)
    decreases budget
  {
    hide RunTask;
    if queue != [] {
      MoreTaskFuel(fuel, f, table, files, committed, queue[0], queue[1..]);
      var t := RunTask(fuel, table, files, committed, queue[0], queue[1..]).value.1;
      FuelIsUnobservable(budget - 1, fuel, b - 1, f, table, files, t.committed, t.queue);
    }
  }

  lemma MoreTaskFuel(fuel: nat, more: nat, table: ProgramTable, files: Files, committed: seq<Entry>, request: PendingStart, waiting: seq<PendingStart>)
    requires RunTask(fuel, table, files, committed, request, waiting).Some? && fuel <= more
    ensures RunTask(more, table, files, committed, request, waiting) == RunTask(fuel, table, files, committed, request, waiting)
  {
    hide RunProgram;
    MoreProgramFuel(fuel, more, table, files, request.program, request.commarea, 1, Task(committed, committed, [], [], waiting));
  }
}
