/**
 * The runtime as a machine that takes one command at a time. A LINK puts what is left of its program on a stack, a
 * RETURN or an error takes it off again. The recursive semantics of `UnitsOfWork` and this machine agree on every task,
 * and the stack shows how deep programs can nest.
 */
module StackMachine {
  import opened Bytes
  import opened SortedList
  import opened FileControl
  import opened UnitsOfWork

  /** The rest of a program that waits for the one it LINKed to. */
  type Caller = Result<Commarea> -> Program

  datatype State = State(program: Program, callers: seq<Caller>, task: Task)

  /** The program a name stands for, applied to its COMMAREA. */
  function Load(table: ProgramTable, name: string, c: Commarea): Program {
    if name in table then table[name](c) else Abend(ProgramNotFound(name))
  }

  function Answer(r: Result<Commarea>): Program {
    match r
    case Ok(c) => Return(c)
    case Err(e) => Abend(e)
  }

  predicate Ends(p: Program) {
    p.Return? || p.Abend?
  }

  /** Back to the caller on top of the stack; with none left the machine halts. */
  function Resume(m: State, r: Result<Commarea>): State {
    if m.callers == [] then m
    else
      var top := |m.callers| - 1;
      State(m.callers[top](r), m.callers[..top], m.task)
  }

  function Step(table: ProgramTable, files: Files, m: State): State {
    match m.program
    case Return(c) => Resume(m, Ok(c))
    case Abend(e) => Resume(m, Err(e))
    case Xctl(name, c) => m.(program := Load(table, name, c))
    case Link(name, c, next) =>
      if 1 + |m.callers| + 1 > 64 then m.(program := next(Err(LinkStackOverflow(name))))
      else State(Load(table, name, c), m.callers + [next], m.task)
    case Read(file, key, next) => m.(program := next(DoRead(files, m.task.working, file, key)))
    case Write(file, key, data, next) => var d := DoWrite(files, m.task, file, key, data); State(next(d.0), m.callers, d.1)
    case Rewrite(file, key, data, next) => var d := DoRewrite(files, m.task, file, key, data); State(next(d.0), m.callers, d.1)
    case Delete(file, key, next) => var d := DoDelete(files, m.task, file, key); State(next(d.0), m.callers, d.1)
    case Browse(file, start, limit, next) => m.(program := next(DoBrowse(files, m.task.working, file, start, limit)))
    case Start(request, then_) => State(then_, m.callers, m.task.(queue := m.task.queue + [request]))
    case Syncpoint(then_) => State(then_, m.callers, m.task.Commit())
    case SyncpointRollback(then_) => State(then_, m.callers, m.task.Undo())
  }

  function Steps(n: nat, table: ProgramTable, files: Files, m: State): State
    decreases n
  {
    if n == 0 then m else Steps(n - 1, table, files, Step(table, files, m))
  }

  lemma {:induction false} StepsAdd(a: nat, b: nat, table: ProgramTable, files: Files, m: State)
    ensures Steps(a + b, table, files, m) == Steps(b, table, files, Steps(a, table, files, m))
    decreases a
  {
    hide Step;
    if a > 0 {
      StepsAdd(a - 1, b, table, files, Step(table, files, m));
    }
  }

  // ----- how deep programs nest -----

  lemma OneDeeper(table: ProgramTable, files: Files, m: State)
    ensures |m.callers| <= 63 ==> |Step(table, files, m).callers| <= 63
  {
    hide DoRead, DoWrite, DoRewrite, DoDelete, DoBrowse;
  }

  /** However programs LINK, no more than 64 are ever open, the running one included. */
  lemma {:induction false} NeverDeeper(n: nat, table: ProgramTable, files: Files, m: State)
    requires |m.callers| <= 63
    ensures 1 + |Steps(n, table, files, m).callers| <= 64
    decreases n
  {
    hide Step;
    if n > 0 {
      OneDeeper(table, files, m);
      NeverDeeper(n - 1, table, files, Step(table, files, m));
    }
  }

  // ----- the recursive semantics runs on the machine -----

  /** In `n` steps from `m` to `m'`, and the stack never loses any of `callers` on the way. */
  ghost predicate Reaches(n: nat, table: ProgramTable, files: Files, m: State, m': State, callers: seq<Caller>) {
    Steps(n, table, files, m) == m' && forall k: nat :: k <= n ==> callers <= Steps(k, table, files, m).callers
  }

  lemma ReachSelf(table: ProgramTable, files: Files, m: State, callers: seq<Caller>)
    requires callers <= m.callers
    ensures Reaches(0, table, files, m, m, callers)
  {
  }

  lemma ReachStep(n: nat, table: ProgramTable, files: Files, m: State, m': State, callers: seq<Caller>)
    requires callers <= m.callers && Reaches(n, table, files, Step(table, files, m), m', callers)
    ensures Reaches(n + 1, table, files, m, m', callers)
  {
    hide Step;
    forall k: nat | k <= n + 1 ensures callers <= Steps(k, table, files, m).callers {
      if k > 0 {
        assert Steps(k, table, files, m) == Steps(k - 1, table, files, Step(table, files, m));
      }
    }
  }

  lemma ReachThen(a: nat, b: nat, table: ProgramTable, files: Files, m: State, m1: State, m2: State, callers: seq<Caller>)
    requires Reaches(a, table, files, m, m1, callers) && Reaches(b, table, files, m1, m2, callers)
    ensures Reaches(a + b, table, files, m, m2, callers)
  {
    hide Steps;
    StepsAdd(a, b, table, files, m);
    forall k: nat | k <= a + b ensures callers <= Steps(k, table, files, m).callers {
      if k > a {
        StepsAdd(a, k - a, table, files, m);
      }
    }
  }

  lemma ReachFewer(n: nat, table: ProgramTable, files: Files, m: State, m': State, callers: seq<Caller>, fewer: seq<Caller>)
    requires Reaches(n, table, files, m, m', callers) && fewer <= callers
    ensures Reaches(n, table, files, m, m', fewer)
  {
    hide Steps;
  }

  /** An end of the program is its answer, and leaves the task alone. */
  lemma EndLaw(fuel: nat, table: ProgramTable, files: Files, p: Program, level: nat, t: Task)
    requires 1 <= level <= MAX_LINK_DEPTH && fuel > 0 && Ends(p)
    ensures var run := RunBody(fuel, table, files, p, level, t); run.0.Done? && Answer(run.0.result) == p && run.1 == t
  {
  }

  lemma Levels()
    ensures MAX_LINK_DEPTH == 64
  {
  }

  /** A command other than an end, an XCTL or a LINK: the machine's step is the semantics' step. */
  lemma PlainLaw(fuel: nat, table: ProgramTable, files: Files, p: Program, callers: seq<Caller>, t: Task)
    requires |callers| <= 63 && fuel > 0 && !Ends(p) && !p.Xctl? && !p.Link?
    ensures var m := Step(table, files, State(p, callers, t));
      && m.callers == callers && |callers| + 1 <= MAX_LINK_DEPTH
      && RunBody(fuel, table, files, p, |callers| + 1, t) == RunBody(fuel - 1, table, files, m.program, |callers| + 1, m.task)
  {
    hide RunBody, DoRead, DoWrite, DoRewrite, DoDelete, DoBrowse;
    BodyStep(fuel, table, files, p, |callers| + 1, t);
  }

  lemma XctlLaw(fuel: nat, table: ProgramTable, files: Files, p: Program, callers: seq<Caller>, t: Task)
    requires |callers| <= 63 && fuel > 0 && p.Xctl?
    ensures Step(table, files, State(p, callers, t)) == State(Load(table, p.program, p.commarea), callers, t)
    ensures |callers| + 1 <= MAX_LINK_DEPTH
    ensures RunBody(fuel, table, files, p, |callers| + 1, t) ==
      if p.program in table then RunBody(fuel - 1, table, files, Load(table, p.program, p.commarea), |callers| + 1, t)
      else (Done(Err(ProgramNotFound(p.program))), t)
    ensures p.program !in table ==> Load(table, p.program, p.commarea) == Answer(Err(ProgramNotFound(p.program)))
  {
    hide RunBody;
    BodyStep(fuel, table, files, p, |callers| + 1, t);
    ProgramLaw(fuel - 1, table, files, p.program, p.commarea, |callers| + 1, t);
  }

  /** LINK on the machine: refused on a full stack, else the program above one more caller. */
  lemma LinkSteps(table: ProgramTable, files: Files, p: Program, callers: seq<Caller>, t: Task)
    requires |callers| <= 63 && p.Link?
    ensures Step(table, files, State(p, callers, t)) ==
      if |callers| == 63 then State((p.onReturn)(Err(LinkStackOverflow(p.program))), callers, t)
      else State(Load(table, p.program, p.commarea), callers + [p.onReturn], t)
    ensures p.program in table ==> Load(table, p.program, p.commarea) == table[p.program](p.commarea)
    ensures p.program !in table ==> Load(table, p.program, p.commarea) == Answer(Err(ProgramNotFound(p.program)))
    ensures forall r, t': Task :: Step(table, files, State(Answer(r), callers + [p.onReturn], t')) == State((p.onReturn)(r), callers, t')
    ensures |callers| + 1 <= MAX_LINK_DEPTH == 64
  {
    assert (callers + [p.onReturn])[..|callers|] == callers;
  }

  /** A program that ends in the semantics ends on the machine with the same answer and task, above the same callers. */
  lemma {:induction false} Simulates(fuel: nat, table: ProgramTable, files: Files, p: Program, callers: seq<Caller>, t: Task) returns (n: nat)
    requires |callers| <= 63 && RunBody(fuel, table, files, p, |callers| + 1, t).0.Done?
    ensures var run := RunBody(fuel, table, files, p, |callers| + 1, t);
      Reaches(n, table, files, State(p, callers, t), State(Answer(run.0.result), callers, run.1), callers)
    decreases fuel, 0
  {
    hide *;
    Levels();
    var level, m := |callers| + 1, State(p, callers, t);
    var run := RunBody(fuel, table, files, p, level, t);
    var end := State(Answer(run.0.result), callers, run.1);
    HasFuel(fuel, table, files, p, level, t);
    Kinds(p);
    if Ends(p) {
      n := 0;
      EndLaw(fuel, table, files, p, level, t);
      ReachSelf(table, files, m, callers);
    } else if p.Xctl? {
      XctlLaw(fuel, table, files, p, callers, t);
      if p.program in table {
        n := Simulates(fuel - 1, table, files, Load(table, p.program, p.commarea), callers, t);
      } else {
        n := 0;
        ReachSelf(table, files, end, callers);
      }
      ReachStep(n, table, files, m, end, callers);
      n := n + 1;
    } else if p.Link? {
      n := SimulatesLink(fuel, table, files, p, callers, t);
    } else {
      PlainLaw(fuel, table, files, p, callers, t);
      var m' := Step(table, files, m);
      n := Simulates(fuel - 1, table, files, m'.program, callers, m'.task);
      assert m' == State(m'.program, callers, m'.task);
      ReachStep(n, table, files, m, end, callers);
      n := n + 1;
    }
  }

  lemma HasFuel(fuel: nat, table: ProgramTable, files: Files, p: Program, level: nat, t: Task)
    requires 1 <= level <= MAX_LINK_DEPTH && RunBody(fuel, table, files, p, level, t).0.Done?
    ensures fuel > 0
  {
  }

  lemma Kinds(p: Program)
    ensures Ends(p) <==> p.Return? || p.Abend?
  {
  }

  lemma {:induction false} SimulatesLink(fuel: nat, table: ProgramTable, files: Files, p: Program, callers: seq<Caller>, t: Task) returns (n: nat)
    requires |callers| <= 63 && fuel > 0 && p.Link? && RunBody(fuel, table, files, p, |callers| + 1, t).0.Done?
    ensures var run := RunBody(fuel, table, files, p, |callers| + 1, t);
      Reaches(n, table, files, State(p, callers, t), State(Answer(run.0.result), callers, run.1), callers)
    decreases fuel - 1, 1
  {
    hide *;
    var level, m := |callers| + 1, State(p, callers, t);
    LinkSteps(table, files, p, callers, t);
    LinkLaw(fuel, table, files, p, level, t);
    var run := RunBody(fuel, table, files, p, level, t);
    var end := State(Answer(run.0.result), callers, run.1);
    if |callers| == 63 {
      n := Simulates(fuel - 1, table, files, (p.onReturn)(Err(LinkStackOverflow(p.program))), callers, t);
      ReachStep(n, table, files, m, end, callers);
      n := n + 1;
    } else {
      var above := callers + [p.onReturn];
      var inner := State(Load(table, p.program, p.commarea), above, t);
      var a: nat, r, t' := 0, Err(ProgramNotFound(p.program)), t;
      if p.program in table {
        var d := RunBody(fuel - 1, table, files, table[p.program](p.commarea), level + 1, t);
        a := Simulates(fuel - 1, table, files, table[p.program](p.commarea), above, t);
        r, t' := d.0.result, d.1;
      } else {
        ReachSelf(table, files, inner, above);
      }
      var back := State(Answer(r), above, t');
      ReachFewer(a, table, files, inner, back, above, callers);
      var b := Simulates(fuel - 1, table, files, (p.onReturn)(r), callers, t');
      ReachStep(b, table, files, back, end, callers);
      ReachThen(a, b + 1, table, files, inner, back, end, callers);
      ReachStep(a + (b + 1), table, files, m, end, callers);
      n := a + (b + 1) + 1;
    }
  }

  // ----- and the other way round -----

  /** Above these callers, or with just these and not at an end. */
  ghost predicate Inside(m: State, callers: seq<Caller>) {
    callers <= m.callers && (|m.callers| == |callers| ==> !Ends(m.program))
  }

  lemma StepsOne(k: nat, table: ProgramTable, files: Files, m: State)
    ensures k > 0 ==> Steps(k, table, files, m) == Steps(k - 1, table, files, Step(table, files, m))
    ensures k == 0 ==> Steps(k, table, files, m) == m
  {
  }

  lemma InsideFewer(m: State, callers: seq<Caller>, next: Caller)
    requires Inside(m, callers + [next]) || callers + [next] <= m.callers
    ensures Inside(m, callers)
  {
    assert callers <= callers + [next];
  }

  lemma ReachedAbove(k: nat, n: nat, table: ProgramTable, files: Files, m: State, m': State, callers: seq<Caller>)
    requires Reaches(n, table, files, m, m', callers) && k <= n
    ensures callers <= Steps(k, table, files, m).callers && Steps(n, table, files, m) == m'
  {
    hide Steps;
  }

  /** A program that runs out of `fuel` in the semantics does not end on the machine in fewer than `fuel` steps. */
  lemma {:induction false} StillInside(fuel: nat, k: nat, table: ProgramTable, files: Files, p: Program, callers: seq<Caller>, t: Task)
    requires |callers| <= 63 && RunBody(fuel, table, files, p, |callers| + 1, t).0.OutOfFuel? && k < fuel
    ensures Inside(Steps(k, table, files, State(p, callers, t)), callers)
    decreases fuel, 0
  {
    hide *;
    Levels();
    var level, m := |callers| + 1, State(p, callers, t);
    StepsOne(k, table, files, m);
    if Ends(p) {
      EndLaw(fuel, table, files, p, level, t);
    } else if k == 0 {
      AtStart(m);
    } else {
      Kinds(p);
      if p.Xctl? {
        XctlLaw(fuel, table, files, p, callers, t);
        StillInside(fuel - 1, k - 1, table, files, Load(table, p.program, p.commarea), callers, t);
      } else if p.Link? {
        StillInLink(fuel, k, table, files, p, callers, t);
      } else {
        PlainLaw(fuel, table, files, p, callers, t);
        var m' := Step(table, files, m);
        StillInside(fuel - 1, k - 1, table, files, m'.program, callers, m'.task);
        assert m' == State(m'.program, callers, m'.task);
      }
    }
  }

  lemma AtStart(m: State)
    requires !Ends(m.program)
    ensures Inside(m, m.callers)
  {
  }

  lemma {:induction false} StillInLink(fuel: nat, k: nat, table: ProgramTable, files: Files, p: Program, callers: seq<Caller>, t: Task)
    requires |callers| <= 63 && RunBody(fuel, table, files, p, |callers| + 1, t).0.OutOfFuel? && 0 < k < fuel && p.Link?
    ensures Inside(Steps(k, table, files, State(p, callers, t)), callers)
    decreases fuel - 1, 1
  {
    hide *;
    var level, m := |callers| + 1, State(p, callers, t);
    LinkSteps(table, files, p, callers, t);
    LinkLaw(fuel, table, files, p, level, t);
    StepsOne(k, table, files, m);
    if |callers| == 63 {
      StillInside(fuel - 1, k - 1, table, files, (p.onReturn)(Err(LinkStackOverflow(p.program))), callers, t);
    } else {
      var above := callers + [p.onReturn];
      var inner := State(Load(table, p.program, p.commarea), above, t);
      var a: nat, r, t' := 0, Err(ProgramNotFound(p.program)), t;
      if p.program in table {
        var d := RunBody(fuel - 1, table, files, table[p.program](p.commarea), level + 1, t);
        if d.0.OutOfFuel? {
          StillInside(fuel - 1, k - 1, table, files, table[p.program](p.commarea), above, t);
          InsideFewer(Steps(k - 1, table, files, inner), callers, p.onReturn);
          return;
        }
        a := Simulates(fuel - 1, table, files, table[p.program](p.commarea), above, t);
        r, t' := d.0.result, d.1;
      } else {
        ReachSelf(table, files, inner, above);
      }
      var back := State(Answer(r), above, t');
      if k - 1 <= a {
        ReachedAbove(k - 1, a, table, files, inner, back, above);
        InsideFewer(Steps(k - 1, table, files, inner), callers, p.onReturn);
      } else {
        ReachedAbove(a, a, table, files, inner, back, above);
        StepsAdd(a, k - 1 - a, table, files, inner);
        StepsOne(k - 1 - a, table, files, back);
        StillInside(fuel - 1, k - 2 - a, table, files, (p.onReturn)(r), callers, t');
      }
    }
  }

  /** Halted: an answer, and nobody to take it. */
  ghost predicate Halted(m: State) {
    Ends(m.program) && m.callers == []
  }

  lemma {:induction false} HaltedForever(n: nat, table: ProgramTable, files: Files, m: State)
    requires Halted(m)
    ensures Steps(n, table, files, m) == m
    decreases n
  {
    if n > 0 {
      HaltedForever(n - 1, table, files, m);
    }
  }

  lemma AnswerHalts(r: Result<Commarea>, t: Task)
    ensures Halted(State(Answer(r), [], t))
  {
  }

  lemma NotInside(m: State)
    requires Halted(m)
    ensures !Inside(m, [])
  {
  }

  lemma AnswersDiffer(r: Result<Commarea>, r': Result<Commarea>)
    ensures Answer(r) == Answer(r') ==> r == r'
  {
  }

  lemma ReachesSteps(n: nat, table: ProgramTable, files: Files, m: State, m': State, callers: seq<Caller>)
    requires Reaches(n, table, files, m, m', callers)
    ensures Steps(n, table, files, m) == m'
  {
  }

  /** What halts on the machine after `n` steps ends in the semantics, within `n + 1` commands and the same way. */
  lemma HaltedIsDone(n: nat, table: ProgramTable, files: Files, p: Program, t: Task, r: Result<Commarea>, t': Task)
    requires Steps(n, table, files, State(p, [], t)) == State(Answer(r), [], t')
    ensures 1 <= MAX_LINK_DEPTH && RunBody(n + 1, table, files, p, 1, t) == (Done(r), t')
  {
    hide *;
    Levels();
    var m := State(p, [], t);
    AnswerHalts(r, t');
    if RunBody(n + 1, table, files, p, 1, t).0.OutOfFuel? {
      StillInside(n + 1, n, table, files, p, [], t);
      NotInside(Steps(n, table, files, m));
    } else {
      var run := RunBody(n + 1, table, files, p, 1, t);
      var k := Simulates(n + 1, table, files, p, [], t);
      ReachesSteps(k, table, files, m, State(Answer(run.0.result), [], run.1), []);
      AnswerHalts(run.0.result, run.1);
      if k <= n {
        StepsAdd(k, n - k, table, files, m);
        HaltedForever(n - k, table, files, State(Answer(run.0.result), [], run.1));
      } else {
        StepsAdd(n, k - n, table, files, m);
        HaltedForever(k - n, table, files, State(Answer(r), [], t'));
      }
      AnswersDiffer(r, run.0.result);
    }
  }

  /**
   * The two agree on every program: it ends with an answer in the semantics, on some fuel, if and only if the machine
   * halts with that answer; and the task they leave is the same.
   */
  lemma MachineAgrees(table: ProgramTable, files: Files, p: Program, t: Task, r: Result<Commarea>, t': Task)
    ensures 1 <= MAX_LINK_DEPTH
    ensures (exists fuel: nat :: RunBody(fuel, table, files, p, 1, t) == (Done(r), t'))
       <==> (exists n: nat :: Steps(n, table, files, State(p, [], t)) == State(Answer(r), [], t'))
  {
    hide *;
    Levels();
    if fuel: nat :| RunBody(fuel, table, files, p, 1, t) == (Done(r), t') {
      var n := Simulates(fuel, table, files, p, [], t);
      ReachesSteps(n, table, files, State(p, [], t), State(Answer(r), [], t'), []);
    }
    if n: nat :| Steps(n, table, files, State(p, [], t)) == State(Answer(r), [], t') {
      HaltedIsDone(n, table, files, p, t, r, t');
    }
  }

  /** So a name and a COMMAREA lead where the machine says that they lead. */
  lemma ProgramAgrees(table: ProgramTable, files: Files, name: string, c: Commarea, t: Task, r: Result<Commarea>, t': Task)
    ensures 1 <= MAX_LINK_DEPTH
    ensures (exists fuel: nat :: RunProgram(fuel, table, files, name, c, 1, t) == (Done(r), t'))
       <==> (exists n: nat :: Steps(n, table, files, State(Load(table, name, c), [], t)) == State(Answer(r), [], t'))
  {
    hide *;
    Levels();
    LoadIs(table, name, c);
    var missing := Err(ProgramNotFound(name));
    if name in table {
      MachineAgrees(table, files, table[name](c), t, r, t');
      if fuel: nat :| RunProgram(fuel, table, files, name, c, 1, t) == (Done(r), t') {
        ProgramLaw(fuel, table, files, name, c, 1, t);
      }
      if fuel: nat :| RunBody(fuel, table, files, table[name](c), 1, t) == (Done(r), t') {
        ProgramLaw(fuel, table, files, name, c, 1, t);
      }
    } else {
      AnswerHalts(missing, t);
      if fuel: nat :| RunProgram(fuel, table, files, name, c, 1, t) == (Done(r), t') {
        ProgramLaw(fuel, table, files, name, c, 1, t);
        HaltedForever(0, table, files, State(Answer(missing), [], t));
      }
      if n: nat :| Steps(n, table, files, State(Answer(missing), [], t)) == State(Answer(r), [], t') {
        HaltedForever(n, table, files, State(Answer(missing), [], t));
        AnswersDiffer(r, missing);
        ProgramLaw(0, table, files, name, c, 1, t);
      }
    }
  }

  lemma LoadIs(table: ProgramTable, name: string, c: Commarea)
    ensures Load(table, name, c) == if name in table then table[name](c) else Answer(Err(ProgramNotFound(name)))
  {
  }

  // ----- some answers -----

  /** A program that hands its COMMAREA back. */
  ghost predicate Echoes(table: ProgramTable, name: string) {
    name in table && forall c: Commarea :: table[name](c) == Return(c)
  }

  /** LINK, XCTL and a task of its own each pass a COMMAREA on unchanged, and bring the answer back. */
  lemma EchoAnswers(fuel: nat, table: ProgramTable, files: Files, name: string, c: Commarea, next: Caller, level: nat, t: Task)
    requires 1 <= level <= MAX_LINK_DEPTH && fuel > 1 && Echoes(table, name)
    ensures level < MAX_LINK_DEPTH ==>
              RunBody(fuel, table, files, Link(name, c, next), level, t) == RunBody(fuel - 1, table, files, next(Ok(c)), level, t)
    ensures RunBody(fuel, table, files, Xctl(name, c), level, t) == (Done(Ok(c)), t)
    ensures RunProgram(fuel, table, files, name, c, level, t) == (Done(Ok(c)), t)
  {
    hide RunBody;
    EndLaw(fuel, table, files, Return(c), level, t);
    EndLaw(fuel - 1, table, files, Return(c), level, t);
    BodyStep(fuel, table, files, Xctl(name, c), level, t);
    if level < MAX_LINK_DEPTH {
      EndLaw(fuel - 1, table, files, Return(c), level + 1, t);
      LinkLaw(fuel, table, files, Link(name, c, next), level, t);
    }
  }

  /** A program that LINKs itself without end and passes on the error it gets. */
  function Recurse(name: string): Program {
    Link(name, None, (r: Result<Commarea>) => if r.Ok? then Return(None) else Abend(r.error))
  }

  lemma {:induction false} RunsAway(fuel: nat, table: ProgramTable, files: Files, name: string, level: nat, t: Task)
    requires 1 <= level <= 64 == MAX_LINK_DEPTH && name in table && (forall c: Commarea :: table[name](c) == Recurse(name))
    requires fuel >= 66 - level
    ensures RunBody(fuel, table, files, Recurse(name), level, t) == (Done(Err(LinkStackOverflow(name))), t)
    decreases 64 - level
  {
    hide RunBody;
    LinkLaw(fuel, table, files, Recurse(name), level, t);
    EndLaw(fuel - 1, table, files, Abend(LinkStackOverflow(name)), level, t);
    if level < 64 {
      RunsAway(fuel - 1, table, files, name, level + 1, t);
    }
  }

  /** Runaway recursion is an error, on every fuel that suffices for 64 LINKs; and that task leaves no trace. */
  lemma RunawayIsRefused(budget: nat, fuel: nat, table: ProgramTable, files: Files, committed: seq<Entry>, request: PendingStart)
    requires request.program in table && (forall c: Commarea :: table[request.program](c) == Recurse(request.program))
    requires budget > 0 && fuel >= 65
    ensures var d := Dispatch(budget, fuel, table, files, committed, [request]);
      d.Some? && |d.value.ended| == 1 && d.value.ended[0].result == Err(LinkStackOverflow(request.program)) && d.value.committed == committed
  {
    hide *;
    Levels();
    var t0 := Task(committed, committed, [], [], [request][1..]);
    RunsAway(fuel, table, files, request.program, 1, t0);
    ProgramLaw(fuel, table, files, request.program, request.commarea, 1, t0);
    OneTask(budget, fuel, table, files, committed, request, Err(LinkStackOverflow(request.program)), t0);
  }

  /** A dispatch of a single task that STARTs no other. */
  lemma OneTask(budget: nat, fuel: nat, table: ProgramTable, files: Files, committed: seq<Entry>, request: PendingStart, r: Result<Commarea>, t: Task)
    requires budget > 0 && t == Task(committed, committed, [], [], [request][1..])
    requires 1 <= MAX_LINK_DEPTH && RunProgram(fuel, table, files, request.program, request.commarea, 1, t) == (Done(r), t)
    ensures Dispatch(budget, fuel, table, files, committed, [request])
         == Some(Dispatched(committed, [Ended(request, r, [UnitOfWork([], r.Ok?)], [])]))
  {
    hide RunProgram, Dispatch;
    RunTaskIs(fuel, table, files, committed, request, [request][1..]);
    DispatchStep(budget, fuel, table, files, committed, [request], []);
    PrecededByNone(Dispatch(budget, fuel, table, files, committed, [request]));
    DispatchDone(budget - 1, fuel, table, files, committed);
    var t' := if r.Ok? then t.Commit() else t.Undo();
    var e := EndedTask(request, r, t', [request][1..]);
    assert [request][1..] == [] && e == Ended(request, r, [UnitOfWork([], r.Ok?)], []);
    PrecededIs([] + [e], Some(Dispatched(committed, [])));
    assert [] + [e] + [] == [e];
  }

  /** The first answer of a dispatch is the machine's answer to the request. */
  lemma FirstAnswer(budget: nat, fuel: nat, table: ProgramTable, files: Files, committed: seq<Entry>, request: PendingStart)
    requires Dispatch(budget, fuel, table, files, committed, [request]).Some?
    ensures var ended := Dispatch(budget, fuel, table, files, committed, [request]).value.ended;
      |ended| > 0 && exists n: nat, t :: Steps(n, table, files, EntryState(table, request, committed)) == State(Answer(ended[0].result), [], t)
  {
    hide *;
    var d := Dispatch(budget, fuel, table, files, committed, [request]);
    var t0 := Task(committed, committed, [], [], [request][1..]);
    Levels();
    RunTaskIs(fuel, table, files, committed, request, [request][1..]);
    DispatchStep(budget, fuel, table, files, committed, [request], []);
    PrecededByNone(d);
    var o := RunTask(fuel, table, files, committed, request, [request][1..]);
    EndedIs(request, o.value.0, o.value.1, [request][1..]);
    PrecededIs([] + [EndedTask(request, o.value.0, o.value.1, [request][1..])],
               Dispatch(budget - 1, fuel, table, files, o.value.1.committed, o.value.1.queue));
    var run := RunProgram(fuel, table, files, request.program, request.commarea, 1, t0);
    assert run == (Done(run.0.result), run.1);
    ProgramAgrees(table, files, request.program, request.commarea, t0, run.0.result, run.1);
    EntryIs(table, request, committed);
    var n: nat :| Steps(n, table, files, State(Load(table, request.program, request.commarea), [], t0)) == State(Answer(run.0.result), [], run.1);
    assert o.Some? && o.value.0 == run.0.result;
    assert d.value.ended[0].result == run.0.result;
    assert Steps(n, table, files, EntryState(table, request, committed)) == State(Answer(d.value.ended[0].result), [], run.1);
  }

  /** The machine as a task finds it that a request from outside starts. */
  function EntryState(table: ProgramTable, request: PendingStart, committed: seq<Entry>): State {
    State(Load(table, request.program, request.commarea), [], Task(committed, committed, [], [], []))
  }

  lemma EntryIs(table: ProgramTable, request: PendingStart, committed: seq<Entry>)
    ensures EntryState(table, request, committed)
         == State(Load(table, request.program, request.commarea), [], Task(committed, committed, [], [], [request][1..]))
  {
    assert [request][1..] == [];
  }

  /** A program that ends at once, or is not defined, is answered so: with what it RETURNs, its error, or that it is missing. */
  lemma EndsAtOnce(budget: nat, fuel: nat, table: ProgramTable, files: Files, committed: seq<Entry>, request: PendingStart, r: Result<Commarea>)
    requires budget > 0 && fuel > 0 && Load(table, request.program, request.commarea) == Answer(r)
    ensures Dispatch(budget, fuel, table, files, committed, [request])
         == Some(Dispatched(committed, [Ended(request, r, [UnitOfWork([], r.Ok?)], [])]))
  {
    hide *;
    Levels();
    var t0 := Task(committed, committed, [], [], [request][1..]);
    ProgramLaw(fuel, table, files, request.program, request.commarea, 1, t0);
    LoadIs(table, request.program, request.commarea);
    AnswerEnds(r);
    if request.program in table {
      EndLaw(fuel, table, files, Answer(r), 1, t0);
      AnswersDiffer(r, RunBody(fuel, table, files, Answer(r), 1, t0).0.result);
    } else {
      AnswersDiffer(r, Err(ProgramNotFound(request.program)));
    }
    OneTask(budget, fuel, table, files, committed, request, r, t0);
  }

  lemma AnswerEnds(r: Result<Commarea>)
    ensures Ends(Answer(r))
  {
  }
}
