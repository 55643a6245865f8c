/** What every interleaving of the pool keeps: mutual exclusion and the life-cycle phases. */
module PoolSafety {
  import opened Timer
  import opened ProcessTable
  import opened Pool

  /** No two threads will write the state of one child. */
  ghost predicate OneHolder(s: State) {
    forall t, u, p :: t in s.threads && u in s.threads && Holds(s.threads[t], p) && Holds(s.threads[u], p) ==> t == u
  }

  /** An idle child has no holder, whichever list it is in. */
  ghost predicate IdleIsFree(s: State) {
    forall t, p :: t in s.threads && Holds(s.threads[t], p) && p in s.rows ==> s.rows[p].state != Idle
  }

  /** Signals and signal times belong to the shutdown list. */
  ghost predicate Phased(s: State) {
    forall p :: p in s.rows && (Signalled(s.rows[p].state) || s.rows[p].signal != ZERO) ==> s.rows[p].list == ShutdownList
  }

  /** The pids the shutdown thread still has to visit are rows of the shutdown list. */
  ghost predicate SnapshotLive(s: State) {
    s.pc.Visit? ==>
      && (s.pc.stage.Look? || |s.pc.todo| > 0)
      && (forall p :: p in s.pc.todo ==> InShutdown(s.rows, p))
      && Distinct(s.pc.todo)
  }

  ghost predicate Inv(s: State) {
    OneHolder(s) && IdleIsFree(s) && Phased(s) && SnapshotLive(s)
  }

  /** How a step may change a row: the project stays, lists only move forward, and only the
      shutdown thread, while handling the row, signals it or sets its signal time. */
  predicate RowChange(pc: Pc, p: Pid, row: Row, row': Row) {
    && row'.project == row.project
    && ListRank(row.list) <= ListRank(row'.list)
    && (row'.state != row.state && Signalled(row'.state) ==> Current(pc, p) && row'.list == row.list)
    && (row'.signal != row.signal ==> Current(pc, p) && row'.list == row.list)
  }

  lemma WorkRow(s: State, step: WorkerStep, p: Pid)
    requires WorkEnabled(s, step) && p in s.rows
    ensures p in AfterWork(s, step).rows && RowChange(s.pc, p, s.rows[p], AfterWork(s, step).rows[p])
  {
  }

  lemma LoopRow(s: State, step: LoopStep, p: Pid)
    requires LoopEnabled(s, step) && p in s.rows
    ensures p in AfterLoop(s, step).rows ==> RowChange(s.pc, p, s.rows[p], AfterLoop(s, step).rows[p])
    ensures p !in AfterLoop(s, step).rows ==> step == Weed && s.rows[p].state == Exit
  {
  }

  lemma RowStep(s: State, step: Step, p: Pid)
    requires Enabled(s, step) && p in s.rows
    ensures p in Apply(s, step).rows ==> RowChange(s.pc, p, s.rows[p], Apply(s, step).rows[p])
    ensures p !in Apply(s, step).rows ==> step == Loop(Weed) && s.rows[p].state == Exit
  {
    match step
    case Work(w) => WorkRow(s, w, p);
    case Loop(l) => LoopRow(s, l, p);
  }

  /** Rows appear only by starting a child, and then in the first phase. */
  lemma NewRow(s: State, step: Step, p: Pid)
    requires Enabled(s, step) && p !in s.rows && p in Apply(s, step).rows
    ensures step.Work? && step.w.StartChild? && step.w.pid == p
    ensures Apply(s, step).rows[p] == Row(step.w.project, InitList, Start, ZERO)
  {
    match step
    case Work(w) => WorkNewRow(s, w, p);
    case Loop(l) => LoopNoNewRow(s, l, p);
  }

  lemma WorkNewRow(s: State, step: WorkerStep, p: Pid)
    requires WorkEnabled(s, step) && p !in s.rows && p in AfterWork(s, step).rows
    ensures step.StartChild? && step.pid == p
    ensures AfterWork(s, step).rows[p] == Row(step.project, InitList, Start, ZERO)
  {
  }

  lemma LoopNoNewRow(s: State, step: LoopStep, p: Pid)
    requires LoopEnabled(s, step) && p !in s.rows
    ensures p !in AfterLoop(s, step).rows
  {
  }

  /** Other threads move the shutdown thread only out of its wait, and leave its records alone. */
  lemma WorkKeepsPc(s: State, step: WorkerStep)
    requires WorkEnabled(s, step)
    ensures AfterWork(s, step).pc == s.pc || (s.pc.Waiting? && AfterWork(s, step).pc == Woken)
    ensures AfterWork(s, step).log == s.log
  {
  }

  lemma WorkHolders(s: State, step: WorkerStep)
    requires OneHolder(s) && IdleIsFree(s) && WorkEnabled(s, step)
    ensures OneHolder(AfterWork(s, step)) && IdleIsFree(AfterWork(s, step))
  {
  }

  lemma LoopHolders(s: State, step: LoopStep)
    requires OneHolder(s) && IdleIsFree(s) && LoopEnabled(s, step)
    ensures OneHolder(AfterLoop(s, step)) && IdleIsFree(AfterLoop(s, step))
  {
    assert AfterLoop(s, step).threads == s.threads;
  }

  lemma PhasedStep(s: State, step: Step)
    requires Phased(s) && SnapshotLive(s) && Enabled(s, step)
    ensures Phased(Apply(s, step))
  {
    var s' := Apply(s, step);
    forall p | p in s'.rows && (Signalled(s'.rows[p].state) || s'.rows[p].signal != ZERO)
      ensures s'.rows[p].list == ShutdownList
    {
      if p in s.rows {
        RowStep(s, step, p);
        assert Current(s.pc, p) ==> p in s.pc.todo;
      } else {
        NewRow(s, step, p);
      }
    }
  }

  lemma SnapshotStep(s: State, step: Step)
    requires SnapshotLive(s) && Enabled(s, step)
    ensures SnapshotLive(Apply(s, step))
  {
    match step
    case Work(w) =>
      WorkKeepsPc(s, w);
      forall p | p in s.rows && InShutdown(s.rows, p)
        ensures InShutdown(AfterWork(s, w).rows, p)
      {
        WorkRow(s, w, p);
      }
    case Loop(l) =>
      LoopSnapshot(s, l);
  }

  lemma LoopSnapshot(s: State, step: LoopStep)
    requires SnapshotLive(s) && LoopEnabled(s, step)
    ensures SnapshotLive(AfterLoop(s, step))
  {
    var s' := AfterLoop(s, step);
    if !step.Snapshot? && s'.pc.Visit? {
      forall p | p in s'.pc.todo
        ensures InShutdown(s'.rows, p)
      {
        assert p in s.pc.todo;
        LoopRow(s, step, p);
      }
    }
  }

  lemma InvStep(s: State, step: Step)
    requires Inv(s) && Enabled(s, step)
    ensures Inv(Apply(s, step))
  {
    match step {
      case Work(w) => WorkHolders(s, w);
      case Loop(l) => LoopHolders(s, l);
    }
    PhasedStep(s, step);
    SnapshotStep(s, step);
  }

  lemma StepOf(tr: seq<State>, i: nat) returns (step: Step)
    requires IsStretch(tr) && i + 1 < |tr|
    ensures Enabled(tr[i], step) && tr[i + 1] == Apply(tr[i], step)
  {
    assert StepAt(tr, i);
    step :| Enabled(tr[i], step) && tr[i + 1] == Apply(tr[i], step);
  }

  lemma {:induction false} InvRun(tr: seq<State>, i: nat)
    requires IsRun(tr) && i < |tr|
    ensures Inv(tr[i])
    decreases i
  {
    if i > 0 {
      InvRun(tr, i - 1);
      var step := StepOf(tr, i - 1);
      InvStep(tr[i - 1], step);
    }
  }

  /** Mutual exclusion on every run: no child is held by two threads, and a child a connection
      thread could claim is held by none, although every state write is unconditional. */
  lemma MutualExclusion(tr: seq<State>, i: nat)
    requires IsRun(tr) && i < |tr|
    ensures var s := tr[i];
            && (forall t, u, p :: t in s.threads && u in s.threads && Holds(s.threads[t], p) && Holds(s.threads[u], p)
                                  ==> t == u)
            && (forall t, p :: t in s.threads && p in s.rows && s.rows[p].list == ActiveList && s.rows[p].state == Idle
                               ==> !Holds(s.threads[t], p))
  {
    InvRun(tr, i);
  }

  /** Life-cycle phases on every run. The pid the shutdown thread is about to look up is a row,
      so the branch for an unknown process is dead; and a row that disappears was exited and in
      the shutdown list. */
  lemma LifeCycle(tr: seq<State>, i: nat)
    requires IsRun(tr) && i < |tr|
    ensures var s := tr[i];
            && (forall p :: p in s.rows && (Signalled(s.rows[p].state) || s.rows[p].signal != ZERO) ==> InShutdown(s.rows, p))
            && (s.pc.Visit? && |s.pc.todo| > 0 ==> InShutdown(s.rows, s.pc.todo[0]))
    ensures i + 1 < |tr| ==>
              forall p :: p in tr[i].rows && p !in tr[i + 1].rows ==> tr[i].rows[p].state == Exit && InShutdown(tr[i].rows, p)
  {
    InvRun(tr, i);
    if i + 1 < |tr| {
      var step := StepOf(tr, i);
      forall p | p in tr[i].rows && p !in tr[i + 1].rows
        ensures tr[i].rows[p].state == Exit && InShutdown(tr[i].rows, p)
      {
        RowStep(tr[i], step, p);
      }
    }
  }

  /** The row of p exists in every state of the stretch. */
  ghost predicate Present(tr: seq<State>, p: Pid) {
    forall i :: 0 <= i < |tr| ==> p in tr[i].rows
  }

  lemma RowNext(s: State, s': State, p: Pid)
    requires Next(s, s') && p in s.rows && p in s'.rows
    ensures RowChange(s.pc, p, s.rows[p], s'.rows[p])
  {
    var step :| Enabled(s, step) && s' == Apply(s, step);
    RowStep(s, step, p);
  }

  /** As long as a row exists its list only moves forward, over any number of steps. */
  lemma {:induction false} ListsMoveForward(tr: seq<State>, p: Pid, i: nat, j: nat)
    requires IsStretch(tr) && Present(tr, p) && i <= j < |tr|
    ensures ListRank(tr[i].rows[p].list) <= ListRank(tr[j].rows[p].list)
    ensures tr[i].rows[p].project == tr[j].rows[p].project
    decreases j - i
  {
    if i < j {
      ListsMoveForward(tr, p, i, j - 1);
      assert StepAt(tr, j - 1);
      RowNext(tr[j - 1], tr[j], p);
    }
  }

  /** After an exchange start moved the active rows of a project away, none of them is ever
      active again: each stays in the shutdown list until it is deleted. */
  lemma ExchangeIsFinal(tr: seq<State>, p: Pid, tid: Tid, project: Project, j: nat)
    requires IsStretch(tr) && Present(tr, p) && 0 < j < |tr|
    requires tr[0].rows[p].project == project && tr[0].rows[p].list == ActiveList
    requires var step := MoveAll(tid, project, ActiveList, ShutdownList);
             WorkEnabled(tr[0], step) && tr[1] == AfterWork(tr[0], step)
    ensures tr[j].rows[p].list == ShutdownList
  {
    assert tr[1].rows[p].list == ShutdownList;
    ListsMoveForward(tr, p, 1, j);
  }

  // Letting go.

  /** A thread that is done with its child, one way or another, leaves it to nobody; only one that was
      initialised or served to the end is marked idle. */
  lemma LetsGo(s: State, step: WorkerStep)
    requires Inv(s) && WorkEnabled(s, step)
    requires step.InitIdle? || step.InitDied? || step.Release? || step.Leak?
    ensures var p := s.threads[step.tid].pid;
            forall t :: t in AfterWork(s, step).threads ==> !Holds(AfterWork(s, step).threads[t], p)
    ensures var p := s.threads[step.tid].pid;
            AfterWork(s, step).rows == if (step.InitIdle? || step.Release?) && p in s.rows then s.rows[p := s.rows[p].(state := Idle)] else s.rows
  {
  }

  /** An active child at work for nobody. */
  ghost predicate Stranded(s: State, p: Pid) {
    && p in s.rows && s.rows[p].list == ActiveList && s.rows[p].state == Busy
    && forall t :: t in s.threads ==> !Mentions(s.threads[t], p)
  }

  /** A child that was let go without being marked idle serves no further request: it stays as it is
      until it is found dead or its project retires its active children. */
  lemma StrandedStep(s: State, step: Step, p: Pid)
    requires Stranded(s, p) && Inv(s) && Enabled(s, step)
    ensures Stranded(Apply(s, step), p) <==>
            !(step.Work? && ((step.w.Reap? && step.w.pid == p)
                             || (step.w.MoveAll? && step.w.project == s.rows[p].project && step.w.from == ActiveList)))
  {
    match step
    case Work(w) => StrandedWork(s, w, p);
    case Loop(l) => StrandedLoop(s, l, p);
  }

  lemma StrandedLoop(s: State, step: LoopStep, p: Pid)
    requires Stranded(s, p) && SnapshotLive(s) && LoopEnabled(s, step)
    ensures Stranded(AfterLoop(s, step), p)
  {
    if s.pc.Visit? && |s.pc.todo| > 0 {
      assert s.pc.todo[0] in s.pc.todo;
    }
  }

  lemma StrandedWork(s: State, step: WorkerStep, p: Pid)
    requires Stranded(s, p) && WorkEnabled(s, step)
    ensures Stranded(AfterWork(s, step), p) <==>
            !((step.Reap? && step.pid == p) || (step.MoveAll? && step.project == s.rows[p].project && step.from == ActiveList))
  {
    var s' := AfterWork(s, step);
    if step.Reap? {
      assert s'.threads[step.tid] == Retiring(step.pid);
    } else {
      assert forall t :: t in s'.threads ==> t in s.threads || step.StartChild? || step.Claim? || step.MoveAll?;
    }
  }

  // Reachable states.

  /** s ends some run. */
  ghost predicate Reachable(s: State) {
    exists tr :: IsRun(tr) && tr[|tr| - 1] == s
  }

  lemma ReachInitial()
    ensures Reachable(INITIAL)
  {
    assert IsRun([INITIAL]) && [INITIAL][|[INITIAL]| - 1] == INITIAL;
  }

  lemma Reach(s: State, step: Step)
    requires Reachable(s) && Enabled(s, step)
    ensures Reachable(Apply(s, step))
  {
    var tr :| IsRun(tr) && tr[|tr| - 1] == s;
    var tr' := tr + [Apply(s, step)];
    forall i: nat | i < |tr'| - 1
      ensures StepAt(tr', i)
    {
      if i < |tr| - 1 {
        assert StepAt(tr, i);
      } else {
        assert Next(tr'[i], tr'[i + 1]);
      }
    }
    assert IsRun(tr') && tr'[|tr'| - 1] == Apply(s, step);
  }

  lemma ReachableInv(s: State)
    requires Reachable(s)
    ensures Inv(s)
  {
    var tr :| IsRun(tr) && tr[|tr| - 1] == s;
    InvRun(tr, |tr| - 1);
  }
}
