/** The shutdown thread misses no wake-up. */
module ShutdownWakeup {
  import opened Timer
  import opened ProcessTable
  import opened Pool
  import opened PoolSafety

  /** The thread that moved p has not yet notified the shutdown thread. */
  predicate MoverPending(s: State, p: Pid)
    requires p in s.unseen
  {
    var t := s.unseen[p];
    t in s.threads && s.threads[t].Notifying?
  }

  /** The next snapshot lies before the next wait. */
  predicate SnapshotAhead(pc: Pc) {
    pc.Top? || pc.Clocked? || pc.Woken? || pc.Counting? || pc.Done?
  }

  ghost predicate WakeInv(s: State) {
    && (!SnapshotAhead(s.pc) ==> s.listChange || forall p :: p in s.unseen ==> MoverPending(s, p))
    && (s.pc.Waiting? ==> !s.listChange)
    && (s.pc.Waiting? && s.pc.until.Never? ==> !s.doShutdown)
  }

  lemma WorkWake(s: State, step: WorkerStep)
    requires WakeInv(s) && WorkEnabled(s, step)
    ensures WakeInv(AfterWork(s, step))
  {
  }

  lemma LoopWake(s: State, step: LoopStep)
    requires WakeInv(s) && LoopEnabled(s, step)
    ensures WakeInv(AfterLoop(s, step))
  {
  }

  lemma {:induction false} WakeRun(tr: seq<State>, i: nat)
    requires IsRun(tr) && i < |tr|
    ensures WakeInv(tr[i])
    decreases i
  {
    if i > 0 {
      WakeRun(tr, i - 1);
      var step := StepOf(tr, i - 1);
      match step
      case Work(w) => WorkWake(tr[i - 1], w);
      case Loop(l) => LoopWake(tr[i - 1], l);
    }
  }

  /** p was in a snapshot taken at step k of the run, and has been in the shutdown list since. */
  ghost predicate SnapshottedAt(tr: seq<State>, k: nat, i: nat, p: Pid)
    requires i < |tr|
  {
    && k < i
    && tr[k].pc.Clocked? && tr[k + 1].pc.Visit? && p in tr[k + 1].pc.todo
    && forall j :: k <= j <= i ==> InShutdown(tr[j].rows, p)
  }

  /** What `unseen` records: every other row of the shutdown list was in a snapshot taken since
      it was moved there. */
  lemma {:induction false} SeenRowsWereSnapshotted(tr: seq<State>, i: nat, p: Pid) returns (k: nat)
    requires IsRun(tr) && i < |tr| && InShutdown(tr[i].rows, p) && p !in tr[i].unseen
    ensures SnapshottedAt(tr, k, i, p)
    decreases i
  {
    if i == 0 {
      assert false;
    } else {
      var step := StepOf(tr, i - 1);
      if step.Loop? && step.l.Snapshot? {
        k := i - 1;
      } else {
        SeenBefore(tr[i - 1], step, p);
        k := SeenRowsWereSnapshotted(tr, i - 1, p);
      }
    }
  }

  lemma SeenBefore(s: State, step: Step, p: Pid)
    requires Enabled(s, step) && !(step.Loop? && step.l.Snapshot?)
    requires InShutdown(Apply(s, step).rows, p) && p !in Apply(s, step).unseen
    ensures InShutdown(s.rows, p) && p !in s.unseen
  {
    match step
    case Work(w) => WorkSeenBefore(s, w, p);
    case Loop(l) => LoopSeenBefore(s, l, p);
  }

  lemma WorkSeenBefore(s: State, step: WorkerStep, p: Pid)
    requires WorkEnabled(s, step)
    requires InShutdown(AfterWork(s, step).rows, p) && p !in AfterWork(s, step).unseen
    ensures InShutdown(s.rows, p) && p !in s.unseen
  {
  }

  lemma LoopSeenBefore(s: State, step: LoopStep, p: Pid)
    requires LoopEnabled(s, step) && !step.Snapshot?
    requires InShutdown(AfterLoop(s, step).rows, p) && p !in AfterLoop(s, step).unseen
    ensures InShutdown(s.rows, p) && p !in s.unseen
  {
  }

  /** No lost wake-up. While the shutdown thread sits in a wait nobody has signalled, every row
      of the shutdown list was in a snapshot taken after its move, or the thread that moved it
      has yet to notify; and once a stop was requested the wait is never an untimed one. */
  lemma NoLostWakeup(tr: seq<State>, i: nat, p: Pid)
    requires IsRun(tr) && i < |tr| && tr[i].pc.Waiting?
    ensures InShutdown(tr[i].rows, p) ==>
              || (exists k :: SnapshottedAt(tr, k, i, p))
              || (p in tr[i].unseen && MoverPending(tr[i], p))
    ensures tr[i].doShutdown ==> tr[i].pc.until.At?
  {
    WakeRun(tr, i);
    if InShutdown(tr[i].rows, p) && p !in tr[i].unseen {
      var k := SeenRowsWereSnapshotted(tr, i, p);
    }
  }

  // The deadline of a wait.

  ghost predicate DeadlineInv(s: State) {
    && Normalised(s.now)
    && (forall p :: p in s.rows ==> Normalised(s.rows[p].signal))
    && (s.pc.Visit? ==> Normalised(s.pc.r.timeout))
    && (s.pc.Visit? && s.pc.stage.Writing? ==> Normalised(s.pc.stage.at))
    && (s.pc.Measuring? || s.pc.Locking? || s.pc.Waiting? ==> Normalised(s.pc.timeout))
    && (s.pc.Locking? || s.pc.Waiting? ==> IsMinSignal(s.rows, s.pc.min))
    && (s.pc.Waiting? && !IsEmpty(s.pc.min) ==> s.pc.until == At(Add(s.pc.min, s.pc.timeout)))
    && (s.pc.Waiting? && IsEmpty(s.pc.min) ==> s.pc.until.Never? || s.doShutdown)
  }

  /** The wait ends no later than a row signalled at ts is due. */
  predicate Covers(pc: Pc, ts: Timespec)
    requires pc.Waiting?
  {
    pc.until.At? && Nanos(pc.until.time) <= Nanos(ts) + Nanos(pc.timeout)
  }

  lemma WorkKeepsSignals(s: State, step: WorkerStep, p: Pid)
    requires WorkEnabled(s, step)
    ensures p in s.rows ==> p in AfterWork(s, step).rows && AfterWork(s, step).rows[p].signal == s.rows[p].signal
    ensures p in AfterWork(s, step).rows && p !in s.rows ==> AfterWork(s, step).rows[p].signal == ZERO
  {
  }

  lemma WorkDeadline(s: State, step: WorkerStep)
    requires DeadlineInv(s) && WorkEnabled(s, step)
    ensures DeadlineInv(AfterWork(s, step))
  {
    var s' := AfterWork(s, step);
    WorkKeepsPc(s, step);
    forall p
      ensures HasSignalTime(s'.rows, p) <==> HasSignalTime(s.rows, p)
      ensures HasSignalTime(s.rows, p) ==> s'.rows[p].signal == s.rows[p].signal
      ensures p in s'.rows ==> Normalised(s'.rows[p].signal)
    {
      WorkKeepsSignals(s, step, p);
    }
    if s'.pc.Locking? || s'.pc.Waiting? {
      if p :| HasSignalTime(s.rows, p) && s.rows[p].signal == s.pc.min {
        assert HasSignalTime(s'.rows, p) && s'.rows[p].signal == s.pc.min;
      }
      assert IsMinSignal(s'.rows, s.pc.min);
    }
    assert step.Tick? ==> Normalised(s'.now);
    assert !step.Tick? ==> s'.now == s.now;
  }

  lemma LoopDeadline(s: State, step: LoopStep)
    requires DeadlineInv(s) && LoopEnabled(s, step)
    ensures DeadlineInv(AfterLoop(s, step))
  {
  }

  lemma {:induction false} DeadlineRun(tr: seq<State>, i: nat)
    requires IsRun(tr) && i < |tr|
    ensures DeadlineInv(tr[i])
    decreases i
  {
    if i > 0 {
      DeadlineRun(tr, i - 1);
      var step := StepOf(tr, i - 1);
      match step
      case Work(w) => WorkDeadline(tr[i - 1], w);
      case Loop(l) => LoopDeadline(tr[i - 1], l);
    }
  }

  lemma EarliestSignal(s: State, p: Pid)
    requires DeadlineInv(s) && s.pc.Waiting? && HasSignalTime(s.rows, p)
    ensures !IsEmpty(s.pc.min)
    ensures exists q :: HasSignalTime(s.rows, q) && s.rows[q].signal == s.pc.min
    ensures Nanos(s.pc.min) <= Nanos(s.rows[p].signal)
  {
    var q :| HasSignalTime(s.rows, q) && s.rows[q].signal == s.pc.min;
    GreaterIffLater(s.pc.min, s.rows[p].signal);
  }

  /** The deadline serves every row that has a signal time with both fields non-zero. */
  lemma WaitServesTimers(tr: seq<State>, i: nat, p: Pid)
    requires IsRun(tr) && i < |tr| && tr[i].pc.Waiting? && HasSignalTime(tr[i].rows, p)
    ensures Covers(tr[i].pc, tr[i].rows[p].signal)
  {
    DeadlineRun(tr, i);
    EarliestSignal(tr[i], p);
    AddIsNanosAddition(tr[i].pc.min, tr[i].pc.timeout);
  }

  /** Exactly which rows a wait outside a requested stop serves: those that some row with both
      fields non-zero precedes. A row signalled on a whole second is served only by luck. */
  lemma WaitServesExactly(tr: seq<State>, i: nat, p: Pid)
    requires IsRun(tr) && i < |tr| && tr[i].pc.Waiting? && !tr[i].doShutdown && p in tr[i].rows
    ensures var s := tr[i];
            Covers(s.pc, s.rows[p].signal) <==>
            exists q :: HasSignalTime(s.rows, q) && Nanos(s.rows[q].signal) <= Nanos(s.rows[p].signal)
  {
    DeadlineRun(tr, i);
    var s := tr[i];
    AddIsNanosAddition(s.pc.min, s.pc.timeout);
    if Covers(s.pc, s.rows[p].signal) {
      var q :| HasSignalTime(s.rows, q) && s.rows[q].signal == s.pc.min;
    } else if q :| HasSignalTime(s.rows, q) && Nanos(s.rows[q].signal) <= Nanos(s.rows[p].signal) {
      EarliestSignal(s, q);
    }
  }
}
