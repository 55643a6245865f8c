/** Progress of the shutdown loop: every visit of a row waits on an unexpired timer or lowers a
    measure that no thread can raise, so each row gets a bounded number of signals. */
module ShutdownProgress {
  import opened Timer
  import opened ProcessTable
  import opened Pool
  import opened PoolSafety
  import opened ShutdownTiming

  /** How often the present holder of p may still write its state. */
  ghost function Writes(threads: map<Tid, Worker>, p: Pid): nat {
    if exists t :: t in threads && threads[t] == Started(p) then 2
    else if exists t :: t in threads && Holds(threads[t], p) then 1
    else 0
  }

  function StateRank(st: ProcState): nat {
    match st
    case Term => 2
    case Kill => 1
    case Exit => 0
    case _ => 3
  }

  /** The stage of p on its way out. A signal counts from the moment it is sent. */
  function Rank(s: State, p: Pid): (r: nat)
    requires p in s.rows
    ensures r <= 3
  {
    var st := StateRank(s.rows[p].state);
    if !Current(s.pc, p) then st
    else
      match s.pc.stage
      case Signalling(SigTerm) => 3
      case Signalling(SigKill) => 2
      case Marking(SigTerm) => 2
      case Marking(SigKill) => 1
      case Exiting => 0
      case _ => st
  }

  /** The pair (writes left, stage), ordered lexicographically, as one number below 12. */
  ghost function Measure(s: State, p: Pid): (m: nat)
    requires p in s.rows
    ensures m < 12
  {
    4 * Writes(s.threads, p) + Rank(s, p)
  }

  function Signals(log: seq<Event>, p: Pid): nat {
    if log == [] then 0
    else Signals(log[..|log| - 1], p) + if log[|log| - 1].Sent? && log[|log| - 1].pid == p then 1 else 0
  }

  /** An upper bound for the signals p can still get. */
  ghost function SignalsLeft(s: State, p: Pid): (n: nat)
    requires p in s.rows
    ensures n <= 2 * (Writes(s.threads, p) + 1)
  {
    2 * Writes(s.threads, p) + if Rank(s, p) == 0 then 0 else Rank(s, p) - 1
  }

  /** A step that is not the holder's own leaves the state of p, and who holds it, alone. */
  lemma OthersLeave(s: State, step: WorkerStep, p: Pid)
    requires WorkEnabled(s, step) && InShutdown(s.rows, p)
    requires !((step.InitBegin? || step.InitIdle? || step.Release?) && Holds(s.threads[step.tid], p))
    ensures var s' := AfterWork(s, step);
            && p in s'.rows && s'.rows[p].state == s.rows[p].state
            && forall t :: t in s'.threads && Holds(s'.threads[t], p) ==> t in s.threads && s'.threads[t] == s.threads[t]
  {
  }

  /** In the shutdown list p gets no new holder, and every state write uses up one of the holder's. */
  lemma WorkWrites(s: State, step: WorkerStep, p: Pid)
    requires Inv(s) && WorkEnabled(s, step) && InShutdown(s.rows, p)
    ensures p in AfterWork(s, step).rows
    ensures var s' := AfterWork(s, step);
            && Writes(s'.threads, p) <= Writes(s.threads, p)
            && (s'.rows[p].state != s.rows[p].state ==> Writes(s'.threads, p) < Writes(s.threads, p))
  {
    if (step.InitBegin? || step.InitIdle? || step.Release?) && Holds(s.threads[step.tid], p) {
      HolderWrites(s, step, p);
    } else {
      OthersLeave(s, step, p);
    }
  }

  lemma HolderWrites(s: State, step: WorkerStep, p: Pid)
    requires OneHolder(s) && WorkEnabled(s, step) && InShutdown(s.rows, p)
    requires (step.InitBegin? || step.InitIdle? || step.Release?) && Holds(s.threads[step.tid], p)
    ensures p in AfterWork(s, step).rows && Writes(AfterWork(s, step).threads, p) < Writes(s.threads, p)
  {
    var threads := AfterWork(s, step).threads;
    assert forall t :: t in threads && t != step.tid ==> !Holds(s.threads[t], p);
  }

  lemma WorkMeasure(s: State, step: WorkerStep, p: Pid)
    requires Inv(s) && WorkEnabled(s, step) && InShutdown(s.rows, p)
    ensures p in AfterWork(s, step).rows
    ensures Measure(AfterWork(s, step), p) <= Measure(s, p)
    ensures SignalsLeft(AfterWork(s, step), p) <= SignalsLeft(s, p)
  {
    WorkWrites(s, step, p);
    WorkKeepsPc(s, step);
  }

  lemma SignalsAppend(log: seq<Event>, e: Event, p: Pid)
    ensures Signals(log + [e], p) == Signals(log, p) + if e.Sent? && e.pid == p then 1 else 0
  {
    assert (log + [e])[..|log|] == log;
  }

  /** Looking, timing and signalling: the rank of the pid in hand falls with every signal. */
  lemma DecideRank(s: State, step: LoopStep, p: Pid)
    requires Inv(s) && TimeInv(s) && LoopEnabled(s, step) && InShutdown(s.rows, p)
    requires step.ReadState? || step.CheckTimer? || step.SendSignal?
    ensures var s' := AfterLoop(s, step);
            && s'.rows == s.rows
            && Rank(s', p) <= Rank(s, p)
            && (s'.log == s.log || (|s'.log| == |s.log| + 1 && s'.log == s.log + [s'.log[|s.log|]]))
            && (s'.log != s.log && s'.log[|s.log|].pid == p ==> Rank(s', p) < Rank(s, p))
            && (s'.log != s.log && s'.log[|s.log|].pid == p && s'.log[|s.log|].Sent? ==> Rank(s, p) >= 2)
  {
    var s' := AfterLoop(s, step);
    if p != s.pc.todo[0] {
      assert !Current(s.pc, p) && !Current(s'.pc, p);
    }
  }

  /** The writes that follow do not raise it, and nothing else in the loop touches it. */
  lemma WriteRank(s: State, step: LoopStep, p: Pid)
    requires Inv(s) && LoopEnabled(s, step) && InShutdown(s.rows, p) && p in AfterLoop(s, step).rows
    requires !(step.ReadState? || step.CheckTimer? || step.SendSignal?)
    ensures AfterLoop(s, step).log == s.log
    ensures Rank(AfterLoop(s, step), p) <= Rank(s, p)
  {
    var s' := AfterLoop(s, step);
    if s.pc.Visit? && |s.pc.todo| > 0 && p != s.pc.todo[0] {
      assert !Current(s.pc, p) && !Current(s'.pc, p);
    }
  }

  /** From s to s' the measure of p did not rise, it fell with every event about p, and the
      signals sent and those left did not grow together. */
  ghost predicate Descends(s: State, s': State, p: Pid)
    requires p in s.rows && p in s'.rows
  {
    && Measure(s', p) <= Measure(s, p)
    && (s'.log == s.log || |s'.log| == |s.log| + 1)
    && (s'.log != s.log && s'.log[|s.log|].pid == p ==> Measure(s', p) < Measure(s, p))
    && Signals(s'.log, p) + SignalsLeft(s', p) <= Signals(s.log, p) + SignalsLeft(s, p)
  }

  lemma RankDescends(s: State, s': State, p: Pid)
    requires p in s.rows && p in s'.rows && s'.threads == s.threads && Rank(s', p) <= Rank(s, p)
    requires s'.log == s.log || (|s'.log| == |s.log| + 1 && s'.log == s.log + [s'.log[|s.log|]])
    requires s'.log != s.log && s'.log[|s.log|].pid == p ==> Rank(s', p) < Rank(s, p)
    requires s'.log != s.log && s'.log[|s.log|].pid == p && s'.log[|s.log|].Sent? ==> Rank(s, p) >= 2
    ensures Descends(s, s', p)
  {
    if s'.log != s.log {
      SignalsAppend(s.log, s'.log[|s.log|], p);
    }
  }

  lemma DecideDescends(s: State, step: LoopStep, p: Pid)
    requires Inv(s) && TimeInv(s) && LoopEnabled(s, step) && InShutdown(s.rows, p)
    requires step.ReadState? || step.CheckTimer? || step.SendSignal?
    ensures p in AfterLoop(s, step).rows && Descends(s, AfterLoop(s, step), p)
  {
    DecideRank(s, step, p);
    RankDescends(s, AfterLoop(s, step), p);
  }

  lemma WriteDescends(s: State, step: LoopStep, p: Pid)
    requires Inv(s) && LoopEnabled(s, step) && InShutdown(s.rows, p) && p in AfterLoop(s, step).rows
    requires !(step.ReadState? || step.CheckTimer? || step.SendSignal?)
    ensures Descends(s, AfterLoop(s, step), p)
  {
    WriteRank(s, step, p);
    assert AfterLoop(s, step).threads == s.threads;
    RankDescends(s, AfterLoop(s, step), p);
  }

  lemma StepDescends(s: State, step: Step, p: Pid)
    requires Inv(s) && TimeInv(s) && Enabled(s, step) && InShutdown(s.rows, p) && p in Apply(s, step).rows
    ensures Descends(s, Apply(s, step), p)
  {
    if step.Work? {
      WorkMeasure(s, step.w, p);
      WorkKeepsPc(s, step.w);
    } else if step.l.ReadState? || step.l.CheckTimer? || step.l.SendSignal? {
      DecideDescends(s, step.l, p);
    } else {
      WriteDescends(s, step.l, p);
    }
  }

  /** The row of p exists, in the shutdown list, from state i to state j of the run. */
  ghost predicate LeavingFrom(tr: seq<State>, p: Pid, i: nat, j: nat) {
    i <= j < |tr| && (forall k :: i <= k <= j ==> p in tr[k].rows) && InShutdown(tr[i].rows, p)
  }

  lemma {:induction false} StaysInShutdown(tr: seq<State>, p: Pid, i: nat, j: nat)
    requires IsRun(tr) && LeavingFrom(tr, p, i, j)
    ensures InShutdown(tr[j].rows, p)
    decreases j - i
  {
    if i < j {
      StaysInShutdown(tr, p, i, j - 1);
      assert StepAt(tr, j - 1);
      RowNext(tr[j - 1], tr[j], p);
    }
  }

  lemma NextDescends(tr: seq<State>, p: Pid, i: nat, j: nat)
    requires IsRun(tr) && LeavingFrom(tr, p, i, j) && i < j
    ensures p in tr[j - 1].rows && Descends(tr[j - 1], tr[j], p)
  {
    hide AfterWork, AfterLoop, TimeInv, Measure, Signals;
    StaysInShutdown(tr, p, i, j - 1);
    InvRun(tr, j - 1);
    TimeRun(tr, j - 1);
    var step := StepOf(tr, j - 1);
    StepDescends(tr[j - 1], step, p);
  }

  lemma {:induction false} RunDescends(tr: seq<State>, p: Pid, i: nat, j: nat)
    requires IsRun(tr) && LeavingFrom(tr, p, i, j)
    ensures Measure(tr[j], p) <= Measure(tr[i], p)
    ensures Signals(tr[j].log, p) + SignalsLeft(tr[j], p) <= Signals(tr[i].log, p) + SignalsLeft(tr[i], p)
    decreases j - i
  {
    if i < j {
      RunDescends(tr, p, i, j - 1);
      NextDescends(tr, p, i, j);
    }
  }

  /** The bound: from any moment in the shutdown list until the row is deleted, a pid is sent at
      most twice as many signals as its holder has state writes left, plus two. */
  lemma SignalsAreBounded(tr: seq<State>, p: Pid, i: nat, j: nat)
    requires IsRun(tr) && LeavingFrom(tr, p, i, j)
    ensures Signals(tr[j].log, p) - Signals(tr[i].log, p) <= 2 * (Writes(tr[i].threads, p) + 1) <= 6
  {
    RunDescends(tr, p, i, j);
  }

  /** States i to j of the run are one visit of the first pid in hand, from looking it up to
      turning to the next, with any steps of other threads in between. */
  ghost predicate IsVisit(tr: seq<State>, i: nat, j: nat) {
    && i < j < |tr| && tr[i].pc.Visit?
    && (forall k :: i <= k < j ==> tr[k].pc.Visit? && tr[k].pc.r == tr[i].pc.r && tr[k].pc.todo == tr[i].pc.todo)
    && tr[i].pc.stage.Look? && |tr[i].pc.todo| > 0
    && tr[j].pc == NextPid(tr[i].pc)
  }

  /** Nothing has been done to the pid in hand yet. */
  predicate Undecided(st: Stage) {
    st.Look? || st.Timing? || st.Signalling?
  }

  lemma DecidingIsLogged(s: State, step: Step)
    requires Enabled(s, step) && s.pc.Visit? && |s.pc.todo| > 0 && Undecided(s.pc.stage)
    requires var pc' := Apply(s, step).pc;
             pc'.Visit? && pc'.todo == s.pc.todo && !Undecided(pc'.stage)
    ensures var log' := Apply(s, step).log;
            |log'| == |s.log| + 1 && log'[|s.log|].pid == s.pc.todo[0]
  {
    match step
    case Work(w) => WorkKeepsPc(s, w);
    case Loop(l) => LoopDecidingIsLogged(s, l);
  }

  lemma LoopDecidingIsLogged(s: State, step: LoopStep)
    requires LoopEnabled(s, step) && s.pc.Visit? && |s.pc.todo| > 0 && Undecided(s.pc.stage)
    requires AfterLoop(s, step).pc.Visit? && !Undecided(AfterLoop(s, step).pc.stage)
    ensures var log' := AfterLoop(s, step).log;
            |log'| == |s.log| + 1 && log'[|s.log|].pid == s.pc.todo[0]
  {
  }

  lemma LeavingUndecided(s: State, step: Step)
    requires Enabled(s, step) && s.pc.Visit? && |s.pc.todo| > 0 && Undecided(s.pc.stage)
    requires Apply(s, step).pc == NextPid(s.pc)
    ensures var p := s.pc.todo[0];
            || (s.pc.stage.Look? && (p !in s.rows || s.rows[p].state == Exit))
            || (s.pc.stage.Timing? && !Expired(s.rows, s.pc.r, p))
  {
    assert |NextPid(s.pc).todo| < |s.pc.todo|;
    match step
    case Work(w) => WorkKeepsPc(s, w);
    case Loop(l) => LoopLeavingUndecided(s, l);
  }

  lemma LoopLeavingUndecided(s: State, step: LoopStep)
    requires LoopEnabled(s, step) && s.pc.Visit? && |s.pc.todo| > 0 && Undecided(s.pc.stage)
    requires AfterLoop(s, step).pc == NextPid(s.pc)
    ensures var p := s.pc.todo[0];
            || (s.pc.stage.Look? && (p !in s.rows || s.rows[p].state == Exit))
            || (s.pc.stage.Timing? && !Expired(s.rows, s.pc.r, p))
  {
  }

  /** Throughout a visit: the pid stays a row, and once something is done to it the measure is lower. */
  lemma {:induction false} VisitMeasure(tr: seq<State>, i: nat, j: nat, k: nat)
    requires IsRun(tr) && IsVisit(tr, i, j) && i <= k < j
    ensures var p := tr[i].pc.todo[0];
            && LeavingFrom(tr, p, i, k)
            && Measure(tr[k], p) <= Measure(tr[i], p)
            && (!Undecided(tr[k].pc.stage) ==> Measure(tr[k], p) < Measure(tr[i], p))
    decreases k - i
  {
    hide AfterWork, AfterLoop, TimeInv, Measure, Signals;
    var p := tr[i].pc.todo[0];
    InvRun(tr, k);
    assert p in tr[k].pc.todo;
    if i < k {
      VisitMeasure(tr, i, j, k - 1);
      NextDescends(tr, p, i, k);
      if Undecided(tr[k - 1].pc.stage) && !Undecided(tr[k].pc.stage) {
        var step := StepOf(tr, k - 1);
        DecidingIsLogged(tr[k - 1], step);
      }
    }
  }

  /** Every visit lowers the measure of the pid, or found it exited (to be deleted at the end of
      the pass), or found its timer not expired. */
  lemma VisitLowersOrWaits(tr: seq<State>, i: nat, j: nat)
    requires IsRun(tr) && IsVisit(tr, i, j)
    ensures var p, r := tr[i].pc.todo[0], tr[i].pc.r;
            && LeavingFrom(tr, p, i, j)
            && (|| Measure(tr[j], p) < Measure(tr[i], p)
                || (tr[j - 1].pc.stage.Look? && tr[j - 1].rows[p].state == Exit)
                || (tr[j - 1].pc.stage.Timing? && !Expired(tr[j - 1].rows, r, p)))
  {
    hide AfterWork, AfterLoop, TimeInv, Measure, Signals;
    var p := tr[i].pc.todo[0];
    VisitMeasure(tr, i, j, j - 1);
    var step := StepOf(tr, j - 1);
    StaysInShutdown(tr, p, i, j - 1);
    RowStep(tr[j - 1], step, p);
    NextDescends(tr, p, i, j);
    if Undecided(tr[j - 1].pc.stage) {
      LeavingUndecided(tr[j - 1], step);
    }
  }

  // A whole pass over the snapshot.

  /** States i to j of the run are one pass, from just after the snapshot to just after the exited
      rows were deleted. */
  ghost predicate IsPass(tr: seq<State>, i: nat, j: nat) {
    && 0 < i < j < |tr| && tr[i - 1].pc.Clocked?
    && (forall k :: i <= k < j ==> tr[k].pc.Visit?)
    && tr[j].pc.Measuring?
  }

  /** The thread has p in hand and finds its timer not expired. */
  ghost predicate FindsTimer(s: State, p: Pid) {
    && s.pc.Visit? && |s.pc.todo| > 0 && s.pc.todo[0] == p && s.pc.stage.Timing?
    && !Expired(s.rows, s.pc.r, p)
  }

  ghost predicate Waited(tr: seq<State>, i: nat, k: nat, p: Pid) {
    exists n :: i <= n <= k < |tr| && FindsTimer(tr[n], p)
  }

  /** The measure fell, or fell to where it means an exited row unless it falls further, or the
      timer had to be waited for. */
  ghost predicate Dealt(tr: seq<State>, i: nat, k: nat, p: Pid)
    requires i <= k < |tr| && p in tr[i].rows && p in tr[k].rows
  {
    || Measure(tr[k], p) < Measure(tr[i], p)
    || Measure(tr[k], p) <= 4 * (Measure(tr[i], p) / 4)
    || Waited(tr, i, k, p)
  }

  /** How far the pass has come with p. */
  ghost predicate PassAt(tr: seq<State>, i: nat, k: nat, p: Pid) {
    && LeavingFrom(tr, p, i, k) && tr[k].pc.Visit?
    && (|| (p in tr[k].pc.todo
            && (Current(tr[k].pc, p) && !Undecided(tr[k].pc.stage) ==> Measure(tr[k], p) < Measure(tr[i], p)))
        || Dealt(tr, i, k, p))
  }

  lemma DealtStays(tr: seq<State>, i: nat, k: nat, p: Pid)
    requires IsRun(tr) && i <= k && LeavingFrom(tr, p, i, k + 1) && Dealt(tr, i, k, p)
    ensures Dealt(tr, i, k + 1, p)
  {
    hide AfterWork, AfterLoop, TimeInv, Measure;
    NextDescends(tr, p, i, k + 1);
    if Waited(tr, i, k, p) {
      var n :| i <= n <= k && FindsTimer(tr[n], p);
      assert i <= n <= k + 1;
    }
  }

  /** Turning to the next pid, the thread has dealt with the one in hand. */
  lemma TurnDeals(tr: seq<State>, i: nat, k: nat, p: Pid)
    requires IsRun(tr) && PassAt(tr, i, k, p) && LeavingFrom(tr, p, i, k + 1)
    requires |tr[k].pc.todo| > 0 && tr[k].pc.todo[0] == p && tr[k + 1].pc == NextPid(tr[k].pc)
    ensures Dealt(tr, i, k, p)
  {
    hide AfterWork, AfterLoop, TimeInv;
    if Undecided(tr[k].pc.stage) {
      var step := StepOf(tr, k);
      RunDescends(tr, p, i, k);
      LeavingUndecided(tr[k], step);
      assert tr[k].pc.stage.Timing? ==> FindsTimer(tr[k], p);
    }
  }

  lemma PassStep(tr: seq<State>, i: nat, k: nat, p: Pid)
    requires IsRun(tr) && PassAt(tr, i, k, p) && LeavingFrom(tr, p, i, k + 1) && tr[k + 1].pc.Visit?
    ensures PassAt(tr, i, k + 1, p)
  {
    hide AfterWork, AfterLoop, TimeInv, Measure;
    if Dealt(tr, i, k, p) {
      DealtStays(tr, i, k, p);
    } else {
      VisitStep(tr, k);
      if tr[k + 1].pc.todo == tr[k].pc.todo {
        NextDescends(tr, p, i, k + 1);
        if Current(tr[k + 1].pc, p) && !Undecided(tr[k + 1].pc.stage) && Undecided(tr[k].pc.stage) {
          var step := StepOf(tr, k);
          DecidingIsLogged(tr[k], step);
          RunDescends(tr, p, i, k);
        }
      } else if tr[k].pc.todo[0] == p {
        TurnDeals(tr, i, k, p);
        DealtStays(tr, i, k, p);
      }
    }
  }

  lemma VisitStep(tr: seq<State>, k: nat)
    requires IsRun(tr) && k + 1 < |tr| && tr[k].pc.Visit? && tr[k + 1].pc.Visit?
    ensures tr[k + 1].pc.todo == tr[k].pc.todo || (|tr[k].pc.todo| > 0 && tr[k + 1].pc == NextPid(tr[k].pc))
  {
    var step := StepOf(tr, k);
    match step
    case Work(w) => WorkKeepsPc(tr[k], w);
    case Loop(l) =>
  }

  /** Up to the deletion every pid of the snapshot is a row. */
  lemma {:induction false} PassRun(tr: seq<State>, i: nat, j: nat, k: nat, p: Pid)
    requires IsRun(tr) && IsPass(tr, i, j) && i <= k < j && p in tr[i].pc.todo
    ensures PassAt(tr, i, k, p)
    decreases k - i
  {
    if k == i {
      InvRun(tr, i);
      SnapshotLooks(tr, i);
    } else {
      PassRun(tr, i, j, k - 1, p);
      StillThere(tr, i, k, p);
      PassStep(tr, i, k - 1, p);
    }
  }

  lemma SnapshotLooks(tr: seq<State>, i: nat)
    requires IsRun(tr) && 0 < i < |tr| && tr[i - 1].pc.Clocked? && tr[i].pc.Visit?
    ensures tr[i].pc.stage.Look?
  {
    var step := StepOf(tr, i - 1);
    match step
    case Work(w) => WorkKeepsPc(tr[i - 1], w);
    case Loop(l) =>
  }

  /** Rows are deleted at the end of a pass only. */
  lemma StillThere(tr: seq<State>, i: nat, k: nat, p: Pid)
    requires IsRun(tr) && i < k < |tr| && LeavingFrom(tr, p, i, k - 1) && tr[k].pc.Visit?
    ensures LeavingFrom(tr, p, i, k)
  {
    var step := StepOf(tr, k - 1);
    RowStep(tr[k - 1], step, p);
  }

  /** Progress of a pass, whatever other threads do meanwhile: every pid of the snapshot is deleted
      at its end, or its measure is lower than at its start, or the thread found its timer not
      expired. A row met in state EXIT is deleted unless its holder used up a state write. */
  lemma PassLowersOrWaits(tr: seq<State>, i: nat, j: nat, p: Pid)
    requires IsRun(tr) && IsPass(tr, i, j) && p in tr[i].pc.todo
    ensures p in tr[i].rows
    ensures || p !in tr[j].rows
            || Measure(tr[j], p) < Measure(tr[i], p)
            || exists n :: i <= n < j && FindsTimer(tr[n], p)
  {
    hide AfterWork, AfterLoop, TimeInv;
    PassRun(tr, i, j, j - 1, p);
    LastIsWeed(tr, j);
    if p in tr[j].rows && !Waited(tr, i, j - 1, p) {
      NextDescends(tr, p, i, j);
      assert tr[j].rows[p].state != Exit && !Current(tr[j].pc, p);
    }
  }

  lemma LastIsWeed(tr: seq<State>, j: nat)
    requires IsRun(tr) && 0 < j < |tr| && tr[j - 1].pc.Visit? && tr[j].pc.Measuring?
    ensures tr[j - 1].pc.todo == [] && tr[j].rows == RemoveExited(tr[j - 1].rows)
  {
    var step := StepOf(tr, j - 1);
    match step
    case Work(w) => WorkKeepsPc(tr[j - 1], w);
    case Loop(l) =>
  }

  // Many passes.

  datatype Span = Span(from: nat, to: nat)

  /** A list of passes, one after the other, in none of which the timer of p had to be waited for. */
  ghost predicate BusyPasses(tr: seq<State>, p: Pid, spans: seq<Span>) {
    && (forall k :: 0 <= k < |spans| ==>
          && IsPass(tr, spans[k].from, spans[k].to)
          && forall n :: spans[k].from <= n < spans[k].to ==> !FindsTimer(tr[n], p))
    && (forall k :: 0 < k < |spans| ==> spans[k - 1].to <= spans[k].from)
  }

  /** A snapshot holds every row of the shutdown list. */
  lemma SnapshotHasAll(tr: seq<State>, i: nat, p: Pid)
    requires IsRun(tr) && 0 < i < |tr| && tr[i - 1].pc.Clocked? && tr[i].pc.Visit? && InShutdown(tr[i].rows, p)
    ensures p in tr[i].pc.todo
  {
    var step := StepOf(tr, i - 1);
    match step
    case Work(w) => WorkKeepsPc(tr[i - 1], w);
    case Loop(l) =>
  }

  /** Every such pass over a row that is not deleted lowers its measure by one at least. */
  lemma {:induction false} BusyPassesDescend(tr: seq<State>, p: Pid, spans: seq<Span>)
    requires IsRun(tr) && |spans| > 0 && BusyPasses(tr, p, spans)
    requires LeavingFrom(tr, p, spans[0].from, spans[|spans| - 1].to)
    ensures Measure(tr[spans[|spans| - 1].to], p) + |spans| <= Measure(tr[spans[0].from], p)
    decreases |spans|
  {
    hide Measure, FindsTimer, AfterWork, AfterLoop, Next, Inv;
    var n := |spans| - 1;
    var start, last := spans[0].from, spans[n];
    if n > 0 {
      SpansAscend(tr, p, spans, n);
      BusyPassesDescend(tr, p, spans[..n]);
      StaysInShutdown(tr, p, start, spans[n - 1].to);
      RunDescends(tr, p, spans[n - 1].to, last.from);
    }
    StaysInShutdown(tr, p, start, last.from);
    SnapshotHasAll(tr, last.from, p);
    PassLowersOrWaits(tr, last.from, last.to, p);
  }

  lemma {:induction false} SpansAscend(tr: seq<State>, p: Pid, spans: seq<Span>, n: nat)
    requires BusyPasses(tr, p, spans) && 0 < n < |spans|
    ensures spans[0].from < spans[n - 1].to <= spans[n].from
  {
    assert IsPass(tr, spans[n - 1].from, spans[n - 1].to);
    if n > 1 {
      SpansAscend(tr, p, spans, n - 1);
    }
  }

  /** Hence a row is deleted before the twelfth pass that does not wait for its timer, however the
      steps of other threads fall in between. */
  lemma PassesAreBounded(tr: seq<State>, p: Pid, spans: seq<Span>)
    requires IsRun(tr) && |spans| > 0 && BusyPasses(tr, p, spans)
    requires LeavingFrom(tr, p, spans[0].from, spans[|spans| - 1].to)
    ensures |spans| <= 4 * Writes(tr[spans[0].from].threads, p) + 3 <= 11
  {
    BusyPassesDescend(tr, p, spans);
  }
}
