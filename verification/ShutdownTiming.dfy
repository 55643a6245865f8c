/** Escalation timing: no SIGKILL, and no giving up, before the timeout has passed. */
module ShutdownTiming {
  import opened Options
  import opened Timer
  import opened ProcessTable
  import opened Pool
  import opened PoolSafety
  import ShutdownWakeup

  /** When signal sig was last sent to p. */
  function LastSent(log: seq<Event>, p: Pid, sig: Signal): Option<Timespec> {
    if log == [] then None
    else
      var e := log[|log| - 1];
      if e.Sent? && e.pid == p && e.sig == sig then Some(e.at) else LastSent(log[..|log| - 1], p, sig)
  }

  /** sig was sent to p, and for the last time at or before the given instant. */
  predicate SentBy(log: seq<Event>, p: Pid, sig: Signal, limit: int) {
    LastSent(log, p, sig).Some? && Nanos(LastSent(log, p, sig).value) <= limit
  }

  /** Event e, after the events prev, kept the timeout of its pass. */
  predicate Timely(prev: seq<Event>, e: Event) {
    var limit := Nanos(e.at) - Nanos(e.timeout) - 1;
    match e
    case Sent(p, SigTerm, _, _, _) => true
    case Sent(p, SigKill, _, _, _) => SentBy(prev, p, SigTerm, limit)
    case GaveUp(p, _, _) => SentBy(prev, p, SigKill, limit)
  }

  ghost predicate TimelyLog(log: seq<Event>) {
    forall i :: 0 <= i < |log| ==> Timely(log[..i], log[i])
  }

  function SignalOf(st: ProcState): Signal {
    if st == Term then SigTerm else SigKill
  }

  function MarkOf(sig: Signal): ProcState {
    if sig == SigTerm then Term else Kill
  }

  /** A row marked Term or Kill carries a signal time no earlier than that signal, except between
      the two updates that write the mark and the time. */
  predicate RowTimed(s: State, p: Pid)
    requires p in s.rows
  {
    var row := s.rows[p];
    (row.state == Term || row.state == Kill)
    && !(Current(s.pc, p) && (s.pc.stage.Stamping? || s.pc.stage.Writing?))
    ==> SentBy(s.log, p, SignalOf(row.state), Nanos(row.signal))
  }

  /** What the shutdown thread knows about the pid in hand. */
  predicate StageTimed(s: State)
    requires s.pc.Visit? && |s.pc.todo| > 0 && s.pc.todo[0] in s.rows
  {
    var p := s.pc.todo[0];
    var st := s.rows[p].state;
    match s.pc.stage
    case Look => true
    case Timing(read) =>
      (read == Term || read == Kill) && (Alive(st) || st == read)
      && SentBy(s.log, p, SignalOf(read), Nanos(s.rows[p].signal))
    case Signalling(SigTerm) => Alive(st)
    case Signalling(SigKill) =>
      (Alive(st) || st == Term) && SentBy(s.log, p, SigTerm, Nanos(s.pc.r.start) - Nanos(s.pc.r.timeout) - 1)
    case Marking(sig) => (Alive(st) || (sig == SigKill && st == Term)) && SentBy(s.log, p, sig, Nanos(s.now))
    case Stamping(sig) => (Alive(st) || st == MarkOf(sig)) && SentBy(s.log, p, sig, Nanos(s.now))
    case Writing(sig, at) => (Alive(st) || st == MarkOf(sig)) && SentBy(s.log, p, sig, Nanos(at))
    case Exiting => true
  }

  ghost predicate TimeInv(s: State) {
    && ShutdownWakeup.DeadlineInv(s)
    && (s.pc.Clocked? ==> Normalised(s.pc.start) && Nanos(s.pc.start) <= Nanos(s.now))
    && (s.pc.Visit? ==> Normalised(s.pc.r.start) && Nanos(s.pc.r.start) <= Nanos(s.now))
    && (forall p :: p in s.rows ==> RowTimed(s, p))
    && (s.pc.Visit? && |s.pc.todo| > 0 ==> s.pc.todo[0] in s.rows && StageTimed(s))
    && TimelyLog(s.log)
  }

  /** Other threads write only states in which a child is alive. */
  lemma WorkStates(s: State, step: WorkerStep, p: Pid)
    requires WorkEnabled(s, step) && p in s.rows
    ensures p in AfterWork(s, step).rows
    ensures var row, row' := s.rows[p], AfterWork(s, step).rows[p];
            row'.signal == row.signal && (row'.state == row.state || Alive(row'.state))
    ensures Nanos(s.now) <= Nanos(AfterWork(s, step).now)
  {
  }

  lemma WorkTime(s: State, step: WorkerStep)
    requires TimeInv(s) && WorkEnabled(s, step)
    ensures TimeInv(AfterWork(s, step))
  {
    var s' := AfterWork(s, step);
    ShutdownWakeup.WorkDeadline(s, step);
    WorkKeepsPc(s, step);
    assert Nanos(s.now) <= Nanos(s'.now);
    forall p | p in s'.rows
      ensures RowTimed(s', p)
    {
      if p in s.rows {
        WorkStates(s, step, p);
        assert RowTimed(s, p);
      } else {
        WorkNewRow(s, step, p);
      }
    }
    if s'.pc.Visit? && |s'.pc.todo| > 0 {
      WorkStates(s, step, s.pc.todo[0]);
    }
  }

  lemma AppendTimely(log: seq<Event>, e: Event)
    requires TimelyLog(log) && Timely(log, e)
    ensures TimelyLog(log + [e])
  {
    var log' := log + [e];
    forall i | 0 <= i < |log'|
      ensures Timely(log'[..i], log'[i])
    {
      assert log'[..i] == if i < |log| then log[..i] else log;
    }
  }

  lemma LastSentAppend(log: seq<Event>, e: Event, p: Pid, sig: Signal)
    ensures LastSent(log + [e], p, sig) ==
            if e.Sent? && e.pid == p && e.sig == sig then Some(e.at) else LastSent(log, p, sig)
  {
    assert (log + [e])[..|log|] == log;
  }

  /** An expired timer is later than the signal it counts from, by more than the timeout. */
  lemma ExpiredIsLate(s: State, p: Pid, sig: Signal)
    requires TimeInv(s) && s.pc.Visit? && p in s.rows && Expired(s.rows, s.pc.r, p)
    requires SentBy(s.log, p, sig, Nanos(s.rows[p].signal))
    ensures SentBy(s.log, p, sig, Nanos(s.pc.r.start) - Nanos(s.pc.r.timeout) - 1)
  {
    AddIsNanosAddition(s.rows[p].signal, s.pc.r.timeout);
    GreaterIffLater(s.pc.r.start, Add(s.rows[p].signal, s.pc.r.timeout));
  }

  lemma CheckTimerTime(s: State, expired: bool)
    requires TimeInv(s) && SnapshotLive(s) && LoopEnabled(s, CheckTimer(expired))
    ensures TimeInv(AfterLoop(s, CheckTimer(expired)))
  {
    var s' := AfterLoop(s, CheckTimer(expired));
    var p, read := s.pc.todo[0], s.pc.stage.read;
    ShutdownWakeup.LoopDeadline(s, CheckTimer(expired));
    if Expired(s.rows, s.pc.r, p) {
      ExpiredIsLate(s, p, SignalOf(read));
      if read == Kill {
        GaveUpTime(s, s');
      } else {
        OnlyPcMoves(s, s');
      }
    } else {
      NextPidInRows(s, s');
      OnlyPcMoves(s, s');
    }
  }

  lemma OnlyPcMoves(s: State, s': State)
    requires forall p :: p in s.rows ==> RowTimed(s, p)
    requires s'.rows == s.rows && s'.log == s.log
    requires forall p :: Current(s.pc, p) ==> !s.pc.stage.Stamping? && !s.pc.stage.Writing?
    ensures forall p :: p in s'.rows ==> RowTimed(s', p)
  {
    forall p | p in s'.rows
      ensures RowTimed(s', p)
    {
      assert RowTimed(s, p);
    }
  }

  lemma GaveUpTime(s: State, s': State)
    requires TimeInv(s) && s.pc.Visit? && |s.pc.todo| > 0 && s.pc.stage == Timing(Kill)
    requires s' == s.(pc := s.pc.(stage := Exiting), log := s.log + [GaveUp(s.pc.todo[0], s.now, s.pc.r.timeout)])
    requires SentBy(s.log, s.pc.todo[0], SigKill, Nanos(s.pc.r.start) - Nanos(s.pc.r.timeout) - 1)
    ensures TimeInv(s')
  {
    var e := GaveUp(s.pc.todo[0], s.now, s.pc.r.timeout);
    AppendTimely(s.log, e);
    forall q | q in s'.rows
      ensures RowTimed(s', q)
    {
      assert RowTimed(s, q);
      LastSentAppend(s.log, e, q, SigTerm);
      LastSentAppend(s.log, e, q, SigKill);
    }
  }

  lemma SendSignalTime(s: State, ok: bool)
    requires TimeInv(s) && SnapshotLive(s) && LoopEnabled(s, SendSignal(ok))
    ensures TimeInv(AfterLoop(s, SendSignal(ok)))
  {
    var s' := AfterLoop(s, SendSignal(ok));
    var p, sig := s.pc.todo[0], s.pc.stage.sig;
    var e := Sent(p, sig, ok, s.now, s.pc.r.timeout);
    AppendTimely(s.log, e);
    forall q | q in s'.rows
      ensures RowTimed(s', q)
    {
      assert RowTimed(s, q);
      LastSentAppend(s.log, e, q, SigTerm);
      LastSentAppend(s.log, e, q, SigKill);
    }
    LastSentAppend(s.log, e, p, sig);
  }

  /** The pid after the one in hand is a row too. */
  lemma NextPidInRows(s: State, s': State)
    requires SnapshotLive(s) && s.pc.Visit? && |s.pc.todo| > 0
    requires s.rows.Keys == s'.rows.Keys
    ensures forall p :: p in s.pc.todo[1..] ==> p in s'.rows && p != s.pc.todo[0]
  {
    forall p | p in s.pc.todo[1..]
      ensures p in s'.rows && p != s.pc.todo[0]
    {
      var i :| 0 <= i < |s.pc.todo[1..]| && s.pc.todo[1..][i] == p;
      assert s.pc.todo[i + 1] == p;
      assert InShutdown(s.rows, p);
    }
  }

  lemma WriteTime(s: State, step: LoopStep)
    requires TimeInv(s) && SnapshotLive(s) && LoopEnabled(s, step)
    requires step.MarkState? || step.Stamp? || step.WriteStamp? || step.MarkExit?
    ensures TimeInv(AfterLoop(s, step))
  {
    var s' := AfterLoop(s, step);
    ShutdownWakeup.LoopDeadline(s, step);
    forall q | q in s'.rows
      ensures RowTimed(s', q)
    {
      assert RowTimed(s, q);
    }
    if |s.pc.todo| > 0 {
      NextPidInRows(s, s');
    }
  }

  lemma OtherLoopTime(s: State, step: LoopStep)
    requires TimeInv(s) && SnapshotLive(s) && LoopEnabled(s, step)
    requires !(step.CheckTimer? || step.SendSignal? || step.MarkState? || step.Stamp? || step.WriteStamp? || step.MarkExit?)
    ensures TimeInv(AfterLoop(s, step))
  {
    var s' := AfterLoop(s, step);
    ShutdownWakeup.LoopDeadline(s, step);
    forall q | q in s'.rows
      ensures RowTimed(s', q)
    {
      assert RowTimed(s, q);
    }
    if step.ReadState? {
      NextPidInRows(s, s');
    } else if step.Snapshot? && |s'.pc.todo| > 0 {
      assert InShutdown(s.rows, s'.pc.todo[0]);
    }
  }

  lemma {:induction false} TimeRun(tr: seq<State>, i: nat)
    requires IsRun(tr) && i < |tr|
    ensures TimeInv(tr[i])
    decreases i
  {
    hide AfterWork, AfterLoop;
    if i > 0 {
      TimeRun(tr, i - 1);
      InvRun(tr, i - 1);
      var step := StepOf(tr, i - 1);
      match step
      case Work(w) => WorkTime(tr[i - 1], w);
      case Loop(CheckTimer(expired)) => CheckTimerTime(tr[i - 1], expired);
      case Loop(SendSignal(ok)) => SendSignalTime(tr[i - 1], ok);
      case Loop(MarkState) => WriteTime(tr[i - 1], MarkState);
      case Loop(Stamp) => WriteTime(tr[i - 1], Stamp);
      case Loop(WriteStamp) => WriteTime(tr[i - 1], WriteStamp);
      case Loop(MarkExit) => WriteTime(tr[i - 1], MarkExit);
      case Loop(l) => OtherLoopTime(tr[i - 1], l);
    }
  }

  /** On every run: SIGKILL goes to a pid only strictly more than the timeout of that pass after
      the latest SIGTERM to it, and a killed row is given up only strictly more than the timeout
      after its latest SIGKILL. */
  lemma EscalationKeepsTimeout(tr: seq<State>, i: nat, k: nat)
    requires IsRun(tr) && i < |tr| && k < |tr[i].log|
    ensures var e, prev := tr[i].log[k], tr[i].log[..k];
            && (e.Sent? && e.sig == SigKill ==>
                  && LastSent(prev, e.pid, SigTerm).Some?
                  && Nanos(e.at) > Nanos(LastSent(prev, e.pid, SigTerm).value) + Nanos(e.timeout))
            && (e.GaveUp? ==>
                  && LastSent(prev, e.pid, SigKill).Some?
                  && Nanos(e.at) > Nanos(LastSent(prev, e.pid, SigKill).value) + Nanos(e.timeout))
  {
    TimeRun(tr, i);
    assert Timely(tr[i].log[..k], tr[i].log[k]);
  }
}
