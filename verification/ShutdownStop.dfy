/** How the shutdown thread ends (qgis_shutdown_queue.c): only on request, only with an empty
    shutdown list, and then for certain. */
module ShutdownStop {
  import opened Timer
  import opened ProcessTable
  import opened Pool
  import opened PoolSafety

  /** The thread has read the request to stop only if there was one. */
  predicate StopInv(s: State) {
    s.pc.Counting? && s.pc.stop ==> s.doShutdown
  }

  lemma StopStep(s: State, step: Step)
    requires StopInv(s) && Enabled(s, step)
    ensures StopInv(Apply(s, step))
    ensures s.doShutdown ==> Apply(s, step).doShutdown
  {
  }

  lemma {:induction false} StopRun(tr: seq<State>, i: nat)
    requires IsRun(tr) && i < |tr|
    ensures StopInv(tr[i])
    decreases i
  {
    if i > 0 {
      StopRun(tr, i - 1);
      var step := StepOf(tr, i - 1);
      StopStep(tr[i - 1], step);
    }
  }

  /** On every run the thread ends only after a request, and with no row in the shutdown list. */
  lemma EndsOnlyEmpty(tr: seq<State>, i: nat)
    requires IsRun(tr) && i + 1 < |tr| && !tr[i].pc.Done? && tr[i + 1].pc.Done?
    ensures tr[i].doShutdown && forall p :: !InShutdown(tr[i].rows, p)
  {
    StopRun(tr, i);
    var step := StepOf(tr, i);
    match step
    case Work(w) => WorkKeepsPc(tr[i], w);
    case Loop(l) =>
  }

  ghost predicate NobodyLeft(s: State) {
    forall p :: !InShutdown(s.rows, p)
  }

  /** Once a stop is requested the thread reads it whenever it comes to read the flags. */
  lemma {:induction false} StopIsRead(tr: seq<State>, i: nat, k: nat)
    requires IsStretch(tr) && i < k < |tr| && !tr[i].pc.Counting?
    requires WorkEnabled(tr[i], RequestStop) && tr[i + 1] == AfterWork(tr[i], RequestStop)
    ensures tr[k].doShutdown && (tr[k].pc.Counting? ==> tr[k].pc.stop)
    decreases k
  {
    if i + 1 < k {
      StopIsRead(tr, i, k - 1);
      var step := StepOf(tr, k - 1);
      match step
      case Work(w) => WorkKeepsPc(tr[k - 1], w);
      case Loop(l) =>
    }
  }

  /** After a request the first count of the shutdown list that finds it empty ends the thread; any
      other starts another pass. */
  lemma StopEnds(tr: seq<State>, i: nat, k: nat)
    requires IsStretch(tr) && i < k && k + 1 < |tr| && !tr[i].pc.Counting?
    requires WorkEnabled(tr[i], RequestStop) && tr[i + 1] == AfterWork(tr[i], RequestStop)
    requires tr[k].pc.Counting? && tr[k + 1].pc != tr[k].pc
    ensures tr[k + 1].pc == if NobodyLeft(tr[k]) then Done else Top
  {
    StopIsRead(tr, i, k);
    var step := StepOf(tr, k);
    match step
    case Work(w) => WorkKeepsPc(tr[k], w);
    case Loop(l) =>
  }

  /** Once it has ended nothing starts it again. */
  lemma DoneIsFinal(s: State, step: Step)
    requires s.pc.Done? && Enabled(s, step)
    ensures Apply(s, step).pc.Done?
  {
  }

  // Between two passes.

  /** The end of a pass, undisturbed: a notification that came meanwhile is taken and another pass
      follows, or the thread ends; without one it waits, until the earliest signal time plus the
      timeout, for 0.2 seconds if it is to stop, or for as long as nobody tells it anything. */
  lemma PassEnds(s: State, min: Timespec)
    requires LoopEnabled(s, ReadMinTimer(min))
    ensures var s1 := AfterLoop(s, ReadMinTimer(min));
            && LoopEnabled(s1, LockAndTest)
            && var s2 := AfterLoop(s1, LockAndTest);
               && s2.rows == s.rows && !s2.listChange
               && (s.listChange ==>
                     && LoopEnabled(s2, Count)
                     && AfterLoop(s2, Count).pc == if s.doShutdown && NobodyLeft(s) then Done else Top)
               && (!s.listChange ==> s2.pc.Waiting?)
    ensures !s.listChange ==>
              AfterLoop(AfterLoop(s, ReadMinTimer(min)), LockAndTest).pc.until ==
              if min.sec != 0 || min.nsec != 0 then At(Add(min, s.pc.timeout))
              else if s.doShutdown then At(Add(s.now, Timespec(0, 200_000_000)))
              else Never
  {
  }

  /** The end of a wait, undisturbed: the notification is taken, and another pass follows unless the
      thread ends. */
  lemma WaitEnds(s: State)
    requires s.pc.Waiting?
    ensures var s1 := AfterLoop(s, Wake);
            && LoopEnabled(s1, Resume)
            && var s2 := AfterLoop(s1, Resume);
               && LoopEnabled(s2, Count) && s2.rows == s.rows && !s2.listChange
               && AfterLoop(s2, Count).pc == if s.doShutdown && NobodyLeft(s) then Done else Top
  {
  }

  /** A notification, and a request to stop, end a wait. */
  lemma TellingWakes(s: State, step: WorkerStep)
    requires WorkEnabled(s, step) && s.pc.Waiting? && (step.Notify? || step.RequestStop?)
    ensures LoopEnabled(AfterWork(s, step), Resume)
    ensures step.Notify? ==> AfterWork(s, step).listChange
    ensures step.RequestStop? ==> AfterWork(s, step).doShutdown
  {
  }
}
