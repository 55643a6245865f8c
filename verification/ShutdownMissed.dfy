/** A terminated child the shutdown thread forgets: its signal time is a whole second, which the
    search for the earliest signal time skips. */
module ShutdownMissed {
  import opened Timer
  import opened ProcessTable
  import opened Pool
  import opened PoolSafety

  lemma ReachWork(s: State, step: WorkerStep, s': State)
    requires Reachable(s) && WorkEnabled(s, step) && s' == AfterWork(s, step)
    ensures Reachable(s')
  {
    Reach(s, Work(step));
  }

  lemma ReachLoop(s: State, step: LoopStep, s': State)
    requires Reachable(s) && LoopEnabled(s, step) && s' == AfterLoop(s, step)
    ensures Reachable(s')
  {
    Reach(s, Loop(step));
  }

  const NOW := Timespec(5, 0)
  const TIMEOUT := Timespec(10, 0)

  /** The rows of the one child of the run. */
  const READY := Row("p", InitList, Idle, ZERO)
  const LEAVING := READY.(list := ShutdownList)
  const FORGOTTEN := LEAVING.(state := Term, signal := NOW)

  function At5(rows: Table, threads: map<Tid, Worker>, listChange: bool, pc: Pc, log: seq<Event>, unseen: map<Pid, Tid>): State {
    State(rows, threads, listChange, false, pc, NOW, log, unseen)
  }

  /** The shutdown thread finds nothing to do and is about to test the flags. */
  lemma FirstPass() returns (s: State)
    ensures Reachable(s) && s == At5(map[], map[], false, Locking(TIMEOUT, ZERO), [], map[])
  {
    hide Reachable;
    var s3 := FirstVisit();
    var s4 := s3.(pc := Measuring(TIMEOUT));
    assert RemoveExited(s3.rows) == map[] && LoopUnseen(s3, Weed) == map[];
    ReachLoop(s3, Weed, s4);
    s := s4.(pc := Locking(TIMEOUT, ZERO));
    ReachLoop(s4, ReadMinTimer(ZERO), s);
  }

  lemma FirstVisit() returns (s: State)
    ensures Reachable(s) && s == At5(map[], map[], false, Visit(Round(NOW, TIMEOUT), [], Look), [], map[])
  {
    hide Reachable;
    ReachInitial();
    var s1 := INITIAL.(now := NOW);
    ReachWork(INITIAL, Tick(NOW), s1);
    var s2 := s1.(pc := Clocked(NOW));
    ReachLoop(s1, ReadClock, s2);
    s := s2.(pc := Visit(Round(NOW, TIMEOUT), [], Look));
    ReachLoop(s2, Snapshot([], TIMEOUT), s);
  }

  /** Meanwhile a child is started and initialised. */
  lemma ChildReady(s0: State) returns (s: State)
    requires Reachable(s0) && s0 == At5(map[], map[], false, Locking(TIMEOUT, ZERO), [], map[])
    ensures Reachable(s) && s == s0.(rows := map[7 := READY])
  {
    hide Reachable;
    var s1 := s0.(rows := map[7 := READY.(state := Start)], threads := map[0 := Started(7)]);
    ReachWork(s0, StartChild(0, 7, "p"), s1);
    var s2 := s0.(rows := map[7 := READY.(state := Init)], threads := map[0 := Initialising(7)]);
    assert SetState(s1.rows, 7, Init) == s2.rows;
    ReachWork(s1, InitBegin(0), s2);
    s := s0.(rows := map[7 := READY]);
    assert SetState(s2.rows, 7, Idle) == s.rows && Free(s2.threads, 0) == map[];
    ReachWork(s2, InitIdle(0), s);
  }

  const SHUTDOWN_PROJECT := MoveAll(1, "p", InitList, ShutdownList)

  lemma TheMove(s0: State)
    requires s0 == At5(map[7 := READY], map[], false, Locking(TIMEOUT, ZERO), [], map[])
    ensures WorkEnabled(s0, SHUTDOWN_PROJECT)
    ensures WorkRows(s0, SHUTDOWN_PROJECT) == map[7 := LEAVING]
    ensures WorkUnseen(s0, SHUTDOWN_PROJECT) == map[7 := 1]
    ensures WorkThreads(s0, SHUTDOWN_PROJECT) == map[1 := Notifying]
  {
  }

  /** Its project is shut down, and the shutdown thread told so. */
  lemma ChildMoved(s0: State) returns (s: State)
    requires Reachable(s0) && s0 == At5(map[7 := READY], map[], false, Locking(TIMEOUT, ZERO), [], map[])
    ensures Reachable(s) && s == s0.(rows := map[7 := LEAVING], listChange := true, unseen := map[7 := 1])
  {
    hide Reachable, WorkRows, WorkUnseen;
    TheMove(s0);
    var s1 := s0.(rows := map[7 := LEAVING], threads := map[1 := Notifying], unseen := map[7 := 1]);
    ReachWork(s0, SHUTDOWN_PROJECT, s1);
    s := ChildAnnounced(s1);
  }

  lemma ChildAnnounced(s1: State) returns (s: State)
    requires Reachable(s1) && s1.threads == map[1 := Notifying] && !s1.pc.Waiting?
    ensures Reachable(s) && s == s1.(threads := map[], listChange := true)
  {
    hide Reachable;
    s := s1.(threads := map[], listChange := true);
    assert Free(s1.threads, 1) == map[];
    ReachWork(s1, Notify(1), s);
  }

  /** It sees the flag, starts a pass and reads the state of the child. */
  lemma ChildSeen(s0: State) returns (s: State)
    requires Reachable(s0)
    requires s0 == At5(map[7 := LEAVING], map[], true, Locking(TIMEOUT, ZERO), [], map[7 := 1])
    ensures Reachable(s)
    ensures s == At5(map[7 := LEAVING], map[], false, Visit(Round(NOW, TIMEOUT), [7], Signalling(SigTerm)), [], map[])
  {
    hide Reachable;
    var s1 := s0.(listChange := false, pc := Counting(false));
    ReachLoop(s0, LockAndTest, s1);
    var s2 := s1.(pc := Top);
    ReachLoop(s1, Count, s2);
    var s3 := s2.(pc := Clocked(NOW));
    ReachLoop(s2, ReadClock, s3);
    var s4 := s3.(pc := Visit(Round(NOW, TIMEOUT), [7], Look), unseen := map[]);
    assert ListsShutdown(s3.rows, [7]);
    ReachLoop(s3, Snapshot([7], TIMEOUT), s4);
    s := s4.(pc := Visit(Round(NOW, TIMEOUT), [7], Signalling(SigTerm)));
    ReachLoop(s4, ReadState, s);
  }

  /** It sends SIGTERM and notes the time. */
  lemma ChildSignalled(s0: State) returns (s: State)
    requires Reachable(s0)
    requires s0 == At5(map[7 := LEAVING], map[], false, Visit(Round(NOW, TIMEOUT), [7], Signalling(SigTerm)), [], map[])
    ensures Reachable(s)
    ensures s == At5(map[7 := FORGOTTEN], map[], false, Visit(Round(NOW, TIMEOUT), [], Look), s.log, map[])
  {
    hide Reachable;
    var r := Round(NOW, TIMEOUT);
    var s1 := s0.(pc := Visit(r, [7], Marking(SigTerm)), log := [Sent(7, SigTerm, true, NOW, TIMEOUT)]);
    ReachLoop(s0, SendSignal(true), s1);
    var s2 := s1.(pc := Visit(r, [7], Stamping(SigTerm)), rows := map[7 := LEAVING.(state := Term)]);
    assert SetState(s1.rows, 7, Term) == s2.rows;
    ReachLoop(s1, MarkState, s2);
    var s3 := s2.(pc := Visit(r, [7], Writing(SigTerm, NOW)));
    ReachLoop(s2, Stamp, s3);
    s := s3.(pc := Visit(r, [], Look), rows := map[7 := FORGOTTEN]);
    assert s3.pc.todo[1..] == [] && SetSignal(s3.rows, 7, NOW) == s.rows;
    ReachLoop(s3, WriteStamp, s);
  }

  /** It finds no signal time to wait for. */
  lemma BackToWaiting(s0: State) returns (s: State)
    requires Reachable(s0)
    requires s0 == At5(map[7 := FORGOTTEN], map[], false, Visit(Round(NOW, TIMEOUT), [], Look), s0.log, map[])
    ensures Reachable(s) && s == s0.(pc := Waiting(TIMEOUT, ZERO, Never))
  {
    hide Reachable;
    var s1 := s0.(pc := Measuring(TIMEOUT));
    assert RemoveExited(s0.rows) == s0.rows && LoopUnseen(s0, Weed) == map[];
    ReachLoop(s0, Weed, s1);
    var s2 := s1.(pc := Locking(TIMEOUT, ZERO));
    ReachLoop(s1, ReadMinTimer(ZERO), s2);
    s := s2.(pc := Waiting(TIMEOUT, ZERO, Never));
    ReachLoop(s2, LockAndTest, s);
  }

  /** Row p is in the shutdown list, nobody is about to write it, and the shutdown thread waits
      without a deadline. */
  ghost predicate LeftBehind(s: State, p: Pid, row: Row) {
    && p in s.rows && s.rows[p] == row && row.list == ShutdownList
    && (forall t :: t in s.threads ==> !Holds(s.threads[t], p))
    && s.pc.Waiting? && s.pc.until.Never?
  }

  /** A run on which a terminated child is left behind: SIGTERM was sent at second 5 exactly, no
      other thread is left, nothing is unseen, and the timeout of 10 seconds will pass unnoticed. */
  lemma WholeSecondIsMissed() returns (s: State)
    ensures Reachable(s) && LeftBehind(s, 7, FORGOTTEN) && s.pc.timeout == TIMEOUT
    ensures s.threads == map[] && s.unseen == map[] && !s.listChange && !s.doShutdown
  {
    var s1 := FirstPass();
    var s2 := ChildReady(s1);
    var s3 := ChildMoved(s2);
    var s4 := ChildSeen(s3);
    var s5 := ChildSignalled(s4);
    s := BackToWaiting(s5);
  }

  /** The steps that can end a wait without a deadline: a spurious wake-up, a notification about
      some other row, a request to stop. */
  predicate Disturbs(step: Step) {
    step == Loop(Wake) || (step.Work? && (step.w.Notify? || step.w.RequestStop?))
  }

  lemma LeftBehindStep(s: State, step: Step, p: Pid, row: Row)
    requires LeftBehind(s, p, row) && Enabled(s, step)
    ensures LeftBehind(Apply(s, step), p, row) <==> !Disturbs(step)
  {
  }

  ghost predicate Undisturbed(tr: seq<State>, i: nat) {
    i + 1 < |tr| && exists step :: Enabled(tr[i], step) && tr[i + 1] == Apply(tr[i], step) && !Disturbs(step)
  }

  /** However much time passes and whatever else happens, the row stays as it is until one of
      these steps. */
  lemma {:induction false} StaysLeftBehind(tr: seq<State>, p: Pid, row: Row, i: nat)
    requires i < |tr| && LeftBehind(tr[0], p, row)
    requires forall k: nat :: k < i ==> Undisturbed(tr, k)
    ensures LeftBehind(tr[i], p, row)
    decreases i
  {
    if i > 0 {
      StaysLeftBehind(tr, p, row, i - 1);
      assert Undisturbed(tr, i - 1);
      var step :| Enabled(tr[i - 1], step) && tr[i] == Apply(tr[i - 1], step) && !Disturbs(step);
      LeftBehindStep(tr[i - 1], step, p, row);
    }
  }
}
