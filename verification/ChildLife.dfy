/** The life of a child as the threads drive it through the database: brought up by its init thread
    (process_manager.c), retired by its connection thread, and taken down by a pass of the shutdown
    thread (qgis_shutdown_queue.c). Each method runs undisturbed; what other threads may do between
    its steps is the matter of the pool. */
module ChildLife {
  import opened Timer
  import opened ProcessTable
  import opened Pool
  import opened PoolSafety
  import opened ProcessDatabase

  ghost predicate Unheld(s: State, p: Pid) {
    forall t :: t in s.threads ==> !Holds(s.threads[t], p)
  }

  /** process_manager_start_new_process_wait for one child. Afterwards the child is there to be
      claimed, and after an exchange every child that was active before is in the shutdown list. */
  method BringUp(db: Database, project: Project, pid: Pid, exchange: bool, ghost tid: Tid) returns (ok: bool)
    requires db.Valid() && tid !in db.pool.threads
    requires forall t :: t in db.pool.threads ==> !Mentions(db.pool.threads[t], pid)
    modifies db
    ensures db.Valid() && ok == (pid !in old(db.rows))
    ensures ok ==>
              && BroughtUp(old(db.rows), db.rows, project, pid, exchange) && Unheld(db.pool, pid)
              && db.pool.threads == old(db.pool).threads && db.pool.listChange
  {
    hide Reachable, MoveProject, BroughtUp;
    ok := Initialise(db, project, pid, tid);
    if ok {
      TwoMoves(old(db.rows), db.rows, project, pid);
      if exchange {
        MoveAndNotify(db, project, ActiveList, ShutdownList, tid);
      }
      MoveAndNotify(db, project, InitList, ActiveList, tid);
    }
  }

  /** The new child is ACTIVE and IDLE, and so is every other that was in the INIT list of the project.
      An exchange sends those that were ACTIVE to the shutdown list; without one they stay as they
      are. Nothing else changes. */
  ghost predicate BroughtUp(was: Table, now: Table, project: Project, pid: Pid, exchange: bool) {
    && now.Keys == was.Keys + {pid} && now[pid] == Row(project, ActiveList, Idle, ZERO)
    && (forall p :: p in was && was[p].project == project && was[p].list == InitList ==>
                      now[p] == was[p].(list := ActiveList))
    && (forall p :: p in was && was[p].project == project && was[p].list == ActiveList ==>
                      now[p] == if exchange then was[p].(list := ShutdownList) else was[p])
    && (forall p :: p in was && (was[p].project != project || was[p].list == ShutdownList) ==> now[p] == was[p])
  }

  lemma TwoMoves(was: Table, ready: Table, project: Project, pid: Pid)
    requires pid !in was && ready == was[pid := Row(project, InitList, Idle, ZERO)]
    ensures BroughtUp(was, MoveProject(ready, project, InitList, ActiveList), project, pid, false)
    ensures BroughtUp(was, MoveProject(MoveProject(ready, project, ActiveList, ShutdownList), project, InitList, ActiveList), project, pid, true)
  {
  }

  /** The state writes of the init thread. */
  method Initialise(db: Database, project: Project, pid: Pid, ghost tid: Tid) returns (ok: bool)
    requires db.Valid() && tid !in db.pool.threads
    requires forall t :: t in db.pool.threads ==> !Mentions(db.pool.threads[t], pid)
    modifies db
    ensures db.Valid() && ok == (pid !in old(db.rows)) && db.pool.threads == old(db.pool).threads
    ensures db.rows == if ok then old(db.rows)[pid := Row(project, InitList, Idle, ZERO)] else old(db.rows)
  {
    hide Reachable;
    ok := db.AddProcess(project, pid, tid);
    if ok {
      db.SetStateInit(pid, tid);
      db.SetStateIdle(pid, tid);
      assert db.pool.threads == old(db.pool).threads;
    }
  }

  /** A move of all children of a project, and the notification that follows it */
  method MoveAndNotify(db: Database, project: Project, from: ListId, to: ListId, ghost tid: Tid)
    requires db.Valid() && tid !in db.pool.threads && LegalMove(from, to)
    modifies db
    ensures db.Valid() && db.rows == MoveProject(old(db.rows), project, from, to)
    ensures db.pool.threads == old(db.pool).threads && db.pool.listChange
  {
    hide Reachable;
    db.MoveAllOf(project, from, to, tid);
    db.Elsewhere(Work(Notify(tid)));
    assert db.pool.threads == old(db.pool).threads;
  }

  /** qgis_shutdown_add_process by a connection thread whose child failed: nobody holds the child, it
      is in the shutdown list, and the shutdown thread knows. */
  method Retire(db: Database, pid: Pid, ghost tid: Tid)
    requires db.Valid() && tid in db.pool.threads && db.pool.threads[tid] == Serving(pid)
    modifies db
    ensures db.Valid() && Unheld(db.pool, pid) && db.pool.listChange && tid !in db.pool.threads
    ensures db.rows == if pid in old(db.rows) then old(db.rows)[pid := old(db.rows)[pid].(list := ShutdownList)] else old(db.rows)
  {
    hide Reachable;
    ReachableInv(db.pool);
    db.Elsewhere(Work(GiveUp(tid)));
    db.MoveToShutdown(pid, tid);
    db.Elsewhere(Work(Notify(tid)));
  }

  /** process_manager_restart_process on the SIGCHLD path: a child found dead is moved, whoever holds
      it, and the shutdown thread is notified. */
  method Bury(db: Database, pid: Pid, ghost tid: Tid)
    requires db.Valid() && tid !in db.pool.threads
    modifies db
    ensures db.Valid() && db.pool.listChange && db.pool.threads == old(db.pool).threads
    ensures db.rows == if pid in old(db.rows) then old(db.rows)[pid := old(db.rows)[pid].(list := ShutdownList)] else old(db.rows)
  {
    hide Reachable;
    db.Elsewhere(Work(Reap(tid, pid)));
    db.MoveToShutdown(pid, tid);
    db.Elsewhere(Work(Notify(tid)));
    assert db.pool.threads == old(db.pool).threads;
  }

  /** What a pass makes of a row: TERM for a live child, KILL and then EXIT once the timeout has
      passed, EXIT at once when kill() finds no process. */
  function Escalated(row: Row, r: Round, now: Timespec, found: bool): Row {
    var expired := IsGreater(r.start, Add(row.signal, r.timeout));
    if Alive(row.state) then
      if found then row.(state := Term, signal := now) else row.(state := Exit)
    else if row.state == Exit || !expired then row
    else if row.state == Term && found then row.(state := Kill, signal := now)
    else row.(state := Exit)
  }

  /** Stage by stage, in terms of instants. A child at work is not spared. */
  lemma Stages(row: Row, r: Round, now: Timespec, found: bool)
    requires Normalised(r.start) && Normalised(row.signal) && Normalised(r.timeout)
    ensures var row' := Escalated(row, r, now, found);
            var late := Nanos(r.start) > Nanos(row.signal) + Nanos(r.timeout);
            match row.state
            case Term => row' == if !late then row else if found then row.(state := Kill, signal := now) else row.(state := Exit)
            case Kill => row' == if late then row.(state := Exit) else row
            case Exit => row' == row
            case _ => row' == if found then row.(state := Term, signal := now) else row.(state := Exit)
  {
    AddIsNanosAddition(row.signal, r.timeout);
    GreaterIffLater(r.start, Add(row.signal, r.timeout));
  }

  /** The body of the loop over the snapshot, for one pid. The row is there: the branch for an unknown
      process is dead. */
  method VisitPid(db: Database, pid: Pid, r: Round, now: Timespec, found: bool, ghost rest: seq<Pid>)
    requires db.Valid() && db.pool.pc == Visit(r, [pid] + rest, Look) && db.pool.now == now
    modifies db
    ensures db.Valid() && db.pool.pc == Visit(r, rest, Look) && db.pool.now == now
    ensures pid in old(db.rows) && db.rows == old(db.rows)[pid := Escalated(old(db.rows)[pid], r, now, found)]
  {
    ReachableInv(db.pool);
    assert pid in db.pool.pc.todo;
    var row := db.rows[pid];
    db.Elsewhere(Loop(ReadState));
    if Alive(row.state) {
      SignalPid(db, pid, SigTerm, r, now, found, rest);
    } else if row.state != Exit {
      var expired := IsGreater(r.start, Add(row.signal, r.timeout));
      db.Elsewhere(Loop(CheckTimer(expired)));
      if expired {
        if row.state == Term {
          SignalPid(db, pid, SigKill, r, now, found, rest);
        } else {
          db.UpdateState(pid, Exit, Loop(MarkExit));
        }
      }
    }
  }

  /** kill(), and the state and time it leads to */
  method SignalPid(db: Database, pid: Pid, sig: Signal, r: Round, now: Timespec, found: bool, ghost rest: seq<Pid>)
    requires db.Valid() && db.pool.pc == Visit(r, [pid] + rest, Signalling(sig)) && db.pool.now == now && pid in db.rows
    modifies db
    ensures db.Valid() && db.pool.pc == Visit(r, rest, Look) && db.pool.now == now
    ensures db.rows == old(db.rows)[pid := if found then old(db.rows)[pid].(state := if sig == SigTerm then Term else Kill, signal := now)
                                           else old(db.rows)[pid].(state := Exit)]
  {
    hide Reachable;
    db.Elsewhere(Loop(SendSignal(found)));
    if found {
      MarkAndStamp(db, pid, sig, r, now, rest);
    } else {
      db.UpdateState(pid, Exit, Loop(MarkExit));
    }
  }

  method MarkAndStamp(db: Database, pid: Pid, sig: Signal, r: Round, now: Timespec, ghost rest: seq<Pid>)
    requires db.Valid() && db.pool.pc == Visit(r, [pid] + rest, Marking(sig)) && db.pool.now == now && pid in db.rows
    modifies db
    ensures db.Valid() && db.pool.pc == Visit(r, rest, Look) && db.pool.now == now
    ensures db.rows == old(db.rows)[pid := old(db.rows)[pid].(state := if sig == SigTerm then Term else Kill, signal := now)]
  {
    hide Reachable;
    db.UpdateState(pid, if sig == SigTerm then Term else Kill, Loop(MarkState));
    db.Elsewhere(Loop(Stamp));
    db.ResetSignalTimer(pid, now);
  }

  // A whole pass.

  /** The table after a pass over the shutdown list, before the exited rows are deleted. */
  ghost function AfterPass(rows: Table, r: Round, now: Timespec, found: Pid -> bool): Table {
    map p | p in rows :: if InShutdown(rows, p) then Escalated(rows[p], r, now, found(p)) else rows[p]
  }

  /** The first i pids are done. */
  ghost predicate DoneSoFar(was: Table, rows: Table, pids: seq<Pid>, i: nat, r: Round, now: Timespec, found: Pid -> bool)
    requires i <= |pids|
  {
    && rows.Keys == was.Keys
    && forall p :: p in was ==> rows[p] == if p in pids[..i] then Escalated(was[p], r, now, found(p)) else was[p]
  }

  lemma DoneNext(was: Table, rows: Table, pids: seq<Pid>, i: nat, r: Round, now: Timespec, found: Pid -> bool)
    requires i < |pids| && Distinct(pids) && DoneSoFar(was, rows, pids, i, r, now, found) && pids[i] in rows
    ensures DoneSoFar(was, rows[pids[i] := Escalated(rows[pids[i]], r, now, found(pids[i]))], pids, i + 1, r, now, found)
  {
    assert pids[..i + 1] == pids[..i] + [pids[i]];
    assert pids[i] !in pids[..i];
  }

  lemma AllDone(was: Table, rows: Table, pids: seq<Pid>, r: Round, now: Timespec, found: Pid -> bool)
    requires ListsShutdown(was, pids) && DoneSoFar(was, rows, pids, |pids|, r, now, found)
    ensures rows == AfterPass(was, r, now, found)
  {
    assert pids[..|pids|] == pids;
  }

  /** One pass of the shutdown thread, undisturbed: every row of the shutdown list moves on by one
      stage, no other row changes, and the exited rows are deleted. */
  method Pass(db: Database, pids: seq<Pid>, now: Timespec, timeout: Timespec, found: Pid -> bool)
    requires db.Valid() && db.pool.pc == Top && db.pool.now == now
    requires ListsShutdown(db.rows, pids) && timeout.sec >= 0 && timeout.nsec == 0
    modifies db
    ensures db.Valid() && db.pool.pc == Measuring(timeout)
    ensures db.rows == RemoveExited(AfterPass(old(db.rows), Round(now, timeout), now, found))
  {
    hide Reachable, AfterPass, Escalated;
    var r := Round(now, timeout);
    db.Elsewhere(Loop(ReadClock));
    db.Elsewhere(Loop(Snapshot(pids, timeout)));
    var i := 0;
    while i < |pids|
      invariant 0 <= i <= |pids| && db.Valid()
      invariant db.pool.pc == Visit(r, pids[i..], Look) && db.pool.now == now
      invariant DoneSoFar(old(db.rows), db.rows, pids, i, r, now, found)
    {
      assert pids[i..] == [pids[i]] + pids[i + 1..];
      ghost var was := db.rows;
      VisitPid(db, pids[i], r, now, found(pids[i]), pids[i + 1..]);
      DoneNext(old(db.rows), was, pids, i, r, now, found);
      i := i + 1;
    }
    AllDone(old(db.rows), db.rows, pids, r, now, found);
    db.RemoveWithStateExit();
  }
}
