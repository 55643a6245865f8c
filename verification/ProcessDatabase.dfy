/** The database handle: the statements on table processes as calls that update it in place
    (database.c). */
module ProcessDatabase {
  import opened Timer
  import opened ProcessTable
  import opened Pool
  import opened PoolSafety

  /** The table, and the state of the pool it is part of. Every call is one critical section and
      one step of the pool, so the table is that of a reachable state, and what holds on every run
      holds of it. A call requires what its thread knows about itself. */
  class Database {
    var rows: Table
    ghost var pool: State

    ghost predicate Valid()
      reads this
    {
      Reachable(pool) && rows == pool.rows
    }

    constructor ()
      ensures Valid() && pool == INITIAL
    {
      rows := map[];
      pool := INITIAL;
      new;
      ReachInitial();
    }

    /** A step that does not touch the table. */
    ghost method Elsewhere(step: Step)
      requires Valid() && Enabled(pool, step) && Apply(pool, step).rows == pool.rows
      modifies this`pool
      ensures Valid() && pool == Apply(old(pool), step)
    {
      Reach(pool, step);
      pool := Apply(pool, step);
    }

    /** db_add_process; pid is UNIQUE, so inserting a known pid is an SQL error. */
    method AddProcess(project: Project, pid: Pid, ghost tid: Tid) returns (ok: bool)
      requires Valid() && tid !in pool.threads && forall t :: t in pool.threads ==> !Mentions(pool.threads[t], pid)
      modifies this
      ensures Valid() && ok == (pid !in old(rows))
      ensures pool == if ok then AfterWork(old(pool), StartChild(tid, pid, project)) else old(pool)
    {
      ok := pid !in rows;
      if ok {
        Reach(pool, Work(StartChild(tid, pid, project)));
        rows := rows[pid := Row(project, InitList, Start, ZERO)];
        pool := AfterWork(pool, StartChild(tid, pid, project));
      }
    }

    /** UPDATE ... SET state WHERE pid: no look at the present state. */
    method UpdateState(pid: Pid, st: ProcState, ghost step: Step)
      requires Valid() && Enabled(pool, step) && Apply(pool, step).rows == SetState(pool.rows, pid, st)
      modifies this
      ensures Valid() && pool == Apply(old(pool), step)
    {
      Reach(pool, step);
      if pid in rows {
        rows := rows[pid := rows[pid].(state := st)];
      }
      pool := Apply(pool, step);
    }

    /** db_process_set_state_init, by the init thread of the child */
    method SetStateInit(pid: Pid, ghost tid: Tid)
      requires Valid() && tid in pool.threads && pool.threads[tid] == Started(pid)
      modifies this
      ensures Valid() && pool == AfterWork(old(pool), InitBegin(tid))
    {
      UpdateState(pid, Init, Work(InitBegin(tid)));
    }

    /** db_process_set_state_idle, by the init thread or the connection thread of the child. Nobody
        holds the child afterwards, whatever the shutdown thread made of it meanwhile. */
    method SetStateIdle(pid: Pid, ghost tid: Tid)
      requires Valid() && tid in pool.threads
      requires pool.threads[tid] == Initialising(pid) || pool.threads[tid] == Serving(pid)
      modifies this
      ensures Valid() && rows == SetState(old(rows), pid, Idle)
      ensures pool == AfterWork(old(pool), if old(pool).threads[tid].Serving? then Release(tid) else InitIdle(tid))
      ensures forall t :: t in pool.threads ==> !Holds(pool.threads[t], pid)
    {
      ReachableInv(pool);
      UpdateState(pid, Idle, Work(if pool.threads[tid].Serving? then Release(tid) else InitIdle(tid)));
    }

    /** The select and the update of db_get_next_idle_process_for_busy_work, in one critical section:
        the child found is held by no other thread, and none is found only if none is idle. */
    method ClaimIdle(project: Project, ghost tid: Tid) returns (pid: int)
      requires Valid() && tid !in pool.threads
      modifies this
      ensures Valid()
      ensures pid < 0 ==>
                && rows == old(rows) && pool == old(pool)
                && forall p :: p in rows && rows[p].project == project && rows[p].list == ActiveList ==> rows[p].state != Idle
      ensures pid >= 0 ==>
                && pid in old(rows) && old(rows)[pid].project == project
                && rows == SetState(old(rows), pid, Busy) && rows[pid].list == ActiveList
                && (forall t :: t in old(pool).threads ==> !Holds(old(pool).threads[t], pid))
                && (forall t :: t in pool.threads && Holds(pool.threads[t], pid) <==> t == tid)
    {
      var candidates := set p | p in rows
                                && rows[p].project == project && rows[p].list == ActiveList && rows[p].state == Idle;
      if candidates == {} {
        pid := -1;
        assert forall p :: p in rows && rows[p].project == project && rows[p].list == ActiveList && rows[p].state == Idle
                           ==> p in candidates;
      } else {
        pid :| pid in candidates;
        ReachableInv(pool);
        UpdateState(pid, Busy, Work(Claim(tid, pid)));
      }
    }

    /** db_get_next_idle_process_for_busy_work. When the first look fails the thread waits; other
        threads go on and have made `later` of the table by the time it is woken, if it is. */
    method ClaimOrWait(project: Project, woken: bool, later: Table, ghost laterPool: State, ghost tid: Tid) returns (pid: int)
      requires Valid() && tid !in pool.threads
      requires Reachable(laterPool) && later == laterPool.rows && tid !in laterPool.threads
      modifies this
      ensures Valid()
      ensures pid >= 0 ==>
                && pid in rows && rows[pid].project == project && rows[pid].list == ActiveList && rows[pid].state == Busy
                && (rows == SetState(old(rows), pid, Busy) || (woken && rows == SetState(later, pid, Busy)))
                && forall t :: t in pool.threads && Holds(pool.threads[t], pid) <==> t == tid
      ensures pid < 0 ==>
                && tid !in pool.threads
                && (forall p :: p in old(rows) && old(rows)[p].project == project && old(rows)[p].list == ActiveList
                                ==> old(rows)[p].state != Idle)
                && (!woken ==> rows == old(rows))
                && (woken ==> rows == later
                              && forall p :: p in later && later[p].project == project && later[p].list == ActiveList
                                             ==> later[p].state != Idle)
    {
      pid := ClaimIdle(project, tid);
      if pid < 0 && woken {
        rows, pool := later, laterPool;
        pid := ClaimIdle(project, tid);
      }
    }

    /** db_move_process_to_list, by a thread that gives the child up */
    method MoveToShutdown(pid: Pid, ghost tid: Tid)
      requires Valid() && tid in pool.threads && pool.threads[tid] == Retiring(pid)
      modifies this
      ensures Valid() && (pid in rows ==> InShutdown(rows, pid))
      ensures pool == AfterWork(old(pool), MovePid(tid))
    {
      Reach(pool, Work(MovePid(tid)));
      if pid in rows {
        rows := rows[pid := rows[pid].(list := ShutdownList)];
      }
      pool := AfterWork(pool, MovePid(tid));
    }

    /** The moves of all children of a project from one list to a later one */
    method MoveAllOf(project: Project, from: ListId, to: ListId, ghost tid: Tid)
      requires Valid() && tid !in pool.threads && LegalMove(from, to)
      modifies this
      ensures Valid() && pool == AfterWork(old(pool), MoveAll(tid, project, from, to))
      ensures forall p :: p in rows && rows[p].project == project ==> rows[p].list != from
    {
      Reach(pool, Work(MoveAll(tid, project, from, to)));
      rows := map p | p in rows :: if rows[p].project == project && rows[p].list == from then rows[p].(list := to) else rows[p];
      pool := AfterWork(pool, MoveAll(tid, project, from, to));
    }

    /** db_reset_signal_timer, by the shutdown thread */
    method ResetSignalTimer(pid: Pid, now: Timespec)
      requires Valid() && LoopEnabled(pool, WriteStamp) && pool.pc.todo[0] == pid && pool.pc.stage.at == now
      modifies this
      ensures Valid() && pool == AfterLoop(old(pool), WriteStamp)
    {
      Reach(pool, Loop(WriteStamp));
      if pid in rows {
        rows := rows[pid := rows[pid].(signal := now)];
      }
      pool := AfterLoop(pool, WriteStamp);
    }

    /** db_remove_process_with_state_exit, by the shutdown thread: nothing outside the shutdown list
        is deleted. */
    method RemoveWithStateExit()
      requires Valid() && LoopEnabled(pool, Weed)
      modifies this
      ensures Valid() && pool == AfterLoop(old(pool), Weed)
      ensures forall p :: p in old(rows) && !InShutdown(old(rows), p) ==> p in rows && rows[p] == old(rows)[p]
      ensures forall p :: p in rows ==> rows[p].state != Exit
    {
      ReachableInv(pool);
      Reach(pool, Loop(Weed));
      rows := map p | p in rows && rows[p].state != Exit :: rows[p];
      pool := AfterLoop(pool, Weed);
    }
  }
}
