/** The table of child processes (database.c). Every access runs under one mutex, so
    each statement is one atomic change of the table. */
module ProcessTable {
  import opened Timer

  type Pid = nat
  type Project = string

  datatype ProcState = Start | Init | Idle | Busy | Term | Kill | Exit

  datatype ListId = InitList | ActiveList | ShutdownList

  datatype Row = Row(project: Project, list: ListId, state: ProcState, signal: Timespec)

  type Table = map<Pid, Row>

  predicate Signalled(st: ProcState) {
    st.Term? || st.Kill? || st.Exit?
  }

  function ListRank(l: ListId): nat {
    match l
    case InitList => 0
    case ActiveList => 1
    case ShutdownList => 2
  }

  predicate InShutdown(t: Table, p: Pid) {
    p in t && t[p].list == ShutdownList
  }

  /** UPDATE ... SET state WHERE pid: unconditional, and without effect on a missing row. */
  function SetState(t: Table, p: Pid, st: ProcState): Table {
    if p in t then t[p := t[p].(state := st)] else t
  }

  function SetSignal(t: Table, p: Pid, ts: Timespec): Table {
    if p in t then t[p := t[p].(signal := ts)] else t
  }

  function MoveTo(t: Table, p: Pid, l: ListId): Table {
    if p in t then t[p := t[p].(list := l)] else t
  }

  /** UPDATE ... SET list WHERE projectname AND list: no look at the state. */
  function MoveProject(t: Table, project: Project, from: ListId, to: ListId): Table {
    map p | p in t :: if t[p].project == project && t[p].list == from then t[p].(list := to) else t[p]
  }

  function RemoveExited(t: Table): Table {
    map p | p in t && t[p].state != Exit :: t[p]
  }

  /** Row p takes part in the search for the earliest signal time. Both fields must be
      non-zero, so a time on a whole second is skipped. */
  predicate HasSignalTime(t: Table, p: Pid) {
    p in t && t[p].signal.sec != 0 && t[p].signal.nsec != 0
  }

  /** ts is what "ORDER BY signaltime ... LIMIT 1" yields, {0,0} when no row qualifies. */
  ghost predicate IsMinSignal(t: Table, ts: Timespec) {
    && (forall p :: HasSignalTime(t, p) ==> !IsGreater(ts, t[p].signal))
    && ((ts == ZERO && forall p :: !HasSignalTime(t, p))
        || exists p :: HasSignalTime(t, p) && t[p].signal == ts)
  }

  /** pids is the result of a SELECT over the shutdown list, in any order. */
  ghost predicate ListsShutdown(t: Table, pids: seq<Pid>) {
    && (forall p :: p in pids <==> InShutdown(t, p))
    && Distinct(pids)
  }

  ghost predicate Distinct(pids: seq<Pid>) {
    forall i, j :: 0 <= i < j < |pids| ==> pids[i] != pids[j]
  }
}
