/** The child-process pool as a transition system. One step is one critical section (or one
    system call) of one thread; every interleaving of steps is a run.

    Threads that work for a child are kept by thread id, so that several may refer to the same
    pid: init threads, connection threads, the SIGCHLD path and project restarts. The shutdown
    thread has a program counter of its own. `log` and `unseen` record history only; no step
    looks at them. */
module Pool {
  import opened Timer
  import opened ProcessTable

  type Tid = nat

  /** Where a thread other than the shutdown thread stands with respect to the table. */
  datatype Worker =
    | Started(pid: Pid)       // init thread: row inserted, state Init not yet written
    | Initialising(pid: Pid)  // init thread: state Init written
    | Serving(pid: Pid)       // connection thread: claimed the child
    | Retiring(pid: Pid)      // will move the child to the shutdown list; writes no state
    | Notifying               // moved rows, has not yet told the shutdown thread

  /** The thread will still write the state of p. */
  predicate Holds(w: Worker, p: Pid) {
    (w.Started? || w.Initialising? || w.Serving?) && w.pid == p
  }

  predicate Mentions(w: Worker, p: Pid) {
    Holds(w, p) || (w.Retiring? && w.pid == p)
  }

  datatype Signal = SigTerm | SigKill

  /** One pass of the shutdown loop: its clock reading and its timeout. */
  datatype Round = Round(start: Timespec, timeout: Timespec)

  /** What the shutdown thread is doing to the pid todo[0]. */
  datatype Stage =
    | Look                                 // between two pids
    | Timing(read: ProcState)              // Term or Kill read, timer not yet
    | Signalling(sig: Signal)              // about to call kill()
    | Marking(sig: Signal)                 // kill() succeeded, state not written
    | Stamping(sig: Signal)                // state written, clock not read
    | Writing(sig: Signal, at: Timespec)   // clock read, timer not written
    | Exiting                              // about to write Exit

  /** The program counter of the shutdown thread. */
  datatype Pc =
    | Top
    | Clocked(start: Timespec)
    | Visit(r: Round, todo: seq<Pid>, stage: Stage)
    | Measuring(timeout: Timespec)                 // exited rows deleted
    | Locking(timeout: Timespec, min: Timespec)
    | Waiting(timeout: Timespec, min: Timespec, until: Deadline)  // in the condition wait, unsignalled
    | Woken
    | Counting(stop: bool)
    | Done

  datatype Deadline = Never | At(time: Timespec)

  datatype Event =
    | Sent(pid: Pid, sig: Signal, ok: bool, at: Timespec, timeout: Timespec)
    | GaveUp(pid: Pid, at: Timespec, timeout: Timespec)

  datatype State = State(
    rows: Table,
    threads: map<Tid, Worker>,
    listChange: bool,         // has_list_change
    doShutdown: bool,         // do_shutdown_thread
    pc: Pc,
    now: Timespec,
    log: seq<Event>,          // history: signals sent and rows given up
    unseen: map<Pid, Tid>     // history: rows moved to the shutdown list since the last snapshot, with mover
  )

  const INITIAL := State(map[], map[], false, false, Top, ZERO, [], map[])

  /** Steps of init threads, connection threads, the main thread and the clock. */
  datatype WorkerStep =
    | Tick(t: Timespec)
    | StartChild(tid: Tid, pid: Pid, project: Project)
    | InitBegin(tid: Tid)
    | InitIdle(tid: Tid)
    | InitDied(tid: Tid)
    | Claim(tid: Tid, pid: Pid)
    | Release(tid: Tid)
    | Leak(tid: Tid)
    | GiveUp(tid: Tid)
    | Reap(tid: Tid, pid: Pid)
    | MovePid(tid: Tid)
    | MoveAll(tid: Tid, project: Project, from: ListId, to: ListId)
    | Notify(tid: Tid)
    | RequestStop

  /** Steps of the shutdown thread. */
  datatype LoopStep =
    | ReadClock
    | Snapshot(pids: seq<Pid>, timeout: Timespec)
    | ReadState
    | CheckTimer(expired: bool)
    | SendSignal(ok: bool)
    | MarkState
    | Stamp
    | WriteStamp
    | MarkExit
    | Weed
    | ReadMinTimer(min: Timespec)
    | LockAndTest
    | Wake
    | Resume
    | Count

  datatype Step = Work(w: WorkerStep) | Loop(l: LoopStep)

  /** The shutdown thread is in the middle of handling p. */
  predicate Current(pc: Pc, p: Pid) {
    pc.Visit? && !pc.stage.Look? && |pc.todo| > 0 && pc.todo[0] == p
  }

  predicate Alive(st: ProcState) {
    !Signalled(st)
  }

  function SignalTimeOf(t: Table, p: Pid): Timespec {
    if p in t then t[p].signal else ZERO
  }

  /** db_get_signal_timer, qgis_timer_add, qgis_timer_isgreaterthan */
  predicate Expired(rows: Table, r: Round, p: Pid) {
    IsGreater(r.start, Add(SignalTimeOf(rows, p), r.timeout))
  }

  predicate LegalMove(from: ListId, to: ListId) {
    (from == InitList && to == ActiveList) || (from != ShutdownList && to == ShutdownList)
  }

  /** The 0.2 seconds of the wait while a shutdown is requested. */
  const SHORT_WAIT := Timespec(0, 200_000_000)

  function Free(threads: map<Tid, Worker>, tid: Tid): map<Tid, Worker> {
    map t | t in threads && t != tid :: threads[t]
  }

  /** pthread_cond_signal on the shutdown condition. */
  function Awaken(pc: Pc): Pc {
    if pc.Waiting? then Woken else pc
  }

  predicate WorkEnabled(s: State, step: WorkerStep) {
    match step
    case Tick(t) => Normalised(t) && Nanos(s.now) <= Nanos(t)
    // A pid is not handed out again while a row or a thread still refers to it.
    case StartChild(tid, pid, _) =>
      tid !in s.threads && pid !in s.rows && forall t :: t in s.threads ==> !Mentions(s.threads[t], pid)
    case InitBegin(tid) => tid in s.threads && s.threads[tid].Started?
    case InitIdle(tid) => tid in s.threads && s.threads[tid].Initialising?
    case InitDied(tid) => tid in s.threads && s.threads[tid].Initialising?
    case Claim(tid, pid) =>
      tid !in s.threads && pid in s.rows && s.rows[pid].list == ActiveList && s.rows[pid].state == Idle
    case Release(tid) => tid in s.threads && s.threads[tid].Serving?
    case Leak(tid) => tid in s.threads && s.threads[tid].Serving?
    case GiveUp(tid) => tid in s.threads && (s.threads[tid].Initialising? || s.threads[tid].Serving?)
    case Reap(tid, _) => tid !in s.threads
    case MovePid(tid) => tid in s.threads && s.threads[tid].Retiring?
    case MoveAll(tid, _, from, to) => tid !in s.threads && LegalMove(from, to)
    case Notify(tid) => tid in s.threads && s.threads[tid].Notifying?
    case RequestStop => true
  }

  /** What a step of another thread does to the table. */
  function WorkRows(s: State, step: WorkerStep): Table
    requires WorkEnabled(s, step)
  {
    match step
    case StartChild(_, pid, project) => s.rows[pid := Row(project, InitList, Start, ZERO)]
    case InitBegin(tid) => SetState(s.rows, s.threads[tid].pid, Init)
    case InitIdle(tid) => SetState(s.rows, s.threads[tid].pid, Idle)
    case Claim(_, pid) => SetState(s.rows, pid, Busy)
    case Release(tid) => SetState(s.rows, s.threads[tid].pid, Idle)
    case MovePid(tid) => MoveTo(s.rows, s.threads[tid].pid, ShutdownList)
    case MoveAll(_, project, from, to) => MoveProject(s.rows, project, from, to)
    case _ => s.rows
  }

  function WorkThreads(s: State, step: WorkerStep): map<Tid, Worker>
    requires WorkEnabled(s, step)
  {
    match step
    case Tick(_) => s.threads
    case RequestStop => s.threads
    case StartChild(tid, pid, _) => s.threads[tid := Started(pid)]
    case InitBegin(tid) => s.threads[tid := Initialising(s.threads[tid].pid)]
    case Claim(tid, pid) => s.threads[tid := Serving(pid)]
    case GiveUp(tid) => s.threads[tid := Retiring(s.threads[tid].pid)]
    case Reap(tid, pid) => s.threads[tid := Retiring(pid)]
    case MovePid(tid) => s.threads[tid := Notifying]
    case MoveAll(tid, _, _, _) => s.threads[tid := Notifying]
    case InitIdle(tid) => Free(s.threads, tid)
    case InitDied(tid) => Free(s.threads, tid)
    case Release(tid) => Free(s.threads, tid)
    case Leak(tid) => Free(s.threads, tid)
    case Notify(tid) => Free(s.threads, tid)
  }

  function WorkUnseen(s: State, step: WorkerStep): map<Pid, Tid>
    requires WorkEnabled(s, step)
  {
    match step
    case MovePid(tid) =>
      var p := s.threads[tid].pid;
      if p in s.rows && s.rows[p].list != ShutdownList then s.unseen[p := tid] else s.unseen
    case MoveAll(tid, project, from, ShutdownList) =>
      s.unseen + (map p | p in s.rows && s.rows[p].project == project && s.rows[p].list == from :: tid)
    case _ => s.unseen
  }

  function AfterWork(s: State, step: WorkerStep): State
    requires WorkEnabled(s, step)
  {
    s.(rows := WorkRows(s, step), threads := WorkThreads(s, step), unseen := WorkUnseen(s, step),
       pc := if step.Notify? || step.RequestStop? then Awaken(s.pc) else s.pc,
       listChange := s.listChange || step.Notify?,
       doShutdown := s.doShutdown || step.RequestStop?,
       now := if step.Tick? then step.t else s.now)
  }

  ghost predicate LoopEnabled(s: State, step: LoopStep) {
    match step
    case ReadClock => s.pc.Top?
    case Snapshot(pids, timeout) =>
      s.pc.Clocked? && ListsShutdown(s.rows, pids) && timeout.sec >= 0 && timeout.nsec == 0
    case ReadState => s.pc.Visit? && s.pc.stage.Look? && |s.pc.todo| > 0
    case CheckTimer(expired) =>
      s.pc.Visit? && s.pc.stage.Timing? && |s.pc.todo| > 0 && expired == Expired(s.rows, s.pc.r, s.pc.todo[0])
    case SendSignal(_) => s.pc.Visit? && s.pc.stage.Signalling? && |s.pc.todo| > 0
    case MarkState => s.pc.Visit? && s.pc.stage.Marking? && |s.pc.todo| > 0
    case Stamp => s.pc.Visit? && s.pc.stage.Stamping?
    case WriteStamp => s.pc.Visit? && s.pc.stage.Writing? && |s.pc.todo| > 0
    case MarkExit => s.pc.Visit? && s.pc.stage.Exiting? && |s.pc.todo| > 0
    case Weed => s.pc.Visit? && s.pc.stage.Look? && |s.pc.todo| == 0
    case ReadMinTimer(min) => s.pc.Measuring? && IsMinSignal(s.rows, min)
    case LockAndTest => s.pc.Locking?
    case Wake => s.pc.Waiting?
    case Resume => s.pc.Woken?
    case Count => s.pc.Counting?
  }

  function NextPid(pc: Pc): Pc
    requires pc.Visit? && |pc.todo| > 0
  {
    Visit(pc.r, pc.todo[1..], Look)
  }

  /** What a step of the shutdown thread does to the table. */
  ghost function LoopRows(s: State, step: LoopStep): Table
    requires LoopEnabled(s, step)
  {
    match step
    case MarkState => SetState(s.rows, s.pc.todo[0], if s.pc.stage.sig == SigTerm then Term else Kill)
    case WriteStamp => SetSignal(s.rows, s.pc.todo[0], s.pc.stage.at)
    case MarkExit => SetState(s.rows, s.pc.todo[0], Exit)
    case Weed => RemoveExited(s.rows)
    case _ => s.rows
  }

  /** Where it goes next. */
  ghost function LoopPc(s: State, step: LoopStep): Pc
    requires LoopEnabled(s, step)
  {
    match step
    case ReadClock => Clocked(s.now)
    case Snapshot(pids, timeout) => Visit(Round(s.pc.start, timeout), pids, Look)
    case ReadState =>
      var p := s.pc.todo[0];
      if p !in s.rows || s.rows[p].state == Exit then NextPid(s.pc)  // unknown, or only to be deleted
      else if Alive(s.rows[p].state) then s.pc.(stage := Signalling(SigTerm))
      else s.pc.(stage := Timing(s.rows[p].state))
    case CheckTimer(expired) =>
      if !expired then NextPid(s.pc)
      else s.pc.(stage := if s.pc.stage.read == Term then Signalling(SigKill) else Exiting)
    case SendSignal(ok) => s.pc.(stage := if ok then Marking(s.pc.stage.sig) else Exiting)
    case MarkState => s.pc.(stage := Stamping(s.pc.stage.sig))
    case Stamp => s.pc.(stage := Writing(s.pc.stage.sig, s.now))
    case WriteStamp => NextPid(s.pc)
    case MarkExit => NextPid(s.pc)
    case Weed => Measuring(s.pc.r.timeout)
    case ReadMinTimer(min) => Locking(s.pc.timeout, min)
    case LockAndTest =>
      if s.listChange then Counting(s.doShutdown)
      else Waiting(s.pc.timeout, s.pc.min,
                   if !IsEmpty(s.pc.min) then At(Add(s.pc.min, s.pc.timeout))
                   else if s.doShutdown then At(Add(s.now, SHORT_WAIT)) else Never)
    case Wake => Woken
    case Resume => Counting(s.doShutdown)
    case Count => if s.pc.stop && forall p :: !InShutdown(s.rows, p) then Done else Top
  }

  ghost function LoopLog(s: State, step: LoopStep): seq<Event>
    requires LoopEnabled(s, step)
  {
    match step
    case CheckTimer(expired) =>
      if expired && s.pc.stage.read != Term then s.log + [GaveUp(s.pc.todo[0], s.now, s.pc.r.timeout)] else s.log
    case SendSignal(ok) => s.log + [Sent(s.pc.todo[0], s.pc.stage.sig, ok, s.now, s.pc.r.timeout)]
    case _ => s.log
  }

  function LoopUnseen(s: State, step: LoopStep): map<Pid, Tid> {
    match step
    case Snapshot(_, _) => map[]
    case Weed => map p | p in s.unseen && p in RemoveExited(s.rows) :: s.unseen[p]
    case _ => s.unseen
  }

  ghost function AfterLoop(s: State, step: LoopStep): State
    requires LoopEnabled(s, step)
  {
    s.(rows := LoopRows(s, step), pc := LoopPc(s, step), log := LoopLog(s, step), unseen := LoopUnseen(s, step),
       listChange := s.listChange && !step.LockAndTest? && !step.Resume?)
  }

  ghost predicate Enabled(s: State, step: Step) {
    match step
    case Work(w) => WorkEnabled(s, w)
    case Loop(l) => LoopEnabled(s, l)
  }

  ghost function Apply(s: State, step: Step): State
    requires Enabled(s, step)
  {
    match step
    case Work(w) => AfterWork(s, w)
    case Loop(l) => AfterLoop(s, l)
  }

  ghost predicate Next(s: State, s': State) {
    exists step :: Enabled(s, step) && s' == Apply(s, step)
  }

  ghost predicate StepAt(tr: seq<State>, i: nat) {
    i + 1 < |tr| && Next(tr[i], tr[i + 1])
  }

  /** A finite stretch of some interleaving, from any state. */
  ghost predicate IsStretch(tr: seq<State>) {
    |tr| > 0 && forall i: nat :: i < |tr| - 1 ==> StepAt(tr, i)
  }

  /** A run of the scheduler. */
  ghost predicate IsRun(tr: seq<State>) {
    IsStretch(tr) && tr[0] == INITIAL
  }
}
