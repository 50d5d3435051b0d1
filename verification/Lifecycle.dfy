/**
 The raw-handle protocol as a transition system.

 Any number of threads run NIFs and resource destructors against one connection.  Every
 atomic action of those routines (an atomic swap or load, taking or dropping a mutex guard,
 one C call) is one step, so a schedule -- a sequence of (thread, choice) pairs -- is an
 interleaving.  C calls are never guarded by the model: a call on a freed object, on a
 freed database, or without the connection guard sets `faulty`.
 */
module Lifecycle {
  import opened Common

  type Tid = nat  // thread
  type Rid = nat  // stream, statement or blob resource
  type Sid = nat  // session resource
  type Ptr = nat  // C statement or C blob

  /** Who is responsible for a C object (bookkeeping only: no step reads it). */
  datatype Loc = InCell(r: Rid) | InFlight(t: Tid) | Gone | Leaked | Stray

  /** A `sqlite3_stmt` or `sqlite3_blob`; `frees` counts finalize/close calls on it. */
  datatype CObject = CObject(frees: nat, loc: Loc)

  datatype Db = Open | LeakedAlive | Freed

  datatype SessionObject = SLive | SDeleted | SForgotten

  /** `Mutex<Option<Session>>` plus the C session it owns; `dropper` is the thread that runs, or ran,
      the resource's destructor. */
  datatype Session = Session(present: bool, obj: SessionObject, holder: Option<Tid>, poisoned: bool, dropper: Option<Tid>)

  /** Where a thread is: outside, blocked on the connection mutex, or holding its guard. */
  datatype Pc = Idle | Wait(job: Job) | Held(work: Work)

  /** What a blocked thread will do with the guard. */
  datatype Job =
    | ToFree(p: Ptr)                      // take_and_finalize_raw, blob::close, Drop: pointer already swapped out
    | ToUse(r: Rid)                       // with_live_stmt, with_live_blob
    | ToFetch(r: Rid)                     // stream_fetch
    | ToConn(closing: bool)               // close_connection, or with_conn
    | ToSession(i: Sid, closing: bool)    // session::close, or with_session / with_session_mut

  /** What a guard holder is about to do. */
  datatype Work =
    | Releasing
    | Freeing(p: Ptr)
    | Handle(r: Rid, stage: HandleStage)
    | Conn(closing: bool)
    | Sess(i: Sid, step: SessionStage)

  datatype HandleStage =
    | UseLocked | UseOpen | Using(p: Ptr)
    | FetchPoisoned | FetchLocked | FetchLoop | FetchLoaded(p: Ptr) | FetchEnding

  /** `ok` is the connection lock result that session::close keeps for its delete-or-leak decision. */
  datatype SessionStage =
    | SLocked | SWant | SIn | SUsing
    | CWant(ok: bool) | CIn(ok: bool) | CTaken(ok: bool)
    | SRelease

  /** A log event, or a log register/unregister call, suspends the thread on MASTER_LOCK. */
  datatype LogPc = Quiet | WantMaster | InMaster

  datatype State = State(
    pcs: seq<Pc>,
    logs: seq<LogPc>,
    holder: Option<Tid>,      // connection mutex
    poisoned: bool,
    master: Option<Tid>,      // MASTER_LOCK
    connOpen: bool,           // the Option<Connection> is Some
    db: Db,
    dbFrees: nat,
    connGone: bool,           // the XqliteConn resource itself has been dropped
    cells: seq<Option<Ptr>>,  // the AtomicPtr of each resource
    dropped: set<Rid>,
    objs: seq<CObject>,
    sessions: seq<Session>,
    faulty: bool)

  /** What an idle thread may start. */
  datatype Op =
    | Close(r: Rid) | Drop(r: Rid) | Use(r: Rid) | Fetch(r: Rid)
    | CloseConn | WithConn | DropConn
    | UseSession(i: Sid) | CloseSession(i: Sid) | DropSession(i: Sid)

  /** The environment's part in a step: what SQLite answers, what the scheduler and callers do. */
  datatype Choice =
    | Go | Again | Log | Panic
    | Begin(op: Op)
    | StoreObject | StoreNull | StrayObject | NewSession

  predicate WantsSession(pc: Pc) {
    pc.Held? && pc.work.Sess? && (pc.work.step.SWant? || pc.work.step.CWant?)
  }

  /** The thread holds the guard of session `i`. */
  predicate InSession(pc: Pc, i: Sid) {
    pc.Held? && pc.work.Sess? && pc.work.i == i && !pc.work.step.SLocked? && !pc.work.step.SWant? && !pc.work.step.CWant?
  }

  /** The thread has swapped `p` out of a cell and still owes its free. */
  predicate Carries(pc: Pc, p: Ptr) {
    pc == Wait(ToFree(p)) || pc == Held(Freeing(p))
  }

  predicate CarriesAny(pc: Pc) {
    (pc.Wait? && pc.job.ToFree?) || (pc.Held? && pc.work.Freeing?)
  }

  /** A running NIF keeps resource `r` alive through its ResourceArc. */
  predicate Touches(pc: Pc, r: Rid) {
    pc == Wait(ToUse(r)) || pc == Wait(ToFetch(r)) || (pc.Held? && pc.work.Handle? && pc.work.r == r)
  }

  predicate TouchesSession(pc: Pc, i: Sid) {
    (pc.Wait? && pc.job.ToSession? && pc.job.i == i) || (pc.Held? && pc.work.Sess? && pc.work.i == i)
  }

  /** Steps at which foreign or row-decoding code runs under the guard and could unwind. */
  predicate MayPanic(pc: Pc) {
    pc.Held? &&
    match pc.work
    case Handle(_, stage) => stage.Using? || stage.FetchLoaded?
    case Conn(closing) => !closing
    case Sess(_, step) => step.SUsing?
    case _ => false
  }

  // ---- C calls ---------------------------------------------------------------------------

  predicate Alive(s: State, p: Ptr) {
    p < |s.objs| && s.objs[p].frees == 0
  }

  predicate AnyAlive(s: State) {
    exists p :: 0 <= p < |s.objs| && s.objs[p].frees == 0
  }

  /** Any `sqlite3_*` call on a statement or blob. */
  function ObjectCall(s: State, t: Tid, p: Ptr): State {
    s.(faulty := s.faulty || s.holder != Some(t) || !Alive(s, p) || s.db == Freed)
  }

  function DbCall(s: State, t: Tid): State {
    s.(faulty := s.faulty || s.holder != Some(t) || s.db != Open)
  }

  function SessionCall(s: State, t: Tid, i: Sid): State
    requires i < |s.sessions|
  {
    s.(faulty := s.faulty || s.holder != Some(t) || s.sessions[i].obj != SLive || s.db != Open)
  }

  /** `sqlite3_finalize` / `sqlite3_blob_close`. */
  function FreeObject(s: State, t: Tid, p: Ptr): State {
    var s1 := ObjectCall(s, t, p);
    if p < |s.objs| then s1.(objs := s.objs[p := CObject(s.objs[p].frees + 1, Gone)]) else s1
  }

  /** `Option<Connection>::take` and the Connection's destructor: `sqlite3_close` (v1) frees the
      database only when no statement and no blob is left; otherwise it answers SQLITE_BUSY,
      the result is discarded, and the database stays allocated for good. */
  function TakeConnection(s: State): State
  {
    if !s.connOpen then s
    else if AnyAlive(s) then s.(connOpen := false, db := LeakedAlive, faulty := s.faulty || s.db != Open)
    else s.(connOpen := false, db := Freed, dbFrees := s.dbFrees + 1, faulty := s.faulty || s.db != Open)
  }

  /** Threads and handed-out ids stay, poison stays, and a connection that has been taken stays closed with
      its database in the state the close left it. */
  predicate Grows(s: State, r: State) {
    && |r.pcs| == |s.pcs| && |r.logs| == |s.logs|
    && |s.objs| <= |r.objs| && |s.cells| <= |r.cells| && |s.sessions| <= |r.sessions|
    && (s.poisoned ==> r.poisoned)
    && (!s.connOpen ==> !r.connOpen && r.db == s.db && r.dbFrees == s.dbFrees)
  }

  /** Frees are never taken back, and an object that has been freed, leaked or strayed never changes again. */
  predicate ObjectKept(o: CObject, o': CObject) {
    && o.frees <= o'.frees
    && (o.loc == Gone || o.loc == Leaked || o.loc == Stray ==> o' == o)
  }

  /** A session once taken, deleted, forgotten, poisoned or dropped stays so. */
  predicate SessionKept(x: Session, x': Session) {
    && (!x.present ==> !x'.present)
    && (x.obj != SLive ==> x'.obj == x.obj)
    && (x.poisoned ==> x'.poisoned)
    && (x.dropper.Some? ==> x'.dropper == x.dropper)
  }

  predicate Keeps(s: State, r: State) {
    && |s.objs| <= |r.objs| && (forall p :: 0 <= p < |s.objs| ==> ObjectKept(s.objs[p], r.objs[p]))
    && |s.sessions| <= |r.sessions| && (forall i :: 0 <= i < |s.sessions| ==> SessionKept(s.sessions[i], r.sessions[i]))
    && s.dropped <= r.dropped
    && (s.connGone ==> r.connGone)
  }

  /** What no step can undo. */
  predicate Extends(s: State, r: State) {
    Grows(s, r) && Keeps(s, r)
  }

  // ---- building blocks -------------------------------------------------------------------

  function Goto(s: State, t: Tid, pc: Pc): State
    requires t < |s.pcs|
  {
    s.(pcs := s.pcs[t := pc])
  }

  function Acquire(s: State, t: Tid, work: Work): State
    requires t < |s.pcs|
  {
    Goto(s, t, Held(work)).(holder := Some(t))
  }

  function Unlock(s: State, t: Tid): State
    requires t < |s.pcs|
  {
    Goto(s, t, Idle).(holder := None)
  }

  /** The atomic swap with null: the thread takes over whatever the cell held.  `held` says whether
      it does so under the guard (stream_fetch) or before taking it (the closers). */
  function SwapOut(s: State, t: Tid, r: Rid, held: bool): State
    requires t < |s.pcs| && r < |s.cells|
  {
    match s.cells[r]
    case None => Goto(s, t, if held then Held(Releasing) else Idle)
    case Some(p) =>
      var s1 := Goto(s, t, if held then Held(Freeing(p)) else Wait(ToFree(p))).(cells := s.cells[r := None]);
      if p < |s.objs| then s1.(objs := s.objs[p := s.objs[p].(loc := InFlight(t))]) else s1
  }

  function SetSession(s: State, i: Sid, x: Session): State
    requires i < |s.sessions|
  {
    s.(sessions := s.sessions[i := x])
  }

  // ---- the routines ----------------------------------------------------------------------

  predicate NoneTouches(s: State, r: Rid) {
    forall t :: 0 <= t < |s.pcs| ==> !Touches(s.pcs[t], r)
  }

  predicate NoneTouchesSession(s: State, i: Sid) {
    forall t :: 0 <= t < |s.pcs| ==> !TouchesSession(s.pcs[t], i)
  }

  /** Every child resource is gone and no thread is inside a NIF or destructor. */
  predicate Quiescent(s: State) {
    && (forall t :: 0 <= t < |s.pcs| ==> s.pcs[t] == Idle)
    && (forall r :: 0 <= r < |s.cells| ==> r in s.dropped)
    && (forall i :: 0 <= i < |s.sessions| ==> s.sessions[i].dropper.Some?)
  }

  function BeginStep(s: State, t: Tid, op: Op): State
    requires t < |s.pcs|
  {
    if s.connGone then s else
    match op
    case Close(r) =>
      if r < |s.cells| && r !in s.dropped then SwapOut(s, t, r, false) else s
    case Drop(r) =>
      if r < |s.cells| && r !in s.dropped && NoneTouches(s, r)
      then SwapOut(s, t, r, false).(dropped := s.dropped + {r})
      else s
    case Use(r) =>
      if r < |s.cells| && r !in s.dropped then Goto(s, t, Wait(ToUse(r))) else s
    case Fetch(r) =>
      // the unlocked early load only decides whether to answer `done` at once
      if r < |s.cells| && r !in s.dropped && s.cells[r].Some? then Goto(s, t, Wait(ToFetch(r))) else s
    case CloseConn => Goto(s, t, Wait(ToConn(true)))
    case WithConn => Goto(s, t, Wait(ToConn(false)))
    case DropConn => if Quiescent(s) then TakeConnection(s).(connGone := true) else s
    case UseSession(i) =>
      if i < |s.sessions| && s.sessions[i].dropper.None? then Goto(s, t, Wait(ToSession(i, false))) else s
    case CloseSession(i) =>
      if i < |s.sessions| && s.sessions[i].dropper.None? then Goto(s, t, Wait(ToSession(i, true))) else s
    case DropSession(i) =>
      if i < |s.sessions| && s.sessions[i].dropper.None? && NoneTouchesSession(s, i)
      then SetSession(Goto(s, t, Wait(ToSession(i, true))), i, s.sessions[i].(dropper := Some(t)))
      else s
  }

  /** Taking the connection mutex.  A poisoned lock still acquires it: `map_err(..)?` then drops the
      guard (and whatever pointer the closer had swapped out), while stream_fetch's poison arm and
      session::close keep it. */
  function LockStep(s: State, t: Tid, job: Job): State
    requires t < |s.pcs|
  {
    if s.holder.Some? then s else
    match job
    case ToFree(p) =>
      if !s.poisoned then Acquire(s, t, Freeing(p))
      else
        var s1 := Acquire(s, t, Releasing);
        if p < |s.objs| then s1.(objs := s.objs[p := s.objs[p].(loc := Leaked)]) else s1
    case ToUse(r) => Acquire(s, t, if s.poisoned then Releasing else Handle(r, UseLocked))
    case ToFetch(r) => Acquire(s, t, Handle(r, if s.poisoned then FetchPoisoned else FetchLocked))
    case ToConn(closing) => Acquire(s, t, if s.poisoned then Releasing else Conn(closing))
    case ToSession(i, closing) =>
      Acquire(s, t, if closing then Sess(i, CWant(!s.poisoned)) else if s.poisoned then Releasing else Sess(i, SLocked))
  }

  /** Statement, blob and stream steps taken under the guard. */
  function HandleStep(s: State, t: Tid, r: Rid, stage: HandleStage, c: Choice): State
    requires t < |s.pcs|
  {
    if r >= |s.cells| then s else
    match stage
    case UseLocked => Goto(s, t, Held(if s.connOpen then Handle(r, UseOpen) else Releasing))
    case UseOpen =>
      Goto(s, t, Held(if s.cells[r].Some? then Handle(r, Using(s.cells[r].value)) else Releasing))
    case Using(p) =>
      Goto(ObjectCall(s, t, p), t, Held(if c == Again then Handle(r, Using(p)) else Releasing))
    case FetchPoisoned => SwapOut(s, t, r, true)
    case FetchLocked => Goto(s, t, Held(if s.connOpen then Handle(r, FetchLoop) else Releasing))
    case FetchLoop =>
      // leaving here is the end of the batch; a null cell means a closer got in first
      Goto(s, t, Held(if c == Again && s.cells[r].Some? then Handle(r, FetchLoaded(s.cells[r].value)) else Releasing))
    case FetchLoaded(p) =>
      // one sqlite3_step: Again is a row, anything else is done or an error
      Goto(ObjectCall(s, t, p), t, Held(Handle(r, if c == Again then FetchLoop else FetchEnding)))
    case FetchEnding => SwapOut(s, t, r, true)
  }

  /** Connection-level steps taken under the guard. */
  function ConnStep(s: State, t: Tid, closing: bool, c: Choice): State
    requires t < |s.pcs|
  {
    if closing then Goto(TakeConnection(s), t, Held(Releasing))
    else if !s.connOpen then Goto(s, t, Held(Releasing))
    else
      var s1 := Goto(DbCall(s, t), t, Held(Releasing));
      match c
      case StoreObject => s1.(objs := s.objs + [CObject(0, InCell(|s.cells|))], cells := s.cells + [Some(|s.objs|)])
      case StoreNull => s1.(cells := s.cells + [None])
      case StrayObject => s1.(objs := s.objs + [CObject(0, Stray)])
      case NewSession => s1.(sessions := s.sessions + [Session(true, SLive, None, false, None)])
      case _ => s1
  }

  /** with_session and with_session_mut; the session mutex is only ever taken under the connection guard. */
  function SessionUseStep(s: State, t: Tid, i: Sid, step: SessionStage, c: Choice): State
    requires t < |s.pcs| && i < |s.sessions|
  {
    var x := s.sessions[i];
    match step
    case SLocked => Goto(s, t, Held(if s.connOpen then Sess(i, SWant) else Releasing))
    case SWant =>
      if x.holder.Some? then s
      else SetSession(Goto(s, t, Held(Sess(i, if x.poisoned then SRelease else SIn))), i, x.(holder := Some(t)))
    case SIn => Goto(s, t, Held(Sess(i, if x.present then SUsing else SRelease)))
    case SUsing => Goto(SessionCall(s, t, i), t, Held(Sess(i, if c == Again then SUsing else SRelease)))
    case _ => s
  }

  /** session::close: a poisoned session mutex is recovered, and the value is deleted only under a clean
      lock on an open connection; otherwise it is leaked. */
  function SessionCloseStep(s: State, t: Tid, i: Sid, step: SessionStage): State
    requires t < |s.pcs| && i < |s.sessions|
  {
    var x := s.sessions[i];
    match step
    case CWant(ok) =>
      if x.holder.Some? then s
      else SetSession(Goto(s, t, Held(Sess(i, CIn(ok)))), i, x.(holder := Some(t)))
    case CIn(ok) =>
      if x.present then SetSession(Goto(s, t, Held(Sess(i, CTaken(ok)))), i, x.(present := false))
      else Goto(s, t, Held(Sess(i, SRelease)))
    case CTaken(ok) =>
      if ok && s.connOpen
      then SetSession(Goto(SessionCall(s, t, i), t, Held(Sess(i, SRelease))), i, x.(obj := SDeleted))
      else SetSession(Goto(s, t, Held(Sess(i, SRelease))), i, x.(obj := SForgotten))
    case _ => s
  }

  function SessionStep(s: State, t: Tid, i: Sid, step: SessionStage, c: Choice): State
    requires t < |s.pcs|
  {
    if i >= |s.sessions| then s
    else if step.SRelease? then SetSession(Goto(s, t, Held(Releasing)), i, s.sessions[i].(holder := None))
    else if step.CWant? || step.CIn? || step.CTaken? then SessionCloseStep(s, t, i, step)
    else SessionUseStep(s, t, i, step, c)
  }

  /** A panic under the guard unwinds: every guard held is dropped and its mutex poisoned. */
  function PanicStep(s: State, t: Tid, work: Work): State
    requires t < |s.pcs|
  {
    var s1 := Unlock(s, t).(poisoned := true);
    if work.Sess? && work.i < |s.sessions|
    then SetSession(s1, work.i, s.sessions[work.i].(holder := None, poisoned := true))
    else s1
  }

  function WorkStep(s: State, t: Tid, work: Work, c: Choice): State
    requires t < |s.pcs|
  {
    match work
    case Releasing => Unlock(s, t)
    case Freeing(p) => Goto(FreeObject(s, t, p), t, Held(Releasing))
    case Handle(r, stage) => HandleStep(s, t, r, stage, c)
    case Conn(closing) => ConnStep(s, t, closing, c)
    case Sess(i, step) => SessionStep(s, t, i, step, c)
  }

  /** Log events and log register/unregister calls: take MASTER_LOCK, work, drop it. */
  function LogStep(s: State, t: Tid): State
    requires t < |s.logs|
  {
    match s.logs[t]
    case Quiet => s.(logs := s.logs[t := WantMaster])
    case WantMaster => if s.master.Some? then s else s.(logs := s.logs[t := InMaster], master := Some(t))
    case InMaster => s.(logs := s.logs[t := Quiet], master := None)
  }

  /** A log event can start wherever the thread is not parked on a lock. */
  predicate MayLog(pc: Pc) {
    !pc.Wait? && !WantsSession(pc)
  }

  /** One step of thread `t`; a blocked or refused step leaves the state unchanged. */
  function Step(s: State, t: Tid, c: Choice): State
  {
    if t >= |s.pcs| || t >= |s.logs| then s
    else
      var pc := s.pcs[t];
      if s.logs[t] != Quiet || (c == Log && MayLog(pc)) then LogStep(s, t)
      else if c == Panic && MayPanic(pc) then PanicStep(s, t, pc.work)
      else
        match pc
        case Idle => if c.Begin? then BeginStep(s, t, c.op) else s
        case Wait(job) => LockStep(s, t, job)
        case Held(work) => WorkStep(s, t, work, c)
  }

  /** A freshly opened connection with `n` idle threads. */
  function Init(n: nat): State {
    State(seq(n, i => Idle), seq(n, i => Quiet), None, false, None, true, Open, 0, false, [], {}, [], [], false)
  }

  datatype Move = Move(t: Tid, c: Choice)

  /** The state after a schedule: every interleaving is some schedule. */
  function Run(s: State, schedule: seq<Move>): State
    decreases |schedule|
  {
    if schedule == [] then s
    else
      var m := schedule[|schedule| - 1];
      Step(Run(s, schedule[..|schedule| - 1]), m.t, m.c)
  }
}
