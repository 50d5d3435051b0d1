/** The inductive invariant of the raw-handle protocol and its preservation by every step. */
module LifecycleInvariant {
  import opened Common
  import opened Lifecycle

  /** Mutual exclusion: each lock is held by exactly the thread whose program counter says so. */
  ghost predicate LockInv(s: State) {
    && |s.logs| == |s.pcs|
    && (forall t :: 0 <= t < |s.pcs| ==> (s.pcs[t].Held? <==> s.holder == Some(t)))
    && (s.holder.Some? ==> s.holder.value < |s.pcs|)
    && (forall t :: 0 <= t < |s.logs| ==> (s.logs[t] == InMaster <==> s.master == Some(t)))
    && (s.master.Some? ==> s.master.value < |s.logs|)
    && (forall t :: 0 <= t < |s.logs| && s.logs[t] != Quiet ==> MayLog(s.pcs[t]))
  }

  /** The bookkeeping location of one object agrees with the cells, the threads and the free count. */
  ghost predicate Located(s: State, p: Ptr)
    requires p < |s.objs|
  {
    var o := s.objs[p];
    && o.frees <= 1
    && (o.loc == Gone <==> o.frees == 1)
    && (o.loc.InCell? ==> o.loc.r < |s.cells| && s.cells[o.loc.r] == Some(p))
    && (o.loc.InFlight? ==> o.loc.t < |s.pcs| && Carries(s.pcs[o.loc.t], p))
    && (o.loc == Leaked ==> s.poisoned)
  }

  ghost predicate CellInv(s: State, r: Rid)
    requires r < |s.cells|
  {
    && (s.cells[r].Some? ==> s.cells[r].value < |s.objs| && s.objs[s.cells[r].value].loc == InCell(r))
    && (r in s.dropped ==> s.cells[r].None?)
  }

  ghost predicate OwedInv(s: State, t: Tid, p: Ptr) {
    p < |s.objs| && s.objs[p].loc == InFlight(t)
  }

  /** What a thread has learnt stays true until it acts on it. */
  ghost predicate LocalInv(s: State, t: Tid)
    requires t < |s.pcs|
  {
    match s.pcs[t]
    case Idle => true
    case Wait(job) =>
      (match job
       case ToFree(p) => OwedInv(s, t, p)
       case ToUse(r) => r < |s.cells|
       case ToFetch(r) => r < |s.cells|
       case ToConn(_) => true
       case ToSession(i, _) => i < |s.sessions|)
    case Held(work) =>
      match work
      case Releasing => true
      case Freeing(p) => OwedInv(s, t, p)
      case Handle(r, stage) =>
        && r < |s.cells|
        && (stage.UseLocked? || stage.FetchPoisoned? || stage.FetchLocked? || s.connOpen)
        && (stage.Using? ==> Alive(s, stage.p))
        && (stage.FetchLoaded? ==> Alive(s, stage.p))
      case Conn(_) => true
      case Sess(i, step) => i < |s.sessions| && SessionLocal(s, t, s.sessions[i], step)
  }

  ghost predicate SessionLocal(s: State, t: Tid, x: Session, step: SessionStage) {
    match step
    case SLocked => true
    case SWant => s.connOpen
    case SIn => s.connOpen && x.holder == Some(t)
    case SUsing => s.connOpen && x.holder == Some(t) && x.present
    case CWant(ok) => ok == !s.poisoned
    case CIn(ok) => ok == !s.poisoned && x.holder == Some(t)
    case CTaken(ok) => ok == !s.poisoned && x.holder == Some(t) && !x.present && x.obj == SLive
    case SRelease => x.holder == Some(t)
  }

  ghost predicate DbInv(s: State) {
    && (s.connOpen <==> s.db == Open)
    && s.dbFrees == (if s.db == Freed then 1 else 0)
    && (s.db == Freed ==> !AnyAlive(s))
    && (s.connGone ==> !s.connOpen)
    && !s.faulty
  }

  ghost predicate SessionInv(s: State, i: Sid)
    requires i < |s.sessions|
  {
    var x := s.sessions[i];
    && (x.present ==> x.obj == SLive)
    && (x.obj == SForgotten ==> s.poisoned || !s.connOpen)
    && (x.holder.Some? ==> x.holder.value < |s.pcs| && InSession(s.pcs[x.holder.value], i))
    && (x.obj == SLive && !x.present ==> x.holder.Some? && s.pcs[x.holder.value].work.step.CTaken?)
    && (x.dropper.Some? && x.present ==> x.dropper.value < |s.pcs| && Closing(s.pcs[x.dropper.value], i))
  }

  /** A destructor of session `i` has started and has not yet taken the value out. */
  predicate Closing(pc: Pc, i: Sid) {
    pc == Wait(ToSession(i, true)) || (pc.Held? && pc.work.Sess? && pc.work.i == i && (pc.work.step.CWant? || pc.work.step.CIn?))
  }

  ghost predicate Inv(s: State) {
    && LockInv(s)
    && (forall r :: 0 <= r < |s.cells| ==> CellInv(s, r))
    && (forall r :: r in s.dropped ==> r < |s.cells|)
    && (forall p :: 0 <= p < |s.objs| ==> Located(s, p))
    && (forall t :: 0 <= t < |s.pcs| ==> LocalInv(s, t))
    && DbInv(s)
    && (forall i :: 0 <= i < |s.sessions| ==> SessionInv(s, i))
  }

  lemma InitInv(n: nat)
    ensures Inv(Init(n))
  {
  }

  /** MASTER_LOCK and the log calls under it are invisible to the rest of the state. */
  lemma LogMoveInv(s: State, logs: seq<LogPc>, master: Option<Tid>)
    requires Inv(s)
    requires LockInv(s.(logs := logs, master := master))
    ensures Inv(s.(logs := logs, master := master))
  {
    var s' := s.(logs := logs, master := master);
    forall r | 0 <= r < |s'.cells| ensures CellInv(s', r) { assert CellInv(s, r); }
    forall p | 0 <= p < |s'.objs| ensures Located(s', p) { assert Located(s, p); }
    forall u | 0 <= u < |s'.pcs| ensures LocalInv(s', u) { assert LocalInv(s, u); }
    forall i | 0 <= i < |s'.sessions| ensures SessionInv(s', i) { assert SessionInv(s, i); }
  }

  lemma LogInv(s: State, t: Tid)
    requires Inv(s) && t < |s.pcs|
    requires s.logs[t] != Quiet || MayLog(s.pcs[t])
    ensures Inv(LogStep(s, t)) && Grows(s, LogStep(s, t))
  {
    var s' := LogStep(s, t);
    LogMoveInv(s, s'.logs, s'.master);
  }

  /** Thread `t` moves to `pc`; the connection guard goes from `s.holder` to `h`. */
  ghost predicate GuardMove(s: State, t: Tid, pc: Pc, h: Option<Tid>) {
    && (pc.Held? <==> h == Some(t))
    && (h == s.holder || (s.holder == None && h == Some(t)) || (s.holder == Some(t) && h == None))
  }

  /** Steps that only move one thread, possibly taking or dropping the guard. */
  lemma MoveInv(s: State, t: Tid, pc: Pc, h: Option<Tid>)
    requires Inv(s) && t < |s.pcs| && s.logs[t] == Quiet
    requires GuardMove(s, t, pc, h)
    requires forall p: Ptr :: Carries(s.pcs[t], p) ==> Carries(pc, p)
    requires forall i: Sid :: InSession(s.pcs[t], i) ==> InSession(pc, i) && pc.work.step.CTaken? == s.pcs[t].work.step.CTaken?
    requires forall i: Sid :: Closing(s.pcs[t], i) ==> Closing(pc, i) || (i < |s.sessions| && !s.sessions[i].present)
    requires LocalInv(s.(pcs := s.pcs[t := pc], holder := h), t)
    ensures Inv(s.(pcs := s.pcs[t := pc], holder := h))
  {
    var s' := s.(pcs := s.pcs[t := pc], holder := h);
    forall r | 0 <= r < |s'.cells| ensures CellInv(s', r) { assert CellInv(s, r); }
    forall p | 0 <= p < |s'.objs| ensures Located(s', p) { assert Located(s, p); }
    forall u | 0 <= u < |s'.pcs| ensures LocalInv(s', u) { assert LocalInv(s, u); }
    forall i | 0 <= i < |s'.sessions| ensures SessionInv(s', i) { assert SessionInv(s, i); }
  }

  /** Steps of the guard holder that also rewrite one session. */
  lemma SessionMoveInv(s: State, t: Tid, pc: Pc, h: Option<Tid>, i: Sid, x: Session)
    requires Inv(s) && t < |s.pcs| && s.logs[t] == Quiet && i < |s.sessions|
    requires s.holder == Some(t) && GuardMove(s, t, pc, h)
    requires s.pcs[t].work.Sess? && s.pcs[t].work.i == i
    requires var s' := s.(pcs := s.pcs[t := pc], holder := h, sessions := s.sessions[i := x]);
             LocalInv(s', t) && SessionInv(s', i)
    ensures Inv(s.(pcs := s.pcs[t := pc], holder := h, sessions := s.sessions[i := x]))
  {
    var s' := s.(pcs := s.pcs[t := pc], holder := h, sessions := s.sessions[i := x]);
    forall r | 0 <= r < |s'.cells| ensures CellInv(s', r) { assert CellInv(s, r); }
    forall p | 0 <= p < |s'.objs| ensures Located(s', p) { assert Located(s, p); }
    forall u | 0 <= u < |s'.pcs| ensures LocalInv(s', u) {
      if u != t { assert LocalInv(s, u) && !s.pcs[u].Held?; }
    }
    forall j | 0 <= j < |s'.sessions| ensures SessionInv(s', j) { assert SessionInv(s, j); }
  }

  /** Poisoning is invisible to every other thread: none of them holds the guard. */
  lemma PoisonInv(s: State)
    requires Inv(s) && s.holder.None?
    ensures Inv(s.(poisoned := true))
  {
    var s' := s.(poisoned := true);
    forall r | 0 <= r < |s'.cells| ensures CellInv(s', r) { assert CellInv(s, r); }
    forall p | 0 <= p < |s'.objs| ensures Located(s', p) { assert Located(s, p); }
    forall u | 0 <= u < |s'.pcs| ensures LocalInv(s', u) { assert LocalInv(s, u); }
    forall i | 0 <= i < |s'.sessions| ensures SessionInv(s', i) { assert SessionInv(s, i); }
  }

  lemma PanicInv(s: State, t: Tid)
    requires Inv(s) && t < |s.pcs| && MayPanic(s.pcs[t]) && s.logs[t] == Quiet
    ensures Inv(PanicStep(s, t, s.pcs[t].work)) && Grows(s, PanicStep(s, t, s.pcs[t].work))
  {
    assert LocalInv(s, t);
    var work := s.pcs[t].work;
    if work.Sess? {
      assert SessionInv(s, work.i);
      var x := s.sessions[work.i].(holder := None, poisoned := true);
      SessionMoveInv(s, t, Idle, None, work.i, x);
      PoisonInv(s.(pcs := s.pcs[t := Idle], holder := None, sessions := s.sessions[work.i := x]));
    } else {
      MoveInv(s, t, Idle, None);
      PoisonInv(Unlock(s, t));
    }
  }

  /** The swap of a full cell: the pointer moves to the thread, which now owes the free. */
  lemma TakeInv(s: State, t: Tid, r: Rid, q: Ptr, pc: Pc)
    requires Inv(s) && t < |s.pcs| && s.logs[t] == Quiet && r < |s.cells| && s.cells[r] == Some(q)
    requires s.pcs[t].Idle? || (s.pcs[t].Held? && s.pcs[t].work.Handle?)
    requires Carries(pc, q) && GuardMove(s, t, pc, s.holder)
    ensures q < |s.objs|
    ensures Inv(s.(pcs := s.pcs[t := pc], cells := s.cells[r := None], objs := s.objs[q := s.objs[q].(loc := InFlight(t))]))
  {
    assert CellInv(s, r) && Located(s, q);
    var s' := s.(pcs := s.pcs[t := pc], cells := s.cells[r := None], objs := s.objs[q := s.objs[q].(loc := InFlight(t))]);
    forall v | 0 <= v < |s'.cells| ensures CellInv(s', v) { assert CellInv(s, v); }
    forall p | 0 <= p < |s'.objs| ensures Located(s', p) { assert Located(s, p); }
    forall u | 0 <= u < |s'.pcs| ensures LocalInv(s', u) { assert LocalInv(s, u); }
    forall i | 0 <= i < |s'.sessions| ensures SessionInv(s', i) { assert SessionInv(s, i); }
  }

  lemma SwapInv(s: State, t: Tid, r: Rid, held: bool)
    requires Inv(s) && t < |s.pcs| && s.logs[t] == Quiet && r < |s.cells|
    requires if held then s.pcs[t].Held? && s.pcs[t].work.Handle? else s.pcs[t].Idle?
    ensures Inv(SwapOut(s, t, r, held)) && Grows(s, SwapOut(s, t, r, held))
    ensures SwapOut(s, t, r, held).cells == s.cells[r := None] && SwapOut(s, t, r, held).dropped == s.dropped
  {
    match s.cells[r]
    case None => MoveInv(s, t, if held then Held(Releasing) else Idle, s.holder);
    case Some(q) => TakeInv(s, t, r, q, if held then Held(Freeing(q)) else Wait(ToFree(q)));
  }

  /** The thread settles the pointer it owes: freed under the guard, or leaked on a poisoned lock. */
  lemma SettleInv(s: State, t: Tid, h: Option<Tid>, p: Ptr, o: CObject)
    requires Inv(s) && t < |s.pcs| && s.logs[t] == Quiet
    requires Carries(s.pcs[t], p)
    requires GuardMove(s, t, Held(Releasing), h)
    requires (o == CObject(1, Gone) && s.holder == Some(t)) || (o == CObject(0, Leaked) && s.poisoned)
    ensures p < |s.objs| && s.objs[p].frees == 0
    ensures Inv(s.(pcs := s.pcs[t := Held(Releasing)], holder := h, objs := s.objs[p := o]))
  {
    assert LocalInv(s, t);
    assert Located(s, p);
    var s' := s.(pcs := s.pcs[t := Held(Releasing)], holder := h, objs := s.objs[p := o]);
    forall r | 0 <= r < |s'.cells| ensures CellInv(s', r) { assert CellInv(s, r); }
    forall q | 0 <= q < |s'.objs| ensures Located(s', q) { assert Located(s, q); }
    forall u | 0 <= u < |s'.pcs| ensures LocalInv(s', u) {
      if u != t { assert LocalInv(s, u) && (s.holder == Some(t) ==> !s.pcs[u].Held?); }
    }
    forall i | 0 <= i < |s'.sessions| ensures SessionInv(s', i) { assert SessionInv(s, i); }
    assert !AnyAlive(s) ==> !AnyAlive(s');
  }

  lemma LockStepInv(s: State, t: Tid)
    requires Inv(s) && t < |s.pcs| && s.logs[t] == Quiet && s.pcs[t].Wait?
    ensures Inv(LockStep(s, t, s.pcs[t].job)) && Grows(s, LockStep(s, t, s.pcs[t].job))
  {
    assert LocalInv(s, t);
    if s.holder.None? {
      match s.pcs[t].job
      case ToFree(p) => LockFreeInv(s, t, p);
      case ToSession(i, closing) => LockSessionInv(s, t, i, closing);
      case _ => MoveInv(s, t, LockStep(s, t, s.pcs[t].job).pcs[t], Some(t));
    }
  }

  lemma LockFreeInv(s: State, t: Tid, p: Ptr)
    requires Inv(s) && t < |s.pcs| && s.logs[t] == Quiet && s.pcs[t] == Wait(ToFree(p)) && s.holder.None?
    ensures Inv(LockStep(s, t, s.pcs[t].job)) && Grows(s, LockStep(s, t, s.pcs[t].job))
  {
    assert LocalInv(s, t) && Located(s, p);
    if s.poisoned {
      SettleInv(s, t, Some(t), p, CObject(0, Leaked));
    } else {
      MoveInv(s, t, Held(Freeing(p)), Some(t));
    }
  }

  lemma LockSessionInv(s: State, t: Tid, i: Sid, closing: bool)
    requires Inv(s) && t < |s.pcs| && s.logs[t] == Quiet && s.pcs[t] == Wait(ToSession(i, closing)) && s.holder.None?
    ensures Inv(LockStep(s, t, s.pcs[t].job)) && Grows(s, LockStep(s, t, s.pcs[t].job))
  {
    assert LocalInv(s, t);
    MoveInv(s, t, LockStep(s, t, s.pcs[t].job).pcs[t], Some(t));
  }

  lemma HandleStepInv(s: State, t: Tid, r: Rid, stage: HandleStage, c: Choice)
    requires Inv(s) && t < |s.pcs| && s.logs[t] == Quiet
    requires s.pcs[t] == Held(Handle(r, stage))
    ensures Inv(HandleStep(s, t, r, stage, c)) && Grows(s, HandleStep(s, t, r, stage, c))
  {
    assert LocalInv(s, t);
    if stage.FetchPoisoned? || stage.FetchEnding? {
      SwapInv(s, t, r, true);
    } else {
      HandleMoveInv(s, t, r, stage, c);
    }
  }

  /** Looking, loading and calling: no pointer changes hands. */
  lemma HandleMoveInv(s: State, t: Tid, r: Rid, stage: HandleStage, c: Choice)
    requires Inv(s) && t < |s.pcs| && s.logs[t] == Quiet
    requires s.pcs[t] == Held(Handle(r, stage)) && !stage.FetchPoisoned? && !stage.FetchEnding?
    ensures Inv(HandleStep(s, t, r, stage, c)) && Grows(s, HandleStep(s, t, r, stage, c))
  {
    assert LocalInv(s, t) && CellInv(s, r);
    if s.cells[r].Some? {
      assert Located(s, s.cells[r].value);
    }
    MoveInv(s, t, HandleStep(s, t, r, stage, c).pcs[t], s.holder);
  }

  /** Taking the connection out of its Option keeps the database alive exactly while objects are. */
  lemma TakeConnectionInv(s: State)
    requires Inv(s)
    requires s.holder.Some? ==> s.pcs[s.holder.value] == Held(Conn(true))
    ensures Inv(TakeConnection(s)) && Grows(s, TakeConnection(s))
  {
    var s' := TakeConnection(s);
    assert AnyAlive(s') == AnyAlive(s);
    forall r | 0 <= r < |s'.cells| ensures CellInv(s', r) { assert CellInv(s, r); }
    forall p | 0 <= p < |s'.objs| ensures Located(s', p) { assert Located(s, p); }
    forall u | 0 <= u < |s'.pcs| ensures LocalInv(s', u) { assert LocalInv(s, u); }
    forall i | 0 <= i < |s'.sessions| ensures SessionInv(s', i) { assert SessionInv(s, i); }
  }

  /** New objects, resources and sessions are only ever appended, under the guard and on an open database. */
  lemma GrowInv(s: State, objs: seq<CObject>, cells: seq<Option<Ptr>>, sessions: seq<Session>)
    requires Inv(s) && s.connOpen
    requires s.objs <= objs && s.cells <= cells && s.sessions <= sessions
    requires var s' := s.(objs := objs, cells := cells, sessions := sessions);
             && (forall p :: |s.objs| <= p < |objs| ==> Located(s', p))
             && (forall r :: |s.cells| <= r < |cells| ==> CellInv(s', r))
             && (forall i :: |s.sessions| <= i < |sessions| ==> SessionInv(s', i))
    ensures Inv(s.(objs := objs, cells := cells, sessions := sessions))
  {
    var s' := s.(objs := objs, cells := cells, sessions := sessions);
    forall r | 0 <= r < |s'.cells| ensures CellInv(s', r) { if r < |s.cells| { assert CellInv(s, r); } }
    forall p | 0 <= p < |s'.objs| ensures Located(s', p) { if p < |s.objs| { assert Located(s, p); } }
    forall u | 0 <= u < |s'.pcs| ensures LocalInv(s', u) { assert LocalInv(s, u); }
    forall i | 0 <= i < |s'.sessions| ensures SessionInv(s', i) { if i < |s.sessions| { assert SessionInv(s, i); } }
  }

  lemma ConnStepInv(s: State, t: Tid, closing: bool, c: Choice)
    requires Inv(s) && t < |s.pcs| && s.logs[t] == Quiet && s.pcs[t] == Held(Conn(closing))
    ensures Inv(ConnStep(s, t, closing, c)) && Grows(s, ConnStep(s, t, closing, c))
  {
    if closing {
      TakeConnectionInv(s);
      MoveInv(TakeConnection(s), t, Held(Releasing), s.holder);
    } else {
      MoveInv(s, t, Held(Releasing), s.holder);
      var s1 := Goto(s, t, Held(Releasing));
      var s' := ConnStep(s, t, closing, c);
      if s.connOpen {
        GrowInv(s1, s'.objs, s'.cells, s'.sessions);
      }
    }
  }

  lemma SessionEnterInv(s: State, t: Tid, i: Sid)
    requires Inv(s) && t < |s.pcs| && s.logs[t] == Quiet && s.pcs[t] == Held(Sess(i, SWant)) && i < |s.sessions|
    ensures Inv(SessionUseStep(s, t, i, SWant, Go)) && Grows(s, SessionUseStep(s, t, i, SWant, Go))
  {
    assert LocalInv(s, t) && SessionInv(s, i);
    var x := s.sessions[i];
    if x.holder.None? {
      SessionMoveInv(s, t, Held(Sess(i, if x.poisoned then SRelease else SIn)), s.holder, i, x.(holder := Some(t)));
    }
  }

  /** with_session: check the connection, take the session guard, check the value, call. */
  lemma SessionUseInv(s: State, t: Tid, i: Sid, step: SessionStage, c: Choice)
    requires Inv(s) && t < |s.pcs| && s.logs[t] == Quiet && s.pcs[t] == Held(Sess(i, step)) && i < |s.sessions|
    requires step.SLocked? || step.SWant? || step.SIn? || step.SUsing?
    ensures Inv(SessionUseStep(s, t, i, step, c)) && Grows(s, SessionUseStep(s, t, i, step, c))
  {
    assert LocalInv(s, t) && SessionInv(s, i);
    var x := s.sessions[i];
    match step
    case SLocked => MoveInv(s, t, Held(if s.connOpen then Sess(i, SWant) else Releasing), s.holder);
    case SWant => SessionEnterInv(s, t, i);
    case SIn => MoveInv(s, t, Held(Sess(i, if x.present then SUsing else SRelease)), s.holder);
    case SUsing => MoveInv(s, t, Held(Sess(i, if c == Again then SUsing else SRelease)), s.holder);
  }

  /** session::close: take the session guard, take the value, then delete it or leak it. */
  lemma SessionCloseInv(s: State, t: Tid, i: Sid, step: SessionStage)
    requires Inv(s) && t < |s.pcs| && s.logs[t] == Quiet && s.pcs[t] == Held(Sess(i, step)) && i < |s.sessions|
    requires step.CWant? || step.CIn? || step.CTaken?
    ensures Inv(SessionCloseStep(s, t, i, step)) && Grows(s, SessionCloseStep(s, t, i, step))
  {
    assert LocalInv(s, t) && SessionInv(s, i);
    var x := s.sessions[i];
    match step
    case CWant(ok) =>
      if x.holder.None? {
        SessionMoveInv(s, t, Held(Sess(i, CIn(ok))), s.holder, i, x.(holder := Some(t)));
      }
    case CIn(ok) =>
      if x.present {
        SessionMoveInv(s, t, Held(Sess(i, CTaken(ok))), s.holder, i, x.(present := false));
      } else {
        MoveInv(s, t, Held(Sess(i, SRelease)), s.holder);
      }
    case CTaken(ok) => SessionDecideInv(s, t, i, ok);
  }

  lemma SessionDecideInv(s: State, t: Tid, i: Sid, ok: bool)
    requires Inv(s) && t < |s.pcs| && s.logs[t] == Quiet && s.pcs[t] == Held(Sess(i, CTaken(ok))) && i < |s.sessions|
    ensures Inv(SessionCloseStep(s, t, i, CTaken(ok))) && Grows(s, SessionCloseStep(s, t, i, CTaken(ok)))
  {
    assert LocalInv(s, t) && SessionInv(s, i);
    var obj := if ok && s.connOpen then SDeleted else SForgotten;
    SessionMoveInv(s, t, Held(Sess(i, SRelease)), s.holder, i, s.sessions[i].(obj := obj));
  }

  lemma SessionStepInv(s: State, t: Tid, i: Sid, step: SessionStage, c: Choice)
    requires Inv(s) && t < |s.pcs| && s.logs[t] == Quiet && s.pcs[t] == Held(Sess(i, step))
    ensures Inv(SessionStep(s, t, i, step, c)) && Grows(s, SessionStep(s, t, i, step, c))
  {
    assert LocalInv(s, t);
    if step.SRelease? {
      assert SessionInv(s, i);
      SessionMoveInv(s, t, Held(Releasing), s.holder, i, s.sessions[i].(holder := None));
    } else if step.CWant? || step.CIn? || step.CTaken? {
      SessionCloseInv(s, t, i, step);
    } else {
      SessionUseInv(s, t, i, step, c);
    }
  }

  lemma WorkStepInv(s: State, t: Tid, work: Work, c: Choice)
    requires Inv(s) && t < |s.pcs| && s.logs[t] == Quiet && s.pcs[t] == Held(work)
    ensures Inv(WorkStep(s, t, work, c)) && Grows(s, WorkStep(s, t, work, c))
  {
    match work
    case Releasing => MoveInv(s, t, Idle, None);
    case Freeing(p) => SettleInv(s, t, s.holder, p, CObject(1, Gone));
    case Handle(r, stage) => HandleStepInv(s, t, r, stage, c);
    case Conn(closing) => ConnStepInv(s, t, closing, c);
    case Sess(i, step) => SessionStepInv(s, t, i, step, c);
  }

  /** Marking a resource as dropped, right after its destructor emptied the cell. */
  lemma DropInv(s: State, r: Rid)
    requires Inv(s) && r < |s.cells| && s.cells[r].None?
    ensures Inv(s.(dropped := s.dropped + {r}))
  {
    var s' := s.(dropped := s.dropped + {r});
    forall v | 0 <= v < |s'.cells| ensures CellInv(s', v) { assert CellInv(s, v); }
    forall p | 0 <= p < |s'.objs| ensures Located(s', p) { assert Located(s, p); }
    forall u | 0 <= u < |s'.pcs| ensures LocalInv(s', u) { assert LocalInv(s, u); }
    forall i | 0 <= i < |s'.sessions| ensures SessionInv(s', i) { assert SessionInv(s, i); }
  }

  /** A destructor announces itself on the session it is going to take. */
  lemma MarkDropperInv(s: State, t: Tid, i: Sid)
    requires Inv(s) && t < |s.pcs| && i < |s.sessions| && s.pcs[t] == Wait(ToSession(i, true))
    ensures Inv(SetSession(s, i, s.sessions[i].(dropper := Some(t))))
  {
    var s' := SetSession(s, i, s.sessions[i].(dropper := Some(t)));
    forall r | 0 <= r < |s'.cells| ensures CellInv(s', r) { assert CellInv(s, r); }
    forall p | 0 <= p < |s'.objs| ensures Located(s', p) { assert Located(s, p); }
    forall u | 0 <= u < |s'.pcs| ensures LocalInv(s', u) { assert LocalInv(s, u); }
    forall j | 0 <= j < |s'.sessions| ensures SessionInv(s', j) { assert SessionInv(s, j); }
  }

  lemma DropConnInv(s: State)
    requires Inv(s) && Quiescent(s)
    ensures Inv(TakeConnection(s).(connGone := true)) && Grows(s, TakeConnection(s).(connGone := true))
  {
    TakeConnectionInv(s);
    var s1 := TakeConnection(s);
    var s' := s1.(connGone := true);
    forall r | 0 <= r < |s'.cells| ensures CellInv(s', r) { assert CellInv(s1, r); }
    forall p | 0 <= p < |s'.objs| ensures Located(s', p) { assert Located(s1, p); }
    forall u | 0 <= u < |s'.pcs| ensures LocalInv(s', u) { assert LocalInv(s1, u); }
    forall i | 0 <= i < |s'.sessions| ensures SessionInv(s', i) { assert SessionInv(s1, i); }
  }

  lemma BeginStepInv(s: State, t: Tid, op: Op)
    requires Inv(s) && t < |s.pcs| && s.logs[t] == Quiet && s.pcs[t] == Idle
    ensures Inv(BeginStep(s, t, op)) && Grows(s, BeginStep(s, t, op))
  {
    if BeginStep(s, t, op) != s {
      match op
      case Close(r) => SwapInv(s, t, r, false);
      case Drop(r) =>
        SwapInv(s, t, r, false);
        DropInv(SwapOut(s, t, r, false), r);
      case DropConn => DropConnInv(s);
      case DropSession(i) =>
        MoveInv(s, t, Wait(ToSession(i, true)), s.holder);
        MarkDropperInv(Goto(s, t, Wait(ToSession(i, true))), t, i);
      case _ => BeginMoveInv(s, t, op);
    }
  }

  /** Operations that start by queueing for the guard. */
  lemma BeginMoveInv(s: State, t: Tid, op: Op)
    requires Inv(s) && t < |s.pcs| && s.logs[t] == Quiet && s.pcs[t] == Idle
    requires op.Use? || op.Fetch? || op.CloseConn? || op.WithConn? || op.UseSession? || op.CloseSession?
    ensures Inv(BeginStep(s, t, op)) && Grows(s, BeginStep(s, t, op))
  {
    var s' := BeginStep(s, t, op);
    if s' != s {
      MoveInv(s, t, s'.pcs[t], s.holder);
    }
  }

  // ---- what is settled stays settled -----------------------------------------------------

  /** Steps that leave objects, sessions and drops alone. */
  lemma SameKeeps(s: State, r: State)
    requires r.objs == s.objs && r.sessions == s.sessions && r.dropped == s.dropped && r.connGone == s.connGone
    ensures Keeps(s, r)
  {
  }

  lemma ObjectKeeps(s: State, r: State, p: Ptr, o: CObject)
    requires p < |s.objs| && ObjectKept(s.objs[p], o)
    requires r.objs == s.objs[p := o] && r.sessions == s.sessions && r.dropped == s.dropped && r.connGone == s.connGone
    ensures Keeps(s, r)
  {
  }

  lemma OneSessionKeeps(s: State, r: State, i: Sid, x: Session)
    requires i < |s.sessions| && SessionKept(s.sessions[i], x)
    requires r.sessions == s.sessions[i := x] && r.objs == s.objs && r.dropped == s.dropped && r.connGone == s.connGone
    ensures Keeps(s, r)
  {
  }

  lemma SwapKeeps(s: State, t: Tid, r: Rid, held: bool)
    requires Inv(s) && t < |s.pcs| && r < |s.cells|
    ensures Keeps(s, SwapOut(s, t, r, held)) && SwapOut(s, t, r, held).dropped == s.dropped
  {
    assert CellInv(s, r);
    match s.cells[r]
    case None => SameKeeps(s, SwapOut(s, t, r, held));
    case Some(p) => ObjectKeeps(s, SwapOut(s, t, r, held), p, s.objs[p].(loc := InFlight(t)));
  }

  lemma BeginKeeps(s: State, t: Tid, op: Op)
    requires Inv(s) && t < |s.pcs|
    ensures Keeps(s, BeginStep(s, t, op))
  {
    var s' := BeginStep(s, t, op);
    match op
    case Close(r) => if r < |s.cells| { SwapKeeps(s, t, r, false); }
    case Drop(r) => if r < |s.cells| { SwapKeeps(s, t, r, false); }
    case DropConn => assert s'.objs == s.objs && s'.sessions == s.sessions && s'.dropped == s.dropped;
    case DropSession(i) =>
      if s' != s { OneSessionKeeps(s, s', i, s.sessions[i].(dropper := Some(t))); }
    case _ => SameKeeps(s, s');
  }

  lemma LockKeeps(s: State, t: Tid, job: Job)
    requires Inv(s) && t < |s.pcs| && s.pcs[t] == Wait(job)
    ensures Keeps(s, LockStep(s, t, job))
  {
    assert LocalInv(s, t);
    if job.ToFree? && s.holder.None? && s.poisoned {
      ObjectKeeps(s, LockStep(s, t, job), job.p, s.objs[job.p].(loc := Leaked));
    } else {
      SameKeeps(s, LockStep(s, t, job));
    }
  }

  lemma SessionUseKeeps(s: State, t: Tid, i: Sid, step: SessionStage, c: Choice)
    requires t < |s.pcs| && i < |s.sessions|
    ensures Keeps(s, SessionUseStep(s, t, i, step, c))
  {
    var s' := SessionUseStep(s, t, i, step, c);
    if step.SWant? && s.sessions[i].holder.None? {
      OneSessionKeeps(s, s', i, s.sessions[i].(holder := Some(t)));
    } else {
      SameKeeps(s, s');
    }
  }

  lemma SessionCloseKeeps(s: State, t: Tid, i: Sid, step: SessionStage)
    requires t < |s.pcs| && i < |s.sessions| && (step.CTaken? ==> s.sessions[i].obj == SLive)
    ensures Keeps(s, SessionCloseStep(s, t, i, step))
  {
    var s', x := SessionCloseStep(s, t, i, step), s.sessions[i];
    if step.CWant? && x.holder.None? {
      OneSessionKeeps(s, s', i, x.(holder := Some(t)));
    } else if step.CIn? && x.present {
      OneSessionKeeps(s, s', i, x.(present := false));
    } else if step.CTaken? {
      OneSessionKeeps(s, s', i, x.(obj := if step.ok && s.connOpen then SDeleted else SForgotten));
    } else {
      SameKeeps(s, s');
    }
  }

  lemma SessionKeeps(s: State, t: Tid, i: Sid, step: SessionStage, c: Choice)
    requires Inv(s) && t < |s.pcs| && s.pcs[t] == Held(Sess(i, step))
    ensures Keeps(s, SessionStep(s, t, i, step, c))
  {
    assert LocalInv(s, t);
    if step.SRelease? {
      OneSessionKeeps(s, SessionStep(s, t, i, step, c), i, s.sessions[i].(holder := None));
    } else if step.CWant? || step.CIn? || step.CTaken? {
      SessionCloseKeeps(s, t, i, step);
    } else {
      SessionUseKeeps(s, t, i, step, c);
    }
  }

  lemma HandleKeeps(s: State, t: Tid, r: Rid, stage: HandleStage, c: Choice)
    requires Inv(s) && t < |s.pcs| && s.pcs[t] == Held(Handle(r, stage))
    ensures Keeps(s, HandleStep(s, t, r, stage, c))
  {
    assert LocalInv(s, t);
    if stage.FetchPoisoned? || stage.FetchEnding? {
      SwapKeeps(s, t, r, true);
    } else {
      SameKeeps(s, HandleStep(s, t, r, stage, c));
    }
  }

  lemma ConnKeeps(s: State, t: Tid, closing: bool, c: Choice)
    requires Inv(s) && t < |s.pcs| && s.pcs[t] == Held(Conn(closing))
    ensures Keeps(s, ConnStep(s, t, closing, c))
  {
    var s' := ConnStep(s, t, closing, c);
    assert s.objs <= s'.objs && s.sessions <= s'.sessions && s'.dropped == s.dropped && s'.connGone == s.connGone;
  }

  lemma WorkKeeps(s: State, t: Tid, work: Work, c: Choice)
    requires Inv(s) && t < |s.pcs| && s.pcs[t] == Held(work)
    ensures Keeps(s, WorkStep(s, t, work, c))
  {
    match work
    case Releasing => SameKeeps(s, WorkStep(s, t, work, c));
    case Freeing(p) =>
      assert LocalInv(s, t);
      ObjectKeeps(s, WorkStep(s, t, work, c), p, CObject(s.objs[p].frees + 1, Gone));
    case Handle(r, stage) => HandleKeeps(s, t, r, stage, c);
    case Conn(closing) => ConnKeeps(s, t, closing, c);
    case Sess(i, step) => SessionKeeps(s, t, i, step, c);
  }

  lemma PanicKeeps(s: State, t: Tid, work: Work)
    requires Inv(s) && t < |s.pcs|
    ensures Keeps(s, PanicStep(s, t, work))
  {
    var s' := PanicStep(s, t, work);
    if work.Sess? && work.i < |s.sessions| {
      OneSessionKeeps(s, s', work.i, s'.sessions[work.i]);
    } else {
      SameKeeps(s, s');
    }
  }

  /** No step takes back a free, frees what was leaked, revives a session or undoes a drop. */
  lemma StepKeeps(s: State, t: Tid, c: Choice)
    requires Inv(s)
    ensures Keeps(s, Step(s, t, c))
  {
    if t < |s.pcs| {
      var pc := s.pcs[t];
      if s.logs[t] != Quiet || (c == Log && MayLog(pc)) {
        SameKeeps(s, LogStep(s, t));
      } else if c == Panic && MayPanic(pc) {
        PanicKeeps(s, t, pc.work);
      } else {
        match pc
        case Idle => if c.Begin? { BeginKeeps(s, t, c.op); }
        case Wait(job) => LockKeeps(s, t, job);
        case Held(work) => WorkKeeps(s, t, work, c);
      }
    }
  }

  /** Every step of every thread preserves the invariant and undoes nothing. */
  lemma StepInv(s: State, t: Tid, c: Choice)
    requires Inv(s)
    ensures Inv(Step(s, t, c)) && Extends(s, Step(s, t, c))
  {
    StepKeeps(s, t, c);
    StepHolds(s, t, c);
  }

  lemma StepHolds(s: State, t: Tid, c: Choice)
    requires Inv(s)
    ensures Inv(Step(s, t, c)) && Grows(s, Step(s, t, c))
  {
    if t < |s.pcs| {
      var pc := s.pcs[t];
      if s.logs[t] != Quiet || (c == Log && MayLog(pc)) {
        LogInv(s, t);
      } else if c == Panic && MayPanic(pc) {
        PanicInv(s, t);
      } else {
        match pc
        case Idle => if c.Begin? { BeginStepInv(s, t, c.op); }
        case Wait(_) => LockStepInv(s, t);
        case Held(work) => WorkStepInv(s, t, work, c);
      }
    }
  }

  /** The invariant holds after every schedule, hence in every interleaving. */
  lemma {:induction false} RunInv(n: nat, schedule: seq<Move>)
    ensures Inv(Run(Init(n), schedule))
    decreases |schedule|
  {
    if schedule == [] {
      InitInv(n);
    } else {
      var before := schedule[..|schedule| - 1];
      RunInv(n, before);
      StepInv(Run(Init(n), before), schedule[|schedule| - 1].t, schedule[|schedule| - 1].c);
    }
  }
}
