/** What the calls do, as opposed to what they must not do: a close closes, a drop drops, a use reaches SQLite. */
module LifecycleEffects {
  import opened Common
  import opened Lifecycle
  import opened LifecycleInvariant
  import opened LifecycleTheorems

  // ---- every C call, where it is made ----------------------------------------------------

  /** The statement or blob that thread `t` passes to SQLite in its next step, if any. */
  function Passes(pc: Pc): Option<Ptr> {
    match pc
    case Held(Freeing(p)) => Some(p)
    case Held(Handle(_, Using(p))) => Some(p)
    case Held(Handle(_, FetchLoaded(p))) => Some(p)
    case _ => None
  }

  /** In every interleaving, whoever is about to pass an object to SQLite holds the connection mutex, and object and
      database are allocated. */
  lemma ObjectCallsAreSafe(n: nat, schedule: seq<Move>, t: Tid, p: Ptr)
    requires var s := Run(Init(n), schedule); t < |s.pcs| && Passes(s.pcs[t]) == Some(p)
    ensures var s := Run(Init(n), schedule); s.holder == Some(t) && p < |s.objs| && s.objs[p].frees == 0 && s.db != Freed
  {
    RunInv(n, schedule);
    var s := Run(Init(n), schedule);
    assert LocalInv(s, t);
    assert Located(s, p);
    assert Alive(s, p);
  }

  /** Likewise for calls on a session and on the connection itself, which also need the connection open. */
  lemma SessionCallsAreSafe(n: nat, schedule: seq<Move>, t: Tid, i: Sid)
    requires var s := Run(Init(n), schedule);
             t < |s.pcs| && (s.pcs[t] == Held(Sess(i, SUsing)) || (s.pcs[t] == Held(Sess(i, CTaken(true))) && s.connOpen))
    ensures var s := Run(Init(n), schedule);
            s.holder == Some(t) && i < |s.sessions| && s.sessions[i].holder == Some(t) && s.sessions[i].obj == SLive && s.db == Open
  {
    RunInv(n, schedule);
    var s := Run(Init(n), schedule);
    assert LocalInv(s, t);
    assert SessionInv(s, i);
  }

  lemma ConnectionCallsAreSafe(n: nat, schedule: seq<Move>, t: Tid)
    requires var s := Run(Init(n), schedule); t < |s.pcs| && s.pcs[t] == Held(Conn(false)) && s.connOpen
    ensures var s := Run(Init(n), schedule); s.holder == Some(t) && s.db == Open
  {
    RunInv(n, schedule);
  }

  // ---- closing the connection ------------------------------------------------------------

  /** A thread that holds the mutex in order to close takes its step. */
  predicate ClosesNow(s: State, m: Move) {
    m.t < |s.pcs| && m.t < |s.logs| && s.pcs[m.t] == Held(Conn(true)) && s.logs[m.t] == Quiet && m.c != Log
  }

  /** The connection resource itself is dropped. */
  predicate DropsNow(s: State, m: Move) {
    && m.t < |s.pcs| && m.t < |s.logs| && s.pcs[m.t] == Idle && s.logs[m.t] == Quiet
    && m.c == Begin(DropConn) && Quiescent(s) && !s.connGone
  }

  ghost predicate AllFreed(s: State) {
    forall p :: 0 <= p < |s.objs| ==> s.objs[p].frees == 1
  }

  lemma AliveIffNotFreed(s: State)
    requires Inv(s)
    ensures AnyAlive(s) <==> !AllFreed(s)
  {
    forall p | 0 <= p < |s.objs| ensures s.objs[p].frees == 0 || s.objs[p].frees == 1 { assert Located(s, p); }
  }

  /** Right after such a step. */
  ghost predicate Closed(s: State, r: State) {
    && !r.connOpen
    && (s.connOpen ==> (if AllFreed(s) then r.db == Freed && r.dbFrees == 1 else r.db == LeakedAlive && r.dbFrees == 0))
    && (!s.connOpen ==> r.db == s.db && r.dbFrees == s.dbFrees)
  }

  lemma CloseStep(s: State, m: Move)
    requires Inv(s) && (ClosesNow(s, m) || DropsNow(s, m))
    ensures Closed(s, Step(s, m.t, m.c))
  {
    AliveIffNotFreed(s);
    assert Step(s, m.t, m.c) == if ClosesNow(s, m) then ConnStep(s, m.t, true, m.c) else BeginStep(s, m.t, DropConn);
  }

  /** A close closes: in every continuation the connection is closed. If it was open, the database is freed, once, if
      every statement and blob was freed before, and otherwise stays allocated for good; a second close changes
      neither. */
  lemma CloseCloses(n: nat, schedule: seq<Move>, m: Move, whole: seq<Move>)
    requires var s := Run(Init(n), schedule); ClosesNow(s, m) || DropsNow(s, m)
    requires schedule + [m] <= whole
    ensures Closed(Run(Init(n), schedule), Run(Init(n), whole))
  {
    ClosedAtOnce(n, schedule, m);
    PrefixExtends(n, schedule + [m], whole);
    ClosedStays(Run(Init(n), schedule), Run(Init(n), schedule + [m]), Run(Init(n), whole));
  }

  lemma ClosedAtOnce(n: nat, schedule: seq<Move>, m: Move)
    requires var s := Run(Init(n), schedule); ClosesNow(s, m) || DropsNow(s, m)
    ensures Closed(Run(Init(n), schedule), Run(Init(n), schedule + [m]))
  {
    RunInv(n, schedule);
    CloseStep(Run(Init(n), schedule), m);
    assert (schedule + [m])[..|schedule|] == schedule;
  }

  lemma ClosedStays(s: State, mid: State, r: State)
    requires Closed(s, mid) && Extends(mid, r)
    ensures Closed(s, r)
  {
  }

  lemma BeginStaysOpen(s: State, t: Tid, op: Op)
    requires t < |s.pcs| && (op.DropConn? ==> !Quiescent(s) || s.connGone)
    ensures BeginStep(s, t, op).connOpen == s.connOpen
  {
  }

  lemma WorkStaysOpen(s: State, t: Tid, work: Work, c: Choice)
    requires t < |s.pcs| && work != Conn(true)
    ensures WorkStep(s, t, work, c).connOpen == s.connOpen
  {
    match work
    case Handle(r, stage) => HandleStaysOpen(s, t, r, stage, c);
    case Sess(i, step) => SessionStaysOpen(s, t, i, step, c);
    case _ =>
  }

  lemma HandleStaysOpen(s: State, t: Tid, r: Rid, stage: HandleStage, c: Choice)
    requires t < |s.pcs|
    ensures HandleStep(s, t, r, stage, c).connOpen == s.connOpen
  {
  }

  lemma SessionStaysOpen(s: State, t: Tid, i: Sid, step: SessionStage, c: Choice)
    requires t < |s.pcs|
    ensures SessionStep(s, t, i, step, c).connOpen == s.connOpen
  {
  }

  lemma LockStaysOpen(s: State, t: Tid, job: Job)
    requires t < |s.pcs|
    ensures LockStep(s, t, job).connOpen == s.connOpen
  {
  }

  lemma OtherStaysOpen(s: State, m: Move)
    requires Inv(s) && !ClosesNow(s, m) && !DropsNow(s, m)
    ensures Step(s, m.t, m.c).connOpen == s.connOpen
  {
    if m.t < |s.pcs| {
      var pc := s.pcs[m.t];
      if s.logs[m.t] != Quiet || (m.c == Log && MayLog(pc)) {
        assert LogStep(s, m.t).connOpen == s.connOpen;
      } else if m.c == Panic && MayPanic(pc) {
        assert PanicStep(s, m.t, pc.work).connOpen == s.connOpen;
      } else {
        match pc
        case Idle => if m.c.Begin? { BeginStaysOpen(s, m.t, m.c.op); }
        case Wait(job) => LockStaysOpen(s, m.t, job);
        case Held(work) => WorkStaysOpen(s, m.t, work, m.c);
      }
    }
  }

  ghost predicate EndsAt(n: nat, schedule: seq<Move>, k: nat) {
    k < |schedule| && (ClosesNow(Run(Init(n), schedule[..k]), schedule[k]) || DropsNow(Run(Init(n), schedule[..k]), schedule[k]))
  }

  ghost predicate ClosedDuring(n: nat, schedule: seq<Move>) {
    exists k: nat :: EndsAt(n, schedule, k)
  }

  lemma EndsLater(n: nat, before: seq<Move>, m: Move, k: nat)
    ensures EndsAt(n, before + [m], k) <==>
            EndsAt(n, before, k) || (k == |before| && (ClosesNow(Run(Init(n), before), m) || DropsNow(Run(Init(n), before), m)))
  {
    if k <= |before| {
      assert (before + [m])[..k] == before[..k];
      assert before[..|before|] == before;
    }
  }

  lemma ClosedDuringStep(n: nat, before: seq<Move>, m: Move)
    ensures ClosedDuring(n, before + [m]) <==>
            ClosedDuring(n, before) || ClosesNow(Run(Init(n), before), m) || DropsNow(Run(Init(n), before), m)
  {
    forall k: nat { EndsLater(n, before, m, k); }
    if ClosedDuring(n, before) {
      var k: nat :| EndsAt(n, before, k);
      assert EndsAt(n, before + [m], k);
    } else if ClosesNow(Run(Init(n), before), m) || DropsNow(Run(Init(n), before), m) {
      assert EndsAt(n, before + [m], |before|);
    }
  }

  lemma OpenStep(n: nat, before: seq<Move>, m: Move)
    ensures var s := Run(Init(n), before);
            Run(Init(n), before + [m]).connOpen <==> s.connOpen && !ClosesNow(s, m) && !DropsNow(s, m)
  {
    var s := Run(Init(n), before);
    RunInv(n, before);
    assert (before + [m])[..|before|] == before;
    if ClosesNow(s, m) || DropsNow(s, m) {
      CloseStep(s, m);
    } else {
      OtherStaysOpen(s, m);
    }
  }

  lemma ClosedIffStep(n: nat, before: seq<Move>, m: Move)
    requires !Run(Init(n), before).connOpen <==> ClosedDuring(n, before)
    ensures !Run(Init(n), before + [m]).connOpen <==> ClosedDuring(n, before + [m])
  {
    ClosedDuringStep(n, before, m);
    OpenStep(n, before, m);
  }

  /** Over whole runs: the connection is closed if and only if somebody closed it or the resource was dropped. */
  lemma {:induction false} ClosedIff(n: nat, schedule: seq<Move>)
    ensures !Run(Init(n), schedule).connOpen <==> ClosedDuring(n, schedule)
    decreases |schedule|
  {
    if schedule != [] {
      var before, m := schedule[..|schedule| - 1], schedule[|schedule| - 1];
      ClosedIff(n, before);
      ClosedIffStep(n, before, m);
      assert before + [m] == schedule;
    }
  }

  // ---- each call, run alone --------------------------------------------------------------

  /** Thread `t` is idle and nobody holds the connection mutex. */
  ghost predicate Alone(s: State, t: Tid) {
    t < |s.pcs| && t < |s.logs| && s.pcs[t] == Idle && s.logs[t] == Quiet && s.holder.None? && !s.connGone
  }

  /** `k` plain steps of one thread. */
  function Gos(s: State, t: Tid, k: nat): State
    decreases k
  {
    if k == 0 then s else Gos(Step(s, t, Go), t, k - 1)
  }

  lemma GosStep(s: State, t: Tid, k: nat, next: State)
    requires k > 0 && Step(s, t, Go) == next
    ensures Gos(s, t, k) == Gos(next, t, k - 1)
  {
  }

  lemma LastGo(s: State, t: Tid, next: State)
    requires Step(s, t, Go) == next
    ensures Gos(s, t, 1) == next
  {
    GosStep(s, t, 1, next);
  }

  /** Like `s`, with thread `t` at `pc` and the mutex in the hands of `h`. */
  function At(s: State, t: Tid, pc: Pc, h: Option<Tid>): State
    requires t < |s.pcs|
  {
    s.(pcs := s.pcs[t := pc], holder := h)
  }

  lemma BackAt(s: State, t: Tid)
    requires Alone(s, t)
    ensures At(s, t, Idle, None) == s
  {
    assert s.pcs[t := Idle] == s.pcs;
  }

  lemma AtAgain(s: State, t: Tid, pc: Pc, h: Option<Tid>, pc': Pc, h': Option<Tid>)
    requires t < |s.pcs|
    ensures At(At(s, t, pc, h), t, pc', h') == At(s, t, pc', h')
  {
    assert s.pcs[t := pc][t := pc'] == s.pcs[t := pc'];
  }

  /** A queued thread gets the free mutex. */
  lemma GoLock(s: State, t: Tid, job: Job)
    requires Alone(s, t) && !job.ToFree?
    ensures Step(At(s, t, Wait(job), None), t, Go) == At(s, t, LockStep(At(s, t, Wait(job), None), t, job).pcs[t], Some(t))
  {
    var s1 := At(s, t, Wait(job), None);
    var pc := LockStep(s1, t, job).pcs[t];
    assert s1.pcs[t := pc] == s.pcs[t := pc];
  }

  lemma GoRelease(s: State, t: Tid)
    requires Alone(s, t)
    ensures Step(At(s, t, Held(Releasing), Some(t)), t, Go) == s
  {
    var s1 := At(s, t, Held(Releasing), Some(t));
    assert Step(s1, t, Go) == Unlock(s1, t);
    assert s1.pcs[t := Idle] == s.pcs;
  }

  lemma BeginWait(s: State, t: Tid, op: Op, job: Job)
    requires Alone(s, t) && BeginStep(s, t, op) == Goto(s, t, Wait(job))
    ensures Step(s, t, Begin(op)) == At(s, t, Wait(job), None)
  {
  }

  /** close: on a clean lock the connection ends up closed; on a poisoned one nothing changes. */
  lemma CloseConnAlone(n: nat, schedule: seq<Move>, t: Tid)
    requires Alone(Run(Init(n), schedule), t)
    ensures var s := Run(Init(n), schedule); var s1 := Step(s, t, Begin(CloseConn));
            && (s.poisoned ==> Gos(s1, t, 2) == s)
            && (!s.poisoned ==> Closed(s, Gos(s1, t, 3)) && Alone(Gos(s1, t, 3), t))
  {
    var s := Run(Init(n), schedule);
    RunInv(n, schedule);
    AliveIffNotFreed(s);
    var s1, s2 := At(s, t, Wait(ToConn(true)), None), At(s, t, Held(if s.poisoned then Releasing else Conn(true)), Some(t));
    BeginWait(s, t, CloseConn, ToConn(true));
    GoLock(s, t, ToConn(true));
    if s.poisoned {
      GosStep(s1, t, 2, s2);
      GoRelease(s, t);
      LastGo(s2, t, s);
    } else {
      var r := TakeConnection(s);
      CloseWork(s, t);
      GosStep(s1, t, 3, s2);
      GosStep(s2, t, 2, At(r, t, Held(Releasing), Some(t)));
      GoRelease(r, t);
      LastGo(At(r, t, Held(Releasing), Some(t)), t, r);
    }
  }

  lemma CloseWork(s: State, t: Tid)
    requires Alone(s, t)
    ensures Step(At(s, t, Held(Conn(true)), Some(t)), t, Go) == At(TakeConnection(s), t, Held(Releasing), Some(t))
  {
    var s2 := At(s, t, Held(Conn(true)), Some(t));
    assert AnyAlive(s2) == AnyAlive(s);
    assert s2.pcs[t := Held(Releasing)] == s.pcs[t := Held(Releasing)];
  }

  // Streams, statements and blobs.

  /** Resource `r` still holds object `p`. */
  ghost predicate Holds(s: State, r: Rid, p: Ptr) {
    r < |s.cells| && r !in s.dropped && s.cells[r] == Some(p)
  }

  /** Like `s`, with the object swapped out of its cell and settled as `o`. */
  function SwappedOut(s: State, r: Rid, p: Ptr, o: CObject): State
    requires r < |s.cells| && p < |s.objs|
  {
    s.(cells := s.cells[r := None], objs := s.objs[p := o])
  }

  lemma BeginClose(s: State, t: Tid, r: Rid, p: Ptr, drop: bool)
    requires Alone(s, t) && Holds(s, r, p) && p < |s.objs| && s.objs[p].frees == 0 && (drop ==> NoneTouches(s, r))
    ensures Step(s, t, Begin(if drop then Drop(r) else Close(r))) ==
            At(SwappedOut(s, r, p, CObject(0, InFlight(t))), t, Wait(ToFree(p)), None)
              .(dropped := if drop then s.dropped + {r} else s.dropped)
  {
  }

  lemma GoFreeLock(s: State, t: Tid, p: Ptr)
    requires Alone(s, t) && p < |s.objs| && s.objs[p] == CObject(0, InFlight(t))
    ensures Step(At(s, t, Wait(ToFree(p)), None), t, Go) ==
            if s.poisoned then At(s.(objs := s.objs[p := CObject(0, Leaked)]), t, Held(Releasing), Some(t))
            else At(s, t, Held(Freeing(p)), Some(t))
  {
    var s1 := At(s, t, Wait(ToFree(p)), None);
    assert s1.pcs[t := Held(Releasing)] == s.pcs[t := Held(Releasing)];
    assert s1.pcs[t := Held(Freeing(p))] == s.pcs[t := Held(Freeing(p))];
  }

  lemma GoFree(s: State, t: Tid, p: Ptr)
    requires Alone(s, t) && p < |s.objs| && s.objs[p] == CObject(0, InFlight(t)) && s.db != Freed
    ensures Step(At(s, t, Held(Freeing(p)), Some(t)), t, Go) ==
            At(s.(objs := s.objs[p := CObject(1, Gone)]), t, Held(Releasing), Some(t))
  {
    var s1 := At(s, t, Held(Freeing(p)), Some(t));
    assert s1.pcs[t := Held(Releasing)] == s.pcs[t := Held(Releasing)];
  }

  lemma FreeAlone(s: State, t: Tid, p: Ptr)
    requires Alone(s, t) && p < |s.objs| && s.objs[p] == CObject(0, InFlight(t)) && s.db != Freed
    ensures var s1 := At(s, t, Wait(ToFree(p)), None);
            && (s.poisoned ==> Gos(s1, t, 2) == s.(objs := s.objs[p := CObject(0, Leaked)]))
            && (!s.poisoned ==> Gos(s1, t, 3) == s.(objs := s.objs[p := CObject(1, Gone)]))
  {
    var s1 := At(s, t, Wait(ToFree(p)), None);
    GoFreeLock(s, t, p);
    if s.poisoned {
      var r := s.(objs := s.objs[p := CObject(0, Leaked)]);
      GosStep(s1, t, 2, At(r, t, Held(Releasing), Some(t)));
      GoRelease(r, t);
      LastGo(At(r, t, Held(Releasing), Some(t)), t, r);
    } else {
      GosStep(s1, t, 3, At(s, t, Held(Freeing(p)), Some(t)));
      FreeingAlone(s, t, p);
    }
  }

  lemma FreeingAlone(s: State, t: Tid, p: Ptr)
    requires Alone(s, t) && p < |s.objs| && s.objs[p] == CObject(0, InFlight(t)) && s.db != Freed
    ensures Gos(At(s, t, Held(Freeing(p)), Some(t)), t, 2) == s.(objs := s.objs[p := CObject(1, Gone)])
  {
    var r := s.(objs := s.objs[p := CObject(1, Gone)]);
    GoFree(s, t, p);
    GosStep(At(s, t, Held(Freeing(p)), Some(t)), t, 2, At(r, t, Held(Releasing), Some(t)));
    GoRelease(r, t);
    LastGo(At(r, t, Held(Releasing), Some(t)), t, r);
  }

  lemma HeldObject(s: State, r: Rid, p: Ptr)
    requires Inv(s) && Holds(s, r, p)
    ensures p < |s.objs| && s.objs[p].frees == 0 && s.db != Freed
  {
    assert CellInv(s, r) && Located(s, p);
    assert Alive(s, p);
  }

  /** Closing or dropping a stream, statement or blob: the cell is empty afterwards; the object is freed on a clean
      lock and leaked on a poisoned one; nothing else changes. */
  lemma CloseAlone(n: nat, schedule: seq<Move>, t: Tid, r: Rid, p: Ptr, drop: bool)
    requires var s := Run(Init(n), schedule); Alone(s, t) && Holds(s, r, p) && (drop ==> NoneTouches(s, r))
    ensures var s := Run(Init(n), schedule); var s1 := Step(s, t, Begin(if drop then Drop(r) else Close(r)));
            var dropped := if drop then s.dropped + {r} else s.dropped;
            && p < |s.objs|
            && (s.poisoned ==> Gos(s1, t, 2) == SwappedOut(s, r, p, CObject(0, Leaked)).(dropped := dropped))
            && (!s.poisoned ==> Gos(s1, t, 3) == SwappedOut(s, r, p, CObject(1, Gone)).(dropped := dropped))
  {
    var s := Run(Init(n), schedule);
    RunInv(n, schedule);
    HeldObject(s, r, p);
    BeginClose(s, t, r, p, drop);
    var mid := SwappedOut(s, r, p, CObject(0, InFlight(t))).(dropped := if drop then s.dropped + {r} else s.dropped);
    FreeAlone(mid, t, p);
    assert mid.objs[p := CObject(0, Leaked)] == s.objs[p := CObject(0, Leaked)];
    assert mid.objs[p := CObject(1, Gone)] == s.objs[p := CObject(1, Gone)];
  }

  lemma GoHandle(s: State, t: Tid, r: Rid, stage: HandleStage, c: Choice, work: Work)
    requires Alone(s, t) && c != Log && c != Panic
    requires HandleStep(At(s, t, Held(Handle(r, stage)), Some(t)), t, r, stage, c) == Goto(At(s, t, Held(Handle(r, stage)), Some(t)), t, Held(work))
    ensures Step(At(s, t, Held(Handle(r, stage)), Some(t)), t, c) == At(s, t, Held(work), Some(t))
  {
    AtAgain(s, t, Held(Handle(r, stage)), Some(t), Held(work), Some(t));
  }

  /** Using a statement or blob: on a clean lock, an open connection and a full cell the thread gets to pass exactly
      that object to SQLite; in every other case it is back after nothing has changed. */
  lemma UseAlone(n: nat, schedule: seq<Move>, t: Tid, r: Rid)
    requires var s := Run(Init(n), schedule); Alone(s, t) && r < |s.cells| && r !in s.dropped
    ensures var s := Run(Init(n), schedule); var s1 := Step(s, t, Begin(Use(r)));
            && (s.poisoned ==> Gos(s1, t, 2) == s)
            && (!s.poisoned && !s.connOpen ==> Gos(s1, t, 3) == s)
            && (!s.poisoned && s.connOpen && s.cells[r].None? ==> Gos(s1, t, 4) == s)
            && (!s.poisoned && s.connOpen && s.cells[r].Some? ==>
                  Gos(s1, t, 3) == At(s, t, Held(Handle(r, Using(s.cells[r].value))), Some(t)))
  {
    var s := Run(Init(n), schedule);
    var s1, idle := At(s, t, Wait(ToUse(r)), None), At(s, t, Held(Releasing), Some(t));
    BeginWait(s, t, Use(r), ToUse(r));
    GoLock(s, t, ToUse(r));
    GoRelease(s, t);
    LastGo(idle, t, s);
    if s.poisoned {
      GosStep(s1, t, 2, idle);
    } else {
      var s2 := At(s, t, Held(Handle(r, UseLocked)), Some(t));
      GosStep(s1, t, 3, s2);
      GosStep(s1, t, 4, s2);
      LockedAlone(s, t, r);
    }
  }

  lemma LockedAlone(s: State, t: Tid, r: Rid)
    requires Alone(s, t) && r < |s.cells|
    ensures var s2 := At(s, t, Held(Handle(r, UseLocked)), Some(t));
            && (!s.connOpen ==> Gos(s2, t, 2) == s)
            && (s.connOpen && s.cells[r].None? ==> Gos(s2, t, 3) == s)
            && (s.connOpen && s.cells[r].Some? ==> Gos(s2, t, 2) == At(s, t, Held(Handle(r, Using(s.cells[r].value))), Some(t)))
  {
    var s2, idle := At(s, t, Held(Handle(r, UseLocked)), Some(t)), At(s, t, Held(Releasing), Some(t));
    GoRelease(s, t);
    LastGo(idle, t, s);
    if !s.connOpen {
      GoHandle(s, t, r, UseLocked, Go, Releasing);
      GosStep(s2, t, 2, idle);
    } else {
      var s3 := At(s, t, Held(Handle(r, UseOpen)), Some(t));
      GoHandle(s, t, r, UseLocked, Go, Handle(r, UseOpen));
      GosStep(s2, t, 2, s3);
      GosStep(s2, t, 3, s3);
      if s.cells[r].None? {
        GoHandle(s, t, r, UseOpen, Go, Releasing);
        GosStep(s3, t, 2, idle);
      } else {
        GoHandle(s, t, r, UseOpen, Go, Handle(r, Using(s.cells[r].value)));
        LastGo(s3, t, At(s, t, Held(Handle(r, Using(s.cells[r].value))), Some(t)));
      }
    }
  }

  lemma GoSwap(s: State, t: Tid, r: Rid, p: Ptr, stage: HandleStage)
    requires Alone(s, t) && Holds(s, r, p) && p < |s.objs| && s.objs[p].frees == 0 && (stage.FetchEnding? || stage.FetchPoisoned?)
    ensures Step(At(s, t, Held(Handle(r, stage)), Some(t)), t, Go) ==
            At(SwappedOut(s, r, p, CObject(0, InFlight(t))), t, Held(Freeing(p)), Some(t))
  {
    var s1 := At(s, t, Held(Handle(r, stage)), Some(t));
    assert s1.pcs[t := Held(Freeing(p))] == s.pcs[t := Held(Freeing(p))];
  }

  lemma SwapAlone(s: State, t: Tid, r: Rid, p: Ptr, stage: HandleStage)
    requires Alone(s, t) && Holds(s, r, p) && p < |s.objs| && s.objs[p].frees == 0 && s.db != Freed
    requires stage.FetchEnding? || stage.FetchPoisoned?
    ensures Gos(At(s, t, Held(Handle(r, stage)), Some(t)), t, 3) == SwappedOut(s, r, p, CObject(1, Gone))
  {
    var mid := SwappedOut(s, r, p, CObject(0, InFlight(t)));
    GoSwap(s, t, r, p, stage);
    GosStep(At(s, t, Held(Handle(r, stage)), Some(t)), t, 3, At(mid, t, Held(Freeing(p)), Some(t)));
    FreeingAlone(mid, t, p);
    assert mid.objs[p := CObject(1, Gone)] == s.objs[p := CObject(1, Gone)];
  }

  /** Fetching: on a clean lock and an open connection the stream's own statement is passed to SQLite, and a step that
      does not yield a row frees it and empties the cell; on a poisoned lock the same happens at once; on a closed
      connection nothing changes. */
  lemma FetchAlone(n: nat, schedule: seq<Move>, t: Tid, r: Rid, p: Ptr)
    requires var s := Run(Init(n), schedule); Alone(s, t) && Holds(s, r, p)
    ensures var s := Run(Init(n), schedule); var s1 := Step(s, t, Begin(Fetch(r)));
            && p < |s.objs|
            && (s.poisoned ==> Gos(s1, t, 4) == SwappedOut(s, r, p, CObject(1, Gone)))
            && (!s.poisoned && !s.connOpen ==> Gos(s1, t, 3) == s)
            && (!s.poisoned && s.connOpen ==>
                  var loaded := Step(Gos(s1, t, 2), t, Again);
                  && loaded == At(s, t, Held(Handle(r, FetchLoaded(p))), Some(t))
                  && Gos(loaded, t, 4) == SwappedOut(s, r, p, CObject(1, Gone)))
  {
    var s := Run(Init(n), schedule);
    RunInv(n, schedule);
    HeldObject(s, r, p);
    var s1 := At(s, t, Wait(ToFetch(r)), None);
    BeginWait(s, t, Fetch(r), ToFetch(r));
    GoLock(s, t, ToFetch(r));
    if s.poisoned {
      GosStep(s1, t, 4, At(s, t, Held(Handle(r, FetchPoisoned)), Some(t)));
      SwapAlone(s, t, r, p, FetchPoisoned);
    } else {
      var s2 := At(s, t, Held(Handle(r, FetchLocked)), Some(t));
      GosStep(s1, t, 3, s2);
      GosStep(s1, t, 2, s2);
      FetchLockedAlone(s, t, r, p);
    }
  }

  lemma FetchLockedAlone(s: State, t: Tid, r: Rid, p: Ptr)
    requires Alone(s, t) && Holds(s, r, p) && p < |s.objs| && s.objs[p].frees == 0 && s.db != Freed
    ensures var s2 := At(s, t, Held(Handle(r, FetchLocked)), Some(t));
            && (!s.connOpen ==> Gos(s2, t, 2) == s)
            && (s.connOpen ==>
                  var loaded := Step(Gos(s2, t, 1), t, Again);
                  && loaded == At(s, t, Held(Handle(r, FetchLoaded(p))), Some(t))
                  && Gos(loaded, t, 4) == SwappedOut(s, r, p, CObject(1, Gone)))
  {
    var s2, idle := At(s, t, Held(Handle(r, FetchLocked)), Some(t)), At(s, t, Held(Releasing), Some(t));
    if s.connOpen {
      GoHandle(s, t, r, FetchLocked, Go, Handle(r, FetchLoop));
      LastGo(s2, t, At(s, t, Held(Handle(r, FetchLoop)), Some(t)));
      GoHandle(s, t, r, FetchLoop, Again, Handle(r, FetchLoaded(p)));
      LoadedAlone(s, t, r, p);
    } else {
      GoHandle(s, t, r, FetchLocked, Go, Releasing);
      GosStep(s2, t, 2, idle);
      GoRelease(s, t);
      LastGo(idle, t, s);
    }
  }

  lemma LoadedAlone(s: State, t: Tid, r: Rid, p: Ptr)
    requires Alone(s, t) && Holds(s, r, p) && p < |s.objs| && s.objs[p].frees == 0 && s.db != Freed
    ensures Gos(At(s, t, Held(Handle(r, FetchLoaded(p))), Some(t)), t, 4) == SwappedOut(s, r, p, CObject(1, Gone))
  {
    GoHandle(s, t, r, FetchLoaded(p), Go, Handle(r, FetchEnding));
    GosStep(At(s, t, Held(Handle(r, FetchLoaded(p))), Some(t)), t, 4, At(s, t, Held(Handle(r, FetchEnding)), Some(t)));
    SwapAlone(s, t, r, p, FetchEnding);
  }

  // Sessions.

  /** Like `s`, with thread `t` at this stage of session `i`, which is `x`. */
  function InStage(s: State, t: Tid, i: Sid, step: SessionStage, x: Session): State
    requires t < |s.pcs| && i < |s.sessions|
  {
    At(s.(sessions := s.sessions[i := x]), t, Held(Sess(i, step)), Some(t))
  }

  lemma GoSession(s: State, t: Tid, i: Sid, step: SessionStage, x: Session, step': SessionStage, x': Session)
    requires Alone(s, t) && i < |s.sessions|
    requires SessionStep(InStage(s, t, i, step, x), t, i, step, Go) ==
             SetSession(Goto(InStage(s, t, i, step, x), t, Held(Sess(i, step'))), i, x')
    ensures Step(InStage(s, t, i, step, x), t, Go) == InStage(s, t, i, step', x')
  {
    var a := InStage(s, t, i, step, x);
    assert a.pcs[t := Held(Sess(i, step'))] == s.pcs[t := Held(Sess(i, step'))];
    assert a.sessions[i := x'] == s.sessions[i := x'];
  }

  lemma GoSessionEnd(s: State, t: Tid, i: Sid, x: Session)
    requires Alone(s, t) && i < |s.sessions|
    ensures Gos(InStage(s, t, i, SRelease, x), t, 2) == s.(sessions := s.sessions[i := x.(holder := None)])
  {
    var a, r := InStage(s, t, i, SRelease, x), s.(sessions := s.sessions[i := x.(holder := None)]);
    assert a.pcs[t := Held(Releasing)] == s.pcs[t := Held(Releasing)];
    assert a.sessions[i := x.(holder := None)] == r.sessions;
    GosStep(a, t, 2, At(r, t, Held(Releasing), Some(t)));
    GoRelease(r, t);
    LastGo(At(r, t, Held(Releasing), Some(t)), t, r);
  }

  /** The closer's four steps from the session mutex to the decision. */
  lemma TakenAlone(s: State, t: Tid, i: Sid, ok: bool, x: Session)
    requires Alone(s, t) && i < |s.sessions| && x.holder.None? && x.present && x.obj == SLive && (s.connOpen <==> s.db == Open)
    ensures Gos(InStage(s, t, i, CWant(ok), x), t, 5) ==
            s.(sessions := s.sessions[i := x.(present := false, obj := if ok && s.connOpen then SDeleted else SForgotten)])
  {
    var a, b := x.(holder := Some(t)), x.(holder := Some(t), present := false);
    var c := b.(obj := if ok && s.connOpen then SDeleted else SForgotten);
    GoSession(s, t, i, CWant(ok), x, CIn(ok), a);
    GosStep(InStage(s, t, i, CWant(ok), x), t, 5, InStage(s, t, i, CIn(ok), a));
    GoSession(s, t, i, CIn(ok), a, CTaken(ok), b);
    GosStep(InStage(s, t, i, CIn(ok), a), t, 4, InStage(s, t, i, CTaken(ok), b));
    GoDecide(s, t, i, ok, b);
    GosStep(InStage(s, t, i, CTaken(ok), b), t, 3, InStage(s, t, i, SRelease, c));
    GoSessionEnd(s, t, i, c);
  }

  lemma GoDecide(s: State, t: Tid, i: Sid, ok: bool, x: Session)
    requires Alone(s, t) && i < |s.sessions| && x.obj == SLive && (s.connOpen <==> s.db == Open)
    ensures Step(InStage(s, t, i, CTaken(ok), x), t, Go) ==
            InStage(s, t, i, SRelease, x.(obj := if ok && s.connOpen then SDeleted else SForgotten))
  {
    var a := InStage(s, t, i, CTaken(ok), x);
    assert a.sessions[i] == x;
    GoSession(s, t, i, CTaken(ok), x, SRelease, x.(obj := if ok && s.connOpen then SDeleted else SForgotten));
  }

  /** Closing or dropping a session whose value is still there: the value is taken, and it is deleted on a clean lock
      and an open connection and forgotten otherwise; nothing else changes. */
  lemma CloseSessionAlone(n: nat, schedule: seq<Move>, t: Tid, i: Sid, drop: bool)
    requires var s := Run(Init(n), schedule);
             && Alone(s, t) && i < |s.sessions| && s.sessions[i].dropper.None? && s.sessions[i].present
             && (drop ==> NoneTouchesSession(s, i))
    ensures var s := Run(Init(n), schedule); var x := s.sessions[i];
            Gos(Step(s, t, Begin(if drop then DropSession(i) else CloseSession(i))), t, 6) ==
            s.(sessions := s.sessions[i := x.(present := false,
                                              obj := if !s.poisoned && s.connOpen then SDeleted else SForgotten,
                                              dropper := if drop then Some(t) else None)])
  {
    var s := Run(Init(n), schedule);
    RunInv(n, schedule);
    SessionFree(s, i);
    var x := s.sessions[i].(dropper := if drop then Some(t) else None);
    var q := s.(sessions := s.sessions[i := x]);
    BeginCloseSession(s, t, i, drop);
    GoLock(q, t, ToSession(i, true));
    GosStep(At(q, t, Wait(ToSession(i, true)), None), t, 6, InStage(s, t, i, CWant(!s.poisoned), x));
    TakenAlone(s, t, i, !s.poisoned, x);
  }

  lemma BeginCloseSession(s: State, t: Tid, i: Sid, drop: bool)
    requires Alone(s, t) && i < |s.sessions| && s.sessions[i].dropper.None? && (drop ==> NoneTouchesSession(s, i))
    ensures Step(s, t, Begin(if drop then DropSession(i) else CloseSession(i))) ==
            At(s.(sessions := s.sessions[i := s.sessions[i].(dropper := if drop then Some(t) else None)]), t, Wait(ToSession(i, true)), None)
  {
    if !drop { assert s.sessions[i := s.sessions[i].(dropper := None)] == s.sessions; }
  }

  lemma SessionFree(s: State, i: Sid)
    requires Inv(s) && s.holder.None? && i < |s.sessions|
    ensures s.sessions[i].holder.None? && (s.sessions[i].present ==> s.sessions[i].obj == SLive) && (s.connOpen <==> s.db == Open)
  {
    assert SessionInv(s, i);
  }

  /** Using a session: on clean locks, an open connection and a value that is still there the thread gets to call
      SQLite on it. */
  lemma UseSessionAlone(n: nat, schedule: seq<Move>, t: Tid, i: Sid)
    requires var s := Run(Init(n), schedule);
             && Alone(s, t) && i < |s.sessions| && s.sessions[i].dropper.None? && s.sessions[i].present
             && !s.poisoned && s.connOpen && !s.sessions[i].poisoned
    ensures var s := Run(Init(n), schedule);
            Gos(Step(s, t, Begin(UseSession(i))), t, 4) == InStage(s, t, i, SUsing, s.sessions[i].(holder := Some(t)))
  {
    var s := Run(Init(n), schedule);
    RunInv(n, schedule);
    SessionFree(s, i);
    var x := s.sessions[i];
    assert s.sessions[i := x] == s.sessions;
    BeginWait(s, t, UseSession(i), ToSession(i, false));
    GoLock(s, t, ToSession(i, false));
    GosStep(At(s, t, Wait(ToSession(i, false)), None), t, 4, InStage(s, t, i, SLocked, x));
    SessionEntered(s, t, i, x);
  }

  lemma SessionEntered(s: State, t: Tid, i: Sid, x: Session)
    requires Alone(s, t) && i < |s.sessions| && x.holder.None? && x.present && !x.poisoned && s.connOpen
    ensures Gos(InStage(s, t, i, SLocked, x), t, 3) == InStage(s, t, i, SUsing, x.(holder := Some(t)))
  {
    var y := x.(holder := Some(t));
    StaySession(InStage(s, t, i, SLocked, x), t, i, SWant);
    GoSession(s, t, i, SLocked, x, SWant, x);
    GosStep(InStage(s, t, i, SLocked, x), t, 3, InStage(s, t, i, SWant, x));
    GoSession(s, t, i, SWant, x, SIn, y);
    GosStep(InStage(s, t, i, SWant, x), t, 2, InStage(s, t, i, SIn, y));
    StaySession(InStage(s, t, i, SIn, y), t, i, SUsing);
    GoSession(s, t, i, SIn, y, SUsing, y);
    LastGo(InStage(s, t, i, SIn, y), t, InStage(s, t, i, SUsing, y));
  }

  lemma StaySession(s: State, t: Tid, i: Sid, step: SessionStage)
    requires t < |s.pcs| && i < |s.sessions|
    ensures SetSession(Goto(s, t, Held(Sess(i, step))), i, s.sessions[i]) == Goto(s, t, Held(Sess(i, step)))
  {
    assert s.sessions[i := s.sessions[i]] == s.sessions;
  }

  // The connection.

  /** What a call under the connection guard creates. */
  function Created(s: State, c: Choice): State {
    match c
    case StoreObject => s.(objs := s.objs + [CObject(0, InCell(|s.cells|))], cells := s.cells + [Some(|s.objs|)])
    case StoreNull => s.(cells := s.cells + [None])
    case StrayObject => s.(objs := s.objs + [CObject(0, Stray)])
    case NewSession => s.(sessions := s.sessions + [Session(true, SLive, None, false, None)])
    case _ => s
  }

  /** with_conn: on a clean lock and an open connection the thread gets to call SQLite, and what it opens is there
      afterwards; on a closed connection nothing is created. */
  lemma WithConnAlone(n: nat, schedule: seq<Move>, t: Tid, c: Choice)
    requires Alone(Run(Init(n), schedule), t) && !Run(Init(n), schedule).poisoned && c != Log && c != Panic
    ensures var s := Run(Init(n), schedule); var held := Gos(Step(s, t, Begin(WithConn)), t, 1);
            && held == At(s, t, Held(Conn(false)), Some(t))
            && Gos(Step(held, t, c), t, 1) == if s.connOpen then Created(s, c) else s
  {
    var s := Run(Init(n), schedule);
    RunInv(n, schedule);
    var s1, s2 := At(s, t, Wait(ToConn(false)), None), At(s, t, Held(Conn(false)), Some(t));
    var r := if s.connOpen then Created(s, c) else s;
    BeginWait(s, t, WithConn, ToConn(false));
    GoLock(s, t, ToConn(false));
    LastGo(s1, t, s2);
    GoConn(s, t, c);
    GoRelease(r, t);
    LastGo(At(r, t, Held(Releasing), Some(t)), t, r);
  }

  lemma GoConn(s: State, t: Tid, c: Choice)
    requires Alone(s, t) && c != Log && c != Panic && (s.connOpen <==> s.db == Open)
    ensures Step(At(s, t, Held(Conn(false)), Some(t)), t, c) ==
            At(if s.connOpen then Created(s, c) else s, t, Held(Releasing), Some(t))
  {
    var s2 := At(s, t, Held(Conn(false)), Some(t));
    assert s2.pcs[t := Held(Releasing)] == s.pcs[t := Held(Releasing)];
    assert Step(s2, t, c) == ConnStep(s2, t, false, c);
  }
}
