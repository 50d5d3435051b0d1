/** How each C object ends: which step of a run frees it, which one leaks it, and that nothing else does. */
module LifecycleFates {
  import opened Common
  import opened Lifecycle
  import opened LifecycleInvariant
  import opened LifecycleTheorems

  /** A closer that had swapped `p` out takes the connection mutex and finds it poisoned. */
  predicate Leaks(s: State, m: Move, p: Ptr) {
    m.t < |s.pcs| && s.pcs[m.t] == Wait(ToFree(p)) && s.holder.None? && s.poisoned
  }

  /** The guard holder makes the finalize or close call on `p`. */
  predicate Frees(s: State, m: Move, p: Ptr) {
    m.t < |s.pcs| && m.t < |s.logs| && s.pcs[m.t] == Held(Freeing(p)) && s.logs[m.t] == Quiet && m.c != Log
  }

  /** Objects with fates that they did not have in `s` got them from move `m`. */
  ghost predicate Caused(s: State, m: Move, r: State) {
    forall p: Ptr :: p < |r.objs| ==>
      && (r.objs[p].loc == Leaked ==> (p < |s.objs| && s.objs[p].loc == Leaked) || Leaks(s, m, p))
      && (r.objs[p].loc == Gone ==> (p < |s.objs| && s.objs[p].loc == Gone) || Frees(s, m, p))
  }

  /** Steps that free and leak nothing. */
  ghost predicate Fateless(s: State, r: State) {
    forall p: Ptr :: p < |r.objs| ==>
      || (p < |s.objs| && r.objs[p] == s.objs[p])
      || (r.objs[p].loc != Leaked && r.objs[p].loc != Gone)
  }

  lemma SwapFateless(s: State, t: Tid, r: Rid, held: bool)
    requires t < |s.pcs| && r < |s.cells|
    ensures Fateless(s, SwapOut(s, t, r, held))
  {
  }

  lemma BeginFateless(s: State, t: Tid, op: Op)
    requires t < |s.pcs|
    ensures Fateless(s, BeginStep(s, t, op))
  {
    var s' := BeginStep(s, t, op);
    if op.Close? || op.Drop? {
      if op.r < |s.cells| { SwapFateless(s, t, op.r, false); }
    } else {
      assert s'.objs == s.objs;
    }
  }

  lemma HandleFateless(s: State, t: Tid, r: Rid, stage: HandleStage, c: Choice)
    requires t < |s.pcs|
    ensures Fateless(s, HandleStep(s, t, r, stage, c))
  {
    if (stage.FetchPoisoned? || stage.FetchEnding?) && r < |s.cells| {
      SwapFateless(s, t, r, true);
    } else {
      assert HandleStep(s, t, r, stage, c).objs == s.objs;
    }
  }

  lemma ConnFateless(s: State, t: Tid, closing: bool, c: Choice)
    requires t < |s.pcs|
    ensures Fateless(s, ConnStep(s, t, closing, c))
  {
  }

  lemma SessionFateless(s: State, t: Tid, i: Sid, step: SessionStage, c: Choice)
    requires t < |s.pcs|
    ensures Fateless(s, SessionStep(s, t, i, step, c))
  {
    assert SessionStep(s, t, i, step, c).objs == s.objs;
  }

  lemma WorkCaused(s: State, m: Move, work: Work)
    requires m.t < |s.pcs| && m.t < |s.logs| && s.pcs[m.t] == Held(work) && s.logs[m.t] == Quiet
    requires work.Freeing? ==> m.c != Log
    ensures Caused(s, m, WorkStep(s, m.t, work, m.c))
  {
    match work
    case Releasing => assert WorkStep(s, m.t, work, m.c).objs == s.objs;
    case Freeing(p) =>
    case Handle(r, stage) => HandleFateless(s, m.t, r, stage, m.c);
    case Conn(closing) => ConnFateless(s, m.t, closing, m.c);
    case Sess(i, step) => SessionFateless(s, m.t, i, step, m.c);
  }

  lemma LockCaused(s: State, m: Move, job: Job)
    requires m.t < |s.pcs| && s.pcs[m.t] == Wait(job)
    ensures Caused(s, m, LockStep(s, m.t, job))
  {
    if !job.ToFree? || s.holder.Some? || !s.poisoned {
      assert LockStep(s, m.t, job).objs == s.objs;
    }
  }

  lemma StepCaused(s: State, m: Move)
    requires Inv(s)
    ensures Caused(s, m, Step(s, m.t, m.c))
  {
    if m.t < |s.pcs| {
      var pc := s.pcs[m.t];
      if s.logs[m.t] != Quiet || (m.c == Log && MayLog(pc)) {
        assert LogStep(s, m.t).objs == s.objs;
      } else if m.c == Panic && MayPanic(pc) {
        assert PanicStep(s, m.t, pc.work).objs == s.objs;
      } else {
        match pc
        case Idle => if m.c.Begin? { BeginFateless(s, m.t, m.c.op); }
        case Wait(job) => LockCaused(s, m, job);
        case Held(work) => WorkCaused(s, m, work);
      }
    }
  }

  /** The move itself is enough: a closer that finds the lock poisoned leaks, the guard holder frees. */
  lemma LeakHappens(s: State, m: Move, p: Ptr)
    requires Inv(s) && Leaks(s, m, p)
    ensures p < |s.objs| && p < |Step(s, m.t, m.c).objs| && Step(s, m.t, m.c).objs[p] == CObject(0, Leaked)
  {
    assert LocalInv(s, m.t) && Located(s, p);
    assert Step(s, m.t, m.c) == LockStep(s, m.t, ToFree(p));
  }

  lemma FreeHappens(s: State, m: Move, p: Ptr)
    requires Inv(s) && Frees(s, m, p)
    ensures p < |s.objs| && p < |Step(s, m.t, m.c).objs| && Step(s, m.t, m.c).objs[p] == CObject(1, Gone)
  {
    assert LocalInv(s, m.t) && Located(s, p);
    assert Step(s, m.t, m.c) == WorkStep(s, m.t, Freeing(p), m.c);
  }

  ghost predicate LeaksAt(n: nat, schedule: seq<Move>, k: nat, p: Ptr) {
    k < |schedule| && Leaks(Run(Init(n), schedule[..k]), schedule[k], p)
  }

  ghost predicate FreesAt(n: nat, schedule: seq<Move>, k: nat, p: Ptr) {
    k < |schedule| && Frees(Run(Init(n), schedule[..k]), schedule[k], p)
  }

  ghost predicate LeakedDuring(n: nat, schedule: seq<Move>, p: Ptr) {
    exists k: nat :: LeaksAt(n, schedule, k, p)
  }

  ghost predicate FreedDuring(n: nat, schedule: seq<Move>, p: Ptr) {
    exists k: nat :: FreesAt(n, schedule, k, p)
  }

  lemma SameMoves(n: nat, before: seq<Move>, m: Move, k: nat, p: Ptr)
    ensures LeaksAt(n, before + [m], k, p) <==> LeaksAt(n, before, k, p) || (k == |before| && Leaks(Run(Init(n), before), m, p))
    ensures FreesAt(n, before + [m], k, p) <==> FreesAt(n, before, k, p) || (k == |before| && Frees(Run(Init(n), before), m, p))
  {
    if k <= |before| {
      assert (before + [m])[..k] == before[..k];
      assert before[..|before|] == before;
    }
  }

  lemma LeakedStep(n: nat, before: seq<Move>, m: Move, p: Ptr)
    ensures LeakedDuring(n, before + [m], p) <==> LeakedDuring(n, before, p) || Leaks(Run(Init(n), before), m, p)
  {
    forall k: nat { SameMoves(n, before, m, k, p); }
    if LeakedDuring(n, before, p) {
      var k: nat :| LeaksAt(n, before, k, p);
      assert LeaksAt(n, before + [m], k, p);
    } else if Leaks(Run(Init(n), before), m, p) {
      assert LeaksAt(n, before + [m], |before|, p);
    }
  }

  lemma FreedStep(n: nat, before: seq<Move>, m: Move, p: Ptr)
    ensures FreedDuring(n, before + [m], p) <==> FreedDuring(n, before, p) || Frees(Run(Init(n), before), m, p)
  {
    forall k: nat { SameMoves(n, before, m, k, p); }
    if FreedDuring(n, before, p) {
      var k: nat :| FreesAt(n, before, k, p);
      assert FreesAt(n, before + [m], k, p);
    } else if Frees(Run(Init(n), before), m, p) {
      assert FreesAt(n, before + [m], |before|, p);
    }
  }

  /** The exact condition over whole runs: an object is leaked if and only if some closer that had taken it
      out of its cell found the connection mutex poisoned, and freed if and only if a guard holder made the
      call. */
  lemma {:induction false} FateIff(n: nat, schedule: seq<Move>, p: Ptr)
    ensures p < |Run(Init(n), schedule).objs| && Run(Init(n), schedule).objs[p].loc == Leaked <==> LeakedDuring(n, schedule, p)
    ensures p < |Run(Init(n), schedule).objs| && Run(Init(n), schedule).objs[p].loc == Gone <==> FreedDuring(n, schedule, p)
    decreases |schedule|
  {
    if schedule != [] {
      var before, m := schedule[..|schedule| - 1], schedule[|schedule| - 1];
      FateIff(n, before, p);
      LeakedStep(n, before, m, p);
      FreedStep(n, before, m, p);
      FateStep(n, before, m, p);
      assert before + [m] == schedule;
    }
  }

  lemma FateStep(n: nat, before: seq<Move>, m: Move, p: Ptr)
    ensures var s, s' := Run(Init(n), before), Run(Init(n), before + [m]);
            && (p < |s'.objs| && s'.objs[p].loc == Leaked <==> (p < |s.objs| && s.objs[p].loc == Leaked) || Leaks(s, m, p))
            && (p < |s'.objs| && s'.objs[p].loc == Gone <==> (p < |s.objs| && s.objs[p].loc == Gone) || Frees(s, m, p))
  {
    var s := Run(Init(n), before);
    assert (before + [m])[..|before|] == before;
    RunInv(n, before);
    StepCaused(s, m);
    StepKeeps(s, m.t, m.c);
    if Leaks(s, m, p) { LeakHappens(s, m, p); }
    if Frees(s, m, p) { FreeHappens(s, m, p); }
  }

  /** What is settled is settled in every continuation of the run. */
  lemma SettledForGood(n: nat, before: seq<Move>, after: seq<Move>, p: Ptr)
    requires p < |Run(Init(n), before).objs|
    requires var loc := Run(Init(n), before).objs[p].loc; loc == Leaked || loc == Gone || loc == Stray
    ensures p < |Run(Init(n), before + after).objs| && Run(Init(n), before + after).objs[p] == Run(Init(n), before).objs[p]
  {
    RunExtends(n, before, after);
  }

  lemma RunSnoc(n: nat, schedule: seq<Move>, m: Move)
    ensures Run(Init(n), schedule + [m]) == Step(Run(Init(n), schedule), m.t, m.c)
  {
    assert (schedule + [m])[..|schedule|] == schedule;
  }

  /** A closer waits for the connection mutex with `p` in its hands, and the mutex is free. */
  ghost predicate ReadyToClose(s: State, t: Tid, p: Ptr) {
    t < |s.pcs| && s.pcs[t] == Wait(ToFree(p)) && s.holder.None?
  }

  lemma PoisonedClose(n: nat, schedule: seq<Move>, t: Tid, p: Ptr)
    requires ReadyToClose(Run(Init(n), schedule), t, p) && Run(Init(n), schedule).poisoned
    ensures var r := Run(Init(n), schedule + [Move(t, Go)]); p < |r.objs| && r.objs[p] == CObject(0, Leaked)
  {
    RunInv(n, schedule);
    RunSnoc(n, schedule, Move(t, Go));
    LeakHappens(Run(Init(n), schedule), Move(t, Go), p);
  }

  lemma CleanLock(s: State, t: Tid, p: Ptr)
    requires Inv(s) && ReadyToClose(s, t, p) && !s.poisoned
    ensures Frees(Step(s, t, Go), Move(t, Go), p)
  {
    assert s.logs[t] == Quiet;
  }

  lemma CleanClose(n: nat, schedule: seq<Move>, t: Tid, p: Ptr)
    requires ReadyToClose(Run(Init(n), schedule), t, p) && !Run(Init(n), schedule).poisoned
    ensures var r := Run(Init(n), schedule + [Move(t, Go)] + [Move(t, Go)]); p < |r.objs| && r.objs[p] == CObject(1, Gone)
  {
    var m := Move(t, Go);
    RunInv(n, schedule);
    RunSnoc(n, schedule, m);
    CleanLock(Run(Init(n), schedule), t, p);
    RunInv(n, schedule + [m]);
    RunSnoc(n, schedule + [m], m);
    FreeHappens(Run(Init(n), schedule + [m]), m, p);
  }

  /** Object `p` is `o` after the schedule. */
  ghost predicate Ends(n: nat, schedule: seq<Move>, p: Ptr, o: CObject) {
    p < |Run(Init(n), schedule).objs| && Run(Init(n), schedule).objs[p] == o
  }

  lemma EndsForGood(n: nat, before: seq<Move>, after: seq<Move>, whole: seq<Move>, p: Ptr, o: CObject)
    requires Ends(n, before, p, o) && (o.loc == Leaked || o.loc == Gone) && whole == before + after
    ensures Ends(n, whole, p, o)
  {
    SettledForGood(n, before, after, p);
  }

  lemma PoisonedFate(n: nat, schedule: seq<Move>, t: Tid, p: Ptr, whole: seq<Move>)
    requires ReadyToClose(Run(Init(n), schedule), t, p) && Run(Init(n), schedule).poisoned
    requires schedule + [Move(t, Go)] <= whole
    ensures Ends(n, whole, p, CObject(0, Leaked))
  {
    var start := schedule + [Move(t, Go)];
    PoisonedClose(n, schedule, t, p);
    EndsForGood(n, start, whole[|start|..], whole, p, CObject(0, Leaked));
  }

  lemma CleanFate(n: nat, schedule: seq<Move>, t: Tid, p: Ptr, whole: seq<Move>)
    requires ReadyToClose(Run(Init(n), schedule), t, p) && !Run(Init(n), schedule).poisoned
    requires schedule + [Move(t, Go)] + [Move(t, Go)] <= whole
    ensures Ends(n, whole, p, CObject(1, Gone))
  {
    var start := schedule + [Move(t, Go)] + [Move(t, Go)];
    CleanClose(n, schedule, t, p);
    EndsForGood(n, start, whole[|start|..], whole, p, CObject(1, Gone));
  }

  /** Only thread `u` has moved. */
  ghost predicate OnlyMoves(s: State, r: State, u: Tid)
    requires u < |s.pcs|
  {
    |r.pcs| == |s.pcs| && r.pcs == s.pcs[u := r.pcs[u]]
  }

  lemma BeginMovesOne(s: State, u: Tid, op: Op)
    requires u < |s.pcs|
    ensures OnlyMoves(s, BeginStep(s, u, op), u)
  {
  }

  lemma LockMovesOne(s: State, u: Tid, job: Job)
    requires u < |s.pcs|
    ensures OnlyMoves(s, LockStep(s, u, job), u)
  {
  }

  lemma PanicMovesOne(s: State, u: Tid, work: Work)
    requires u < |s.pcs|
    ensures OnlyMoves(s, PanicStep(s, u, work), u)
  {
  }

  lemma HandleMovesOne(s: State, u: Tid, r: Rid, stage: HandleStage, c: Choice)
    requires u < |s.pcs|
    ensures OnlyMoves(s, HandleStep(s, u, r, stage, c), u)
  {
  }

  lemma SessionMovesOne(s: State, u: Tid, i: Sid, step: SessionStage, c: Choice)
    requires u < |s.pcs|
    ensures OnlyMoves(s, SessionStep(s, u, i, step, c), u)
  {
  }

  lemma WorkMovesOne(s: State, u: Tid, work: Work, c: Choice)
    requires u < |s.pcs|
    ensures OnlyMoves(s, WorkStep(s, u, work, c), u)
  {
    match work
    case Handle(r, stage) => HandleMovesOne(s, u, r, stage, c);
    case Sess(i, step) => SessionMovesOne(s, u, i, step, c);
    case _ =>
  }

  /** A step moves nobody's program counter but the stepping thread's own. */
  lemma OthersStay(s: State, t: Tid, m: Move)
    requires Inv(s) && t < |s.pcs| && m.t != t
    ensures t < |Step(s, m.t, m.c).pcs| && Step(s, m.t, m.c).pcs[t] == s.pcs[t]
  {
    StepMovesOne(s, m);
  }

  lemma StepMovesOne(s: State, m: Move)
    requires Inv(s)
    ensures m.t < |s.pcs| ==> OnlyMoves(s, Step(s, m.t, m.c), m.t)
    ensures m.t >= |s.pcs| ==> Step(s, m.t, m.c) == s
  {
    if m.t < |s.pcs| {
      var pc := s.pcs[m.t];
      if s.logs[m.t] != Quiet || (m.c == Log && MayLog(pc)) {
        assert LogStep(s, m.t).pcs == s.pcs;
      } else if m.c == Panic && MayPanic(pc) {
        PanicMovesOne(s, m.t, pc.work);
      } else {
        match pc
        case Idle => if m.c.Begin? { BeginMovesOne(s, m.t, m.c.op); }
        case Wait(job) => LockMovesOne(s, m.t, job);
        case Held(work) => WorkMovesOne(s, m.t, work, m.c);
      }
    }
  }

  /** About to be freed by the guard holder `t`, or already freed. */
  ghost predicate FreeingOrGone(s: State, t: Tid, p: Ptr) {
    && p < |s.objs|
    && (s.objs[p] == CObject(1, Gone) ||
        (t < |s.pcs| && s.pcs[t] == Held(Freeing(p)) && s.objs[p] == CObject(0, InFlight(t))))
  }

  lemma FreeingStep(s: State, t: Tid, p: Ptr, m: Move)
    requires Inv(s) && FreeingOrGone(s, t, p)
    ensures FreeingOrGone(Step(s, m.t, m.c), t, p)
  {
    var s' := Step(s, m.t, m.c);
    StepInv(s, m.t, m.c);
    if s.objs[p] != CObject(1, Gone) {
      if Frees(s, m, p) && m.t == t {
        FreeHappens(s, m, p);
      } else {
        StillFreeing(s, t, p, m);
        assert LocalInv(s', t) && Located(s', p);
      }
    }
  }

  lemma StillFreeing(s: State, t: Tid, p: Ptr, m: Move)
    requires Inv(s) && t < |s.pcs| && s.pcs[t] == Held(Freeing(p)) && !(Frees(s, m, p) && m.t == t)
    ensures t < |Step(s, m.t, m.c).pcs| && Step(s, m.t, m.c).pcs[t] == Held(Freeing(p))
  {
    if m.t != t {
      OthersStay(s, t, m);
    } else {
      assert Step(s, m.t, m.c) == LogStep(s, t);
    }
  }

  lemma {:induction false} CleanForGood(n: nat, start: seq<Move>, t: Tid, p: Ptr, whole: seq<Move>)
    requires FreeingOrGone(Run(Init(n), start), t, p) && start <= whole
    ensures FreeingOrGone(Run(Init(n), whole), t, p)
    decreases |whole|
  {
    if |whole| > |start| {
      var before, m := whole[..|whole| - 1], whole[|whole| - 1];
      CleanForGood(n, start, t, p, before);
      RunInv(n, before);
      FreeingStep(Run(Init(n), before), t, p, m);
      RunSnoc(n, before, m);
      assert before + [m] == whole;
    } else {
      assert whole == start;
    }
  }

  lemma CleanStart(n: nat, schedule: seq<Move>, t: Tid, p: Ptr)
    requires ReadyToClose(Run(Init(n), schedule), t, p) && !Run(Init(n), schedule).poisoned
    ensures FreeingOrGone(Run(Init(n), schedule + [Move(t, Go)]), t, p)
  {
    var s := Run(Init(n), schedule);
    RunInv(n, schedule);
    RunSnoc(n, schedule, Move(t, Go));
    CleanLock(s, t, p);
    StepInv(s, t, Go);
    assert LocalInv(Step(s, t, Go), t) && Located(Step(s, t, Go), p);
  }

  /** The fate of a closer is decided when it gets the mutex, whatever the other threads do afterwards. If the
      mutex is poisoned then, the object is leaked in every continuation. If it is clean, then in every
      continuation the object is still in the closer's hands, to be freed by its next call, or freed once; and
      it is freed as soon as the closer moves. */
  lemma CloserFate(n: nat, schedule: seq<Move>, t: Tid, p: Ptr, whole: seq<Move>)
    requires ReadyToClose(Run(Init(n), schedule), t, p)
    requires schedule + [Move(t, Go)] <= whole
    ensures Run(Init(n), schedule).poisoned <==> Ends(n, whole, p, CObject(0, Leaked))
    ensures !Run(Init(n), schedule).poisoned <==> FreeingOrGone(Run(Init(n), whole), t, p)
    ensures !Run(Init(n), schedule).poisoned && schedule + [Move(t, Go)] + [Move(t, Go)] <= whole ==>
              Ends(n, whole, p, CObject(1, Gone))
  {
    if Run(Init(n), schedule).poisoned {
      PoisonedFate(n, schedule, t, p, whole);
    } else {
      CleanStart(n, schedule, t, p);
      CleanForGood(n, schedule + [Move(t, Go)], t, p, whole);
      if schedule + [Move(t, Go)] + [Move(t, Go)] <= whole { CleanFate(n, schedule, t, p, whole); }
    }
  }

  // ---- ownership -------------------------------------------------------------------------

  function CellsHolding(s: State, p: Ptr): set<Rid> {
    set r: Rid | 0 <= r < |s.cells| && s.cells[r] == Some(p)
  }

  function ThreadsOwing(s: State, p: Ptr): set<Tid> {
    set t: Tid | 0 <= t < |s.pcs| && Carries(s.pcs[t], p)
  }

  function Bit(b: bool): nat {
    if b then 1 else 0
  }

  /** Conservation: at every moment each C object has exactly one owner -- one cell, one thread that
      owes it a free, the C allocator (freed, once), the poisoned-lock leak, or the error path that
      left before storing it -- and it is leaked exactly if a closer found the lock poisoned. */
  lemma OwnershipIsConserved(n: nat, schedule: seq<Move>, p: Ptr)
    requires p < |Run(Init(n), schedule).objs|
    ensures var s := Run(Init(n), schedule);
            && |CellsHolding(s, p)| + |ThreadsOwing(s, p)| + s.objs[p].frees
               + Bit(s.objs[p].loc == Leaked) + Bit(s.objs[p].loc == Stray) == 1
            && (s.objs[p].loc == Leaked <==> LeakedDuring(n, schedule, p))
            && (s.objs[p].loc == Leaked ==> s.poisoned)
  {
    FateIff(n, schedule, p);
    RunInv(n, schedule);
    var s := Run(Init(n), schedule);
    assert Located(s, p);
    var loc := s.objs[p].loc;
    forall r: Rid | r in CellsHolding(s, p) ensures loc == InCell(r) { assert CellInv(s, r); }
    forall t: Tid | t in ThreadsOwing(s, p) ensures loc == InFlight(t) { assert LocalInv(s, t); }
    match loc
    case InCell(r) =>
      assert CellsHolding(s, p) == {r} && ThreadsOwing(s, p) == {};
    case InFlight(t) =>
      assert CellsHolding(s, p) == {} && ThreadsOwing(s, p) == {t};
    case _ =>
      assert CellsHolding(s, p) == {} && ThreadsOwing(s, p) == {};
  }

  /** So "freed exactly once" does need the unpoisoned premise: some run ends with every thread idle,
      the cell empty, and the statement unfreed -- and it stays unfreed however the run goes on. */
  lemma PoisonCanLeak() returns (schedule: seq<Move>)
    ensures Run(Init(2), schedule) == Scene([Idle, Idle], None, true, [None], [CObject(0, Leaked)])
    ensures forall after :: |Run(Init(2), schedule + after).objs| > 0 && Run(Init(2), schedule + after).objs[0] == CObject(0, Leaked)
  {
    schedule := PoisonRun();
    var s8 := Scene([Wait(ToFree(0)), Idle], None, true, [None], [CObject(0, InFlight(0))]);
    var s9 := Scene([Held(Releasing), Idle], Some(0), true, [None], [CObject(0, Leaked)]);
    schedule := Then(schedule, s8, 0, Go, s9);
    schedule := Then(schedule, s9, 0, Go, Scene([Idle, Idle], None, true, [None], [CObject(0, Leaked)]));
    forall after
      ensures |Run(Init(2), schedule + after).objs| > 0 && Run(Init(2), schedule + after).objs[0] == CObject(0, Leaked)
    {
      SettledForGood(2, schedule, after, 0);
    }
  }

  // ---- a stray statement keeps the database -----------------------------------------------

  /** Thread 1 prepares a statement and leaves by an error path before storing it ... */
  lemma StrayRun() returns (schedule: seq<Move>)
    ensures Run(Init(2), schedule) == Scene([Idle, Idle], None, false, [], [CObject(0, Stray)])
  {
    schedule := LockRun();
    var s2 := Scene([Idle, Held(Conn(false))], Some(1), false, [], []);
    var s3 := Scene([Idle, Held(Releasing)], Some(1), false, [], [CObject(0, Stray)]);
    schedule := Then(schedule, s2, 1, StrayObject, s3);
    schedule := Then(schedule, s3, 1, Go, Scene([Idle, Idle], None, false, [], [CObject(0, Stray)]));
  }

  /** ... so although nothing was poisoned and every resource is gone, the last drop cannot free the database:
      it stays allocated, and the statement unfreed, however the run goes on. */
  lemma StrayKeepsTheDatabase() returns (schedule: seq<Move>)
    ensures var s := Run(Init(2), schedule); Quiescent(s) && s.connGone && !s.poisoned
    ensures forall after ::
              var r := Run(Init(2), schedule + after);
              r.db == LeakedAlive && r.dbFrees == 0 && |r.objs| > 0 && r.objs[0] == CObject(0, Stray)
  {
    schedule := StrayRun();
    var s := Scene([Idle, Idle], None, false, [], [CObject(0, Stray)]);
    assert AnyAlive(s) by { assert s.objs[0].frees == 0; }
    schedule := Then(schedule, s, 0, Begin(DropConn), s.(connOpen := false, db := LeakedAlive, connGone := true));
    forall after
      ensures var r := Run(Init(2), schedule + after);
              r.db == LeakedAlive && r.dbFrees == 0 && |r.objs| > 0 && r.objs[0] == CObject(0, Stray)
    {
      LeakIsForGood(2, schedule, after);
      SettledForGood(2, schedule, after, 0);
    }
  }
}
