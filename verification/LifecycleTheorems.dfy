/** What the raw-handle protocol guarantees in every interleaving. */
module LifecycleTheorems {
  import opened Common
  import opened Lifecycle
  import opened LifecycleInvariant

  // ---- memory safety ---------------------------------------------------------------------

  /** No interleaving makes a C call on a freed statement or blob, on a freed database, on a deleted
      or orphaned session, or without the connection guard. */
  lemma EveryCallIsSafe(n: nat, schedule: seq<Move>)
    ensures !Run(Init(n), schedule).faulty
  {
    RunInv(n, schedule);
  }

  /** The database is freed at most once, and once it is freed no statement or blob is alive: none is
      stored in a cell and no thread still owes one a free. */
  lemma DatabaseOutlivesItsObjects(n: nat, schedule: seq<Move>)
    ensures var s := Run(Init(n), schedule);
            && s.dbFrees <= 1
            && (s.dbFrees == 1 <==> s.db == Freed)
            && (s.db == Freed ==>
                  && !s.connOpen
                  && (forall p :: 0 <= p < |s.objs| ==> s.objs[p].frees == 1)
                  && (forall r :: 0 <= r < |s.cells| ==> s.cells[r].None?)
                  && (forall t :: 0 <= t < |s.pcs| ==> !CarriesAny(s.pcs[t])))
  {
    RunInv(n, schedule);
    var s := Run(Init(n), schedule);
    if s.db == Freed {
      forall p | 0 <= p < |s.objs| ensures s.objs[p].frees == 1 { assert Located(s, p); }
      forall r | 0 <= r < |s.cells| ensures s.cells[r].None? {
        assert CellInv(s, r);
        assert s.cells[r].Some? ==> Located(s, s.cells[r].value);
      }
      forall t | 0 <= t < |s.pcs| ensures !CarriesAny(s.pcs[t]) {
        assert LocalInv(s, t);
        assert s.pcs[t].Wait? && s.pcs[t].job.ToFree? ==> Located(s, s.pcs[t].job.p);
        assert s.pcs[t].Held? && s.pcs[t].work.Freeing? ==> Located(s, s.pcs[t].work.p);
      }
    }
  }

  // ---- reclamation -----------------------------------------------------------------------

  /** In a run without poisoning, once every resource has been dropped and every destructor has
      returned, each stored object was freed exactly once and each session was deleted, or leaked
      because the connection had been closed first. */
  lemma EverythingIsReclaimed(n: nat, schedule: seq<Move>)
    requires var s := Run(Init(n), schedule); Quiescent(s) && !s.poisoned
    ensures var s := Run(Init(n), schedule);
            && (forall p :: 0 <= p < |s.objs| ==> s.objs[p].frees == (if s.objs[p].loc == Stray then 0 else 1))
            && (forall i :: 0 <= i < |s.sessions| ==>
                  s.sessions[i].obj == SDeleted || (s.sessions[i].obj == SForgotten && !s.connOpen))
  {
    RunInv(n, schedule);
    var s := Run(Init(n), schedule);
    forall p | 0 <= p < |s.objs| ensures s.objs[p].frees == (if s.objs[p].loc == Stray then 0 else 1) {
      assert Located(s, p);
      assert s.objs[p].loc.InCell? ==> CellInv(s, s.objs[p].loc.r);
    }
    forall i | 0 <= i < |s.sessions|
      ensures s.sessions[i].obj == SDeleted || (s.sessions[i].obj == SForgotten && !s.connOpen)
    {
      assert SessionInv(s, i);
    }
  }

  /** When everything is dropped, an object was freed, or was leaked by a poisoned lock, or strayed. */
  lemma NothingElseIsLeft(s: State, p: Ptr)
    requires Inv(s) && Quiescent(s) && p < |s.objs|
    ensures s.objs[p].loc == Gone || s.objs[p].loc == Leaked || s.objs[p].loc == Stray
    ensures s.objs[p].frees == 0 <==> s.objs[p].loc != Gone
  {
    assert Located(s, p);
    assert s.objs[p].loc.InCell? ==> CellInv(s, s.objs[p].loc.r);
  }

  /** Dropping the connection resource last, with nobody having closed it before, frees the database if and only
      if no object was leaked by a poisoned lock and no error path left a stray statement; otherwise the
      database stays allocated. */
  lemma LastDropFreesTheDatabase(n: nat, schedule: seq<Move>, t: Tid)
    requires var s := Run(Init(n), schedule);
             Quiescent(s) && s.connOpen && t < |s.logs| && t < |s.pcs| && s.logs[t] == Quiet
    ensures var s, s' := Run(Init(n), schedule), Run(Init(n), schedule + [Move(t, Begin(DropConn))]);
            && s'.connGone && !s'.connOpen
            && (s'.db == Freed <==> forall p :: 0 <= p < |s.objs| ==> s.objs[p].loc != Stray && s.objs[p].loc != Leaked)
            && s'.dbFrees == (if s'.db == Freed then 1 else 0)
            && (s'.db != Freed ==> s'.db == LeakedAlive)
  {
    RunInv(n, schedule);
    var m := Move(t, Begin(DropConn));
    assert (schedule + [m])[..|schedule|] == schedule;
    var s := Run(Init(n), schedule);
    assert Step(s, t, m.c) == BeginStep(s, t, DropConn);
    forall p | 0 <= p < |s.objs|
      ensures s.objs[p].frees == 0 <==> s.objs[p].loc == Stray || s.objs[p].loc == Leaked
    {
      NothingElseIsLeft(s, p);
    }
  }

  lemma StepExtends(n: nat, schedule: seq<Move>, m: Move)
    ensures Extends(Run(Init(n), schedule), Run(Init(n), schedule + [m]))
  {
    RunInv(n, schedule);
    StepInv(Run(Init(n), schedule), m.t, m.c);
    assert (schedule + [m])[..|schedule|] == schedule;
  }

  lemma ExtendsThrough(a: State, b: State, c: State)
    requires Extends(a, b) && Extends(b, c)
    ensures Extends(a, c)
  {
  }

  /** The irreversible facts carry over whole continuations of a run. */
  lemma {:induction false} RunExtends(n: nat, before: seq<Move>, after: seq<Move>)
    ensures Extends(Run(Init(n), before), Run(Init(n), before + after))
    decreases |after|
  {
    if after == [] {
      assert before + after == before;
    } else {
      var init, last := after[..|after| - 1], after[|after| - 1];
      RunExtends(n, before, init);
      StepExtends(n, before + init, last);
      assert before + init + [last] == before + after;
      ExtendsThrough(Run(Init(n), before), Run(Init(n), before + init), Run(Init(n), before + after));
    }
  }

  lemma PrefixExtends(n: nat, start: seq<Move>, whole: seq<Move>)
    requires start <= whole
    ensures Extends(Run(Init(n), start), Run(Init(n), whole))
  {
    RunExtends(n, start, whole[|start|..]);
    assert start + whole[|start|..] == whole;
  }

  lemma ThreadsStay(n: nat, schedule: seq<Move>)
    ensures |Run(Init(n), schedule).pcs| == |Run(Init(n), schedule).logs| == n
  {
    RunExtends(n, [], schedule);
    assert [] + schedule == schedule;
  }

  /** A database leaked by an early close is never freed, whatever happens afterwards: late finalizers
      always find it allocated. */
  lemma LeakIsForGood(n: nat, before: seq<Move>, after: seq<Move>)
    requires Run(Init(n), before).db == LeakedAlive
    ensures Run(Init(n), before + after).db == LeakedAlive && Run(Init(n), before + after).dbFrees == 0
  {
    RunInv(n, before);
    RunExtends(n, before, after);
  }

  // ---- locks -----------------------------------------------------------------------------

  datatype Lock = ConnLock | SessionLock(i: Sid) | MasterLock

  /** The lock order: connection, then session, then the log master lock. */
  function Rank(l: Lock): nat {
    match l
    case ConnLock => 0
    case SessionLock(_) => 1
    case MasterLock => 2
  }

  predicate Owns(s: State, t: Tid, l: Lock) {
    match l
    case ConnLock => s.holder == Some(t)
    case SessionLock(i) => i < |s.sessions| && s.sessions[i].holder == Some(t)
    case MasterLock => s.master == Some(t)
  }

  predicate WaitsFor(s: State, t: Tid, l: Lock) {
    && t < |s.pcs| && t < |s.logs|
    && match l
       case ConnLock => s.logs[t] == Quiet && s.pcs[t].Wait?
       case SessionLock(i) => s.logs[t] == Quiet && WantsSession(s.pcs[t]) && s.pcs[t].work.i == i
       case MasterLock => s.logs[t] == WantMaster
  }

  /** A thread only ever waits for a lock ranked above every lock it owns. */
  lemma LockOrder(n: nat, schedule: seq<Move>, t: Tid, wanted: Lock, owned: Lock)
    requires var s := Run(Init(n), schedule); WaitsFor(s, t, wanted) && Owns(s, t, owned)
    ensures Rank(owned) < Rank(wanted)
  {
    RunInv(n, schedule);
    var s := Run(Init(n), schedule);
    if owned.SessionLock? {
      assert SessionInv(s, owned.i);
    }
  }

  /** `chain[k]` waits for `locks[k]`, which `chain[k + 1]` owns. */
  ghost predicate WaitChain(s: State, chain: seq<Tid>, locks: seq<Lock>) {
    && |chain| == |locks| + 1
    && (forall k :: 0 <= k < |locks| ==> WaitsFor(s, chain[k], locks[k]) && Owns(s, chain[k + 1], locks[k]))
  }

  lemma {:induction false} ChainClimbs(n: nat, schedule: seq<Move>, chain: seq<Tid>, locks: seq<Lock>, k: nat)
    requires WaitChain(Run(Init(n), schedule), chain, locks) && k < |locks|
    ensures Rank(locks[0]) + k <= Rank(locks[k])
  {
    if k > 0 {
      ChainClimbs(n, schedule, chain, locks, k - 1);
      LockOrder(n, schedule, chain[k], locks[k], locks[k - 1]);
    }
  }

  /** No interleaving produces a cycle of threads waiting for each other. */
  lemma NoWaitCycle(n: nat, schedule: seq<Move>, chain: seq<Tid>, locks: seq<Lock>)
    requires |locks| > 0 && WaitChain(Run(Init(n), schedule), chain, locks)
    ensures chain[0] != chain[|locks|]
    ensures |locks| <= 3
  {
    var k := |locks| - 1;
    ChainClimbs(n, schedule, chain, locks, k);
    if chain[0] == chain[|locks|] {
      LockOrder(n, schedule, chain[0], locks[0], locks[k]);
    }
  }

  /** Deadlock freedom: unless every thread is idle, some thread can take a step that changes the state. */
  lemma SomeThreadCanMove(n: nat, schedule: seq<Move>)
    ensures |Run(Init(n), schedule).logs| == |Run(Init(n), schedule).pcs| == n
    ensures var s := Run(Init(n), schedule);
            || (forall t :: 0 <= t < |s.pcs| ==> s.pcs[t] == Idle && s.logs[t] == Quiet)
            || (exists u: Tid :: u < |s.pcs| && Step(s, u, Go) != s)
  {
    RunInv(n, schedule);
    ThreadsStay(n, schedule);
    var s := Run(Init(n), schedule);
    if busy :| 0 <= busy < |s.pcs| && (s.pcs[busy] != Idle || s.logs[busy] != Quiet) {
      var u := Mover(s, busy);
      MoverMoves(s, u);
    }
  }

  /** The owner of the highest contended lock: MASTER_LOCK, then the connection guard. */
  ghost function Mover(s: State, busy: Tid): (u: Tid)
    requires Inv(s) && busy < |s.pcs|
    requires s.pcs[busy] != Idle || s.logs[busy] != Quiet
    ensures u < |s.pcs|
    ensures match s.logs[u]
            case InMaster => true
            case WantMaster => s.master.None?
            case Quiet => s.pcs[u].Held? || (s.pcs[u].Wait? && s.holder.None?)
  {
    if s.master.Some? then s.master.value
    else if s.logs[busy] != Quiet then busy
    else if s.holder.Some? then s.holder.value
    else busy
  }

  lemma MoverMoves(s: State, u: Tid)
    requires Inv(s) && u < |s.pcs|
    requires match s.logs[u]
             case InMaster => true
             case WantMaster => s.master.None?
             case Quiet => s.pcs[u].Held? || (s.pcs[u].Wait? && s.holder.None?)
    ensures Step(s, u, Go) != s
  {
    assert LocalInv(s, u);
    if s.logs[u] != Quiet {
      assert LogStep(s, u).logs[u] != s.logs[u];
    } else if s.pcs[u].Wait? {
      assert LockStep(s, u, s.pcs[u].job).pcs[u].Held?;
    } else {
      WorkMoves(s, u, s.pcs[u].work);
    }
  }

  /** A guard holder is never stuck: its session mutex, if it wants one, is free. */
  lemma WorkMoves(s: State, u: Tid, work: Work)
    requires Inv(s) && u < |s.pcs| && s.pcs[u] == Held(work)
    ensures WorkStep(s, u, work, Go) != s
  {
    assert LocalInv(s, u);
    match work
    case Releasing => assert Unlock(s, u).pcs[u] == Idle;
    case Freeing(p) => assert WorkStep(s, u, work, Go).pcs[u] == Held(Releasing);
    case Handle(r, stage) => HandleMoves(s, u, r, stage);
    case Conn(closing) => assert ConnStep(s, u, closing, Go).pcs[u] == Held(Releasing);
    case Sess(i, step) => SessionMoves(s, u, i, step);
  }

  lemma HandleMoves(s: State, u: Tid, r: Rid, stage: HandleStage)
    requires u < |s.pcs| && s.pcs[u] == Held(Handle(r, stage)) && r < |s.cells|
    ensures HandleStep(s, u, r, stage, Go) != s
  {
    var s' := HandleStep(s, u, r, stage, Go);
    if stage.FetchPoisoned? || stage.FetchEnding? {
      assert !SwapOut(s, u, r, true).pcs[u].work.Handle?;
    } else {
      assert s'.pcs[u] != s.pcs[u];
    }
  }

  lemma SessionMoves(s: State, u: Tid, i: Sid, step: SessionStage)
    requires Inv(s) && u < |s.pcs| && s.pcs[u] == Held(Sess(i, step)) && i < |s.sessions|
    ensures SessionStep(s, u, i, step, Go) != s
  {
    assert SessionInv(s, i);
    if step.SWant? || step.CWant? {
      assert s.sessions[i].holder.None?;
    }
    if step.CWant? || step.CIn? || step.CTaken? {
      assert SessionCloseStep(s, u, i, step).pcs[u] != s.pcs[u];
    } else if step.SRelease? {
      assert SessionStep(s, u, i, step, Go).pcs[u] == Held(Releasing);
    } else {
      assert SessionUseStep(s, u, i, step, Go).pcs[u] != s.pcs[u];
    }
  }

  // ---- the poisoned-lock leak is real ----------------------------------------------------

  /** Extends a schedule by one move whose effect is known. */
  lemma Then(schedule: seq<Move>, s1: State, t: Tid, c: Choice, s2: State) returns (longer: seq<Move>)
    requires Run(Init(2), schedule) == s1 && Step(s1, t, c) == s2
    ensures Run(Init(2), longer) == s2
  {
    longer := schedule + [Move(t, c)];
    assert longer[..|schedule|] == schedule;
  }

  /** Two threads, and one statement whose owner is described by `cells` and `objs`. */
  function Scene(pcs: seq<Pc>, holder: Option<Tid>, poisoned: bool, cells: seq<Option<Ptr>>, objs: seq<CObject>): State {
    State(pcs, [Quiet, Quiet], holder, poisoned, None, true, Open, 0, false, cells, {}, objs, [], false)
  }

  /** Thread 1 takes the guard ... */
  lemma LockRun() returns (schedule: seq<Move>)
    ensures Run(Init(2), schedule) == Scene([Idle, Held(Conn(false))], Some(1), false, [], [])
  {
    assert Init(2).pcs == [Idle, Idle] && Init(2).logs == [Quiet, Quiet];
    schedule := [];
    var s1 := Scene([Idle, Wait(ToConn(false))], None, false, [], []);
    schedule := Then(schedule, Scene([Idle, Idle], None, false, [], []), 1, Begin(WithConn), s1);
    schedule := Then(schedule, s1, 1, Go, Scene([Idle, Held(Conn(false))], Some(1), false, [], []));
  }

  /** ... and opens a statement. */
  lemma OpenRun() returns (schedule: seq<Move>)
    ensures Run(Init(2), schedule) == Scene([Idle, Idle], None, false, [Some(0)], [CObject(0, InCell(0))])
  {
    schedule := LockRun();
    var s2 := Scene([Idle, Held(Conn(false))], Some(1), false, [], []);
    var s3 := Scene([Idle, Held(Releasing)], Some(1), false, [Some(0)], [CObject(0, InCell(0))]);
    schedule := Then(schedule, s2, 1, StoreObject, s3);
    schedule := Then(schedule, s3, 1, Go, Scene([Idle, Idle], None, false, [Some(0)], [CObject(0, InCell(0))]));
  }

  /** Thread 0 swaps the statement out to close it, ... */
  lemma SwapRun() returns (schedule: seq<Move>)
    ensures Run(Init(2), schedule) == Scene([Wait(ToFree(0)), Wait(ToConn(false))], None, false, [None], [CObject(0, InFlight(0))])
  {
    schedule := OpenRun();
    var objs := [CObject(0, InFlight(0))];
    var s4 := Scene([Idle, Idle], None, false, [Some(0)], [CObject(0, InCell(0))]);
    var s5 := Scene([Wait(ToFree(0)), Idle], None, false, [None], objs);
    schedule := Then(schedule, s4, 0, Begin(Close(0)), s5);
    schedule := Then(schedule, s5, 1, Begin(WithConn), Scene([Wait(ToFree(0)), Wait(ToConn(false))], None, false, [None], objs));
  }

  /** ... and before it gets the guard thread 1 panics under it. */
  lemma PoisonRun() returns (schedule: seq<Move>)
    ensures Run(Init(2), schedule) == Scene([Wait(ToFree(0)), Idle], None, true, [None], [CObject(0, InFlight(0))])
  {
    schedule := SwapRun();
    var objs := [CObject(0, InFlight(0))];
    var s6 := Scene([Wait(ToFree(0)), Wait(ToConn(false))], None, false, [None], objs);
    var s7 := Scene([Wait(ToFree(0)), Held(Conn(false))], Some(1), false, [None], objs);
    schedule := Then(schedule, s6, 1, Go, s7);
    schedule := Then(schedule, s7, 1, Panic, Scene([Wait(ToFree(0)), Idle], None, true, [None], objs));
  }
}
