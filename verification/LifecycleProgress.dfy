/** Every call can finish: from any reachable state the threads can all run to their end. */
module LifecycleProgress {
  import opened Common
  import opened Lifecycle
  import opened LifecycleInvariant
  import opened LifecycleTheorems

  /** How many plain steps a thread is at most away from being idle, once it is not kept waiting. */
  function WorkLeft(work: Work): nat {
    match work
    case Releasing => 1
    case Freeing(_) => 2
    case Conn(_) => 2
    case Handle(_, stage) =>
      (match stage
       case UseLocked => 4
       case UseOpen => 3
       case Using(_) => 2
       case FetchLocked => 3
       case FetchLoop => 2
       case FetchLoaded(_) => 4
       case FetchPoisoned => 3
       case FetchEnding => 3)
    case Sess(_, step) =>
      match step
      case SLocked => 6
      case SWant => 5
      case SIn => 4
      case SUsing => 3
      case CWant(_) => 5
      case CIn(_) => 4
      case CTaken(_) => 3
      case SRelease => 2
  }

  function Left(pc: Pc, log: LogPc): nat {
    (match pc
     case Idle => 0
     case Wait(_) => 7
     case Held(work) => WorkLeft(work))
    + (match log
       case Quiet => 0
       case InMaster => 1
       case WantMaster => 2)
  }

  function TotalLeft(pcs: seq<Pc>, logs: seq<LogPc>): nat
    requires |pcs| == |logs|
  {
    if pcs == [] then 0
    else TotalLeft(pcs[..|pcs| - 1], logs[..|logs| - 1]) + Left(pcs[|pcs| - 1], logs[|logs| - 1])
  }

  lemma {:induction false} OneMoves(pcs: seq<Pc>, logs: seq<LogPc>, t: Tid, pc: Pc, log: LogPc)
    requires |pcs| == |logs| && t < |pcs|
    ensures TotalLeft(pcs[t := pc], logs[t := log]) == TotalLeft(pcs, logs) - Left(pcs[t], logs[t]) + Left(pc, log)
  {
    var n := |pcs| - 1;
    if t < n {
      OneMoves(pcs[..n], logs[..n], t, pc, log);
      assert pcs[t := pc][..n] == pcs[..n][t := pc];
      assert logs[t := log][..n] == logs[..n][t := log];
    } else {
      assert pcs[t := pc][..n] == pcs[..n];
      assert logs[t := log][..n] == logs[..n];
    }
  }

  /** Only thread `u` has moved, and it has less left. */
  ghost predicate Descends(s: State, r: State, u: Tid)
    requires u < |s.pcs| && u < |s.logs|
  {
    && |r.pcs| == |s.pcs| && |r.logs| == |s.logs|
    && r.pcs == s.pcs[u := r.pcs[u]] && r.logs == s.logs[u := r.logs[u]]
    && Left(r.pcs[u], r.logs[u]) < Left(s.pcs[u], s.logs[u])
  }

  lemma HandleDescends(s: State, u: Tid, r: Rid, stage: HandleStage)
    requires u < |s.pcs| && u < |s.logs| && s.pcs[u] == Held(Handle(r, stage)) && r < |s.cells|
    ensures Descends(s, HandleStep(s, u, r, stage, Go), u)
  {
    if stage.FetchPoisoned? || stage.FetchEnding? {
      assert HandleStep(s, u, r, stage, Go) == SwapOut(s, u, r, true);
    }
  }

  lemma UseDescends(s: State, u: Tid, i: Sid, step: SessionStage)
    requires u < |s.pcs| && u < |s.logs| && s.pcs[u] == Held(Sess(i, step)) && i < |s.sessions|
    requires step.SLocked? || step.SIn? || step.SUsing? || (step.SWant? && s.sessions[i].holder.None?)
    ensures Descends(s, SessionUseStep(s, u, i, step, Go), u)
  {
  }

  lemma CloseDescends(s: State, u: Tid, i: Sid, step: SessionStage)
    requires u < |s.pcs| && u < |s.logs| && s.pcs[u] == Held(Sess(i, step)) && i < |s.sessions|
    requires step.CIn? || step.CTaken? || (step.CWant? && s.sessions[i].holder.None?)
    ensures Descends(s, SessionCloseStep(s, u, i, step), u)
  {
  }

  lemma SessionDescends(s: State, u: Tid, i: Sid, step: SessionStage)
    requires Inv(s) && u < |s.pcs| && s.pcs[u] == Held(Sess(i, step)) && i < |s.sessions|
    ensures Descends(s, SessionStep(s, u, i, step, Go), u)
  {
    assert SessionInv(s, i);
    if step.SWant? || step.CWant? {
      assert s.sessions[i].holder.None?;
    }
    if step.CWant? || step.CIn? || step.CTaken? {
      CloseDescends(s, u, i, step);
    } else if !step.SRelease? {
      UseDescends(s, u, i, step);
    }
  }

  lemma WorkDescends(s: State, u: Tid, work: Work)
    requires Inv(s) && u < |s.pcs| && s.pcs[u] == Held(work)
    ensures Descends(s, WorkStep(s, u, work, Go), u)
  {
    assert LocalInv(s, u);
    match work
    case Handle(r, stage) => HandleDescends(s, u, r, stage);
    case Sess(i, step) => SessionDescends(s, u, i, step);
    case _ =>
  }

  /** The owner of the highest contended lock always gets on. */
  lemma MoverDescends(s: State, u: Tid)
    requires Inv(s) && u < |s.pcs|
    requires match s.logs[u]
             case InMaster => true
             case WantMaster => s.master.None?
             case Quiet => s.pcs[u].Held? || (s.pcs[u].Wait? && s.holder.None?)
    ensures Descends(s, Step(s, u, Go), u)
  {
    if s.logs[u] != Quiet {
      assert Step(s, u, Go) == LogStep(s, u);
    } else if s.pcs[u].Held? {
      WorkDescends(s, u, s.pcs[u].work);
    } else {
      LockDescends(s, u, s.pcs[u].job);
    }
  }

  lemma LockDescends(s: State, u: Tid, job: Job)
    requires u < |s.pcs| && u < |s.logs| && s.pcs[u] == Wait(job) && s.holder.None?
    ensures Descends(s, LockStep(s, u, job), u)
  {
  }

  /** Every thread is back, and no C object is left in anybody's hands. */
  ghost predicate AllBack(s: State) {
    && (forall t :: 0 <= t < |s.pcs| ==> s.pcs[t] == Idle)
    && (forall t :: 0 <= t < |s.logs| ==> s.logs[t] == Quiet)
    && (forall p :: 0 <= p < |s.objs| ==> !s.objs[p].loc.InFlight?)
  }

  ghost function LeftAfter(n: nat, schedule: seq<Move>): nat {
    ThreadsStay(n, schedule);
    TotalLeft(Run(Init(n), schedule).pcs, Run(Init(n), schedule).logs)
  }

  ghost predicate Finished(n: nat, schedule: seq<Move>) {
    AllBack(Run(Init(n), schedule))
  }

  lemma SomeoneIsBusy(s: State) returns (busy: Tid)
    requires Inv(s) && !AllBack(s)
    ensures busy < |s.pcs| && (s.pcs[busy] != Idle || s.logs[busy] != Quiet)
  {
    if p :| 0 <= p < |s.objs| && s.objs[p].loc.InFlight? {
      assert Located(s, p);
      busy := s.objs[p].loc.t;
    } else {
      busy :| 0 <= busy < |s.pcs| && (s.pcs[busy] != Idle || s.logs[busy] != Quiet);
    }
  }

  lemma NextMove(n: nat, schedule: seq<Move>) returns (m: Move)
    requires !Finished(n, schedule)
    ensures m.c == Go && LeftAfter(n, schedule + [m]) < LeftAfter(n, schedule)
  {
    RunInv(n, schedule);
    var s := Run(Init(n), schedule);
    var busy := SomeoneIsBusy(s);
    var u := Mover(s, busy);
    m := Move(u, Go);
    MoverDescends(s, u);
    assert (schedule + [m])[..|schedule|] == schedule;
    var r := Step(s, u, Go);
    OneMoves(s.pcs, s.logs, u, r.pcs[u], r.logs[u]);
  }

  /** From every reachable state some continuation of plain steps, with no new call begun, brings every
      thread back: every call can finish, whatever the others were doing. */
  lemma {:induction false} EveryCallCanFinish(n: nat, schedule: seq<Move>) returns (whole: seq<Move>)
    ensures schedule <= whole && forall i :: |schedule| <= i < |whole| ==> whole[i].c == Go
    ensures Finished(n, whole)
    decreases LeftAfter(n, schedule)
  {
    if Finished(n, schedule) {
      whole := schedule;
    } else {
      var m := NextMove(n, schedule);
      whole := EveryCallCanFinish(n, schedule + [m]);
    }
  }

  /** A plain step of any thread changes nothing or brings the end nearer. */
  lemma GoLowers(s: State, u: Tid)
    requires Inv(s)
    ensures Step(s, u, Go) == s || (u < |s.pcs| && Descends(s, Step(s, u, Go), u))
  {
    if u < |s.pcs| {
      if (s.logs[u] == InMaster) || (s.logs[u] == WantMaster && s.master.None?) ||
         (s.logs[u] == Quiet && (s.pcs[u].Held? || (s.pcs[u].Wait? && s.holder.None?))) {
        MoverDescends(s, u);
      }
    }
  }

  lemma GoCounts(n: nat, schedule: seq<Move>, u: Tid)
    ensures var s, r := Run(Init(n), schedule), Run(Init(n), schedule + [Move(u, Go)]);
            LeftAfter(n, schedule + [Move(u, Go)]) + (if r == s then 0 else 1) <= LeftAfter(n, schedule)
  {
    RunInv(n, schedule);
    var s := Run(Init(n), schedule);
    assert (schedule + [Move(u, Go)])[..|schedule|] == schedule;
    GoLowers(s, u);
    var r := Step(s, u, Go);
    if r != s { OneMoves(s.pcs, s.logs, u, r.pcs[u], r.logs[u]); }
  }

  /** How many of the moves changed the state. */
  ghost function Effective(n: nat, schedule: seq<Move>, moves: seq<Move>): nat
    decreases |moves|
  {
    if moves == [] then 0
    else
      (if Run(Init(n), schedule + [moves[0]]) == Run(Init(n), schedule) then 0 else 1) +
      Effective(n, schedule + [moves[0]], moves[1..])
  }

  /** Whatever the scheduler does with the calls that are under way, they end: in any sequence of plain steps at
      most as many change anything as there is left to do, so no schedule lets them run forever. */
  lemma {:induction false} PlainStepsRunOut(n: nat, schedule: seq<Move>, moves: seq<Move>)
    requires forall i :: 0 <= i < |moves| ==> moves[i].c == Go
    ensures Effective(n, schedule, moves) <= LeftAfter(n, schedule)
    decreases |moves|
  {
    if moves != [] {
      GoCounts(n, schedule, moves[0].t);
      assert moves[0] == Move(moves[0].t, Go);
      PlainStepsRunOut(n, schedule + [moves[0]], moves[1..]);
    }
  }
}
