/** How each session ends: deleted by its closer, or forgotten on purpose. */
module LifecycleSessions {
  import opened Common
  import opened Lifecycle
  import opened LifecycleInvariant
  import opened LifecycleTheorems

  /** A closer that has taken session `i` out of its Option decides about it. */
  predicate Decides(s: State, m: Move, i: Sid) {
    && m.t < |s.pcs| && m.t < |s.logs| && i < |s.sessions|
    && s.pcs[m.t].Held? && s.pcs[m.t].work.Sess? && s.pcs[m.t].work.i == i && s.pcs[m.t].work.step.CTaken?
    && s.logs[m.t] == Quiet && m.c != Log
  }

  /** ... with a poisoned lock or a closed connection. */
  predicate Forgets(s: State, m: Move, i: Sid) {
    Decides(s, m, i) && (s.poisoned || !s.connOpen)
  }

  /** ... with a clean lock and an open connection. */
  predicate Deletes(s: State, m: Move, i: Sid) {
    Decides(s, m, i) && !s.poisoned && s.connOpen
  }

  ghost predicate Became(s: State, m: Move, r: State) {
    forall i: Sid :: i < |r.sessions| ==>
      && (r.sessions[i].obj == SForgotten ==> (i < |s.sessions| && s.sessions[i].obj == SForgotten) || Forgets(s, m, i))
      && (r.sessions[i].obj == SDeleted ==> (i < |s.sessions| && s.sessions[i].obj == SDeleted) || Deletes(s, m, i))
  }

  /** Steps that decide about no session. */
  ghost predicate Undecided(s: State, r: State) {
    forall i: Sid :: i < |r.sessions| ==>
      (i < |s.sessions| && r.sessions[i].obj == s.sessions[i].obj) || r.sessions[i].obj == SLive
  }

  lemma BeginUndecided(s: State, t: Tid, op: Op)
    requires t < |s.pcs|
    ensures Undecided(s, BeginStep(s, t, op))
  {
    if !op.DropSession? { assert BeginStep(s, t, op).sessions == s.sessions; }
  }

  lemma ConnUndecided(s: State, t: Tid, closing: bool, c: Choice)
    requires t < |s.pcs|
    ensures Undecided(s, ConnStep(s, t, closing, c))
  {
  }

  lemma HandleUndecided(s: State, t: Tid, r: Rid, stage: HandleStage, c: Choice)
    requires t < |s.pcs|
    ensures Undecided(s, HandleStep(s, t, r, stage, c))
  {
    assert HandleStep(s, t, r, stage, c).sessions == s.sessions;
  }

  lemma SessionBecame(s: State, m: Move, i: Sid, step: SessionStage)
    requires Inv(s) && m.t < |s.pcs| && s.pcs[m.t] == Held(Sess(i, step)) && s.logs[m.t] == Quiet
    requires step.CTaken? ==> m.c != Log
    ensures Became(s, m, SessionStep(s, m.t, i, step, m.c))
  {
    assert LocalInv(s, m.t);
    if !step.CTaken? {
      assert Undecided(s, SessionStep(s, m.t, i, step, m.c));
    }
  }

  lemma WorkBecame(s: State, m: Move, work: Work)
    requires Inv(s) && m.t < |s.pcs| && s.pcs[m.t] == Held(work) && s.logs[m.t] == Quiet
    requires m.c == Log ==> !MayLog(s.pcs[m.t])
    ensures Became(s, m, WorkStep(s, m.t, work, m.c))
  {
    match work
    case Releasing => assert WorkStep(s, m.t, work, m.c).sessions == s.sessions;
    case Freeing(p) => assert WorkStep(s, m.t, work, m.c).sessions == s.sessions;
    case Handle(r, stage) => HandleUndecided(s, m.t, r, stage, m.c);
    case Conn(closing) => ConnUndecided(s, m.t, closing, m.c);
    case Sess(i, step) => SessionBecame(s, m, i, step);
  }

  lemma PanicUndecided(s: State, t: Tid, work: Work)
    requires t < |s.pcs|
    ensures Undecided(s, PanicStep(s, t, work))
  {
  }

  lemma UndecidedBecame(s: State, m: Move, r: State)
    requires Undecided(s, r)
    ensures Became(s, m, r)
  {
  }

  lemma LockUndecided(s: State, t: Tid, job: Job)
    requires t < |s.pcs|
    ensures Undecided(s, LockStep(s, t, job))
  {
    assert LockStep(s, t, job).sessions == s.sessions;
  }

  lemma LogUndecided(s: State, t: Tid)
    requires t < |s.logs|
    ensures Undecided(s, LogStep(s, t))
  {
    assert LogStep(s, t).sessions == s.sessions;
  }

  lemma StepBecame(s: State, m: Move)
    requires Inv(s)
    ensures Became(s, m, Step(s, m.t, m.c))
  {
    if m.t < |s.pcs| {
      var pc := s.pcs[m.t];
      if s.logs[m.t] != Quiet || (m.c == Log && MayLog(pc)) {
        LogUndecided(s, m.t);
        UndecidedBecame(s, m, LogStep(s, m.t));
      } else if m.c == Panic && MayPanic(pc) {
        PanicUndecided(s, m.t, pc.work);
        UndecidedBecame(s, m, PanicStep(s, m.t, pc.work));
      } else {
        match pc
        case Idle =>
          if m.c.Begin? {
            BeginUndecided(s, m.t, m.c.op);
            UndecidedBecame(s, m, BeginStep(s, m.t, m.c.op));
          }
        case Wait(job) =>
          LockUndecided(s, m.t, job);
          UndecidedBecame(s, m, LockStep(s, m.t, job));
        case Held(work) => WorkBecame(s, m, work);
      }
    }
  }

  /** The decision is made by that step, and it is what the lock and the connection say. */
  lemma DecisionHappens(s: State, m: Move, i: Sid)
    requires Inv(s) && Decides(s, m, i)
    ensures i < |Step(s, m.t, m.c).sessions|
    ensures Step(s, m.t, m.c).sessions[i].obj == if Forgets(s, m, i) then SForgotten else SDeleted
  {
    assert LocalInv(s, m.t);
    assert Step(s, m.t, m.c) == SessionCloseStep(s, m.t, i, s.pcs[m.t].work.step);
  }

  ghost predicate ForgetsAt(n: nat, schedule: seq<Move>, k: nat, i: Sid) {
    k < |schedule| && Forgets(Run(Init(n), schedule[..k]), schedule[k], i)
  }

  ghost predicate DeletesAt(n: nat, schedule: seq<Move>, k: nat, i: Sid) {
    k < |schedule| && Deletes(Run(Init(n), schedule[..k]), schedule[k], i)
  }

  ghost predicate ForgottenDuring(n: nat, schedule: seq<Move>, i: Sid) {
    exists k: nat :: ForgetsAt(n, schedule, k, i)
  }

  ghost predicate DeletedDuring(n: nat, schedule: seq<Move>, i: Sid) {
    exists k: nat :: DeletesAt(n, schedule, k, i)
  }

  lemma SameDecisions(n: nat, before: seq<Move>, m: Move, k: nat, i: Sid)
    ensures ForgetsAt(n, before + [m], k, i) <==> ForgetsAt(n, before, k, i) || (k == |before| && Forgets(Run(Init(n), before), m, i))
    ensures DeletesAt(n, before + [m], k, i) <==> DeletesAt(n, before, k, i) || (k == |before| && Deletes(Run(Init(n), before), m, i))
  {
    if k <= |before| {
      assert (before + [m])[..k] == before[..k];
      assert before[..|before|] == before;
    }
  }

  lemma ForgottenStep(n: nat, before: seq<Move>, m: Move, i: Sid)
    ensures ForgottenDuring(n, before + [m], i) <==> ForgottenDuring(n, before, i) || Forgets(Run(Init(n), before), m, i)
  {
    forall k: nat { SameDecisions(n, before, m, k, i); }
    if ForgottenDuring(n, before, i) {
      var k: nat :| ForgetsAt(n, before, k, i);
      assert ForgetsAt(n, before + [m], k, i);
    } else if Forgets(Run(Init(n), before), m, i) {
      assert ForgetsAt(n, before + [m], |before|, i);
    }
  }

  lemma DeletedStep(n: nat, before: seq<Move>, m: Move, i: Sid)
    ensures DeletedDuring(n, before + [m], i) <==> DeletedDuring(n, before, i) || Deletes(Run(Init(n), before), m, i)
  {
    forall k: nat { SameDecisions(n, before, m, k, i); }
    if DeletedDuring(n, before, i) {
      var k: nat :| DeletesAt(n, before, k, i);
      assert DeletesAt(n, before + [m], k, i);
    } else if Deletes(Run(Init(n), before), m, i) {
      assert DeletesAt(n, before + [m], |before|, i);
    }
  }

  lemma SessionFateStep(n: nat, before: seq<Move>, m: Move, i: Sid)
    ensures var s, s' := Run(Init(n), before), Run(Init(n), before + [m]);
            && (i < |s'.sessions| && s'.sessions[i].obj == SForgotten <==> (i < |s.sessions| && s.sessions[i].obj == SForgotten) || Forgets(s, m, i))
            && (i < |s'.sessions| && s'.sessions[i].obj == SDeleted <==> (i < |s.sessions| && s.sessions[i].obj == SDeleted) || Deletes(s, m, i))
  {
    var s := Run(Init(n), before);
    assert (before + [m])[..|before|] == before;
    RunInv(n, before);
    StepBecame(s, m);
    StepKeeps(s, m.t, m.c);
    if Decides(s, m, i) { DecisionHappens(s, m, i); }
  }

  /** The exact condition over whole runs: a session is forgotten if and only if its closer, having taken it, found
      the connection lock poisoned or the connection closed, and deleted if and only if it found neither. */
  lemma {:induction false} SessionFateIff(n: nat, schedule: seq<Move>, i: Sid)
    ensures i < |Run(Init(n), schedule).sessions| && Run(Init(n), schedule).sessions[i].obj == SForgotten <==> ForgottenDuring(n, schedule, i)
    ensures i < |Run(Init(n), schedule).sessions| && Run(Init(n), schedule).sessions[i].obj == SDeleted <==> DeletedDuring(n, schedule, i)
    decreases |schedule|
  {
    if schedule != [] {
      var before, m := schedule[..|schedule| - 1], schedule[|schedule| - 1];
      SessionFateIff(n, before, i);
      ForgottenStep(n, before, m, i);
      DeletedStep(n, before, m, i);
      SessionFateStep(n, before, m, i);
      assert before + [m] == schedule;
    }
  }
}
