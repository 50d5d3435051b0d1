/**
 WAL autocheckpoint: SQLite implements it as a hook in the one slot that xqlite's master callback
 occupies, so xqlite emulates it.  Two machines run the same commands -- xqlite's connection and stock
 SQLite -- and the emulation is a refinement between them.
 */
module WalSpec {
  import opened Common
  import opened Ascii
  import opened Subscribers

  type Pid = nat

  /** What sits in SQLite's wal_hook slot. */
  datatype Hook = NoHook | Builtin(n: int) | Master

  /** sqlite3_wal_autocheckpoint: a positive threshold installs the built-in hook, anything else clears the slot. */
  function Autocheckpoint(n: int): Hook {
    if n > 0 then Builtin(n) else NoHook
  }

  /** What `PRAGMA wal_autocheckpoint` answers: it only knows a threshold while the built-in hook is in place. */
  function Reported(hook: Hook): int {
    match hook
    case Builtin(n) => n
    case _ => 0
  }

  const PRAGMA: string := "wal_autocheckpoint"
  const DEFAULT_PAGES: int := 1000

  /** SQLite compares pragma names without case; set_pragma and get_pragma compare them exactly. */
  predicate Names(name: string) {
    SameName(name, PRAGMA)
  }

  function Clamp(pages: int): int {
    if pages < -TWO_31 then -TWO_31 else if pages >= TWO_31 then TWO_31 - 1 else pages
  }

  /** How SQLite answers a PRAGMA write.  The setting is applied while the statement is prepared, so an error
      can come before it (a veto) or after it. */
  datatype Answer = Vetoed | FailedLate | Done

  predicate Applied(answer: Answer) {
    answer != Vetoed
  }

  datatype Command =
    | SetPragma(name: string, value: int, answer: Answer)  // value: the C int SQLite reads from the literal
    | GetPragma(name: string)
    | RawPragma(value: int)                                // the same PRAGMA issued as plain SQL
    | Subscribe(pid: Pid)
    | Unsubscribe(id: nat)
    | Commit

  /** What a command lets its caller and the database observe. */
  datatype Seen = Nothing | Value(v: int) | Failed | Committed(checkpoint: bool)

  // ---- stock SQLite ----------------------------------------------------------------------

  function StockNext(hook: Hook, c: Command): Hook {
    match c
    case SetPragma(name, value, answer) => if Names(name) && Applied(answer) then Autocheckpoint(value) else hook
    case RawPragma(value) => Autocheckpoint(value)
    case _ => hook
  }

  /** The built-in hook checkpoints once the log has reached the threshold. */
  predicate BuiltinFires(hook: Hook, pages: int) {
    hook.Builtin? && pages >= hook.n
  }

  function StockSeen(hook: Hook, c: Command, pages: int): Seen {
    match c
    case SetPragma(name, value, answer) =>
      if answer != Done then Failed else if Names(name) then Value(Reported(Autocheckpoint(value))) else Nothing
    case GetPragma(name) => if Names(name) then Value(Reported(hook)) else Nothing
    case Commit => Committed(BuiltinFires(hook, pages))
    case _ => Nothing
  }

  // ---- xqlite ----------------------------------------------------------------------------

  datatype Xq = Xq(hook: Hook, threshold: int, list: Roster<Pid>)

  const OPENED: Xq := Xq(Master, DEFAULT_PAGES, Roster([], 1))

  function XqNext(x: Xq, c: Command): Xq {
    match c
    case SetPragma(name, value, answer) =>
      var hook := StockNext(x.hook, c);
      if answer == Done && name == PRAGMA then x.(hook := Master, threshold := Clamp(Reported(hook))) else x.(hook := hook)
    case RawPragma(value) => x.(hook := Autocheckpoint(value))
    case Subscribe(pid) => x.(list := Added(x.list, pid))
    case Unsubscribe(id) => x.(list := Removed(x.list, id))
    case _ => x
  }

  /** The master callback's own test. */
  predicate MasterFires(threshold: int, pages: int) {
    threshold > 0 && pages >= threshold
  }

  function XqSeen(x: Xq, c: Command, pages: int): Seen {
    match c
    case SetPragma(name, value, answer) => StockSeen(x.hook, c, pages)
    case GetPragma(name) =>
      if name == PRAGMA then Value(x.threshold) else if Names(name) then Value(Reported(x.hook)) else Nothing
    case Commit => Committed(if x.hook == Master then MasterFires(x.threshold, pages) else BuiltinFires(x.hook, pages))
    case _ => Nothing
  }

  // ---- the refinement --------------------------------------------------------------------

  /** The master owns the slot and its threshold is what stock SQLite would report. */
  predicate InStep(x: Xq, hook: Hook) {
    x.hook == Master && hook == Autocheckpoint(x.threshold) && 0 <= x.threshold < TWO_31
  }

  /** Commands the emulation keeps up with: no raw SQL, the name spelt the way the NIFs compare it, and no
      error after the setting has been applied. */
  predicate Tracked(c: Command) {
    match c
    case SetPragma(name, value, answer) =>
      -TWO_31 <= value < TWO_31 && (Names(name) && Applied(answer) ==> name == PRAGMA && answer == Done)
    case GetPragma(name) => Names(name) ==> name == PRAGMA
    case RawPragma(_) => false
    case _ => true
  }

  lemma StepRefines(x: Xq, hook: Hook, c: Command, pages: int)
    requires InStep(x, hook) && Tracked(c)
    ensures InStep(XqNext(x, c), StockNext(hook, c))
    ensures XqSeen(x, c, pages) == StockSeen(hook, c, pages)
  {
    assert Names(PRAGMA);
  }

  /** How many pages the log holds at a commit depends on what happened before, checkpoints included. */
  type Pages = seq<Seen> -> int

  function XqRun(cs: seq<Command>, log: Pages): (r: (Xq, seq<Seen>))
    decreases |cs|
  {
    if cs == [] then (OPENED, [])
    else
      var (x, seen) := XqRun(cs[..|cs| - 1], log);
      var c := cs[|cs| - 1];
      (XqNext(x, c), seen + [XqSeen(x, c, log(seen))])
  }

  function StockRun(cs: seq<Command>, log: Pages): (r: (Hook, seq<Seen>))
    decreases |cs|
  {
    if cs == [] then (Autocheckpoint(DEFAULT_PAGES), [])
    else
      var (hook, seen) := StockRun(cs[..|cs| - 1], log);
      var c := cs[|cs| - 1];
      (StockNext(hook, c), seen + [StockSeen(hook, c, log(seen))])
  }

  /** For every tracked command sequence and every log behaviour, xqlite is indistinguishable from stock
      SQLite: the same answers to every get and set, and a checkpoint on exactly the same commits.
      Between any two commands the master callback owns the slot. */
  lemma {:induction false} EmulationIsExact(cs: seq<Command>, log: Pages)
    requires forall i :: 0 <= i < |cs| ==> Tracked(cs[i])
    ensures InStep(XqRun(cs, log).0, StockRun(cs, log).0)
    ensures XqRun(cs, log).1 == StockRun(cs, log).1
    decreases |cs|
  {
    if cs != [] {
      var before := cs[..|cs| - 1];
      EmulationIsExact(before, log);
      var (x, seen) := XqRun(before, log);
      StepRefines(x, StockRun(before, log).0, cs[|cs| - 1], log(seen));
    }
  }

  /** A command that puts SQLite's own choice into the slot and gets past the repair. */
  predicate TakesTheSlot(c: Command) {
    match c
    case SetPragma(name, _, answer) => Names(name) && Applied(answer) && !Heals(c)
    case RawPragma(_) => true
    case _ => false
  }

  /** A successful write under the exact name. */
  predicate Heals(c: Command) {
    c.SetPragma? && c.name == PRAGMA && c.answer == Done
  }

  /** SQLite reads the value as a C int. */
  predicate InRange(c: Command) {
    (c.SetPragma? ==> -TWO_31 <= c.value < TWO_31) && (c.RawPragma? ==> -TWO_31 <= c.value < TWO_31)
  }

  ghost predicate HealsAfter(cs: seq<Command>, i: nat) {
    exists j :: i < j < |cs| && Heals(cs[j])
  }

  /** Every command that took the slot was followed by one that heals. */
  ghost predicate Healed(cs: seq<Command>) {
    forall i: nat :: i < |cs| && TakesTheSlot(cs[i]) ==> HealsAfter(cs, i)
  }

  /** In a reachable state xqlite is in step, or SQLite's own choice sits in the slot as it would in stock SQLite. */
  predicate Consistent(x: Xq, hook: Hook) {
    InStep(x, hook) || (x.hook != Master && x.hook == hook)
  }

  /** One command: the master owns the slot afterwards if and only if the command heals, or the master owned it
      before and the command does not take it. */
  lemma SlotMoves(x: Xq, hook: Hook, c: Command)
    requires Consistent(x, hook) && InRange(c)
    ensures Consistent(XqNext(x, c), StockNext(hook, c))
    ensures XqNext(x, c).hook == Master <==> Heals(c) || (x.hook == Master && !TakesTheSlot(c))
  {
    assert Names(PRAGMA);
  }

  lemma HealsAfterStep(before: seq<Command>, c: Command, i: nat)
    requires i <= |before|
    ensures HealsAfter(before + [c], i) <==> HealsAfter(before, i) || (i < |before| && Heals(c))
  {
    var cs := before + [c];
    if HealsAfter(before, i) {
      var j :| i < j < |before| && Heals(before[j]);
      assert Heals(cs[j]);
    }
    if i < |before| && Heals(c) {
      assert Heals(cs[|before|]);
    }
    if HealsAfter(cs, i) {
      var j :| i < j < |cs| && Heals(cs[j]);
      if j < |before| { assert Heals(before[j]); }
    }
  }

  lemma StaysHealed(before: seq<Command>, c: Command)
    requires Heals(c) || (Healed(before) && !TakesTheSlot(c))
    ensures Healed(before + [c])
  {
    var cs := before + [c];
    forall i: nat | i < |cs| && TakesTheSlot(cs[i]) ensures HealsAfter(cs, i) {
      HealsAfterStep(before, c, i);
      assert i < |before| ==> TakesTheSlot(before[i]);
    }
  }

  lemma WasHealed(before: seq<Command>, c: Command)
    requires Healed(before + [c]) && !Heals(c)
    ensures Healed(before) && !TakesTheSlot(c)
  {
    var cs := before + [c];
    forall i: nat | i < |before| && TakesTheSlot(before[i]) ensures HealsAfter(before, i) {
      assert TakesTheSlot(cs[i]);
      HealsAfterStep(before, c, i);
    }
    HealsAfterStep(before, c, |before|);
    assert cs[|before|] == c;
  }

  lemma HealedStep(before: seq<Command>, c: Command)
    ensures Healed(before + [c]) <==> Heals(c) || (Healed(before) && !TakesTheSlot(c))
  {
    if Heals(c) || (Healed(before) && !TakesTheSlot(c)) {
      StaysHealed(before, c);
    } else if Healed(before + [c]) {
      WasHealed(before, c);
      assert false;
    }
  }

  lemma {:induction false} RunIsConsistent(cs: seq<Command>, log: Pages)
    requires forall i :: 0 <= i < |cs| ==> InRange(cs[i])
    ensures Consistent(XqRun(cs, log).0, StockRun(cs, log).0)
    ensures XqRun(cs, log).0.hook == Master <==> Healed(cs)
    decreases |cs|
  {
    if cs != [] {
      var before := cs[..|cs| - 1];
      RunIsConsistent(before, log);
      SlotMoves(XqRun(before, log).0, StockRun(before, log).0, cs[|cs| - 1]);
      HealedStep(before, cs[|cs| - 1]);
      assert before + [cs[|cs| - 1]] == cs;
    }
  }

  /** The exact limit of the emulation over whole runs of all commands, raw SQL, other spellings and late
      errors included: it is in step with stock SQLite if and only if every command that took the slot was
      followed by a successful write under the exact name. */
  lemma InStepIff(cs: seq<Command>, log: Pages)
    requires forall i :: 0 <= i < |cs| ==> InRange(cs[i])
    ensures InStep(XqRun(cs, log).0, StockRun(cs, log).0) <==> Healed(cs)
  {
    RunIsConsistent(cs, log);
  }

  // ---- what is lost out of step, and what is not -----------------------------------------

  /** The checkpoints among what was seen. */
  function Marks(seen: seq<Seen>): seq<bool> {
    if seen == [] then []
    else
      var last := seen[|seen| - 1];
      Marks(seen[..|seen| - 1]) + (if last.Committed? then [last.checkpoint] else [])
  }

  /** How far the log has grown at the n-th command depends on the checkpoints before it. */
  type Growth = (nat, seq<bool>) -> int

  function Grown(growth: Growth): Pages {
    seen => growth(|seen|, Marks(seen))
  }

  lemma MarksSnoc(seen: seq<Seen>, last: Seen)
    ensures Marks(seen + [last]) == Marks(seen) + (if last.Committed? then [last.checkpoint] else [])
  {
    assert (seen + [last])[..|seen|] == seen;
  }

  /** Whether a read shows what stock SQLite would show. */
  predicate ReadsAlike(x: Xq, hook: Hook, name: string) {
    Names(name) ==>
      if x.hook == Master then name == PRAGMA || x.threshold == 0
      else name == PRAGMA ==> x.threshold == Reported(hook)
  }

  /** In step or out of it, one command shows what stock SQLite shows, except exactly for the reads that do not
      agree; commits in particular always agree. */
  lemma SeenIff(x: Xq, hook: Hook, c: Command, pages: int)
    requires Consistent(x, hook)
    ensures XqSeen(x, c, pages) == StockSeen(hook, c, pages) <==> (c.GetPragma? ==> ReadsAlike(x, hook, c.name))
  {
    assert Names(PRAGMA);
  }

  /** Checkpoints happen on exactly the same commits as in stock SQLite for every command sequence, raw SQL,
      other spellings and late errors included. */
  lemma {:induction false} CheckpointsAlwaysAgree(cs: seq<Command>, growth: Growth)
    requires forall i :: 0 <= i < |cs| ==> InRange(cs[i])
    ensures |XqRun(cs, Grown(growth)).1| == |StockRun(cs, Grown(growth)).1| == |cs|
    ensures Marks(XqRun(cs, Grown(growth)).1) == Marks(StockRun(cs, Grown(growth)).1)
    decreases |cs|
  {
    if cs != [] {
      var log := Grown(growth);
      var before, c := cs[..|cs| - 1], cs[|cs| - 1];
      CheckpointsAlwaysAgree(before, growth);
      RunIsConsistent(before, log);
      var (x, seen) := XqRun(before, log);
      var (hook, shown) := StockRun(before, log);
      var pages := growth(|seen|, Marks(seen));
      assert log(seen) == pages && log(shown) == pages;
      SeenIff(x, hook, c, pages);
      MarksSnoc(seen, XqSeen(x, c, pages));
      MarksSnoc(shown, StockSeen(hook, c, pages));
    }
  }

  /** Every single reply of a run: it is stock SQLite's unless it answers a read that does not agree. */
  lemma ReplyIff(cs: seq<Command>, growth: Growth, c: Command)
    requires InRange(c) && forall i :: 0 <= i < |cs| ==> InRange(cs[i])
    ensures var (x, seen) := XqRun(cs + [c], Grown(growth));
            var (hook, shown) := StockRun(cs + [c], Grown(growth));
            |seen| == |shown| == |cs| + 1 &&
            (seen[|cs|] == shown[|cs|] <==>
             (c.GetPragma? ==> ReadsAlike(XqRun(cs, Grown(growth)).0, StockRun(cs, Grown(growth)).0, c.name)))
  {
    var log := Grown(growth);
    CheckpointsAlwaysAgree(cs, growth);
    RunIsConsistent(cs, log);
    assert (cs + [c])[..|cs|] == cs;
    var (x, seen) := XqRun(cs, log);
    var (hook, shown) := StockRun(cs, log);
    assert log(seen) == log(shown);
    SeenIff(x, hook, c, log(seen));
  }

  function Pids(entries: seq<Entry<Pid>>): (pids: seq<Pid>)
    ensures |pids| == |entries| && forall k :: 0 <= k < |entries| ==> pids[k] == entries[k].state
  {
    seq(|entries|, k requires 0 <= k < |entries| => entries[k].state)
  }

  /** Who hears of a commit: SQLite calls only what is in the slot. */
  function Told(x: Xq): seq<Pid> {
    if x.hook == Master then Pids(x.list.entries) else []
  }

  // The subscribers, told from the commands.

  function Subscriptions(cs: seq<Command>): nat {
    if cs == [] then 0 else Subscriptions(cs[..|cs| - 1]) + (if cs[|cs| - 1].Subscribe? then 1 else 0)
  }

  /** Command `k` subscribed a process, under the id that subscriptions count up to, and no later command
      unsubscribed that id. */
  ghost predicate Listens(cs: seq<Command>, k: nat)
    requires k < |cs|
  {
    cs[k].Subscribe? && forall j :: k < j < |cs| ==> cs[j] != Unsubscribe(1 + Subscriptions(cs[..k]))
  }

  ghost function ListenersUpTo(cs: seq<Command>, k: nat): seq<Entry<Pid>>
    requires k <= |cs|
  {
    if k == 0 then []
    else ListenersUpTo(cs, k - 1) + (if Listens(cs, k - 1) then [Entry(1 + Subscriptions(cs[..k - 1]), cs[k - 1].pid)] else [])
  }

  /** The processes subscribed and not unsubscribed since, in the order in which they subscribed. */
  ghost function Listeners(cs: seq<Command>): seq<Pid> {
    Pids(ListenersUpTo(cs, |cs|))
  }

  lemma ListensLonger(cs: seq<Command>, k: nat)
    requires k < |cs| - 1
    ensures var n := |cs| - 1;
            && Subscriptions(cs[..k]) == Subscriptions(cs[..n][..k])
            && (Listens(cs, k) <==> Listens(cs[..n], k) && cs[n] != Unsubscribe(1 + Subscriptions(cs[..k])))
  {
    var init := cs[..|cs| - 1];
    assert cs[..k] == init[..k];
    assert forall j :: k < j < |init| ==> init[j] == cs[j];
  }

  lemma {:induction false} ListenersKept(cs: seq<Command>, k: nat)
    requires k < |cs| && !cs[|cs| - 1].Unsubscribe?
    ensures ListenersUpTo(cs, k) == ListenersUpTo(cs[..|cs| - 1], k)
  {
    if k > 0 {
      ListenersKept(cs, k - 1);
      ListensLonger(cs, k - 1);
    }
  }

  lemma {:induction false} ListenersLess(cs: seq<Command>, k: nat, id: nat)
    requires k < |cs| && cs[|cs| - 1] == Unsubscribe(id)
    ensures ListenersUpTo(cs, k) == Without(ListenersUpTo(cs[..|cs| - 1], k), id)
  {
    if k > 0 {
      var init := cs[..|cs| - 1];
      ListenersLess(cs, k - 1, id);
      ListensLonger(cs, k - 1);
      assert cs[k - 1] == init[k - 1];
      if Listens(init, k - 1) {
        WithoutSnoc(ListenersUpTo(init, k - 1), Entry(1 + Subscriptions(init[..k - 1]), init[k - 1].pid), id);
      } else {
        assert ListenersUpTo(init, k) == ListenersUpTo(init, k - 1);
      }
    }
  }

  lemma {:induction false} NextSubscription(cs: seq<Command>, log: Pages)
    requires Subscriptions(cs) + 1 < TWO_64
    ensures XqRun(cs, log).0.list.nextId == 1 + Subscriptions(cs)
    decreases |cs|
  {
    if cs != [] { NextSubscription(cs[..|cs| - 1], log); }
  }

  /** The list of any run is exactly the subscriptions not cancelled since. */
  lemma {:induction false} ListIsTheListeners(cs: seq<Command>, log: Pages)
    requires Subscriptions(cs) < TWO_64
    ensures XqRun(cs, log).0.list.entries == ListenersUpTo(cs, |cs|)
    decreases |cs|
  {
    if cs != [] {
      var before, c := cs[..|cs| - 1], cs[|cs| - 1];
      ListIsTheListeners(before, log);
      if c.Unsubscribe? {
        ListenersLess(cs, |before|, c.id);
      } else {
        ListenersKept(cs, |before|);
        if c.Subscribe? { NextSubscription(before, log); }
      }
    }
  }

  /** The same commands as operations on a subscriber list. */
  function Projected(cs: seq<Command>): seq<Op<Pid>> {
    if cs == [] then []
    else
      Projected(cs[..|cs| - 1]) +
      match cs[|cs| - 1]
      case Subscribe(pid) => [Add(pid)]
      case Unsubscribe(id) => [Remove(id)]
      case _ => []
  }

  lemma RunAppend(ops: seq<Op<Pid>>, op: Op<Pid>)
    ensures Subscribers.Run(ops + [op]) == Apply(Subscribers.Run(ops), op)
  {
    assert (ops + [op])[..|ops|] == ops;
  }

  /** The list is the one those operations alone would have made. */
  lemma {:induction false} ListIsProjected(cs: seq<Command>, log: Pages)
    ensures XqRun(cs, log).0.list == Subscribers.Run(Projected(cs))
    decreases |cs|
  {
    if cs != [] {
      var before, c := cs[..|cs| - 1], cs[|cs| - 1];
      ListIsProjected(before, log);
      if c.Subscribe? {
        RunAppend(Projected(before), Add(c.pid));
      } else if c.Unsubscribe? {
        RunAppend(Projected(before), Remove(c.id));
      } else {
        assert Projected(cs) == Projected(before);
      }
    }
  }

  /** A commit tells exactly the processes subscribed and not unsubscribed since, in order, if every command that
      took the slot was healed since; otherwise it tells nobody. */
  lemma SubscribersHearIff(cs: seq<Command>, log: Pages)
    requires Subscriptions(cs) < TWO_64 && forall i :: 0 <= i < |cs| ==> InRange(cs[i])
    ensures Told(XqRun(cs, log).0) == if Healed(cs) then Listeners(cs) else []
  {
    RunIsConsistent(cs, log);
    ListIsTheListeners(cs, log);
  }

  /** Upper case gets past the repair: SQLite accepts the name, xqlite does not recognise it. */
  lemma UpperCaseStealsTheSlot()
    ensures var name := "WAL_AUTOCHECKPOINT";
            Names(name) && XqNext(OPENED, SetPragma(name, 50, Done)).hook == Builtin(50)
            && XqSeen(XqNext(OPENED, SetPragma(name, 50, Done)), GetPragma(PRAGMA), 0) == Value(1000)
  {
    var name := "WAL_AUTOCHECKPOINT";
    assert |name| == |PRAGMA| == 18;
    assert forall i :: 0 <= i < 18 ==> Lower(name[i]) == Lower(PRAGMA[i]);
  }

  /** Whatever the slot held -- after raw SQL, a misspelt name or a late error -- the next successful write
      under the exact name puts the emulation back in step with stock SQLite. */
  lemma SuccessfulSetHeals(x: Xq, hook: Hook, value: int)
    requires -TWO_31 <= value < TWO_31
    ensures var c := SetPragma(PRAGMA, value, Done); InStep(XqNext(x, c), StockNext(hook, c))
  {
    assert Names(PRAGMA);
  }
}

/** The connection's WAL side as the NIFs run it. */
module WalHook {
  import opened Common
  import opened Subscribers
  import opened HookLists
  import opened WalSpec

  class WalConn {
    var hook: Hook
    const list: HookList<Pid>
    var threshold: int  // AtomicI32

    ghost predicate Valid()
      reads this, list
    {
      list.Valid()
    }

    ghost function State(): Xq
      reads this, list
      requires Valid()
    {
      Xq(hook, threshold, list.Roster())
    }

    /** handle_open_result: SQLite opens with its built-in hook, then the master callback takes the slot. */
    constructor ()
      ensures Valid() && fresh(list) && State() == OPENED
    {
      list := new HookList<Pid>();
      threshold := DEFAULT_PAGES;
      hook := Autocheckpoint(DEFAULT_PAGES);
      new;
      InstallCallback();
    }

    method InstallCallback()
      modifies this`hook
      ensures hook == Master
    {
      hook := Master;
    }

    /** pragma::set, as far as the slot is concerned: the row it returns, or an error. */
    method RunPragma(name: string, value: int, answer: Answer) returns (row: Option<Option<int>>)
      modifies this`hook
      ensures hook == StockNext(old(hook), Command.SetPragma(name, value, answer))
      ensures row == (if answer != Done then None else if Names(name) then Some(Some(Reported(hook))) else Some(None))
    {
      if Names(name) && Applied(answer) {
        hook := Autocheckpoint(value);
      }
      row := if answer != Done then None else if Names(name) then Some(Some(Reported(hook))) else Some(None);
    }

    method SetPragma(name: string, value: int, answer: Answer) returns (seen: Seen)
      requires Valid()
      modifies this`hook, this`threshold
      ensures Valid() && State() == XqNext(old(State()), Command.SetPragma(name, value, answer))
      ensures seen == XqSeen(old(State()), Command.SetPragma(name, value, answer), 0)
    {
      assert Names(PRAGMA);
      var row := RunPragma(name, value, answer);
      if row.None? {
        return Failed;
      }
      if name == PRAGMA {
        if row.value.Some? {
          threshold := Clamp(row.value.value);
        }
        InstallCallback();
      }
      seen := if row.value.Some? then Value(row.value.value) else Nothing;
    }

    method GetPragma(name: string) returns (seen: Seen)
      requires Valid()
      ensures seen == XqSeen(State(), Command.GetPragma(name), 0)
      ensures forall stock :: Consistent(State(), stock) ==>
                (seen == StockSeen(stock, Command.GetPragma(name), 0) <==> ReadsAlike(State(), stock, name))
    {
      forall stock | Consistent(State(), stock)
        ensures XqSeen(State(), Command.GetPragma(name), 0) == StockSeen(stock, Command.GetPragma(name), 0) <==>
                ReadsAlike(State(), stock, name)
      {
        SeenIff(State(), stock, Command.GetPragma(name), 0);
      }
      if name == PRAGMA {
        seen := Value(threshold);
      } else {
        seen := if Names(name) then Value(Reported(hook)) else Nothing;
      }
    }

    /** One commit: SQLite calls whatever is in the slot.  The master callback notifies every subscriber in
        order and then decides about the checkpoint. */
    method Commit(pages: int) returns (checkpoint: bool, told: seq<Pid>)
      requires Valid()
      ensures Committed(checkpoint) == XqSeen(State(), Command.Commit, pages)
      ensures told == Told(State())
    {
      checkpoint, told := false, [];
      match hook
      case NoHook =>
      case Builtin(n) => checkpoint := pages >= n;
      case Master =>
        var snapshot := list.Visit();
        for i := 0 to |snapshot|
          invariant |told| == i
          invariant forall k :: 0 <= k < i ==> told[k] == snapshot[k].state
        {
          told := told + [snapshot[i].state];
        }
        if threshold > 0 && pages >= threshold {
          checkpoint := true;
        }
    }

    method Subscribe(pid: Pid) returns (id: nat)
      requires Valid()
      modifies list
      ensures Valid() && State() == XqNext(old(State()), Command.Subscribe(pid)) && id == old(list.nextId)
    {
      id := list.Register(pid);
    }

    method Unsubscribe(id: nat)
      requires Valid()
      modifies list
      ensures Valid() && State() == XqNext(old(State()), Command.Unsubscribe(id))
    {
      var _ := list.Unregister(id);
    }
  }
}
