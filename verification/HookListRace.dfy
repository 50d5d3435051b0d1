/**
 Readers and writers of one subscriber list, interleaved.

 Writers (register, unregister) replace the boxed vector and free its predecessor; readers walk the
 vector they found behind the head pointer, one entry per step.  `locking` says whether a reader takes
 the lock that writers hold: the log callback takes MASTER_LOCK, and the per-connection callbacks run
 inside a C call whose caller holds the connection mutex.
 */
module HookListRace {
  import opened Common
  import Subscribers

  type Tid = nat
  type Addr = nat  // 0 is the null pointer

  datatype Change = Insert(id: nat) | Delete(id: nat)

  datatype Pc =
    | Idle
    | WantWrite(change: Change)
    | Loaded(change: Change)          // writer holds the lock
    | Built(made: Addr)              // new vector boxed, not yet published (0: list becomes empty)
    | Published(prev: Addr)           // head swapped, predecessor not yet freed
    | WantRead
    | ReadHead                        // about to load the head pointer
    | Walking(box: Addr, k: nat)
    | Leaving(locked: bool)

  datatype State = State(
    pcs: seq<Pc>,
    holder: Option<Tid>,
    head: Addr,
    boxes: map<Addr, seq<Item>>,      // live vectors, by address
    frees: map<Addr, nat>,            // how often each allocated vector was freed
    next: Addr,
    faulty: bool)

  /** A vector entry; the machine looks at its id only. */
  type Item = Subscribers.Entry<bool>

  function Listed(id: nat): Item {
    Subscribers.Entry(id, true)
  }

  function Goto(s: State, t: Tid, pc: Pc): State
    requires t < |s.pcs|
  {
    s.(pcs := s.pcs[t := pc])
  }

  /** Reading through a dangling pointer is the fault to exclude. */
  function Content(s: State, a: Addr): seq<Item> {
    if a in s.boxes then s.boxes[a] else []
  }

  function FreeBox(s: State, a: Addr): State {
    if a == 0 then s
    else
      s.(boxes := s.boxes - {a},
         frees := s.frees[a := (if a in s.frees then s.frees[a] else 0) + 1],
         faulty := s.faulty || a !in s.boxes)
  }

  function Publish(s: State, t: Tid, v: seq<Item>): State
    requires t < |s.pcs|
  {
    if v == [] then Goto(s, t, Built(0))
    else Goto(s, t, Built(s.next)).(boxes := s.boxes[s.next := v], frees := s.frees[s.next := 0], next := s.next + 1)
  }

  datatype Choice = Go | Read | Write(change: Change)

  function Step(s: State, locking: bool, t: Tid, c: Choice): State {
    if t >= |s.pcs| then s else
    match s.pcs[t]
    case Idle =>
      if c == Read then Goto(s, t, if locking then WantRead else ReadHead)
      else if c.Write? then Goto(s, t, WantWrite(c.change))
      else s
    case WantWrite(change) => if s.holder.Some? then s else Goto(s, t, Loaded(change)).(holder := Some(t))
    case Loaded(change) =>
      var s1 := s.(faulty := s.faulty || (s.head != 0 && s.head !in s.boxes));
      var v := Content(s, s.head);
      (match change
       case Insert(id) => Publish(s1, t, v + [Listed(id)])
       case Delete(id) =>
         var kept := Subscribers.Without(v, id);
         if |kept| == |v| then Goto(s1, t, Leaving(true)) else Publish(s1, t, kept))
    case Built(made) => Goto(s, t, Published(s.head)).(head := made)
    case Published(prev) => Goto(FreeBox(s, prev), t, Leaving(true))
    case WantRead => if s.holder.Some? then s else Goto(s, t, ReadHead).(holder := Some(t))
    case ReadHead => Goto(s, t, if s.head == 0 then Leaving(locking) else Walking(s.head, 0))
    case Walking(box, k) =>
      Goto(s, t, if k + 1 < |Content(s, box)| then Walking(box, k + 1) else Leaving(locking))
        .(faulty := s.faulty || box !in s.boxes || k >= |s.boxes[box]|)
    case Leaving(locked) => Goto(s, t, Idle).(holder := if locked then None else s.holder)
  }

  function Init(n: nat): State {
    State(seq(n, i => Idle), None, 0, map[], map[], 1, false)
  }

  datatype Move = Move(t: Tid, c: Choice)

  function Run(n: nat, locking: bool, schedule: seq<Move>): State
    decreases |schedule|
  {
    if schedule == [] then Init(n)
    else
      var m := schedule[|schedule| - 1];
      Step(Run(n, locking, schedule[..|schedule| - 1]), locking, m.t, m.c)
  }

  // ---- with the lock ---------------------------------------------------------------------

  predicate Inside(pc: Pc) {
    !pc.Idle? && !pc.WantWrite? && !pc.WantRead?
  }

  /** What the thread inside the lock knows. */
  ghost predicate InsideInv(s: State, pc: Pc) {
    match pc
    case Built(made) => made != s.head && (made != 0 ==> made in s.boxes && s.boxes[made] != [])
    case Published(prev) => prev != s.head && (prev != 0 ==> prev in s.boxes)
    case Walking(box, k) => box == s.head && box in s.boxes && k < |s.boxes[box]|
    case Leaving(locked) => locked
    case _ => true
  }

  /** The vectors that may be allocated: the published one and the one a writer is handling. */
  function Owned(s: State): set<Addr> {
    ((if s.head == 0 then {} else {s.head}) + (if s.holder.Some? && s.holder.value < |s.pcs| then Handling(s.pcs[s.holder.value]) else {})) - {0}
  }

  function Handling(pc: Pc): set<Addr> {
    match pc
    case Built(made) => {made}
    case Published(prev) => {prev}
    case _ => {}
  }

  ghost predicate Inv(s: State) {
    && (forall t :: 0 <= t < |s.pcs| ==> (Inside(s.pcs[t]) <==> s.holder == Some(t)))
    && (s.holder.Some? ==> s.holder.value < |s.pcs| && InsideInv(s, s.pcs[s.holder.value]))
    && s.boxes.Keys == Owned(s)
    && (s.head != 0 ==> s.boxes[s.head] != [])
    && s.next > 0 && (forall a: Addr :: a in s.frees <==> 0 < a < s.next)
    && (forall a :: a in s.boxes ==> a < s.next)
    && (forall a :: a in s.frees ==> s.frees[a] == (if a in s.boxes then 0 else 1))
    && !s.faulty
  }

  /** A thread outside the lock moves on without taking it. */
  lemma OutsideInv(s: State, t: Tid, pc: Pc)
    requires Inv(s) && t < |s.pcs| && !Inside(s.pcs[t]) && !Inside(pc)
    ensures Inv(Goto(s, t, pc))
  {
    assert Owned(Goto(s, t, pc)) == Owned(s);
  }

  lemma EnterInv(s: State, t: Tid, pc: Pc)
    requires Inv(s) && t < |s.pcs| && s.holder.None? && (pc.Loaded? || pc.ReadHead?)
    ensures Inv(Goto(s, t, pc).(holder := Some(t)))
  {
    assert Owned(Goto(s, t, pc).(holder := Some(t))) == Owned(s);
  }

  lemma LeaveInv(s: State, t: Tid)
    requires Inv(s) && t < |s.pcs| && s.pcs[t] == Leaving(true)
    ensures Inv(Goto(s, t, Idle).(holder := None))
  {
    assert s.holder == Some(t);
    assert Owned(Goto(s, t, Idle).(holder := None)) == Owned(s);
  }

  /** Asking for, taking and dropping the lock. */
  lemma LockInv(s: State, t: Tid, c: Choice)
    requires Inv(s) && t < |s.pcs| && (!Inside(s.pcs[t]) || s.pcs[t].Leaving?)
    ensures Inv(Step(s, true, t, c))
  {
    match s.pcs[t]
    case Idle =>
      if c == Read { OutsideInv(s, t, WantRead); }
      if c.Write? { OutsideInv(s, t, WantWrite(c.change)); }
    case WantWrite(change) => if s.holder.None? { EnterInv(s, t, Loaded(change)); }
    case WantRead => if s.holder.None? { EnterInv(s, t, ReadHead); }
    case Leaving(_) => LeaveInv(s, t);
  }

  /** A reader loads the head and visits one entry after the other. */
  lemma ReadInv(s: State, t: Tid, c: Choice)
    requires Inv(s) && t < |s.pcs| && (s.pcs[t].ReadHead? || s.pcs[t].Walking?)
    ensures Inv(Step(s, true, t, c))
  {
    assert Owned(Step(s, true, t, c)) == Owned(s);
  }

  /** A writer boxes the replacement vector. */
  lemma BuildInv(s: State, t: Tid, v: seq<Item>)
    requires Inv(s) && t < |s.pcs| && s.pcs[t].Loaded?
    requires v == [] ==> s.head != 0
    ensures Inv(Publish(s, t, v))
  {
    var s' := Publish(s, t, v);
    assert s'.boxes.Keys == Owned(s');
  }

  lemma LoadInv(s: State, t: Tid, change: Change, c: Choice)
    requires Inv(s) && t < |s.pcs| && s.pcs[t] == Loaded(change)
    ensures Inv(Step(s, true, t, c))
  {
    var v := Content(s, s.head);
    match change
    case Insert(id) => BuildInv(s, t, v + [Listed(id)]);
    case Delete(id) =>
      var kept := Subscribers.Without(v, id);
      if |kept| == |v| {
        assert Owned(Step(s, true, t, c)) == Owned(s);
      } else {
        Subscribers.WithoutKeepsTheRest(v, id);
        BuildInv(s, t, kept);
      }
  }

  /** The head swap hands the writer the predecessor. */
  lemma PublishInv(s: State, t: Tid, made: Addr, c: Choice)
    requires Inv(s) && t < |s.pcs| && s.pcs[t] == Built(made)
    ensures Inv(Step(s, true, t, c))
  {
    var s' := Step(s, true, t, c);
    assert s'.boxes.Keys == Owned(s');
  }

  /** The predecessor is freed: nobody else can be inside the lock. */
  lemma ReclaimInv(s: State, t: Tid, prev: Addr, c: Choice)
    requires Inv(s) && t < |s.pcs| && s.pcs[t] == Published(prev)
    ensures Inv(Step(s, true, t, c))
  {
    var s' := Step(s, true, t, c);
    assert s'.boxes.Keys == Owned(s');
  }

  lemma StepInv(s: State, t: Tid, c: Choice)
    requires Inv(s)
    ensures Inv(Step(s, true, t, c))
  {
    if t < |s.pcs| {
      match s.pcs[t]
      case Loaded(change) => LoadInv(s, t, change, c);
      case Built(made) => PublishInv(s, t, made, c);
      case Published(prev) => ReclaimInv(s, t, prev, c);
      case ReadHead => ReadInv(s, t, c);
      case Walking(_, _) => ReadInv(s, t, c);
      case _ => LockInv(s, t, c);
    }
  }

  lemma {:induction false} RunInv(n: nat, schedule: seq<Move>)
    ensures Inv(Run(n, true, schedule))
    decreases |schedule|
  {
    if schedule != [] {
      RunInv(n, schedule[..|schedule| - 1]);
      StepInv(Run(n, true, schedule[..|schedule| - 1]), schedule[|schedule| - 1].t, schedule[|schedule| - 1].c);
    }
  }

  /** With the lock, no interleaving lets a reader visit a freed vector or frees one twice; and
      whenever nobody is inside the lock, every vector ever boxed except the published one has been
      freed exactly once. */
  lemma LockedReadersAreSafe(n: nat, schedule: seq<Move>)
    ensures var s := Run(n, true, schedule);
            && !s.faulty
            && (forall a :: a in s.frees ==> s.frees[a] <= 1)
            && (s.holder.None? ==> forall a :: 0 < a < s.next ==> (a in s.frees && s.frees[a] == (if a == s.head then 0 else 1)))
  {
    RunInv(n, schedule);
  }

  // ---- without the lock ------------------------------------------------------------------

  lemma Then(schedule: seq<Move>, s1: State, t: Tid, c: Choice, s2: State) returns (longer: seq<Move>)
    requires Run(2, false, schedule) == s1 && Step(s1, false, t, c) == s2
    ensures Run(2, false, longer) == s2
  {
    longer := schedule + [Move(t, c)];
    assert longer[..|schedule|] == schedule;
  }

  /** Two threads and one vector at address 1. */
  function Scene(writer: Pc, reader: Pc, holder: Option<Tid>, head: Addr): State {
    State([writer, reader], holder, head, map[1 := [Listed(7)]], map[1 := 0], 2, false)
  }

  function Blank(writer: Pc, holder: Option<Tid>): State {
    State([writer, Idle], holder, 0, map[], map[], 1, false)
  }

  /** Thread 0 boxes a vector holding subscriber 7 ... */
  lemma BoxRun() returns (schedule: seq<Move>)
    ensures Run(2, false, schedule) == Scene(Built(1), Idle, Some(0), 0)
  {
    assert Init(2).pcs == [Idle, Idle];
    schedule := [];
    schedule := Then(schedule, Blank(Idle, None), 0, Write(Insert(7)), Blank(WantWrite(Insert(7)), None));
    schedule := Then(schedule, Blank(WantWrite(Insert(7)), None), 0, Go, Blank(Loaded(Insert(7)), Some(0)));
    var b := Blank(Loaded(Insert(7)), Some(0));
    assert Content(b, 0) + [Listed(7)] == [Listed(7)];
    assert b.boxes[1 := [Listed(7)]] == map[1 := [Listed(7)]] && b.frees[1 := 0] == map[1 := 0];
    schedule := Then(schedule, b, 0, Go, Scene(Built(1), Idle, Some(0), 0));
  }

  /** ... publishes it ... */
  lemma InsertRun() returns (schedule: seq<Move>)
    ensures Run(2, false, schedule) == Scene(Idle, Idle, None, 1)
  {
    schedule := BoxRun();
    schedule := Then(schedule, Scene(Built(1), Idle, Some(0), 0), 0, Go, Scene(Published(0), Idle, Some(0), 1));
    schedule := Then(schedule, Scene(Published(0), Idle, Some(0), 1), 0, Go, Scene(Leaving(true), Idle, Some(0), 1));
    schedule := Then(schedule, Scene(Leaving(true), Idle, Some(0), 1), 0, Go, Scene(Idle, Idle, None, 1));
  }

  /** ... and thread 1 loads the head pointer without the lock ... */
  lemma PeekRun() returns (schedule: seq<Move>)
    ensures Run(2, false, schedule) == Scene(WantWrite(Delete(7)), Walking(1, 0), None, 1)
  {
    schedule := InsertRun();
    schedule := Then(schedule, Scene(Idle, Idle, None, 1), 0, Write(Delete(7)), Scene(WantWrite(Delete(7)), Idle, None, 1));
    schedule := Then(schedule, Scene(WantWrite(Delete(7)), Idle, None, 1), 1, Read, Scene(WantWrite(Delete(7)), ReadHead, None, 1));
    schedule := Then(schedule, Scene(WantWrite(Delete(7)), ReadHead, None, 1), 1, Go, Scene(WantWrite(Delete(7)), Walking(1, 0), None, 1));
  }

  /** ... just before thread 0 removes the subscriber and frees the vector. */
  lemma RaceRun() returns (schedule: seq<Move>)
    ensures Run(2, false, schedule) == Scene(Published(1), Walking(1, 0), Some(0), 0)
  {
    schedule := PeekRun();
    schedule := Then(schedule, Scene(WantWrite(Delete(7)), Walking(1, 0), None, 1), 0, Go, Scene(Loaded(Delete(7)), Walking(1, 0), Some(0), 1));
    var v := [Listed(7)];
    assert v[..0] == [];
    assert Subscribers.Without(v, 7) == [];
    schedule := Then(schedule, Scene(Loaded(Delete(7)), Walking(1, 0), Some(0), 1), 0, Go, Scene(Built(0), Walking(1, 0), Some(0), 1));
    schedule := Then(schedule, Scene(Built(0), Walking(1, 0), Some(0), 1), 0, Go, Scene(Published(1), Walking(1, 0), Some(0), 0));
  }

  /** A reader that does not take the lock can visit freed memory, which is why the log callback takes it. */
  lemma UnlockedReadersRace() returns (schedule: seq<Move>)
    ensures Run(2, false, schedule).faulty
  {
    schedule := RaceRun();
    var s1 := Scene(Published(1), Walking(1, 0), Some(0), 0);
    var s2 := Step(s1, false, 0, Go);
    assert s2.pcs[1] == Walking(1, 0) && 1 !in s2.boxes;
    schedule := Then(schedule, s1, 0, Go, s2);
    schedule := Then(schedule, s2, 1, Go, Step(s2, false, 1, Go));
  }
}
