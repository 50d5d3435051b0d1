/** The pure meaning of the busy slot: a retry policy plus observers, and the per-event retry decision. */
module BusySpec {
  import opened Common
  import opened Subscribers

  type Pid = nat

  /** u32 retries, u64 milliseconds. */
  datatype Policy = Policy(maxRetries: nat, maxElapsedMs: nat, sleepMs: nat)

  /** Observers are (handle, pid) entries.  `start` is an Instant in nanoseconds of a monotone clock. */
  datatype Slot = Slot(policy: Option<Policy>, observers: seq<Entry<Pid>>, nextHandle: nat, start: nat)

  predicate Vacant(x: Slot) {
    x.policy.None? && x.observers == []
  }

  datatype Mutation = SetPolicy(policy: Policy) | RemovePolicy | AddObserver(pid: Pid) | DropObserver(handle: nat)

  function Snapshot(slot: Option<Slot>, now: nat): Slot {
    match slot
    case None => Slot(None, [], 0, now)
    case Some(x) => x
  }

  function Edited(x: Slot, m: Mutation): Slot {
    match m
    case SetPolicy(policy) => x.(policy := Some(policy))
    case RemovePolicy => x.(policy := None)
    case AddObserver(pid) =>
      x.(observers := x.observers + [Entry(x.nextHandle, pid)], nextHandle := (x.nextHandle + 1) % TWO_64)
    case DropObserver(handle) => x.(observers := Without(x.observers, handle))
  }

  /** `registered` is SQLite's answer to sqlite3_busy_handler. */
  function Mutated(slot: Option<Slot>, m: Mutation, now: nat, registered: bool): Option<Slot> {
    if !registered then slot
    else
      var next := Edited(Snapshot(slot, now), m);
      if Vacant(next) then None else Some(next)
  }

  // ---- runs of mutations -----------------------------------------------------------------

  datatype Event = Event(m: Mutation, now: nat, registered: bool)

  function Run(events: seq<Event>): Option<Slot>
    decreases |events|
  {
    if events == [] then None
    else
      var e := events[|events| - 1];
      Mutated(Run(events[..|events| - 1]), e.m, e.now, e.registered)
  }

  function Registrations(events: seq<Event>): nat {
    if events == [] then 0
    else Registrations(events[..|events| - 1]) + (if events[|events| - 1].m.AddObserver? then 1 else 0)
  }

  /** The policy a caller should see: the last accepted set, unless an accepted remove came after it. */
  function LastPolicy(events: seq<Event>): Option<Policy> {
    if events == [] then None
    else
      var e := events[|events| - 1];
      var before := LastPolicy(events[..|events| - 1]);
      if !e.registered then before
      else if e.m.SetPolicy? then Some(e.m.policy)
      else if e.m.RemovePolicy? then None
      else before
  }

  // ---- the observers, told from the history ---------------------------------------------

  predicate Registers(e: Event) {
    e.registered && e.m.AddObserver?
  }

  predicate Drops(e: Event, handle: nat) {
    e.registered && e.m == DropObserver(handle)
  }

  function NextOf(slot: Option<Slot>): nat {
    Snapshot(slot, 0).nextHandle
  }

  /** The handle that the registration at position `k` returned. */
  function HandleOf(events: seq<Event>, k: nat): nat
    requires k < |events|
  {
    NextOf(Run(events[..k]))
  }

  /** Position `k` registered an observer, and no later accepted removal named its handle. */
  ghost predicate Stays(events: seq<Event>, k: nat)
    requires k < |events|
  {
    Registers(events[k]) && forall j :: k < j < |events| ==> !Drops(events[j], HandleOf(events, k))
  }

  ghost function LiveUpTo(events: seq<Event>, k: nat): seq<Entry<Pid>>
    requires k <= |events|
  {
    if k == 0 then []
    else LiveUpTo(events, k - 1) + (if Stays(events, k - 1) then [Entry(HandleOf(events, k - 1), events[k - 1].m.pid)] else [])
  }

  /** The observers a caller should see: accepted registrations not removed since, in order, each under the
      handle it was given. */
  ghost function Live(events: seq<Event>): seq<Entry<Pid>> {
    LiveUpTo(events, |events|)
  }

  lemma StaysLonger(events: seq<Event>, k: nat)
    requires k < |events| - 1
    ensures var n := |events| - 1;
            && HandleOf(events, k) == HandleOf(events[..n], k)
            && (Stays(events, k) <==> Stays(events[..n], k) && !Drops(events[n], HandleOf(events, k)))
  {
    var init := events[..|events| - 1];
    assert events[..k] == init[..k];
    assert forall j :: k < j < |init| ==> init[j] == events[j];
  }

  lemma {:induction false} LiveLonger(events: seq<Event>, k: nat)
    requires k < |events|
    requires var e := events[|events| - 1]; !(e.registered && e.m.DropObserver?)
    ensures LiveUpTo(events, k) == LiveUpTo(events[..|events| - 1], k)
  {
    if k > 0 {
      var init := events[..|events| - 1];
      LiveLonger(events, k - 1);
      StaysLonger(events, k - 1);
      assert events[k - 1] == init[k - 1];
    }
  }

  lemma {:induction false} LiveLess(events: seq<Event>, k: nat, handle: nat)
    requires k < |events| && Drops(events[|events| - 1], handle)
    ensures LiveUpTo(events, k) == Without(LiveUpTo(events[..|events| - 1], k), handle)
  {
    if k > 0 {
      var init := events[..|events| - 1];
      LiveLess(events, k - 1, handle);
      StaysLonger(events, k - 1);
      assert events[k - 1] == init[k - 1];
      if Stays(init, k - 1) {
        var o := Entry(HandleOf(init, k - 1), init[k - 1].m.pid);
        WithoutSnoc(LiveUpTo(init, k - 1), o, handle);
      } else {
        assert LiveUpTo(init, k) == LiveUpTo(init, k - 1);
      }
    }
  }

  /** How one more event changes the history's observers. */
  lemma LiveStep(events: seq<Event>)
    requires events != []
    ensures var before, e := events[..|events| - 1], events[|events| - 1];
            Live(events) ==
            if !e.registered then Live(before)
            else match e.m
              case AddObserver(pid) => Live(before) + [Entry(NextOf(Run(before)), pid)]
              case DropObserver(handle) => Without(Live(before), handle)
              case _ => Live(before)
  {
    var e := events[|events| - 1];
    if e.registered && e.m.DropObserver? {
      LiveLess(events, |events| - 1, e.m.handle);
    } else {
      LiveLonger(events, |events| - 1);
    }
  }

  lemma {:induction false} SlotIsTheHistory(events: seq<Event>)
    ensures Run(events).None? <==> LastPolicy(events).None? && Live(events) == []
    ensures Run(events).Some? ==> Run(events).value.policy == LastPolicy(events) && Run(events).value.observers == Live(events)
    decreases |events|
  {
    if events != [] {
      SlotIsTheHistory(events[..|events| - 1]);
      LiveStep(events);
    }
  }

  lemma {:induction false} SlotClimbs(events: seq<Event>)
    requires Registrations(events) < TWO_64
    ensures NextOf(Run(events)) <= Registrations(events)
    ensures Run(events).Some? ==> Climbs(Run(events).value.observers, Run(events).value.nextHandle)
    decreases |events|
  {
    if events != [] {
      var e := events[|events| - 1];
      var before := events[..|events| - 1];
      SlotClimbs(before);
      if e.registered {
        var x := Snapshot(Run(before), e.now);
        match e.m
        case AddObserver(pid) => ClimbsSnoc(x.observers, Entry(x.nextHandle, pid), x.nextHandle + 1);
        case DropObserver(handle) => WithoutClimbs(x.observers, handle, x.nextHandle);
        case _ =>
      }
    }
  }

  /** Over any run of mutations with fewer than 2^64 registrations, accepted or refused by SQLite: the slot
      is null exactly when the history left neither a policy nor an observer; otherwise its policy is the
      last one accepted, whatever observers did, and its observers are the live ones in registration order
      under the handles they were given, which climb and stay below the next. */
  lemma RunKeepsTheSlot(events: seq<Event>)
    requires Registrations(events) < TWO_64
    ensures Run(events).None? <==> LastPolicy(events).None? && Live(events) == []
    ensures Run(events).Some? ==>
              var x := Run(events).value;
              && x.policy == LastPolicy(events) && x.observers == Live(events)
              && x.nextHandle <= Registrations(events) && Climbs(x.observers, x.nextHandle)
  {
    SlotIsTheHistory(events);
    SlotClimbs(events);
  }

  /** The handle a registration returns names no observer that is still live. */
  lemma FreshHandle(events: seq<Event>, now: nat)
    requires Registrations(events) < TWO_64
    ensures forall o :: o in Snapshot(Run(events), now).observers ==> o.id != Snapshot(Run(events), now).nextHandle
  {
    RunKeepsTheSlot(events);
  }

  // ---- when a run reuses a handle --------------------------------------------------------

  lemma {:induction false} RegistrationsGrow(events: seq<Event>, k: nat)
    requires k <= |events|
    ensures Registrations(events[..k]) <= Registrations(events)
    decreases |events|
  {
    if k == |events| {
      assert events[..k] == events;
    } else {
      var init := events[..|events| - 1];
      RegistrationsGrow(init, k);
      assert init[..k] == events[..k];
    }
  }

  lemma MutatedNext(slot: Option<Slot>, e: Event)
    requires Registers(e) ==> NextOf(slot) + 1 < TWO_64
    ensures var after := Mutated(slot, e.m, e.now, e.registered);
            && (Registers(e) ==> after.Some?)
            && (after.Some? ==> NextOf(after) == NextOf(slot) + if Registers(e) then 1 else 0)
  {
  }

  lemma RunSnoc(events: seq<Event>, k: nat)
    requires k < |events|
    ensures Run(events[..k + 1]) == Mutated(Run(events[..k]), events[k].m, events[k].now, events[k].registered)
  {
    assert events[..k + 1][..k] == events[..k];
  }

  /** While the slot is installed only a registration moves the counter, and by one. */
  lemma NextMoves(events: seq<Event>, k: nat)
    requires Registrations(events) < TWO_64 && k < |events|
    ensures Registers(events[k]) ==> Run(events[..k + 1]).Some?
    ensures Run(events[..k + 1]).Some? ==>
              NextOf(Run(events[..k + 1])) == NextOf(Run(events[..k])) + if Registers(events[k]) then 1 else 0
  {
    RegistrationsGrow(events, k + 1);
    assert events[..k + 1][..k] == events[..k];
    SlotClimbs(events[..k]);
    RunSnoc(events, k);
    MutatedNext(Run(events[..k]), events[k]);
  }

  lemma {:induction false} HandlesClimb(events: seq<Event>, i: nat, j: nat)
    requires Registrations(events) < TWO_64 && i < j <= |events| && Registers(events[i])
    requires forall k :: i < k <= j ==> Run(events[..k]).Some?
    ensures HandleOf(events, i) < NextOf(Run(events[..j]))
    decreases j
  {
    NextMoves(events, j - 1);
    if i < j - 1 { HandlesClimb(events, i, j - 1); }
  }

  /** The first registration at or after `k`. */
  lemma {:induction false} FirstFrom(events: seq<Event>, k: nat, j: nat) returns (m: nat)
    requires k <= j < |events| && Registers(events[j])
    ensures k <= m <= j && Registers(events[m]) && forall i :: k <= i < m ==> !Registers(events[i])
    decreases j - k
  {
    if Registers(events[k]) { m := k; } else { m := FirstFrom(events, k + 1, j); }
  }

  /** From a vacancy on the counter is zero until somebody registers. */
  lemma {:induction false} ZeroUntil(events: seq<Event>, k: nat, m: nat)
    requires Registrations(events) < TWO_64 && k <= m <= |events| && Run(events[..k]).None?
    requires forall i :: k <= i < m ==> !Registers(events[i])
    ensures NextOf(Run(events[..m])) == 0
    decreases m
  {
    if k < m {
      ZeroUntil(events, k, m - 1);
      NextMoves(events, m - 1);
    }
  }

  ghost predicate AllDistinct(events: seq<Event>) {
    forall i, j :: 0 <= i < j < |events| && Registers(events[i]) && Registers(events[j]) ==>
                     HandleOf(events, i) != HandleOf(events, j)
  }

  /** The slot never empties between two registrations. */
  ghost predicate KeptInstalled(events: seq<Event>) {
    forall i, k, j :: 0 <= i < k <= j < |events| && Registers(events[i]) && Registers(events[j]) ==>
                        Run(events[..k]).Some?
  }

  /** A vacancy between two registrations makes two of the run's handles both zero. */
  lemma VacancyReuses(events: seq<Event>, i: nat, k: nat, j: nat) returns (a: nat, b: nat)
    requires Registrations(events) < TWO_64 && i < k <= j < |events| && Registers(events[i]) && Registers(events[j])
    requires Run(events[..k]).None?
    ensures a < b < |events| && Registers(events[a]) && Registers(events[b])
    ensures HandleOf(events, a) == HandleOf(events, b) == 0
  {
    a := FirstFrom(events, 0, i);
    ZeroUntil(events, 0, a);
    b := FirstFrom(events, k, j);
    ZeroUntil(events, k, b);
  }

  /** The handles of a run are pairwise distinct if and only if the slot stays installed from the first
      registration to the last. */
  lemma HandlesDistinctIff(events: seq<Event>)
    requires Registrations(events) < TWO_64
    ensures AllDistinct(events) <==> KeptInstalled(events)
  {
    if KeptInstalled(events) {
      forall i, j | 0 <= i < j < |events| && Registers(events[i]) && Registers(events[j])
        ensures HandleOf(events, i) != HandleOf(events, j)
      {
        HandlesClimb(events, i, j);
      }
    } else {
      var i, k, j :| 0 <= i < k <= j < |events| && Registers(events[i]) && Registers(events[j]) && Run(events[..k]).None?;
      var a, b := VacancyReuses(events, i, k, j);
    }
  }

  /** The shortest such run: register, remove, register again, and both registrations return handle 0. */
  lemma HandlesRestart(a: Pid, b: Pid, now: nat)
    ensures var events := [Event(AddObserver(a), now, true), Event(DropObserver(0), now, true), Event(AddObserver(b), now, true)];
            && Registers(events[0]) && Registers(events[2])
            && HandleOf(events, 0) == HandleOf(events, 2) == 0
            && Run(events) == Some(Slot(None, [Entry(0, b)], 1, now))
  {
    var events := [Event(AddObserver(a), now, true), Event(DropObserver(0), now, true), Event(AddObserver(b), now, true)];
    RunSnoc(events, 0);
    RunSnoc(events, 1);
    RunSnoc(events, 2);
    assert events[..0] == [] && events[..3] == events;
    FirstObserver(a, now);
    OnlyObserverGone(a, now);
    FirstObserver(b, now);
  }

  lemma FirstObserver(pid: Pid, now: nat)
    ensures Mutated(None, AddObserver(pid), now, true) == Some(Slot(None, [Entry(0, pid)], 1, now))
  {
    assert [] + [Entry(0, pid)] == [Entry(0, pid)];
  }

  lemma OnlyObserverGone(pid: Pid, now: nat)
    ensures Mutated(Some(Slot(None, [Entry(0, pid)], 1, now)), DropObserver(0), now, true) == None
  {
    var one := [Entry(0, pid)];
    assert one[..0] == [];
    assert Without(one, 0) == [];
  }

  // ---- the retry decision ----------------------------------------------------------------

  /** `count as u32` for a C int. */
  function AsU32(count: int): nat
    requires -TWO_31 <= count < TWO_31
  {
    if count < 0 then count + 2 * TWO_31 else count
  }

  /** The cast keeps the counts SQLite passes and sends a negative one beyond every i32. */
  lemma AsU32Is(count: int)
    requires -TWO_31 <= count < TWO_31
    ensures 0 <= AsU32(count) < 0x1_0000_0000 && (AsU32(count) - count) % 0x1_0000_0000 == 0
  {
  }

  /** One callback: the clock is restarted at count 0, then read. */
  datatype Call = Call(count: int, setAt: nat, readAt: nat)

  predicate CInt(count: int) {
    -TWO_31 <= count < TWO_31
  }

  function Started(x: Slot, call: Call): Slot {
    if call.count == 0 then x.(start := call.setAt) else x
  }

  function Decision(x: Slot, call: Call): int
    requires CInt(call.count)
  {
    match x.policy
    case None => 0
    case Some(policy) =>
      if AsU32(call.count) >= policy.maxRetries || ElapsedMs(Started(x, call).start, call.readAt) >= policy.maxElapsedMs
      then 0 else 1
  }

  /** One busy event as SQLite drives it: counts 0, 1, 2, ... on a monotone clock. */
  ghost predicate BusyEvent(calls: seq<Call>) {
    && |calls| < TWO_31
    && (forall k :: 0 <= k < |calls| ==> calls[k].count == k && calls[k].setAt <= calls[k].readAt)
    && (forall j, k :: 0 <= j < k < |calls| ==> calls[j].readAt <= calls[k].setAt)
  }

  function Decisions(x: Slot, calls: seq<Call>): seq<int>
    requires forall k :: 0 <= k < |calls| ==> CInt(calls[k].count)
    decreases |calls|
  {
    if calls == [] then [] else [Decision(x, calls[0])] + Decisions(Started(x, calls[0]), calls[1..])
  }

  /** Whole milliseconds in a span of nanoseconds, as a u64. */
  function Millis(nanos: int): int {
    if nanos < 0 then 0 else (nanos / 1_000_000) % TWO_64
  }

  /** Exactly when the k-th callback of an event retries, measured from the event's own first callback. */
  predicate Granted(x: Slot, first: nat, call: Call)
  {
    && x.policy.Some?
    && call.count < x.policy.value.maxRetries
    && Millis(call.readAt - first) < x.policy.value.maxElapsedMs
  }

  lemma {:induction false} LaterDecisions(x: Slot, calls: seq<Call>)
    requires forall k :: 0 <= k < |calls| ==> 0 < calls[k].count < TWO_31
    ensures |Decisions(x, calls)| == |calls|
    ensures forall k :: 0 <= k < |calls| ==> Decisions(x, calls)[k] == (if Granted(x, x.start, calls[k]) then 1 else 0)
    decreases |calls|
  {
    if calls != [] {
      LaterDecisions(x, calls[1..]);
      forall k | 0 <= k < |calls| ensures Decisions(x, calls)[k] == (if Granted(x, x.start, calls[k]) then 1 else 0) {
        if k > 0 { assert calls[1..][k - 1] == calls[k]; }
      }
    }
  }

  /** Whatever earlier events and mutations left in the slot, the decisions of one event are fixed by the
      policy and by the time since that event's own first callback; the slot's age plays no part. */
  lemma EventBudget(x: Slot, calls: seq<Call>)
    requires BusyEvent(calls) && calls != []
    ensures |Decisions(x, calls)| == |calls|
    ensures forall k :: 0 <= k < |calls| ==> Decisions(x, calls)[k] == (if Granted(x, calls[0].setAt, calls[k]) then 1 else 0)
    ensures forall age :: Decisions(x.(start := age), calls) == Decisions(x, calls)
  {
    EventDecisions(x, calls);
    forall age ensures Decisions(x.(start := age), calls) == Decisions(x, calls) {
      EventDecisions(x.(start := age), calls);
      assert forall k :: 0 <= k < |calls| ==> Granted(x.(start := age), calls[0].setAt, calls[k]) == Granted(x, calls[0].setAt, calls[k]);
    }
  }

  lemma EventDecisions(x: Slot, calls: seq<Call>)
    requires BusyEvent(calls) && calls != []
    ensures |Decisions(x, calls)| == |calls|
    ensures forall k :: 0 <= k < |calls| ==> Decisions(x, calls)[k] == (if Granted(x, calls[0].setAt, calls[k]) then 1 else 0)
  {
    var y := Started(x, calls[0]);
    LaterDecisions(y, calls[1..]);
    forall k | 0 <= k < |calls| ensures Decisions(x, calls)[k] == (if Granted(x, calls[0].setAt, calls[k]) then 1 else 0) {
      if k > 0 { assert calls[1..][k - 1] == calls[k]; }
    }
  }

  function Grants(decisions: seq<int>): nat {
    if decisions == [] then 0 else Grants(decisions[..|decisions| - 1]) + (if decisions[|decisions| - 1] == 1 then 1 else 0)
  }

  lemma {:induction false} GrantsBounded(decisions: seq<int>, limit: nat)
    requires forall k :: limit <= k < |decisions| ==> decisions[k] != 1
    ensures Grants(decisions) <= limit
    decreases |decisions|
  {
    if decisions != [] {
      if |decisions| <= limit {
        GrantsBounded(decisions[..|decisions| - 1], |decisions| - 1);
      } else {
        GrantsBounded(decisions[..|decisions| - 1], limit);
      }
    }
  }

  /** The policy allows a retry: retries are left, and less than `maxElapsedMs` milliseconds have gone by. */
  predicate Allows(policy: Option<Policy>, count: int, first: nat, now: nat) {
    && policy.Some?
    && count < policy.value.maxRetries
    && now - first < policy.value.maxElapsedMs * 1_000_000
  }

  lemma GrantedIff(x: Slot, first: nat, call: Call)
    requires first <= call.readAt && call.readAt - first < TWO_64 * 1_000_000
    ensures Granted(x, first, call) <==> Allows(x.policy, call.count, first, call.readAt)
  {
    ElapsedIsTheTime(first, call.readAt);
    if x.policy.Some? {
      SpansBelow(ElapsedMs(first, call.readAt), first, call.readAt, x.policy.value.maxElapsedMs);
    }
  }

  lemma WithinEvent(calls: seq<Call>, k: nat)
    requires BusyEvent(calls) && k < |calls|
    ensures calls[0].setAt <= calls[k].readAt <= calls[|calls| - 1].readAt
  {
  }

  /** The budget of one event, both ways: its k-th callback retries if and only if the policy has retries left and
      less than `maxElapsedMs` milliseconds have gone by since the event's own first callback (for events shorter
      than 2^64 ms). */
  lemma RetryIff(x: Slot, calls: seq<Call>, k: nat)
    requires BusyEvent(calls) && k < |calls|
    requires calls[|calls| - 1].readAt - calls[0].setAt < TWO_64 * 1_000_000
    ensures |Decisions(x, calls)| == |calls|
    ensures Decisions(x, calls)[k] == if Allows(x.policy, k, calls[0].setAt, calls[k].readAt) then 1 else 0
  {
    EventDecisions(x, calls);
    WithinEvent(calls, k);
    GrantedIff(x, calls[0].setAt, calls[k]);
  }

  lemma GrantsAreFew(x: Slot, calls: seq<Call>)
    requires BusyEvent(calls) && calls != []
    ensures Grants(Decisions(x, calls)) <= if x.policy.Some? then x.policy.value.maxRetries else 0
  {
    EventDecisions(x, calls);
    GrantsBounded(Decisions(x, calls), if x.policy.Some? then x.policy.value.maxRetries else 0);
  }

  /** One event grants at most `maxRetries` retries, and none at or past `maxElapsedMs` after its first
      callback (for events shorter than 2^64 ms); without a policy it grants none. */
  lemma RetriesAreBounded(x: Slot, calls: seq<Call>)
    requires BusyEvent(calls) && calls != []
    requires calls[|calls| - 1].readAt - calls[0].setAt < TWO_64 * NANOS_PER_MILLI
    ensures |Decisions(x, calls)| == |calls|
    ensures x.policy.Some? ==> Grants(Decisions(x, calls)) <= x.policy.value.maxRetries
    ensures x.policy.None? ==> Grants(Decisions(x, calls)) == 0
    ensures forall k :: 0 <= k < |calls| && Decisions(x, calls)[k] == 1 ==>
              x.policy.Some? && calls[k].readAt - calls[0].setAt < x.policy.value.maxElapsedMs * NANOS_PER_MILLI
  {
    EventDecisions(x, calls);
    GrantsAreFew(x, calls);
    var decisions := Decisions(x, calls);
    forall k | 0 <= k < |calls| && decisions[k] == 1
      ensures x.policy.Some? && calls[k].readAt - calls[0].setAt < x.policy.value.maxElapsedMs * NANOS_PER_MILLI
    {
      RetryIff(x, calls, k);
    }
  }

  // ---- mutations in the middle of an event -----------------------------------------------

  /** The slot after mutations that start from `slot`. */
  function Folded(slot: Option<Slot>, ms: seq<Event>): Option<Slot> {
    if ms == [] then slot
    else
      var e := ms[|ms| - 1];
      Mutated(Folded(slot, ms[..|ms| - 1]), e.m, e.now, e.registered)
  }

  lemma MutationKeepsTheClock(x: Slot, m: Mutation, now: nat, registered: bool)
    ensures var after := Mutated(Some(x), m, now, registered); after.Some? ==> after.value.start == x.start
  {
  }

  lemma {:induction false} ClockSurvives(x: Slot, ms: seq<Event>)
    requires forall k :: 0 <= k <= |ms| ==> Folded(Some(x), ms[..k]).Some?
    ensures Folded(Some(x), ms).Some? && Folded(Some(x), ms).value.start == x.start
  {
    if ms != [] {
      var before, e := ms[..|ms| - 1], ms[|ms| - 1];
      assert forall k :: 0 <= k <= |before| ==> before[..k] == ms[..k];
      assert ms[..|ms|] == ms;
      ClockSurvives(x, before);
      MutationKeepsTheClock(Folded(Some(x), before).value, e.m, e.now, e.registered);
    }
  }

  /** A policy changed in the middle of an event is in force at once, but the event's budget still runs from its
      own first callback: any mutations in between, as long as they leave the slot installed, do not restart it. */
  lemma MidEventDecision(x: Slot, first: Call, ms: seq<Event>, call: Call)
    requires first.count == 0 && 0 < call.count < TWO_31
    requires forall k :: 0 <= k <= |ms| ==> Folded(Some(Started(x, first)), ms[..k]).Some?
    ensures var after := Folded(Some(Started(x, first)), ms);
            && after.Some?
            && (Decision(after.value, call) == 1 <==> Granted(after.value, first.setAt, call))
            && (first.setAt <= call.readAt && call.readAt - first.setAt < TWO_64 * 1_000_000 ==>
                  Decision(after.value, call) == if Allows(after.value.policy, call.count, first.setAt, call.readAt) then 1 else 0)
  {
    ClockSurvives(Started(x, first), ms);
    var after := Folded(Some(Started(x, first)), ms).value;
    if first.setAt <= call.readAt && call.readAt - first.setAt < TWO_64 * 1_000_000 {
      GrantedIff(after, first.setAt, call);
    }
  }
}

/** The slot as the connection keeps it: one boxed state behind an atomic pointer that SQLite's handler also points to. */
module BusyHandler {
  import opened Common
  import opened Boxes
  import opened Subscribers
  import opened BusySpec

  datatype CHandler = NoHandler | Ours(p: nat) | Foreign

  class BusySlot {
    var slot: nat           // AtomicPtr<BusySlotState>; 0 is null
    var heap: Heap<Slot>
    var handler: CHandler   // what sqlite3_busy_handler last installed

    /** SQLite never holds a pointer to a freed box, and no box is leaked. */
    ghost predicate Valid()
      reads this
    {
      && heap.WellFormed()
      && heap.live.Keys == (if slot == 0 then {} else {slot})
      && (slot != 0 ==> !Vacant(heap.live[slot]))
      && (handler.Ours? ==> slot != 0 && handler.p == slot)
    }

    function Value(): Option<Slot>
      reads this
      requires Valid()
    {
      if slot == 0 then None else Some(heap.live[slot])
    }

    constructor ()
      ensures Valid() && Value() == None && handler == NoHandler
    {
      slot, heap, handler := 0, EmptyHeap(), NoHandler;
    }

    /** Frees a box that neither the slot nor SQLite points to any more. */
    method Reclaim(p: nat)
      requires heap.WellFormed() && p in heap.live && slot != p && handler != Ours(p)
      modifies this`heap
      ensures heap == old(heap).Free(p)
    {
      heap := heap.Free(p);
    }

    /** hook_util::install_hook with the sqlite3_busy_handler registration inlined: the predecessor goes only
        after the handler and the slot have moved on. */
    method InstallHook(state: Slot, registered: bool) returns (ok: bool)
      requires Valid() && !Vacant(state)
      modifies this
      ensures Valid() && ok == registered
      ensures ok ==> Value() == Some(state) && handler == Ours(slot) && heap.freed == old(heap.freed) + old(heap.live.Keys)
      ensures !ok ==> slot == old(slot) && handler == old(handler) && heap.live == old(heap.live)
    {
      var newPtr := heap.next;
      heap := heap.Alloc(state);
      if registered {
        handler := Ours(newPtr);
        var oldPtr := slot;
        slot := newPtr;
        if oldPtr != 0 {
          Reclaim(oldPtr);
        }
        ok := true;
      } else {
        Reclaim(newPtr);
        ok := false;
      }
    }

    /** hook_util::uninstall_hook: the handler is cleared before the box is freed. */
    method UninstallHook(cleared: bool) returns (ok: bool)
      requires Valid()
      modifies this
      ensures Valid() && ok == cleared
      ensures ok ==> Value() == None && handler == NoHandler && heap.freed == old(heap.freed) + old(heap.live.Keys)
      ensures !ok ==> slot == old(slot) && handler == old(handler) && heap == old(heap)
    {
      if !cleared {
        return false;
      }
      handler := NoHandler;
      var oldPtr := slot;
      slot := 0;
      if oldPtr != 0 {
        Reclaim(oldPtr);
      }
      return true;
    }

    method SwapIn(next: Slot, registered: bool) returns (ok: bool)
      requires Valid()
      modifies this
      ensures Valid() && ok == registered
      ensures Value() == (if !ok then old(Value()) else if Vacant(next) then None else Some(next))
      ensures !ok ==> slot == old(slot) && handler == old(handler) && heap.live == old(heap.live)
      ensures ok ==> (handler.NoHandler? <==> Value().None?) && !handler.Foreign?
    {
      if next.policy.None? && next.observers == [] {
        ok := UninstallHook(registered);
      } else {
        ok := InstallHook(next, registered);
      }
    }

    method SetPolicy(policy: Policy, now: nat, registered: bool) returns (ok: bool)
      requires Valid()
      modifies this
      ensures Valid() && ok == registered
      ensures Value() == Mutated(old(Value()), Mutation.SetPolicy(policy), now, registered)
      ensures !ok ==> slot == old(slot) && handler == old(handler) && heap.live == old(heap.live)
    {
      var next := Snapshot(Value(), now);
      next := next.(policy := Some(policy));
      ok := SwapIn(next, registered);
    }

    method RemovePolicy(now: nat, registered: bool) returns (ok: bool)
      requires Valid()
      modifies this
      ensures Valid() && ok == registered
      ensures Value() == Mutated(old(Value()), Mutation.RemovePolicy, now, registered)
      ensures !ok ==> slot == old(slot) && handler == old(handler) && heap.live == old(heap.live)
    {
      var next := Snapshot(Value(), now);
      next := next.(policy := None);
      ok := SwapIn(next, registered);
    }

    method RegisterObserver(pid: Pid, now: nat, registered: bool) returns (handle: Option<nat>)
      requires Valid()
      modifies this
      ensures Valid() && handle == (if registered then Some(Snapshot(old(Value()), now).nextHandle) else None)
      ensures Value() == Mutated(old(Value()), AddObserver(pid), now, registered)
      ensures handle.None? ==> slot == old(slot) && handler == old(handler) && heap.live == old(heap.live)
    {
      var next := Snapshot(Value(), now);
      var h := next.nextHandle;
      next := next.(nextHandle := (next.nextHandle + 1) % TWO_64);
      next := next.(observers := next.observers + [Entry(h, pid)]);
      var ok := SwapIn(next, registered);
      handle := if ok then Some(h) else None;
    }

    method UnregisterObserver(handle: nat, now: nat, registered: bool) returns (ok: bool)
      requires Valid()
      modifies this
      ensures Valid() && ok == registered
      ensures Value() == Mutated(old(Value()), DropObserver(handle), now, registered)
      ensures !ok ==> slot == old(slot) && handler == old(handler) && heap.live == old(heap.live)
    {
      var next := Snapshot(Value(), now);
      var kept: seq<Entry<Pid>> := [];
      for i := 0 to |next.observers|
        invariant kept == Without(next.observers[..i], handle)
      {
        assert next.observers[..i + 1][..i] == next.observers[..i];
        if next.observers[i].id != handle {
          kept := kept + [next.observers[i]];
        }
      }
      assert next.observers[..|next.observers|] == next.observers;
      next := next.(observers := kept);
      ok := SwapIn(next, registered);
    }

    /** Environment: something else (for instance `PRAGMA busy_timeout`) installs its own handler. */
    method ReplacedElsewhere()
      requires Valid()
      modifies this`handler
      ensures Valid() && Value() == old(Value()) && handler == Foreign
    {
      handler := Foreign;
    }

    /** hook_util::drop_hook, run by the connection resource's destructor.  It frees the box without touching the
        handler, and it runs before the Connection field is dropped: this is where the validity of the
        C pointer ends. */
    method DropHook()
      requires Valid()
      modifies this`slot, this`heap
      ensures slot == 0 && heap.WellFormed() && heap.live == map[] && heap.freed == old(heap.freed) + old(heap.live.Keys)
      ensures Valid() <==> !handler.Ours?
    {
      var ptr := slot;
      slot := 0;
      if ptr != 0 {
        heap := heap.Free(ptr);
      }
    }

    /** The C callback.  SQLite passes back the pointer it was given, so it runs only while the handler is ours. */
    method BusyCallback(call: Call) returns (decision: int, told: seq<(Pid, nat, nat)>)
      requires Valid() && handler.Ours? && CInt(call.count)
      modifies this`heap
      ensures Valid() && Value() == Some(Started(old(Value()).value, call))
      ensures decision == Decision(old(Value()).value, call)
      ensures |told| == |Value().value.observers|
      ensures forall k :: 0 <= k < |told| ==>
                told[k] == (Value().value.observers[k].state, AsU32(call.count), ElapsedMs(Value().value.start, call.readAt))
      ensures var start := Value().value.start;
              start <= call.readAt && call.readAt - start < TWO_64 * 1_000_000 ==>
                forall k :: 0 <= k < |told| ==> Spans(told[k].2, start, call.readAt)
      ensures call.count == 0 ==> Value().value.start == call.setAt
      ensures call.count >= 0 ==> forall k :: 0 <= k < |told| ==> told[k].1 == call.count
    {
      var p := handler.p;
      var retries := AsU32(call.count);
      if retries == 0 {
        heap := heap.(live := heap.live[p := heap.live[p].(start := call.setAt)]);
      }
      var state := heap.live[p];
      var elapsed := ElapsedMs(state.start, call.readAt);
      ElapsedIsTheTime(state.start, call.readAt);
      told := [];
      for i := 0 to |state.observers|
        invariant |told| == i
        invariant forall k :: 0 <= k < i ==> told[k] == (state.observers[k].state, retries, elapsed)
      {
        told := told + [(state.observers[i].state, retries, elapsed)];
      }
      match state.policy
      case None => decision := 0;
      case Some(policy) =>
        if retries >= policy.maxRetries || elapsed >= policy.maxElapsedMs {
          return 0, told;
        }
        decision := 1;
    }
  }
}
