/** The pure meaning of the progress dispatch: scoped cancel flags and decimated tick counters. */
module ProgressSpec {
  import opened Common
  import opened Subscribers

  type Pid = nat
  type FlagId = nat  // an Arc<AtomicBool>

  // ---- cancel flags ----------------------------------------------------------------------

  /** OR over the registered flags. */
  predicate Interrupted(entries: seq<Entry<FlagId>>, raised: set<FlagId>) {
    exists i :: 0 <= i < |entries| && entries[i].state in raised
  }

  /** The list after the guard has registered its first `k` tokens. */
  function Built(l: Roster<FlagId>, tokens: seq<FlagId>, k: nat): Roster<FlagId>
    requires k <= |tokens|
  {
    if k == 0 then l else Added(Built(l, tokens, k - 1), tokens[k - 1])
  }

  /** The entries a guard adds, with the ids it is handed. */
  function GuardEntries(first: nat, tokens: seq<FlagId>): seq<Entry<FlagId>> {
    seq(|tokens|, i requires 0 <= i < |tokens| => Entry(first + i, tokens[i]))
  }

  /** The list after the guard's destructor has unregistered its first `k` ids, which run from `first` on. */
  function Torn(l: Roster<FlagId>, first: nat, k: nat): Roster<FlagId> {
    if k == 0 then l else Removed(Torn(l, first, k - 1), first + k - 1)
  }

  lemma {:induction false} BuiltForm(l: Roster<FlagId>, tokens: seq<FlagId>, k: nat)
    requires k <= |tokens| && l.nextId + |tokens| <= TWO_64
    ensures Built(l, tokens, k).entries == l.entries + GuardEntries(l.nextId, tokens)[..k]
    ensures Built(l, tokens, k).nextId == (if k == 0 then l.nextId else (l.nextId + k) % TWO_64)
  {
    if k > 0 {
      BuiltForm(l, tokens, k - 1);
      var all := GuardEntries(l.nextId, tokens);
      assert all[..k] == all[..k - 1] + [all[k - 1]];
    }
  }

  /** The id handed out for the `k`-th token. */
  lemma NextTokenId(l: Roster<FlagId>, tokens: seq<FlagId>, k: nat)
    requires k < |tokens| && l.nextId + |tokens| <= TWO_64
    ensures Built(l, tokens, k).nextId == l.nextId + k
  {
    BuiltForm(l, tokens, k);
  }

  lemma {:induction false} WithoutMissing<T>(entries: seq<Entry<T>>, id: nat)
    requires forall e :: e in entries ==> e.id != id
    ensures Without(entries, id) == entries
  {
    WithoutKeepsTheRest(entries, id);
  }

  lemma {:induction false} WithoutAppend<T>(a: seq<Entry<T>>, b: seq<Entry<T>>, id: nat)
    ensures Without(a + b, id) == Without(a, id) + Without(b, id)
    decreases |b|
  {
    if b == [] {
      assert a + b == a;
    } else {
      var init := b[..|b| - 1];
      WithoutAppend(a, init, id);
      assert (a + b)[..|a + b| - 1] == a + init;
    }
  }

  lemma WithoutFirst<T>(first: Entry<T>, rest: seq<Entry<T>>)
    requires forall e :: e in rest ==> e.id != first.id
    ensures Without([first] + rest, first.id) == rest
  {
    WithoutAppend([first], rest, first.id);
    WithoutMissing(rest, first.id);
    assert [first][..0] == [];
  }

  /** The ids of `added` run on from `first`, and everything in `base` is older. */
  ghost predicate Newer(base: seq<Entry<FlagId>>, added: seq<Entry<FlagId>>, first: nat) {
    && (forall i :: 0 <= i < |base| ==> base[i].id < first)
    && (forall i :: 0 <= i < |added| ==> added[i].id == first + i)
  }

  /** The next entry to go is the only one with its id. */
  lemma PeelOne(base: seq<Entry<FlagId>>, added: seq<Entry<FlagId>>, first: nat, k: nat)
    requires k < |added| && Newer(base, added, first)
    ensures Without(base + added[k..], first + k) == base + added[k + 1..]
  {
    var rest := added[k + 1..];
    WithoutFirst(added[k], rest);
    assert added[k..] == [added[k]] + rest;
    WithoutAppend(base, [added[k]] + rest, first + k);
    WithoutMissing(base, first + k);
  }

  /** Unregistering in registration order peels the guard's entries off the front, and touches nothing else. */
  lemma {:induction false} TornForm(base: seq<Entry<FlagId>>, added: seq<Entry<FlagId>>, next: nat, first: nat, k: nat)
    requires k <= |added| && Newer(base, added, first)
    ensures Torn(Roster(base + added, next), first, k).entries == base + added[k..]
  {
    if k == 0 {
      assert added[0..] == added;
    } else {
      TornForm(base, added, next, first, k - 1);
      PeelOne(base, added, first, k - 1);
    }
  }

  lemma GuardTorn(l: Roster<FlagId>, tokens: seq<FlagId>, k: nat)
    requires Climbs(l.entries, l.nextId) && l.nextId + |tokens| <= TWO_64 && k <= |tokens|
    ensures Torn(Built(l, tokens, |tokens|), l.nextId, k).entries == l.entries + GuardEntries(l.nextId, tokens)[k..]
  {
    var added, full := GuardEntries(l.nextId, tokens), Built(l, tokens, |tokens|);
    BuiltForm(l, tokens, |tokens|);
    assert added[..|tokens|] == added;
    assert full == Roster(l.entries + added, full.nextId);
    TornForm(l.entries, added, full.nextId, l.nextId, k);
  }

  /** The guard is scoped: once its destructor has run the list is what it was before, for every earlier
      list and every token vector, repeated tokens included. */
  lemma GuardIsScoped(l: Roster<FlagId>, tokens: seq<FlagId>)
    requires Climbs(l.entries, l.nextId) && l.nextId + |tokens| <= TWO_64
    ensures Torn(Built(l, tokens, |tokens|), l.nextId, |tokens|).entries == l.entries
  {
    GuardTorn(l, tokens, |tokens|);
    assert GuardEntries(l.nextId, tokens)[|tokens|..] == [];
    assert l.entries + [] == l.entries;
  }

  /** Every flag on the list has an owner. */
  ghost predicate AllOwned(entries: seq<Entry<FlagId>>, owners: multiset<FlagId>) {
    forall i :: 0 <= i < |entries| ==> entries[i].state in owners
  }

  /** While the guard is being built it owns all its tokens, so every reachable flag is alive. */
  lemma OwnedWhileBuilding(l: Roster<FlagId>, outside: multiset<FlagId>, tokens: seq<FlagId>, k: nat)
    requires k <= |tokens| && l.nextId + |tokens| <= TWO_64
    requires AllOwned(l.entries, outside)
    ensures AllOwned(Built(l, tokens, k).entries, outside + multiset(tokens))
  {
    BuiltForm(l, tokens, k);
    var entries := Built(l, tokens, k).entries;
    forall i | 0 <= i < |entries| ensures entries[i].state in outside + multiset(tokens) {
      if i < |l.entries| {
        assert l.entries[i].state in outside;
      } else {
        assert entries[i].state == tokens[i - |l.entries|];
      }
    }
  }

  lemma OwnedAppend(a: seq<Entry<FlagId>>, b: seq<Entry<FlagId>>, owners: multiset<FlagId>)
    ensures AllOwned(a + b, owners) <==> AllOwned(a, owners) && AllOwned(b, owners)
  {
    var c := a + b;
    assert forall i :: 0 <= i < |a| ==> c[i] == a[i];
    assert forall i :: 0 <= i < |b| ==> c[|a| + i] == b[i];
  }

  lemma TokensOwned(first: nat, tokens: seq<FlagId>, k: nat, owners: multiset<FlagId>)
    requires k <= |tokens|
    ensures AllOwned(GuardEntries(first, tokens)[k..], owners) <==> forall i :: k <= i < |tokens| ==> tokens[i] in owners
  {
    var rest := GuardEntries(first, tokens)[k..];
    assert forall i :: 0 <= i < |rest| ==> rest[i].state == tokens[k + i];
    assert forall i :: k <= i < |tokens| ==> rest[i - k].state == tokens[i];
  }

  /** What the list reaches once the first `k` subscribers are gone: the earlier entries and the remaining tokens. */
  lemma OwnedIff(l: Roster<FlagId>, tokens: seq<FlagId>, k: nat, owners: multiset<FlagId>)
    requires k <= |tokens| && l.nextId + |tokens| <= TWO_64 && Climbs(l.entries, l.nextId)
    ensures AllOwned(Torn(Built(l, tokens, |tokens|), l.nextId, k).entries, owners) <==>
            AllOwned(l.entries, owners) && forall i :: k <= i < |tokens| ==> tokens[i] in owners
  {
    GuardTorn(l, tokens, k);
    OwnedAppend(l.entries, GuardEntries(l.nextId, tokens)[k..], owners);
    TokensOwned(l.nextId, tokens, k, owners);
  }

  /** While the guard is torn down each reachable flag has an owner at every point: between turns, with the Arcs
      of the first `k` tokens gone, and within a turn, with the subscriber gone and its Arc not yet released. */
  lemma OwnedWhileTearing(l: Roster<FlagId>, outside: multiset<FlagId>, tokens: seq<FlagId>, k: nat)
    requires k <= |tokens| && l.nextId + |tokens| <= TWO_64
    requires Climbs(l.entries, l.nextId) && AllOwned(l.entries, outside)
    ensures AllOwned(Torn(Built(l, tokens, |tokens|), l.nextId, k).entries, outside + multiset(tokens[k..]))
    ensures k > 0 ==> AllOwned(Torn(Built(l, tokens, |tokens|), l.nextId, k).entries, outside + multiset(tokens[k - 1..]))
  {
    assert forall i :: k <= i < |tokens| ==> tokens[k..][i - k] == tokens[i];
    OwnedIff(l, tokens, k, outside + multiset(tokens[k..]));
    if k > 0 {
      assert tokens[k - 1..] == [tokens[k - 1]] + tokens[k..];
      OwnedIff(l, tokens, k, outside + multiset(tokens[k - 1..]));
    }
  }

  /** The order within a turn matters: releasing before unregistering leaves every reachable flag owned exactly if
      somebody else still owns that very flag. */
  lemma ReleaseFirstIff(l: Roster<FlagId>, outside: multiset<FlagId>, tokens: seq<FlagId>, k: nat)
    requires k < |tokens| && l.nextId + |tokens| <= TWO_64
    requires Climbs(l.entries, l.nextId) && AllOwned(l.entries, outside)
    ensures AllOwned(Torn(Built(l, tokens, |tokens|), l.nextId, k).entries, outside + multiset(tokens[k + 1..])) <==>
            tokens[k] in outside + multiset(tokens[k + 1..])
  {
    var owners := outside + multiset(tokens[k + 1..]);
    assert forall i :: k < i < |tokens| ==> tokens[k + 1..][i - k - 1] == tokens[i];
    OwnedIff(l, tokens, k, owners);
  }

  lemma InterruptedAppend(a: seq<Entry<FlagId>>, b: seq<Entry<FlagId>>, raised: set<FlagId>)
    ensures Interrupted(a + b, raised) <==> Interrupted(a, raised) || Interrupted(b, raised)
  {
    var c := a + b;
    if Interrupted(a, raised) {
      var i :| 0 <= i < |a| && a[i].state in raised;
      assert c[i].state in raised;
    }
    if Interrupted(b, raised) {
      var i :| 0 <= i < |b| && b[i].state in raised;
      assert c[|a| + i].state in raised;
    }
  }

  /** A guard does what it is for: while it stands, a callback interrupts exactly if one of its tokens is raised or
      it would have interrupted anyway. */
  lemma GuardCancels(l: Roster<FlagId>, tokens: seq<FlagId>, raised: set<FlagId>)
    requires l.nextId + |tokens| <= TWO_64
    ensures Interrupted(Built(l, tokens, |tokens|).entries, raised) <==>
            Interrupted(l.entries, raised) || exists f :: f in tokens && f in raised
  {
    var added := GuardEntries(l.nextId, tokens);
    BuiltForm(l, tokens, |tokens|);
    assert added[..|tokens|] == added;
    InterruptedAppend(l.entries, added, raised);
    if f :| f in tokens && f in raised {
      var i :| 0 <= i < |tokens| && tokens[i] == f;
      assert added[i].state in raised;
    }
    if Interrupted(added, raised) {
      var i :| 0 <= i < |added| && added[i].state in raised;
      assert tokens[i] in tokens && tokens[i] in raised;
    }
  }

  // ---- ticks -----------------------------------------------------------------------------

  /** A tick subscriber with the current value of its own counter; `since` is the instant it was installed. */
  datatype Tick = Tick(pid: Pid, everyN: nat, since: nat, count: nat)

  datatype Message = Message(id: nat, pid: Pid, count: nat, elapsedMs: nat)

  /** The instants at which one callback reads the clock, by subscriber id. */
  type Clock = map<nat, nat>

  function Instant(clock: Clock, id: nat): nat {
    if id in clock then clock[id] else 0
  }

  /** An uninterrupted callback bumps every counter and notifies the subscribers whose turn it is. */
  function Bumped(entries: seq<Entry<Tick>>): seq<Entry<Tick>> {
    seq(|entries|, i requires 0 <= i < |entries| =>
      entries[i].(state := entries[i].state.(count := (entries[i].state.count + 1) % TWO_64)))
  }

  function Due(e: Entry<Tick>, now: nat): seq<Message> {
    if e.state.everyN > 0 && e.state.count % e.state.everyN == 0
    then [Message(e.id, e.state.pid, e.state.count, ElapsedMs(e.state.since, now))]
    else []
  }

  function Sent(entries: seq<Entry<Tick>>, clock: Clock): seq<Message> {
    if entries == [] then []
    else
      var last := entries[|entries| - 1];
      Sent(entries[..|entries| - 1], clock) + Due(last, Instant(clock, last.id))
  }

  /** A callback that interrupts, one that does not, a registration, a removal. */
  datatype Event = Stopped | Fire(clock: Clock) | AddTick(pid: Pid, everyN: nat, now: nat) | DropTick(id: nat)

  function After(l: Roster<Tick>, e: Event): Roster<Tick> {
    match e
    case Stopped => l
    case Fire(_) => l.(entries := Bumped(l.entries))
    case AddTick(pid, everyN, now) => Added(l, Tick(pid, everyN, now, 0))
    case DropTick(id) => Removed(l, id)
  }

  function Out(l: Roster<Tick>, e: Event): seq<Message> {
    if e.Fire? then Sent(l.entries, e.clock) else []
  }

  /** Everything sent over a run of callbacks, registrations and removals. */
  function Output(l: Roster<Tick>, events: seq<Event>): seq<Message>
    decreases |events|
  {
    if events == [] then [] else Out(l, events[0]) + Output(After(l, events[0]), events[1..])
  }

  function To(id: nat, messages: seq<Message>): seq<Message> {
    if messages == [] then []
    else
      var rest := To(id, messages[..|messages| - 1]);
      var last := messages[|messages| - 1];
      if last.id == id then rest + [last] else rest
  }

  /** Uninterrupted callbacks in a run. */
  function Fires(events: seq<Event>): nat {
    if events == [] then 0 else (if events[0].Fire? then 1 else 0) + Fires(events[1..])
  }

  /** The instants they read at one subscriber's turn. */
  function Readings(events: seq<Event>, id: nat): seq<nat> {
    if events == [] then []
    else (if events[0].Fire? then [Instant(events[0].clock, id)] else []) + Readings(events[1..], id)
  }

  lemma {:induction false} OneReadingEach(events: seq<Event>, id: nat)
    ensures |Readings(events, id)| == Fires(events) <= |events|
  {
    if events != [] { OneReadingEach(events[1..], id); }
  }

  predicate Divides(n: nat, x: nat)
    requires n > 0
    decreases x
  {
    if x < n then x == 0 else Divides(n, x - n)
  }

  lemma {:induction false} DividesIff(n: nat, x: nat)
    requires n > 0
    ensures Divides(n, x) <==> x % n == 0
    decreases x
  {
    if x >= n {
      DividesIff(n, x - n);
      DivIs(x, n, (x - n) / n + 1, (x - n) % n);
    } else {
      DivIs(x, n, 0, x);
    }
  }

  function Later(e: Entry<Tick>): Entry<Tick> {
    e.(state := e.state.(count := (e.state.count + 1) % TWO_64))
  }

  /** One count per reading, from the subscriber's current one on: a message at those its decimation divides,
      with that count and the time since it was installed. */
  function Multiples(e: Entry<Tick>, readings: seq<nat>): seq<Message>
    requires e.state.everyN > 0
    decreases |readings|
  {
    if readings == [] then []
    else
      (if Divides(e.state.everyN, e.state.count)
       then [Message(e.id, e.state.pid, e.state.count, ElapsedMs(e.state.since, readings[0]))]
       else []) + Multiples(Later(e), readings[1..])
  }

  lemma {:induction false} ToAppend(id: nat, a: seq<Message>, b: seq<Message>)
    ensures To(id, a + b) == To(id, a) + To(id, b)
    decreases |b|
  {
    if b == [] {
      assert a + b == a;
    } else {
      ToAppend(id, a, b[..|b| - 1]);
      assert (a + b)[..|a + b| - 1] == a + b[..|b| - 1];
    }
  }

  ghost predicate UniqueIds<T>(entries: seq<Entry<T>>) {
    forall i, j :: 0 <= i < j < |entries| ==> entries[i].id != entries[j].id
  }

  /** One walk over the list sends a listed subscriber exactly what is due to it ... */
  lemma {:induction false} SentTo(entries: seq<Entry<Tick>>, clock: Clock, k: nat)
    requires UniqueIds(entries) && k < |entries|
    ensures To(entries[k].id, Sent(entries, clock)) == Due(entries[k], Instant(clock, entries[k].id))
    decreases |entries|
  {
    var init := entries[..|entries| - 1];
    var last := entries[|entries| - 1];
    var id, due := entries[k].id, Due(last, Instant(clock, last.id));
    ToAppend(id, Sent(init, clock), due);
    if k < |init| {
      SentTo(init, clock, k);
      assert To(id, due) == [];
    } else {
      SentToOther(init, clock, id);
      if due != [] { assert due[..0] == []; }
    }
  }

  /** ... and anyone else nothing. */
  lemma {:induction false} SentToOther(entries: seq<Entry<Tick>>, clock: Clock, id: nat)
    requires forall i :: 0 <= i < |entries| ==> entries[i].id != id
    ensures To(id, Sent(entries, clock)) == []
    decreases |entries|
  {
    if entries != [] {
      var init, last := entries[..|entries| - 1], entries[|entries| - 1];
      SentToOther(init, clock, id);
      ToAppend(id, Sent(init, clock), Due(last, Instant(clock, last.id)));
    }
  }

  lemma StillListed<T>(entries: seq<Entry<T>>, k: nat, id: nat) returns (j: nat)
    requires k < |entries| && entries[k].id != id
    ensures j < |Without(entries, id)| && Without(entries, id)[j] == entries[k]
  {
    WithoutKeepsTheRest(entries, id);
    assert entries[k] in Without(entries, id);
    j :| 0 <= j < |Without(entries, id)| && Without(entries, id)[j] == entries[k];
  }

  /** Registering or removing another subscriber, or a callback, leaves a listed subscriber listed; only an
      uninterrupted callback moves its counter, and by one. */
  lemma ListedStays(l: Roster<Tick>, e: Event, k: nat) returns (j: nat)
    requires Climbs(l.entries, l.nextId) && k < |l.entries| && l.nextId + 1 < TWO_64
    requires e != DropTick(l.entries[k].id)
    ensures Climbs(After(l, e).entries, After(l, e).nextId) && j < |After(l, e).entries|
    ensures var before, after := l.entries[k], After(l, e).entries[j];
            after == if e.Fire? then Later(before) else before
  {
    match e
    case Stopped => j := k;
    case Fire(_) => j := k;
    case AddTick(pid, everyN, now) =>
      ClimbsSnoc(l.entries, Entry(l.nextId, Tick(pid, everyN, now, 0)), l.nextId + 1);
      j := k;
    case DropTick(id) =>
      WithoutClimbs(l.entries, id, l.nextId);
      j := StillListed(l.entries, k, id);
  }

  /** Subscriber `k` is listed and is not removed during the run, and ids do not run over; its counter may. */
  ghost predicate Followed(l: Roster<Tick>, k: nat, events: seq<Event>) {
    && Climbs(l.entries, l.nextId) && k < |l.entries|
    && l.entries[k].state.everyN > 0
    && l.nextId + |events| < TWO_64
    && forall i :: 0 <= i < |events| ==> events[i] != DropTick(l.entries[k].id)
  }

  lemma FollowedOn(l: Roster<Tick>, k: nat, events: seq<Event>) returns (j: nat)
    requires Followed(l, k, events) && events != []
    ensures Followed(After(l, events[0]), j, events[1..])
    ensures var before, after := l.entries[k], After(l, events[0]).entries[j];
            after == if events[0].Fire? then Later(before) else before
  {
    j := ListedStays(l, events[0], k);
    assert After(l, events[0]).nextId <= l.nextId + 1;
  }

  /** Across any run of callbacks interleaved with registrations and removals of other subscribers, a
      subscriber with decimation n gets a message at exactly those of its own counts that n divides, with the
      milliseconds since it was installed; interrupted callbacks move nothing. */
  lemma {:induction false} TicksAreDecimated(l: Roster<Tick>, k: nat, events: seq<Event>)
    requires Followed(l, k, events)
    ensures var e := l.entries[k]; To(e.id, Output(l, events)) == Multiples(e, Readings(events, e.id))
    decreases |events|
  {
    if events != [] {
      var j := FollowedOn(l, k, events);
      var l' := After(l, events[0]);
      TicksAreDecimated(l', j, events[1..]);
      OutputStep(l, k, events);
      Continue(l.entries[k], l'.entries[j], events);
    }
  }

  /** What one event gives subscriber `e`. */
  function Share(e: Entry<Tick>, event: Event): seq<Message> {
    if event.Fire? then Due(e, Instant(event.clock, e.id)) else []
  }

  lemma OutputStep(l: Roster<Tick>, k: nat, events: seq<Event>)
    requires Climbs(l.entries, l.nextId) && k < |l.entries| && events != []
    ensures var e := l.entries[k];
            To(e.id, Output(l, events)) == Share(e, events[0]) + To(e.id, Output(After(l, events[0]), events[1..]))
  {
    ToAppend(l.entries[k].id, Out(l, events[0]), Output(After(l, events[0]), events[1..]));
    OutTo(l, events[0], k);
  }

  /** The subscriber's test, `count % n == 0`, is divisibility. */
  lemma DueIff(e: Entry<Tick>, now: nat)
    requires e.state.everyN > 0
    ensures Due(e, now) == if Divides(e.state.everyN, e.state.count)
                           then [Message(e.id, e.state.pid, e.state.count, ElapsedMs(e.state.since, now))]
                           else []
  {
    DividesIff(e.state.everyN, e.state.count);
  }

  lemma FirstMultiple(e: Entry<Tick>, now: nat, rest: seq<nat>)
    requires e.state.everyN > 0
    ensures Multiples(e, [now] + rest) == Due(e, now) + Multiples(Later(e), rest)
  {
    DueIff(e, now);
    assert ([now] + rest)[1..] == rest;
  }

  lemma Continue(e: Entry<Tick>, e': Entry<Tick>, events: seq<Event>)
    requires e.state.everyN > 0 && events != [] && e' == if events[0].Fire? then Later(e) else e
    ensures Multiples(e, Readings(events, e.id)) == Share(e, events[0]) + Multiples(e', Readings(events[1..], e.id))
  {
    var rest := Readings(events[1..], e.id);
    if events[0].Fire? {
      FirstMultiple(e, Instant(events[0].clock, e.id), rest);
    } else {
      assert Readings(events, e.id) == rest;
    }
  }

  lemma OutTo(l: Roster<Tick>, e: Event, k: nat)
    requires Climbs(l.entries, l.nextId) && k < |l.entries|
    ensures To(l.entries[k].id, Out(l, e)) == Share(l.entries[k], e)
  {
    if e.Fire? {
      SentTo(l.entries, e.clock, k);
    }
  }

  /** The subscriber's count `j` uninterrupted callbacks on: an AtomicU64, so it wraps. */
  function CountAt(e: Entry<Tick>, j: nat): nat {
    (e.state.count + j) % TWO_64
  }

  lemma CountLater(e: Entry<Tick>, j: nat)
    ensures CountAt(Later(e), j) == CountAt(e, j + 1)
  {
    var c := e.state.count + 1;
    WrapAdd(c, j);
  }

  lemma WrapAdd(c: nat, j: nat)
    ensures (c % TWO_64 + j) % TWO_64 == (c + j) % TWO_64
  {
    var q := c / TWO_64;
    assert c + j == (c % TWO_64 + j) + q * TWO_64;
  }

  /** Message `m` tells subscriber `e` of the `j`-th uninterrupted callback: its count, and the whole milliseconds
      since it was installed. */
  ghost predicate Tells(m: Message, e: Entry<Tick>, readings: seq<nat>, j: nat)
    requires j < |readings|
  {
    && m.id == e.id && m.pid == e.state.pid && m.count == CountAt(e, j)
    && (e.state.since <= readings[j] && readings[j] - e.state.since < TWO_64 * 1_000_000 ==>
          Spans(m.elapsedMs, e.state.since, readings[j]))
  }

  ghost predicate TellsSome(m: Message, e: Entry<Tick>, readings: seq<nat>)
    requires e.state.everyN > 0
  {
    exists j: nat :: j < |readings| && Tells(m, e, readings, j) && CountAt(e, j) % e.state.everyN == 0
  }

  ghost predicate IsTold(messages: seq<Message>, e: Entry<Tick>, readings: seq<nat>, j: nat)
    requires j < |readings|
  {
    exists i: nat :: i < |messages| && Tells(messages[i], e, readings, j)
  }

  lemma TellsLater(m: Message, e: Entry<Tick>, readings: seq<nat>, j: nat)
    requires readings != [] && j < |readings| - 1
    ensures Tells(m, Later(e), readings[1..], j) <==> Tells(m, e, readings, j + 1)
  {
    CountLater(e, j);
  }

  lemma FirstTells(e: Entry<Tick>, readings: seq<nat>)
    requires readings != [] && e.state.count < TWO_64
    ensures Tells(Message(e.id, e.state.pid, e.state.count, ElapsedMs(e.state.since, readings[0])), e, readings, 0)
  {
    ElapsedIsTheTime(e.state.since, readings[0]);
  }

  lemma {:induction false} OnlyMultiplesTold(e: Entry<Tick>, readings: seq<nat>, i: nat)
    requires e.state.everyN > 0 && e.state.count < TWO_64 && i < |Multiples(e, readings)|
    ensures TellsSome(Multiples(e, readings)[i], e, readings)
    decreases |readings|
  {
    var m, rest := Multiples(e, readings)[i], Multiples(Later(e), readings[1..]);
    DividesIff(e.state.everyN, e.state.count);
    FirstTells(e, readings);
    var skip := |Multiples(e, readings)| - |rest|;
    if i >= skip {
      OnlyMultiplesTold(Later(e), readings[1..], i - skip);
      var j: nat :| j < |readings[1..]| && Tells(m, Later(e), readings[1..], j) && CountAt(Later(e), j) % e.state.everyN == 0;
      TellsLater(m, e, readings, j);
      CountLater(e, j);
    } else {
      assert Tells(m, e, readings, 0);
    }
  }

  lemma {:induction false} EveryMultipleTold(e: Entry<Tick>, readings: seq<nat>, j: nat)
    requires e.state.everyN > 0 && e.state.count < TWO_64 && j < |readings| && CountAt(e, j) % e.state.everyN == 0
    ensures IsTold(Multiples(e, readings), e, readings, j)
    decreases |readings|
  {
    var all, rest := Multiples(e, readings), Multiples(Later(e), readings[1..]);
    DividesIff(e.state.everyN, e.state.count);
    if j == 0 {
      FirstTells(e, readings);
      assert Tells(all[0], e, readings, 0);
    } else {
      CountLater(e, j - 1);
      EveryMultipleTold(Later(e), readings[1..], j - 1);
      var i: nat :| i < |rest| && Tells(rest[i], Later(e), readings[1..], j - 1);
      TellsLater(rest[i], e, readings, j - 1);
      assert all[|all| - |rest| + i] == rest[i];
    }
  }

  /** Message by message: over any run, a subscriber is told of its own count c, with the whole milliseconds since
      it was installed, if and only if its decimation divides c. */
  lemma HeardIff(l: Roster<Tick>, k: nat, events: seq<Event>)
    requires Followed(l, k, events) && l.entries[k].state.count < TWO_64
    ensures var e := l.entries[k]; var readings := Readings(events, e.id); var heard := To(e.id, Output(l, events));
            && (forall i: nat :: i < |heard| ==> TellsSome(heard[i], e, readings))
            && (forall j: nat :: j < |readings| ==> (CountAt(e, j) % e.state.everyN == 0 ==> IsTold(heard, e, readings, j)))
  {
    var e := l.entries[k];
    var readings := Readings(events, e.id);
    TicksAreDecimated(l, k, events);
    forall i: nat | i < |Multiples(e, readings)| ensures TellsSome(Multiples(e, readings)[i], e, readings) {
      OnlyMultiplesTold(e, readings, i);
    }
    forall j: nat | j < |readings| && CountAt(e, j) % e.state.everyN == 0 ensures IsTold(Multiples(e, readings), e, readings, j) {
      EveryMultipleTold(e, readings, j);
    }
  }

  // ---- after a removal -------------------------------------------------------------------

  /** Nobody listed, now or later, has this id. */
  ghost predicate Unlisted(l: Roster<Tick>, id: nat, events: seq<Event>) {
    && (forall i :: 0 <= i < |l.entries| ==> l.entries[i].id != id)
    && id < l.nextId && l.nextId + |events| < TWO_64
  }

  lemma UnlistedOn(l: Roster<Tick>, id: nat, events: seq<Event>)
    requires events != [] && Unlisted(l, id, events)
    ensures Unlisted(After(l, events[0]), id, events[1..])
  {
    var l' := After(l, events[0]);
    if events[0].DropTick? {
      WithoutKeepsTheRest(l.entries, events[0].id);
      forall i | 0 <= i < |l'.entries| ensures l'.entries[i].id != id {
        assert l'.entries[i] in l'.entries;
      }
    }
  }

  lemma {:induction false} UnlistedHearsNothing(l: Roster<Tick>, id: nat, events: seq<Event>)
    requires Unlisted(l, id, events)
    ensures To(id, Output(l, events)) == []
    decreases |events|
  {
    if events != [] {
      UnlistedOn(l, id, events);
      UnlistedHearsNothing(After(l, events[0]), id, events[1..]);
      ToAppend(id, Out(l, events[0]), Output(After(l, events[0]), events[1..]));
      if events[0].Fire? { SentToOther(l.entries, events[0].clock, id); }
    }
  }

  lemma RemovedIsUnlisted<T>(entries: seq<Entry<T>>, id: nat, i: nat)
    requires i < |Without(entries, id)|
    ensures Without(entries, id)[i].id != id
  {
    WithoutKeepsTheRest(entries, id);
    assert Without(entries, id)[i] in Without(entries, id);
  }

  /** A subscriber that has been removed hears nothing more, whatever happens afterwards. */
  lemma DroppedHearsNothing(l: Roster<Tick>, id: nat, events: seq<Event>)
    requires id < l.nextId && l.nextId + |events| < TWO_64
    ensures To(id, Output(After(l, DropTick(id)), events)) == []
  {
    var l' := After(l, DropTick(id));
    forall i | 0 <= i < |l'.entries| ensures l'.entries[i].id != id { RemovedIsUnlisted(l.entries, id, i); }
    UnlistedHearsNothing(l', id, events);
  }

  /** How many of the `k` numbers from `from` on `n` divides. */
  function HowMany(n: nat, from: nat, k: nat): nat
    requires n > 0
    decreases k
  {
    if k == 0 then 0 else (if Divides(n, from) then 1 else 0) + HowMany(n, from + 1, k - 1)
  }

  lemma {:induction false} MultiplesCount(e: Entry<Tick>, readings: seq<nat>)
    requires e.state.everyN > 0 && e.state.count + |readings| < TWO_64
    ensures |Multiples(e, readings)| == HowMany(e.state.everyN, e.state.count, |readings|)
    decreases |readings|
  {
    if readings != [] {
      MultiplesCount(Later(e), readings[1..]);
      OneMore(e, readings);
    }
  }

  lemma {:induction false} HowManyIs(n: nat, from: nat, k: nat)
    requires n > 0
    ensures HowMany(n, from, k) == (from + k + n - 1) / n - (from + n - 1) / n
    decreases k
  {
    if k > 0 {
      HowManyIs(n, from + 1, k - 1);
      DividesIff(n, from);
      CeilStep(from, n);
    }
  }

  lemma OneMore(e: Entry<Tick>, readings: seq<nat>)
    requires e.state.everyN > 0 && readings != []
    ensures |Multiples(e, readings)| == (if Divides(e.state.everyN, e.state.count) then 1 else 0) + |Multiples(Later(e), readings[1..])|
  {
  }

  lemma CeilStep(x: nat, n: nat)
    requires n > 0
    ensures (x + n) / n == (x + n - 1) / n + (if x % n == 0 then 1 else 0)
  {
    var q, r := x / n, x % n;
    assert x == q * n + r;
    assert x + n == (q + 1) * n + r;
    DivIs(x + n, n, q + 1, r);
    if r == 0 {
      DivIs(x + n - 1, n, q, n - 1);
    } else {
      assert x + n - 1 == (q + 1) * n + (r - 1);
      DivIs(x + n - 1, n, q + 1, r - 1);
    }
  }

  lemma DivIs(x: int, n: nat, q: int, r: nat)
    requires n > 0 && r < n && x == q * n + r
    ensures x / n == q
  {
    var d := x / n - q;
    assert d * n == r - x % n;
    assert d >= 1 ==> d * n >= n;
    assert d <= -1 ==> d * n + n <= 0;
  }

  /** From count 0 on, ceil(k / n) of k counts are multiples. */
  lemma MultiplesFromZero(e: Entry<Tick>, readings: seq<nat>)
    requires e.state.everyN > 0 && e.state.count == 0 && |readings| < TWO_64
    ensures |Multiples(e, readings)| == (|readings| + e.state.everyN - 1) / e.state.everyN
  {
    MultiplesCount(e, readings);
    HowManyIs(e.state.everyN, 0, |readings|);
    DivIs(e.state.everyN - 1, e.state.everyN, 0, e.state.everyN - 1);
  }

  lemma RateFromZero(e: Entry<Tick>, events: seq<Event>)
    requires e.state.everyN > 0 && e.state.count == 0 && |events| < TWO_64
    ensures |Multiples(e, Readings(events, e.id))| == (Fires(events) + e.state.everyN - 1) / e.state.everyN
  {
    OneReadingEach(events, e.id);
    MultiplesFromZero(e, Readings(events, e.id));
  }

  lemma FollowedFromStart(l: Roster<Tick>, pid: Pid, n: nat, now: nat, events: seq<Event>)
    requires Climbs(l.entries, l.nextId) && n > 0 && l.nextId + 1 + |events| < TWO_64
    requires forall i :: 0 <= i < |events| ==> events[i] != DropTick(l.nextId)
    ensures var l' := After(l, AddTick(pid, n, now));
            Followed(l', |l.entries|, events) && l'.entries[|l.entries|] == Entry(l.nextId, Tick(pid, n, now, 0))
  {
    ClimbsSnoc(l.entries, Entry(l.nextId, Tick(pid, n, now, 0)), l.nextId + 1);
  }

  /** A subscriber registered with decimation n hears ceil(k / n) times in a run with k uninterrupted callbacks,
      whoever else comes and goes. */
  lemma TickRate(l: Roster<Tick>, pid: Pid, n: nat, now: nat, events: seq<Event>)
    requires Climbs(l.entries, l.nextId) && n > 0 && l.nextId + 1 + |events| < TWO_64
    requires forall i :: 0 <= i < |events| ==> events[i] != DropTick(l.nextId)
    ensures |To(l.nextId, Output(After(l, AddTick(pid, n, now)), events))| == (Fires(events) + n - 1) / n
  {
    var e := Entry(l.nextId, Tick(pid, n, now, 0));
    FollowedFromStart(l, pid, n, now, events);
    TicksAreDecimated(After(l, AddTick(pid, n, now)), |l.entries|, events);
    RateFromZero(e, events);
  }
}

/** The dispatch, its callback and the cancel guard as the connection runs them. */
module Progress {
  import opened Common
  import opened Subscribers
  import opened HookLists
  import opened ProgressSpec

  /** The `Arc<AtomicBool>`s: how many owners each has, and which have been set.  Reading a flag through a
      raw pointer needs an owner. */
  class Flags {
    var strong: multiset<FlagId>
    var raised: set<FlagId>

    constructor ()
      ensures strong == multiset{} && raised == {}
    {
      strong, raised := multiset{}, {};
    }

    /** Drops one Arc.  No listed subscriber may be left pointing at a flag that dies with it. */
    method Release(f: FlagId, list: HookList<FlagId>)
      requires f in strong && list.Valid() && AllOwned(list.Entries(), strong - multiset{f})
      modifies this`strong
      ensures strong == old(strong) - multiset{f}
    {
      strong := strong - multiset{f};
    }

    method Load(f: FlagId) returns (set_: bool)
      requires f in strong
      ensures set_ <==> f in raised
    {
      set_ := f in raised;
    }
  }

  method Unlist<T>(list: HookList<T>, id: nat)
    requires list.Valid()
    modifies list
    ensures list.Valid() && list.Roster() == Removed(old(list.Roster()), id)
  {
    var _ := list.Unregister(id);
  }

  /** `counter` names the Arc<AtomicU64> that every clone of the subscriber shares. */
  datatype TickRef = TickRef(pid: Pid, everyN: nat, since: nat, counter: nat)

  /** Every listed subscriber has a counter of its own and a positive decimation. */
  ghost predicate Counted(entries: seq<Entry<TickRef>>, counts: map<nat, nat>) {
    && (forall i :: 0 <= i < |entries| ==> entries[i].state.counter in counts && entries[i].state.everyN > 0)
    && (forall i, j :: 0 <= i < j < |entries| ==> entries[i].state.counter != entries[j].state.counter)
  }

  ghost function Look(e: Entry<TickRef>, counts: map<nat, nat>): Entry<Tick>
    requires e.state.counter in counts
  {
    Entry(e.id, Tick(e.state.pid, e.state.everyN, e.state.since, counts[e.state.counter]))
  }

  ghost function ReadOff(entries: seq<Entry<TickRef>>, counts: map<nat, nat>): (r: seq<Entry<Tick>>)
    requires Counted(entries, counts)
    ensures |r| == |entries| && forall i :: 0 <= i < |r| ==> r[i] == Look(entries[i], counts)
  {
    seq(|entries|, i requires 0 <= i < |entries| => Look(entries[i], counts))
  }

  lemma ReadOffSnoc(entries: seq<Entry<TickRef>>, last: Entry<TickRef>, counts: map<nat, nat>)
    requires Counted(entries + [last], counts)
    ensures Counted(entries, counts) && last.state.counter in counts
    ensures ReadOff(entries + [last], counts) == ReadOff(entries, counts) + [Look(last, counts)]
  {
    var all := entries + [last];
    assert forall i :: 0 <= i < |entries| ==> all[i] == entries[i];
    assert all[|entries|] == last;
  }

  lemma CountedSnoc(entries: seq<Entry<TickRef>>, last: Entry<TickRef>, counts: map<nat, nat>)
    requires Counted(entries, counts) && last.state.counter in counts && last.state.everyN > 0
    requires forall e :: e in entries ==> e.state.counter != last.state.counter
    ensures Counted(entries + [last], counts)
  {
    var all := entries + [last];
    forall i, j | 0 <= i < j < |all| ensures all[i].state.counter != all[j].state.counter {
      assert all[i] == entries[i] && entries[i] in entries;
    }
  }

  lemma {:induction false} CountedWithout(entries: seq<Entry<TickRef>>, counts: map<nat, nat>, id: nat)
    requires Counted(entries, counts)
    ensures Counted(Without(entries, id), counts)
    decreases |entries|
  {
    if entries != [] {
      var init, last := entries[..|entries| - 1], entries[|entries| - 1];
      CountedWithout(init, counts, id);
      if last.id != id {
        WithoutKeepsTheRest(init, id);
        CountedSnoc(Without(init, id), last, counts);
      }
    }
  }

  /** Removing a subscriber and reading the counters off commute: survivors share, not copy, their counter. */
  lemma {:induction false} ReadOffWithout(entries: seq<Entry<TickRef>>, counts: map<nat, nat>, id: nat)
    requires Counted(entries, counts)
    ensures Counted(Without(entries, id), counts)
    ensures ReadOff(Without(entries, id), counts) == Without(ReadOff(entries, counts), id)
    decreases |entries|
  {
    CountedWithout(entries, counts, id);
    if entries != [] {
      var init := entries[..|entries| - 1];
      var last := entries[|entries| - 1];
      assert entries == init + [last];
      ReadOffSnoc(init, last, counts);
      ReadOffWithout(init, counts, id);
      WithoutSnoc(ReadOff(init, counts), Look(last, counts), id);
      if last.id != id {
        ReadOffSnoc(Without(init, id), last, counts);
      }
    }
  }

  /** A newcomer with a counter of its own at 0 changes nobody else's. */
  lemma ReadOffNew(entries: seq<Entry<TickRef>>, last: Entry<TickRef>, counts: map<nat, nat>)
    requires Counted(entries, counts) && last.state.counter !in counts && last.state.everyN > 0
    ensures var counts' := counts[last.state.counter := 0];
            && Counted(entries + [last], counts')
            && ReadOff(entries + [last], counts') ==
               ReadOff(entries, counts) + [Entry(last.id, Tick(last.state.pid, last.state.everyN, last.state.since, 0))]
  {
    var counts' := counts[last.state.counter := 0];
    assert forall i :: 0 <= i < |entries| ==> entries[i].state.counter != last.state.counter;
    CountedSnoc(entries, last, counts');
    ReadOffSnoc(entries, last, counts');
    assert ReadOff(entries, counts') == ReadOff(entries, counts);
  }

  /** The tick list with its counters read off. */
  ghost function View(l: Roster<TickRef>, counts: map<nat, nat>): Roster<Tick>
    requires Counted(l.entries, counts)
  {
    Roster(ReadOff(l.entries, counts), l.nextId)
  }

  lemma ViewRemoved(l: Roster<TickRef>, counts: map<nat, nat>, id: nat)
    requires Counted(l.entries, counts)
    ensures Counted(Removed(l, id).entries, counts) && View(Removed(l, id), counts) == After(View(l, counts), DropTick(id))
  {
    ReadOffWithout(l.entries, counts, id);
  }

  class ProgressDispatch {
    const cancels: HookList<FlagId>
    const ticks: HookList<TickRef>
    var counts: map<nat, nat>
    var nextCounter: nat

    ghost predicate Valid()
      reads this, cancels, ticks
    {
      && cancels as object != ticks as object
      && cancels.Valid() && ticks.Valid()
      && Counted(ticks.Entries(), counts)
      && (forall c :: c in counts ==> c < nextCounter)
    }

    /** The tick list with its counters read off. */
    ghost function Ticks(): Roster<Tick>
      reads this, cancels, ticks
      requires Valid()
    {
      View(ticks.Roster(), counts)
    }

    constructor ()
      ensures Valid() && fresh(cancels) && fresh(ticks)
      ensures cancels.Roster() == Roster([], 1) && Ticks() == Roster([], 1)
    {
      cancels := new HookList<FlagId>();
      ticks := new HookList<TickRef>();
      counts, nextCounter := map[], 0;
    }

    /** The NIF rejects a zero decimation. */
    method RegisterTick(pid: Pid, everyN: nat, now: nat) returns (id: Option<nat>)
      requires Valid()
      modifies this, ticks
      ensures Valid() && cancels.Roster() == old(cancels.Roster())
      ensures id == (if everyN == 0 then None else Some(old(ticks.nextId)))
      ensures Ticks() == (if everyN == 0 then old(Ticks()) else After(old(Ticks()), AddTick(pid, everyN, now)))
    {
      if everyN == 0 {
        return None;
      }
      var counter := nextCounter;
      ReadOffNew(ticks.Entries(), Entry(ticks.nextId, TickRef(pid, everyN, now, counter)), counts);
      nextCounter := nextCounter + 1;
      counts := counts[counter := 0];
      var h := ticks.Register(TickRef(pid, everyN, now, counter));
      id := Some(h);
    }

    method UnregisterTick(id: nat)
      requires Valid()
      modifies ticks
      ensures Valid() && cancels.Roster() == old(cancels.Roster())
      ensures Ticks() == After(old(Ticks()), DropTick(id))
    {
      ghost var l := ticks.Roster();
      ViewRemoved(l, counts, id);
      Unlist(ticks, id);
      assert Ticks() == View(Removed(l, id), counts);
    }

    /** Walks both lists: any raised flag interrupts and leaves every counter alone. */
    method Callback(flags: Flags, clock: Clock) returns (rc: int, sent: seq<Message>)
      requires Valid() && AllOwned(cancels.Entries(), flags.strong)
      modifies this`counts
      ensures Valid() && cancels.Roster() == old(cancels.Roster())
      ensures rc == (if Interrupted(cancels.Entries(), flags.raised) then 1 else 0)
      ensures Ticks() == After(old(Ticks()), if rc == 1 then Stopped else Fire(clock))
      ensures sent == Out(old(Ticks()), if rc == 1 then Stopped else Fire(clock))
    {
      var stop := CancelPass(flags);
      if stop {
        return 1, [];
      }
      sent := TickPass(clock);
      rc := 0;
    }

    /** The first walk reads every flag, whatever it finds on the way. */
    method CancelPass(flags: Flags) returns (stop: bool)
      requires Valid() && AllOwned(cancels.Entries(), flags.strong)
      ensures stop <==> Interrupted(cancels.Entries(), flags.raised)
    {
      stop := false;
      var snapshot := cancels.Visit();
      for i := 0 to |snapshot|
        invariant stop <==> Interrupted(snapshot[..i], flags.raised)
      {
        var raised := flags.Load(snapshot[i].state);
        assert snapshot[..i + 1] == snapshot[..i] + [snapshot[i]];
        InterruptedSnoc(snapshot[..i], snapshot[i], flags.raised);
        if raised {
          stop := true;
        }
      }
      assert snapshot[..|snapshot|] == snapshot;
    }

    /** One subscriber's turn: `fetch_add` on its counter, and a message if the old count calls for one. */
    method BumpOne(entry: Entry<TickRef>, now: nat) returns (due: seq<Message>)
      requires entry.state.counter in counts && entry.state.everyN > 0
      modifies this`counts
      ensures counts == old(counts)[entry.state.counter := (old(counts)[entry.state.counter] + 1) % TWO_64]
      ensures due == Due(Look(entry, old(counts)), now)
    {
      var n := counts[entry.state.counter];
      counts := counts[entry.state.counter := (n + 1) % TWO_64];
      due := if n % entry.state.everyN == 0 then [Message(entry.id, entry.state.pid, n, ElapsedMs(entry.state.since, now))] else [];
    }

    method TickLoop(entries: seq<Entry<TickRef>>, clock: Clock, ghost before: seq<Entry<Tick>>) returns (sent: seq<Message>)
      requires PartWay(entries, before, counts, 0)
      modifies this`counts
      ensures PartWay(entries, before, counts, |entries|) && counts.Keys == old(counts.Keys)
      ensures sent == Sent(before, clock)
    {
      sent := [];
      for i := 0 to |entries|
        invariant PartWay(entries, before, counts, i) && counts.Keys == old(counts.Keys)
        invariant sent == Sent(before[..i], clock)
      {
        PartWayStep(entries, before, counts, i);
        SentSnoc(before, clock, i);
        var due := BumpOne(entries[i], Instant(clock, entries[i].id));
        sent := sent + due;
      }
      assert before[..|entries|] == before;
    }

    /** The second walk: bump every counter, notify the subscribers whose turn it is. */
    method TickPass(clock: Clock) returns (sent: seq<Message>)
      requires Valid()
      modifies this`counts
      ensures Valid() && Ticks() == After(old(Ticks()), Fire(clock)) && sent == Sent(old(Ticks()).entries, clock)
    {
      var entries := ticks.Visit();
      ghost var before := ReadOff(entries, counts);
      sent := TickLoop(entries, clock, before);
      AllTheWay(entries, before, counts);
    }
  }

  /** The first `i` counters have been bumped, the others not yet. */
  ghost predicate PartWay(entries: seq<Entry<TickRef>>, before: seq<Entry<Tick>>, counts: map<nat, nat>, i: nat) {
    && |before| == |entries| && Counted(entries, counts)
    && forall k :: 0 <= k < |entries| ==>
         var e, b := entries[k].state, before[k];
         b == Entry(entries[k].id, Tick(e.pid, e.everyN, e.since, b.state.count)) &&
         counts[e.counter] == if k < i then (b.state.count + 1) % TWO_64 else b.state.count
  }

  lemma PartWayStep(entries: seq<Entry<TickRef>>, before: seq<Entry<Tick>>, counts: map<nat, nat>, i: nat)
    requires i < |entries| && PartWay(entries, before, counts, i)
    ensures var c := entries[i].state.counter;
            && Look(entries[i], counts) == before[i]
            && PartWay(entries, before, counts[c := (counts[c] + 1) % TWO_64], i + 1)
            && counts[c := (counts[c] + 1) % TWO_64].Keys == counts.Keys
  {
  }

  lemma AllTheWay(entries: seq<Entry<TickRef>>, before: seq<Entry<Tick>>, counts: map<nat, nat>)
    requires PartWay(entries, before, counts, |entries|)
    ensures ReadOff(entries, counts) == Bumped(before)
  {
  }

  lemma SentSnoc(entries: seq<Entry<Tick>>, clock: Clock, i: nat)
    requires i < |entries|
    ensures Sent(entries[..i + 1], clock) == Sent(entries[..i], clock) + Due(entries[i], Instant(clock, entries[i].id))
  {
    assert entries[..i + 1][..i] == entries[..i];
  }

  lemma InterruptedSnoc(entries: seq<Entry<FlagId>>, last: Entry<FlagId>, raised: set<FlagId>)
    ensures Interrupted(entries + [last], raised) <==> Interrupted(entries, raised) || last.state in raised
  {
    var all := entries + [last];
    if last.state in raised {
      assert all[|entries|].state in raised;
    }
    if i :| 0 <= i < |entries| && entries[i].state in raised {
      assert all[i].state in raised;
    }
  }

  /** The guard's ledger: each token with the id its subscriber was given. */
  ghost predicate Ledger(entries: seq<(nat, FlagId)>, first: nat, tokens: seq<FlagId>, k: nat) {
    && |entries| == k <= |tokens|
    && (forall i :: 0 <= i < |entries| ==> entries[i] == (first + i, tokens[i]))
  }

  /** The construction loop after `k` turns, the guard owning all its tokens from the start. */
  ghost predicate UnderWay(now: Roster<FlagId>, entries: seq<(nat, FlagId)>, l: Roster<FlagId>,
                           outside: multiset<FlagId>, tokens: seq<FlagId>, k: nat)
  {
    && k <= |tokens|
    && now == Built(l, tokens, k)
    && Ledger(entries, l.nextId, tokens, k)
    && AllOwned(now.entries, outside + multiset(tokens))
  }

  lemma LedgerStep(entries: seq<(nat, FlagId)>, first: nat, tokens: seq<FlagId>, k: nat)
    requires k < |tokens| && Ledger(entries, first, tokens, k)
    ensures Ledger(entries + [(first + k, tokens[k])], first, tokens, k + 1)
  {
  }

  lemma BuildStep(l: Roster<FlagId>, outside: multiset<FlagId>, tokens: seq<FlagId>, k: nat)
    requires k < |tokens| && l.nextId + |tokens| <= TWO_64 && AllOwned(l.entries, outside)
    ensures Built(l, tokens, k).nextId == l.nextId + k
    ensures Added(Built(l, tokens, k), tokens[k]) == Built(l, tokens, k + 1)
    ensures AllOwned(Built(l, tokens, k + 1).entries, outside + multiset(tokens))
  {
    NextTokenId(l, tokens, k);
    OwnedWhileBuilding(l, outside, tokens, k + 1);
  }

  /** The guard's construction loop: at every turn each reachable flag has an owner. */
  method RegisterAll(list: HookList<FlagId>, tokens: seq<FlagId>, ghost outside: multiset<FlagId>) returns (entries: seq<(nat, FlagId)>)
    requires list.Valid() && list.nextId + |tokens| <= TWO_64 && AllOwned(list.Entries(), outside)
    modifies list
    ensures list.Valid() && UnderWay(list.Roster(), entries, old(list.Roster()), outside, tokens, |tokens|)
  {
    ghost var l := list.Roster();
    entries := [];
    OwnedWhileBuilding(l, outside, tokens, 0);
    for k := 0 to |tokens|
      invariant list.Valid() && UnderWay(list.Roster(), entries, l, outside, tokens, k)
    {
      BuildStep(l, outside, tokens, k);
      LedgerStep(entries, l.nextId, tokens, k);
      var id := list.Register(tokens[k]);
      entries := entries + [(id, tokens[k])];
    }
  }

  /** The owners once the guard has released its first `k` tokens. */
  ghost function Owners(outside: multiset<FlagId>, tokens: seq<FlagId>, k: nat): multiset<FlagId>
    requires k <= |tokens|
    decreases |tokens| - k
  {
    if k == |tokens| then outside else Owners(outside, tokens, k + 1) + multiset{tokens[k]}
  }

  lemma {:induction false} OwnersAre(outside: multiset<FlagId>, tokens: seq<FlagId>, k: nat)
    requires k <= |tokens|
    ensures Owners(outside, tokens, k) == outside + multiset(tokens[k..])
    decreases |tokens| - k
  {
    if k == |tokens| {
      assert tokens[k..] == [];
    } else {
      OwnersAre(outside, tokens, k + 1);
      assert tokens[k..] == [tokens[k]] + tokens[k + 1..];
    }
  }

  /** The drain loop after `k` turns. */
  ghost predicate Drained(now: Roster<FlagId>, strong: multiset<FlagId>, l: Roster<FlagId>,
                          outside: multiset<FlagId>, tokens: seq<FlagId>, k: nat)
  {
    && k <= |tokens|
    && now == Torn(Built(l, tokens, |tokens|), l.nextId, k)
    && strong == Owners(outside, tokens, k)
    && AllOwned(now.entries, strong)
  }

  /** What a guard made on list `l` may rely on. */
  ghost predicate Guarded(l: Roster<FlagId>, outside: multiset<FlagId>, tokens: seq<FlagId>) {
    Climbs(l.entries, l.nextId) && AllOwned(l.entries, outside) && l.nextId + |tokens| <= TWO_64
  }

  lemma OwnersStep(outside: multiset<FlagId>, tokens: seq<FlagId>, k: nat)
    requires k < |tokens|
    ensures tokens[k] in Owners(outside, tokens, k)
    ensures Owners(outside, tokens, k + 1) == Owners(outside, tokens, k) - multiset{tokens[k]}
  {
  }

  lemma TornStep(full: Roster<FlagId>, first: nat, k: nat)
    ensures Torn(full, first, k + 1) == Removed(Torn(full, first, k), first + k)
  {
  }

  /** With `k` subscribers gone and `j` Arcs released, between turns or within one. */
  lemma DrainOwned(l: Roster<FlagId>, outside: multiset<FlagId>, tokens: seq<FlagId>, k: nat, j: nat)
    requires Guarded(l, outside, tokens) && j <= k <= |tokens| && k <= j + 1
    ensures AllOwned(Torn(Built(l, tokens, |tokens|), l.nextId, k).entries, Owners(outside, tokens, j))
  {
    OwnersAre(outside, tokens, j);
    OwnedWhileTearing(l, outside, tokens, k);
  }

  /** Within turn `k`: the subscriber is gone, its Arc is still held, and every listed flag is owned. */
  ghost predicate Halfway(now: Roster<FlagId>, strong: multiset<FlagId>, l: Roster<FlagId>,
                          outside: multiset<FlagId>, tokens: seq<FlagId>, k: nat)
  {
    && k < |tokens|
    && now == Torn(Built(l, tokens, |tokens|), l.nextId, k + 1)
    && strong == Owners(outside, tokens, k)
    && AllOwned(now.entries, strong)
  }

  method UnlistEntry(list: HookList<FlagId>, flags: Flags, id: nat,
                     ghost l: Roster<FlagId>, ghost outside: multiset<FlagId>, ghost tokens: seq<FlagId>, ghost k: nat)
    requires Guarded(l, outside, tokens) && k < |tokens| && id == l.nextId + k
    requires list.Valid() && Drained(list.Roster(), flags.strong, l, outside, tokens, k)
    modifies list
    ensures list.Valid() && Halfway(list.Roster(), flags.strong, l, outside, tokens, k)
  {
    TornStep(Built(l, tokens, |tokens|), l.nextId, k);
    DrainOwned(l, outside, tokens, k + 1, k);
    Unlist(list, id);
  }

  method ReleaseArc(list: HookList<FlagId>, flags: Flags, arc: FlagId,
                    ghost l: Roster<FlagId>, ghost outside: multiset<FlagId>, ghost tokens: seq<FlagId>, ghost k: nat)
    requires Guarded(l, outside, tokens) && k < |tokens| && arc == tokens[k]
    requires list.Valid() && Halfway(list.Roster(), flags.strong, l, outside, tokens, k)
    modifies flags`strong
    ensures Drained(list.Roster(), flags.strong, l, outside, tokens, k + 1)
  {
    OwnersStep(outside, tokens, k);
    DrainOwned(l, outside, tokens, k + 1, k + 1);
    flags.Release(arc, list);
  }

  /** One turn: unregister first, release the Arc afterwards.  In between, and after, every listed flag is owned. */
  method ReleaseEntry(list: HookList<FlagId>, flags: Flags, entry: (nat, FlagId),
                      ghost l: Roster<FlagId>, ghost outside: multiset<FlagId>, ghost tokens: seq<FlagId>, ghost k: nat)
    requires Guarded(l, outside, tokens) && k < |tokens| && entry == (l.nextId + k, tokens[k])
    requires list.Valid() && Drained(list.Roster(), flags.strong, l, outside, tokens, k)
    modifies list, flags`strong
    ensures list.Valid() && Drained(list.Roster(), flags.strong, l, outside, tokens, k + 1)
  {
    UnlistEntry(list, flags, entry.0, l, outside, tokens, k);
    ReleaseArc(list, flags, entry.1, l, outside, tokens, k);
  }

  /** The guard's drain loop: at every turn each reachable flag has an owner. */
  method Drain(list: HookList<FlagId>, entries: seq<(nat, FlagId)>, flags: Flags,
               ghost l: Roster<FlagId>, ghost outside: multiset<FlagId>, ghost tokens: seq<FlagId>)
    requires Guarded(l, outside, tokens) && Ledger(entries, l.nextId, tokens, |tokens|)
    requires list.Valid() && Drained(list.Roster(), flags.strong, l, outside, tokens, 0)
    modifies list, flags`strong
    ensures list.Valid() && Drained(list.Roster(), flags.strong, l, outside, tokens, |tokens|)
  {
    for k := 0 to |entries|
      invariant list.Valid() && Drained(list.Roster(), flags.strong, l, outside, tokens, k)
    {
      ReleaseEntry(list, flags, entries[k], l, outside, tokens, k);
    }
  }

  lemma DrainStart(l: Roster<FlagId>, outside: multiset<FlagId>, tokens: seq<FlagId>)
    requires Guarded(l, outside, tokens)
    ensures Drained(Built(l, tokens, |tokens|), outside + multiset(tokens), l, outside, tokens, 0)
  {
    OwnersAre(outside, tokens, 0);
    assert tokens[0..] == tokens;
    OwnedWhileTearing(l, outside, tokens, 0);
  }

  /** At the end the list is what it was when the guard was made, and the guard's shares are given back. */
  method UnregisterAll(list: HookList<FlagId>, entries: seq<(nat, FlagId)>, flags: Flags,
                       ghost outside: multiset<FlagId>, ghost l: Roster<FlagId>, ghost tokens: seq<FlagId>)
    requires Guarded(l, outside, tokens) && Ledger(entries, l.nextId, tokens, |tokens|)
    requires list.Valid() && list.Roster() == Built(l, tokens, |tokens|) && flags.strong == outside + multiset(tokens)
    modifies list, flags`strong
    ensures list.Valid() && list.Entries() == l.entries && flags.strong == outside
    ensures AllOwned(list.Entries(), flags.strong)
  {
    DrainStart(l, outside, tokens);
    GuardIsScoped(l, tokens);
    Drain(list, entries, flags, l, outside, tokens);
  }

  /** The RAII guard of one cancellable query; it runs under the connection mutex from start to end. */
  class ProgressHandlerGuard {
    const dispatch: ProgressDispatch
    var entries: seq<(nat, FlagId)>

    /** The Arc clones in `tokens` are moved in: they are among the owners throughout. */
    constructor (dispatch: ProgressDispatch, tokens: seq<FlagId>, flags: Flags, ghost outside: multiset<FlagId>)
      requires dispatch.Valid() && AllOwned(dispatch.cancels.Entries(), outside)
      requires dispatch.cancels.nextId + |tokens| <= TWO_64 && flags.strong == outside + multiset(tokens)
      modifies dispatch.cancels
      ensures this.dispatch == dispatch && dispatch.Valid()
      ensures dispatch.cancels.Roster() == Built(old(dispatch.cancels.Roster()), tokens, |tokens|)
      ensures Ledger(entries, old(dispatch.cancels.nextId), tokens, |tokens|)
      ensures AllOwned(dispatch.cancels.Entries(), flags.strong)
    {
      this.dispatch := dispatch;
      var made := RegisterAll(dispatch.cancels, tokens, outside);
      entries := made;
    }

    method Drop(flags: Flags, ghost outside: multiset<FlagId>, ghost l: Roster<FlagId>, ghost tokens: seq<FlagId>)
      requires dispatch.Valid() && dispatch.cancels.Roster() == Built(l, tokens, |tokens|) && Ledger(entries, l.nextId, tokens, |tokens|)
      requires Guarded(l, outside, tokens) && flags.strong == outside + multiset(tokens)
      modifies this, dispatch.cancels, flags`strong
      ensures dispatch.Valid() && dispatch.cancels.Entries() == l.entries
      ensures flags.strong == outside && AllOwned(dispatch.cancels.Entries(), flags.strong) && entries == []
    {
      var drained := entries;
      entries := [];
      UnregisterAll(dispatch.cancels, drained, flags, outside, l, tokens);
    }
  }
}
