/** `Box::into_raw` / `Box::from_raw` memory: who is allocated, who has been freed. */
module Boxes {
  /** Address 0 is the null pointer.  Freeing or reading needs a live box, so a method that type-checks
      against this heap never frees twice and never reads freed memory. */
  datatype Heap<T> = Heap(live: map<nat, T>, freed: set<nat>, next: nat) {
    ghost predicate WellFormed() {
      && next > 0
      && live.Keys !! freed
      && (forall p: nat :: p in live || p in freed <==> 0 < p < next)
    }

    function Alloc(value: T): (h: Heap<T>)
      requires WellFormed()
      ensures h.WellFormed()
      ensures next !in live && next !in freed && h.live.Keys == live.Keys + {next}
    {
      Heap(live[next := value], freed, next + 1)
    }

    function Free(p: nat): (h: Heap<T>)
      requires WellFormed() && p in live
      ensures h.WellFormed()
      ensures h.live.Keys == live.Keys - {p} && p in h.freed
    {
      Heap(live - {p}, freed + {p}, next)
    }
  }

  function EmptyHeap<T>(): (h: Heap<T>)
    ensures h.WellFormed()
  {
    Heap(map[], {}, 1)
  }
}

/** The pure meaning of a subscriber list: an ordered id-to-state list and the next id. */
module Subscribers {
  import opened Common

  datatype Entry<T> = Entry(id: nat, state: T)

  datatype Roster<T> = Roster(entries: seq<Entry<T>>, nextId: nat)

  function Without<T>(entries: seq<Entry<T>>, id: nat): seq<Entry<T>> {
    if entries == [] then []
    else
      var rest := Without(entries[..|entries| - 1], id);
      var last := entries[|entries| - 1];
      if last.id == id then rest else rest + [last]
  }

  /** `fetch_add` on an `AtomicU64`: wraps at 2^64. */
  function Added<T>(l: Roster<T>, state: T): Roster<T> {
    Roster(l.entries + [Entry(l.nextId, state)], (l.nextId + 1) % TWO_64)
  }

  function Removed<T>(l: Roster<T>, id: nat): Roster<T> {
    l.(entries := Without(l.entries, id))
  }

  /** Removing an id keeps exactly the other entries, in order, and removing a missing one keeps all. */
  lemma {:induction false} WithoutKeepsTheRest<T>(entries: seq<Entry<T>>, id: nat)
    ensures forall e :: e in Without(entries, id) <==> e in entries && e.id != id
    ensures |Without(entries, id)| == |entries| <==> Without(entries, id) == entries
    ensures |Without(entries, id)| == |entries| <==> (forall e :: e in entries ==> e.id != id)
    ensures |Without(entries, id)| <= |entries|
  {
    if entries != [] {
      WithoutKeepsTheRest(entries[..|entries| - 1], id);
      assert entries == entries[..|entries| - 1] + [entries[|entries| - 1]];
    }
  }

  lemma WithoutSnoc<T>(entries: seq<Entry<T>>, last: Entry<T>, id: nat)
    ensures Without(entries + [last], id) == Without(entries, id) + (if last.id == id then [] else [last])
  {
    assert (entries + [last])[..|entries|] == entries;
  }

  /** Ids climb strictly along the list and stay below `bound`. */
  ghost predicate Climbs<T>(entries: seq<Entry<T>>, bound: nat) {
    && (forall i, j :: 0 <= i < j < |entries| ==> entries[i].id < entries[j].id)
    && (forall i :: 0 <= i < |entries| ==> entries[i].id < bound)
  }

  lemma ClimbsSnoc<T>(entries: seq<Entry<T>>, last: Entry<T>, bound: nat)
    requires Climbs(entries, last.id) && last.id < bound
    ensures Climbs(entries + [last], bound)
  {
    var r := entries + [last];
    forall i, j | 0 <= i < j < |r| ensures r[i].id < r[j].id {
      assert r[i] == entries[i];
    }
  }

  lemma ClimbsInit<T>(entries: seq<Entry<T>>, bound: nat)
    requires Climbs(entries, bound) && entries != []
    ensures Climbs(entries[..|entries| - 1], entries[|entries| - 1].id)
  {
  }

  lemma {:induction false} WithoutClimbs<T>(entries: seq<Entry<T>>, id: nat, bound: nat)
    requires Climbs(entries, bound)
    ensures Climbs(Without(entries, id), bound)
  {
    if entries != [] {
      var last := entries[|entries| - 1];
      ClimbsInit(entries, bound);
      WithoutClimbs(entries[..|entries| - 1], id, last.id);
      if last.id != id {
        ClimbsSnoc(Without(entries[..|entries| - 1], id), last, bound);
      }
    }
  }

  // ---- whole runs ------------------------------------------------------------------------

  datatype Op<T> = Add(state: T) | Remove(id: nat)

  function Apply<T>(l: Roster<T>, op: Op<T>): Roster<T> {
    match op
    case Add(state) => Added(l, state)
    case Remove(id) => Removed(l, id)
  }

  /** A fresh list starts empty with next id 1. */
  function Run<T>(ops: seq<Op<T>>): Roster<T>
    decreases |ops|
  {
    if ops == [] then Roster([], 1) else Apply(Run(ops[..|ops| - 1]), ops[|ops| - 1])
  }

  function Adds<T>(ops: seq<Op<T>>): nat {
    if ops == [] then 0 else Adds(ops[..|ops| - 1]) + (if ops[|ops| - 1].Add? then 1 else 0)
  }

  lemma {:induction false} AddsMonotone<T>(ops: seq<Op<T>>, k: nat)
    requires k <= |ops|
    ensures Adds(ops[..k]) <= Adds(ops)
    ensures k < |ops| && ops[k].Add? ==> Adds(ops[..k]) < Adds(ops)
  {
    if k == |ops| {
      assert ops[..k] == ops;
    } else {
      var init := ops[..|ops| - 1];
      if k < |init| {
        AddsMonotone(init, k);
        assert init[..k] == ops[..k];
      } else {
        assert ops[..k] == init;
      }
    }
  }

  /** Position `k` of the run registered `e`, and no later operation removed it. */
  ghost predicate Survives<T>(ops: seq<Op<T>>, k: nat, e: Entry<T>) {
    && k < |ops| && ops[k] == Add(e.state)
    && e.id == 1 + Adds(ops[..k])
    && (forall j :: k < j < |ops| ==> ops[j] != Remove(e.id))
  }

  lemma WrapStep(x: nat)
    ensures (x % TWO_64 + 1) % TWO_64 == (x + 1) % TWO_64
  {
  }

  /** The counter counts the registrations so far, whatever was removed, and wraps. */
  lemma {:induction false} NextIdWraps<T>(ops: seq<Op<T>>)
    ensures Run(ops).nextId == (1 + Adds(ops)) % TWO_64
    decreases |ops|
  {
    if ops != [] {
      NextIdWraps(ops[..|ops| - 1]);
      WrapStep(1 + Adds(ops[..|ops| - 1]));
    }
  }

  lemma {:induction false} RunClimbs<T>(ops: seq<Op<T>>)
    requires Adds(ops) < TWO_64
    ensures Climbs(Run(ops).entries, 1 + Adds(ops))
    decreases |ops|
  {
    if ops != [] {
      var init := ops[..|ops| - 1];
      RunClimbs(init);
      match ops[|ops| - 1] {
        case Add(state) =>
          NextIdWraps(init);
          ClimbsSnoc(Run(init).entries, Entry(Run(init).nextId, state), 1 + Adds(ops));
        case Remove(id) => WithoutClimbs(Run(init).entries, id, 1 + Adds(ops));
      }
    }
  }

  ghost predicate Survivor<T>(ops: seq<Op<T>>, e: Entry<T>) {
    exists k: nat :: Survives(ops, k, e)
  }

  /** Over any run of fewer than 2^64 registrations the list is exactly the surviving registrations in
      registration order: ids are 1, 2, 3, ... as issued (so never reused), and no survivor's state changes. */
  lemma RunIsTheSurvivors<T(!new)>(ops: seq<Op<T>>)
    requires Adds(ops) < TWO_64
    ensures Run(ops).nextId == (1 + Adds(ops)) % TWO_64
    ensures Climbs(Run(ops).entries, 1 + Adds(ops))
    ensures forall e :: e in Run(ops).entries <==> Survivor(ops, e)
  {
    NextIdWraps(ops);
    RunClimbs(ops);
    forall e ensures e in Run(ops).entries <==> Survivor(ops, e) { ListedIff(ops, e); }
  }

  lemma {:induction false} ListedIff<T(!new)>(ops: seq<Op<T>>, e: Entry<T>)
    requires Adds(ops) < TWO_64
    ensures e in Run(ops).entries <==> Survivor(ops, e)
    decreases |ops|
  {
    if ops != [] {
      ListedIff(ops[..|ops| - 1], e);
      ListedStep(ops, e);
      SurvivorStep(ops, e);
    }
  }

  lemma AddedMember<T>(l: Roster<T>, state: T, e: Entry<T>)
    ensures e in Added(l, state).entries <==> e in l.entries || e == Entry(l.nextId, state)
  {
    var all := l.entries + [Entry(l.nextId, state)];
    assert all[|l.entries|] == Entry(l.nextId, state);
  }

  lemma RemovedMember<T>(l: Roster<T>, id: nat, e: Entry<T>)
    ensures e in Removed(l, id).entries <==> e in l.entries && e.id != id
  {
    WithoutKeepsTheRest(l.entries, id);
  }

  lemma ListedStep<T>(ops: seq<Op<T>>, e: Entry<T>)
    requires ops != [] && Adds(ops) < TWO_64
    ensures var init, op := ops[..|ops| - 1], ops[|ops| - 1];
            e in Run(ops).entries <==>
            (e in Run(init).entries && op != Remove(e.id)) || (op == Add(e.state) && e.id == 1 + Adds(init))
  {
    var init := ops[..|ops| - 1];
    match ops[|ops| - 1]
    case Remove(id) => RemovedMember(Run(init), id, e);
    case Add(state) =>
      NextIdIs(init);
      AddedMember(Run(init), state, e);
  }

  lemma SurvivorStep<T>(ops: seq<Op<T>>, e: Entry<T>)
    requires ops != []
    ensures var init, op := ops[..|ops| - 1], ops[|ops| - 1];
            Survivor(ops, e) <==>
            (Survivor(init, e) && op != Remove(e.id)) || (op == Add(e.state) && e.id == 1 + Adds(init))
  {
    var init, op := ops[..|ops| - 1], ops[|ops| - 1];
    if Survivor(ops, e) {
      var k: nat :| Survives(ops, k, e);
      SurvivesLonger(ops, k, e);
    }
    if Survivor(init, e) && op != Remove(e.id) {
      var k: nat :| Survives(init, k, e);
      SurvivesLonger(ops, k, e);
    }
    if op == Add(e.state) && e.id == 1 + Adds(init) {
      SurvivesLonger(ops, |init|, e);
    }
  }

  /** Surviving one more operation: either not being removed by it, or being what it registered. */
  lemma SurvivesLonger<T>(ops: seq<Op<T>>, k: nat, e: Entry<T>)
    requires ops != []
    ensures var n := |ops| - 1;
            Survives(ops, k, e) <==>
            (Survives(ops[..n], k, e) && ops[n] != Remove(e.id)) || (k == n && ops[n] == Add(e.state) && e.id == 1 + Adds(ops[..n]))
  {
    var init := ops[..|ops| - 1];
    if k < |init| {
      assert ops[..k] == init[..k];
      assert forall j :: k < j < |init| ==> init[j] == ops[j];
    }
  }

  /** The id a registration returns: the counter just before it. */
  function IdOf<T>(ops: seq<Op<T>>, k: nat): nat
    requires k < |ops| && ops[k].Add?
  {
    Run(ops[..k]).nextId
  }

  lemma NextIdIs<T>(ops: seq<Op<T>>)
    requires Adds(ops) + 1 < TWO_64
    ensures Run(ops).nextId == 1 + Adds(ops)
  {
    NextIdWraps(ops);
  }

  lemma IdIsItsRank<T>(ops: seq<Op<T>>, k: nat)
    requires Adds(ops) < TWO_64 && k < |ops| && ops[k].Add?
    ensures IdOf(ops, k) == 1 + Adds(ops[..k])
  {
    AddsMonotone(ops, k);
    NextIdIs(ops[..k]);
  }

  /** Two registrations of one run never get the same id, whether or not either is still listed. */
  lemma IdsAreNeverReused<T>(ops: seq<Op<T>>, j: nat, k: nat)
    requires Adds(ops) < TWO_64
    requires j < k < |ops| && ops[j].Add? && ops[k].Add?
    ensures IdOf(ops, j) < IdOf(ops, k)
  {
    IdIsItsRank(ops, j);
    IdIsItsRank(ops, k);
    AddsMonotone(ops[..k], j);
    assert ops[..k][..j] == ops[..j];
  }
}

/** The copy-on-write list itself. */
module HookLists {
  import opened Common
  import opened Boxes
  import opened Subscribers

  class HookList<T> {
    var head: nat    // AtomicPtr to the boxed vector; 0 is null
    var nextId: nat  // AtomicU64
    var heap: Heap<seq<Entry<T>>>

    /** The only live box is the one behind `head`, and it is never empty: every superseded vector has
        been freed, exactly once. */
    ghost predicate Valid()
      reads this
    {
      && heap.WellFormed()
      && nextId < TWO_64
      && heap.live.Keys == (if head == 0 then {} else {head})
      && (head != 0 ==> heap.live[head] != [])
    }

    function Entries(): seq<Entry<T>>
      reads this
      requires Valid()
    {
      if head == 0 then [] else heap.live[head]
    }

    function Roster(): Roster<T>
      reads this
      requires Valid()
    {
      Subscribers.Roster(Entries(), nextId)
    }

    constructor ()
      ensures Valid() && Roster() == Subscribers.Roster([], 1) && heap == EmptyHeap()
    {
      head, nextId, heap := 0, 1, EmptyHeap();
    }

    /** Frees a vector that no reader can find any more: it must have been swapped out first. */
    method Reclaim(p: nat)
      requires heap.WellFormed() && p in heap.live && head != p
      modifies this`heap
      ensures heap == old(heap).Free(p)
    {
      heap := heap.Free(p);
    }

    method Register(state: T) returns (id: nat)
      requires Valid()
      modifies this
      ensures Valid() && id == old(nextId)
      ensures Roster() == Added(old(Roster()), state)
      ensures heap.freed == old(heap.freed) + old(heap.live.Keys)
    {
      id := nextId;
      nextId := (nextId + 1) % TWO_64;
      var entry := Entry(id, state);
      var oldPtr := head;
      var newVec: seq<Entry<T>>;
      if oldPtr == 0 {
        newVec := [entry];
      } else {
        var existing := heap.live[oldPtr];
        var clone: seq<Entry<T>> := [];
        for i := 0 to |existing|
          invariant clone == existing[..i]
        {
          clone := clone + [Entry(existing[i].id, existing[i].state)];
        }
        newVec := clone + [entry];
      }
      var newPtr := heap.next;
      heap := heap.Alloc(newVec);
      var prev := head;
      head := newPtr;
      if prev != 0 {
        Reclaim(prev);
      }
    }

    method Unregister(id: nat) returns (removed: bool)
      requires Valid()
      modifies this
      ensures Valid()
      ensures Roster() == Removed(old(Roster()), id)
      ensures removed <==> exists e :: e in old(Entries()) && e.id == id
      ensures if removed then heap.freed == old(heap.freed) + old(heap.live.Keys) else heap == old(heap) && head == old(head)
    {
      var oldPtr := head;
      if oldPtr == 0 {
        return false;
      }
      var existing := heap.live[oldPtr];
      var filtered: seq<Entry<T>> := [];
      for i := 0 to |existing|
        invariant filtered == Without(existing[..i], id)
      {
        assert existing[..i + 1][..i] == existing[..i];
        if existing[i].id != id {
          filtered := filtered + [Entry(existing[i].id, existing[i].state)];
        }
      }
      assert existing[..|existing|] == existing;
      WithoutKeepsTheRest(existing, id);
      if |filtered| == |existing| {
        return false;
      }
      var newPtr := 0;
      if filtered != [] {
        newPtr := heap.next;
        heap := heap.Alloc(filtered);
      }
      var prev := head;
      head := newPtr;
      if prev != 0 {
        Reclaim(prev);
      }
      return true;
    }

    /** `for_each_snapshot` with a closure that records the entry it is handed. */
    method Visit() returns (seen: seq<Entry<T>>)
      requires Valid()
      ensures seen == Entries()
    {
      seen := [];
      if head != 0 {
        var snapshot := heap.live[head];
        for i := 0 to |snapshot|
          invariant seen == snapshot[..i]
        {
          seen := seen + [snapshot[i]];
        }
      }
    }

    method IsEmpty() returns (empty: bool)
      requires Valid()
      ensures empty <==> Entries() == []
    {
      empty := head == 0;
    }

    /** After the last subscriber's owner is gone nothing is left allocated. */
    method DropAll()
      requires Valid()
      modifies this
      ensures Valid() && Entries() == [] && nextId == old(nextId)
      ensures heap.live == map[] && (forall p: nat :: p in heap.freed <==> 0 < p < heap.next)
    {
      var ptr := head;
      head := 0;
      if ptr != 0 {
        Reclaim(ptr);
      }
    }
  }
}
