/** Batched fetching: what one call returns, as a function of what the statement yields. */
module StreamSpec {
  import opened Common

  /** What one `sqlite3_step` yields. A script gives the outcome of the first, second, … step. */
  datatype Outcome<T> = Row(row: T) | End | Failed(code: int)

  /** How the connection is found when its Mutex is taken. */
  datatype Conn = Ready | Shut | Poisoned

  datatype Reply<T> =
    | InvalidBatchSize
    | Done
    | Rows(rows: seq<T>)
    | Failure(code: int)
    | ConnectionClosed
    | LockError

  /** An open stream holds the statement; `pos` counts the steps made so far. */
  datatype Stream = Stream(open: bool, pos: nat)

  ghost predicate AllRows<T>(script: nat -> Outcome<T>, lo: nat, hi: nat) {
    forall i :: lo <= i < hi ==> script(i).Row?
  }

  /** The rows of steps `lo` up to `hi`. */
  ghost function Taken<T>(script: nat -> Outcome<T>, lo: nat, hi: nat): (rows: seq<T>)
    requires lo <= hi && AllRows(script, lo, hi)
    ensures |rows| == hi - lo
    ensures forall i :: 0 <= i < |rows| ==> rows[i] == script(lo + i).row
  {
    seq(hi - lo, i requires 0 <= i < hi - lo => script(lo + i).row)
  }

  lemma TakenSnoc<T>(script: nat -> Outcome<T>, lo: nat, hi: nat)
    requires lo <= hi && AllRows(script, lo, hi) && script(hi).Row?
    ensures AllRows(script, lo, hi + 1) && Taken(script, lo, hi + 1) == Taken(script, lo, hi) + [script(hi).row]
  {
  }

  lemma TakenJoins<T>(script: nat -> Outcome<T>, lo: nat, mid: nat, hi: nat)
    requires lo <= mid <= hi && AllRows(script, lo, hi)
    ensures Taken(script, lo, mid) + Taken(script, mid, hi) == Taken(script, lo, hi)
  {
  }

  /** How many of the next `limit` steps yield a row before one does not. */
  function Stretch<T>(script: nat -> Outcome<T>, pos: nat, limit: nat): (k: nat)
    ensures k <= limit
    ensures AllRows(script, pos, pos + k)
    ensures k < limit ==> !script(pos + k).Row?
    decreases limit
  {
    if limit == 0 || !script(pos).Row? then 0 else 1 + Stretch(script, pos + 1, limit - 1)
  }

  lemma {:induction false} StretchIs<T>(script: nat -> Outcome<T>, pos: nat, limit: nat, k: nat)
    requires k <= limit && AllRows(script, pos, pos + k)
    requires k < limit ==> !script(pos + k).Row?
    ensures Stretch(script, pos, limit) == k
    decreases k
  {
    if k > 0 { StretchIs(script, pos + 1, limit - 1, k - 1); }
  }

  /** Batch sizes are decoded as i64 and must be positive. */
  predicate ValidBatch(batch: int) {
    1 <= batch < TWO_63
  }

  /** The stream closed by another thread just before the `n`th look at the handle, if that look happens. */
  type Rival = Option<nat>

  function Limit(batch: int, rival: Rival): nat
    requires batch >= 1
  {
    if rival.Some? && rival.value < batch then rival.value else batch
  }

  /** The reply of one fetch and the stream it leaves behind. */
  ghost function Fetched<T>(script: nat -> Outcome<T>, s: Stream, batch: int, conn: Conn, rival: Rival): (Reply<T>, Stream) {
    if !ValidBatch(batch) then (InvalidBatchSize, s)
    else if !s.open then (Done, s)
    else if conn.Poisoned? then (LockError, s.(open := false))
    else if conn.Shut? then (ConnectionClosed, s)
    else
      var limit := Limit(batch, rival);
      var k := Stretch(script, s.pos, limit);
      var rows := Taken(script, s.pos, s.pos + k);
      if k == batch then (Rows(rows), s.(pos := s.pos + k))
      else if k < limit && script(s.pos + k).Failed? then
        (Failure(script(s.pos + k).code), Stream(false, s.pos + k + 1))
      else
        (if rows == [] then Done else Rows(rows), Stream(false, if k < limit then s.pos + k + 1 else s.pos + k))
  }

  /** A fetch loop under way: `rows` gathered since step `start`, of at most `limit` looks at the handle. */
  ghost predicate Looping<T>(script: nat -> Outcome<T>, start: nat, batch: nat, limit: nat, rows: seq<T>,
                             exhausted: bool, error: Option<int>, s: Stream)
  {
    var at := start + |rows|;
    && |rows| <= limit <= batch
    && AllRows(script, start, at) && rows == Taken(script, start, at)
    && s.open == !exhausted
    && if !exhausted then s.pos == at && error.None?
       else if |rows| == limit then limit < batch && s.pos == at && error.None?
       else !script(at).Row? && s.pos == at + 1 &&
            error == (if script(at).Failed? then Some(script(at).code) else None)
  }

  function ReplyOf<T>(rows: seq<T>, exhausted: bool, error: Option<int>): Reply<T> {
    if error.Some? then Failure(error.value)
    else if rows != [] then Rows(rows)
    else if exhausted then Done
    else Rows([])
  }

  lemma LoopEnds<T>(script: nat -> Outcome<T>, start: nat, batch: nat, rival: Rival, rows: seq<T>,
                    exhausted: bool, error: Option<int>, s: Stream)
    requires ValidBatch(batch) && Looping(script, start, batch, Limit(batch, rival), rows, exhausted, error, s)
    requires |rows| == batch || exhausted
    ensures Fetched(script, Stream(true, start), batch, Ready, rival) == (ReplyOf(rows, exhausted, error), s)
  {
    StretchIs(script, start, Limit(batch, rival), |rows|);
  }

  // Runs.

  datatype Call = Fetch(batch: int, conn: Conn, rival: Rival) | Close

  ghost function After<T>(script: nat -> Outcome<T>, calls: seq<Call>): Stream {
    if calls == [] then Stream(true, 0)
    else
      var s := After(script, calls[..|calls| - 1]);
      var call := calls[|calls| - 1];
      if call.Close? then s.(open := false) else Fetched(script, s, call.batch, call.conn, call.rival).1
  }

  ghost function Answer<T>(script: nat -> Outcome<T>, calls: seq<Call>): Reply<T>
    requires calls != []
  {
    var call := calls[|calls| - 1];
    if call.Close? then Done
    else Fetched(script, After(script, calls[..|calls| - 1]), call.batch, call.conn, call.rival).0
  }

  function Payload<T>(reply: Reply<T>): seq<T> {
    if reply.Rows? then reply.rows else []
  }

  /** Every row the caller was ever given, in the order it was given. */
  ghost function Delivered<T>(script: nat -> Outcome<T>, calls: seq<Call>): seq<T> {
    if calls == [] then [] else Delivered(script, calls[..|calls| - 1]) + Payload(Answer(script, calls))
  }

  ghost predicate IsPrefix<T>(script: nat -> Outcome<T>, rows: seq<T>, n: nat) {
    && AllRows(script, 0, n)
    && rows == Taken(script, 0, n)
  }

  lemma FetchedRows<T>(script: nat -> Outcome<T>, s: Stream, call: Call)
    requires call.Fetch?
    ensures var (reply, s') := Fetched(script, s, call.batch, call.conn, call.rival);
            var k := |Payload(reply)|;
            && s.pos + k <= s'.pos
            && AllRows(script, s.pos, s.pos + k) && Payload(reply) == Taken(script, s.pos, s.pos + k)
            && (s'.open ==> s.open && s'.pos == s.pos + k)
            && (!s.open ==> k == 0)
  {
  }

  /** Safety over every run, whatever batch sizes are asked for, whatever state the connection is found in and
      whenever another thread closes the stream: what was delivered is the statement's rows from the first
      one on, in order, none twice and none left out in between; and while the stream is open it is all the
      rows stepped so far. */
  lemma {:induction false} DeliveredIsAPrefix<T>(script: nat -> Outcome<T>, calls: seq<Call>)
    ensures |Delivered(script, calls)| <= After(script, calls).pos
    ensures IsPrefix(script, Delivered(script, calls), |Delivered(script, calls)|)
    ensures After(script, calls).open ==> |Delivered(script, calls)| == After(script, calls).pos
  {
    if calls != [] {
      var before := calls[..|calls| - 1];
      DeliveredIsAPrefix(script, before);
      var s := After(script, before);
      var call := calls[|calls| - 1];
      if call.Fetch? {
        FetchedRows(script, s, call);
        if s.open { TakenJoins(script, 0, s.pos, s.pos + |Payload(Answer(script, calls))|); }
      }
    }
  }

  /** Once closed — by the end, an error, a close or a poisoned lock — every later fetch with a valid batch
      size says done. */
  lemma {:induction false} ClosedIsFinal<T>(script: nat -> Outcome<T>, calls: seq<Call>, later: seq<Call>)
    requires !After(script, calls).open
    ensures !After(script, calls + later).open
    ensures later != [] && later[|later| - 1].Fetch? && ValidBatch(later[|later| - 1].batch) ==>
              Answer(script, calls + later) == Done
  {
    if later == [] {
      assert calls + later == calls;
    } else {
      var before := later[..|later| - 1];
      ClosedIsFinal(script, calls, before);
      assert (calls + later)[..|calls + later| - 1] == calls + before;
    }
  }

  // What each reply means, told from the calls alone.

  /** Look `i` at the handle finds it open and a row behind it. */
  ghost predicate GoodLook<T>(script: nat -> Outcome<T>, pos: nat, rival: Rival, i: nat) {
    rival != Some(i) && script(pos + i).Row?
  }

  /** The first `n` looks all do. */
  ghost predicate GoesOn<T>(script: nat -> Outcome<T>, pos: nat, rival: Rival, n: nat) {
    forall i: nat :: i < n ==> GoodLook(script, pos, rival, i)
  }

  /** Look `j` is the first that finds the handle closed, or the end, or an error. */
  ghost predicate StopsFirst<T>(script: nat -> Outcome<T>, pos: nat, rival: Rival, j: nat) {
    GoesOn(script, pos, rival, j) && !GoodLook(script, pos, rival, j)
  }

  lemma GoesOnRows<T>(script: nat -> Outcome<T>, pos: nat, rival: Rival, n: nat)
    requires GoesOn(script, pos, rival, n)
    ensures AllRows(script, pos, pos + n)
  {
    forall i | pos <= i < pos + n ensures script(i).Row? { assert GoodLook(script, pos, rival, i - pos); }
  }

  /** A batch nothing stops is full and leaves the stream open. */
  lemma FullReply<T>(script: nat -> Outcome<T>, pos: nat, batch: int, rival: Rival)
    requires ValidBatch(batch) && GoesOn(script, pos, rival, batch)
    ensures AllRows(script, pos, pos + batch)
    ensures Fetched(script, Stream(true, pos), batch, Ready, rival) == (Rows(Taken(script, pos, pos + batch)), Stream(true, pos + batch))
  {
    GoesOnRows(script, pos, rival, batch);
    assert rival.Some? && rival.value < batch ==> GoodLook(script, pos, rival, rival.value);
    StretchIs(script, pos, batch, batch);
  }

  /** What is answered when look `j` is the first bad one. */
  ghost function StoppedReply<T>(script: nat -> Outcome<T>, pos: nat, rival: Rival, j: nat): Reply<T>
    requires AllRows(script, pos, pos + j)
  {
    if rival != Some(j) && script(pos + j).Failed? then Failure(script(pos + j).code)
    else if j == 0 then Done
    else Rows(Taken(script, pos, pos + j))
  }

  /** A batch that is stopped delivers every row gathered before, unless it was stopped by an error, and closes the
      stream. */
  lemma ShortReply<T>(script: nat -> Outcome<T>, pos: nat, batch: int, rival: Rival, j: nat)
    requires ValidBatch(batch) && j < batch && StopsFirst(script, pos, rival, j)
    ensures AllRows(script, pos, pos + j)
    ensures var (reply, s) := Fetched(script, Stream(true, pos), batch, Ready, rival);
            !s.open && reply == StoppedReply(script, pos, rival, j)
  {
    GoesOnRows(script, pos, rival, j);
    assert rival.Some? && rival.value < j ==> GoodLook(script, pos, rival, rival.value);
    StretchIs(script, pos, Limit(batch, rival), j);
  }

  lemma {:induction false} FirstStop<T>(script: nat -> Outcome<T>, pos: nat, rival: Rival, n: nat) returns (j: nat)
    ensures j <= n && GoesOn(script, pos, rival, j) && (j < n ==> StopsFirst(script, pos, rival, j))
    decreases n
  {
    if n == 0 {
      j := 0;
    } else {
      j := FirstStop(script, pos, rival, n - 1);
      if j == n - 1 && GoodLook(script, pos, rival, j) { j := n; }
    }
  }

  /** Call `k` of a run ended the stream: a close, a fetch that met a poisoned lock, or one that was stopped. Before
      it the caller had been given every row stepped, so the rows delivered say where the statement stood. */
  ghost predicate Ends<T>(script: nat -> Outcome<T>, calls: seq<Call>, k: nat)
    requires k < |calls|
  {
    match calls[k]
    case Close => true
    case Fetch(batch, conn, rival) =>
      && 1 <= batch < 0x8000_0000_0000_0000
      && (conn == Poisoned || (conn == Ready && !GoesOn(script, |Delivered(script, calls[..k])|, rival, batch)))
  }

  ghost predicate StillOpen<T>(script: nat -> Outcome<T>, calls: seq<Call>) {
    forall k: nat :: k < |calls| ==> !Ends(script, calls, k)
  }

  lemma StillOpenStep<T>(script: nat -> Outcome<T>, before: seq<Call>, call: Call)
    ensures StillOpen(script, before + [call]) <==> StillOpen(script, before) && !Ends(script, before + [call], |before|)
  {
    var calls := before + [call];
    forall k: nat | k < |before| ensures Ends(script, calls, k) <==> Ends(script, before, k) {
      assert calls[..k] == before[..k];
    }
  }

  lemma OpenStep<T>(script: nat -> Outcome<T>, pos: nat, batch: int, conn: Conn, rival: Rival)
    ensures Fetched(script, Stream(true, pos), batch, conn, rival).1.open <==>
            !(ValidBatch(batch) && (conn == Poisoned || (conn == Ready && !GoesOn(script, pos, rival, batch))))
  {
    if ValidBatch(batch) && conn == Ready {
      var j := FirstStop(script, pos, rival, batch);
      if j == batch {
        FullReply(script, pos, batch, rival);
      } else {
        ShortReply(script, pos, batch, rival, j);
      }
    }
  }

  lemma AfterCall<T>(script: nat -> Outcome<T>, before: seq<Call>, call: Call)
    ensures call.Close? ==> !After(script, before + [call]).open
    ensures call.Fetch? ==> After(script, before + [call]) == Fetched(script, After(script, before), call.batch, call.conn, call.rival).1
  {
    assert (before + [call])[..|before|] == before;
  }

  /** A stream is open if and only if none of the calls so far ended it. */
  lemma {:induction false} OpenIff<T>(script: nat -> Outcome<T>, calls: seq<Call>)
    ensures After(script, calls).open <==> StillOpen(script, calls)
    decreases |calls|
  {
    if calls != [] {
      var before, call := calls[..|calls| - 1], calls[|calls| - 1];
      assert before + [call] == calls;
      OpenIff(script, before);
      StillOpenStep(script, before, call);
      AfterCall(script, before, call);
      DeliveredIsAPrefix(script, before);
      assert calls[..|before|] == before;
      var s := After(script, before);
      if call.Fetch? && s.open { OpenStep(script, s.pos, call.batch, call.conn, call.rival); }
    }
  }

  /** The faulty calls of any run, both ways: a batch size out of range is refused whatever the stream; on an open
      stream a closed connection is an error that leaves the stream as it was, and a poisoned lock one that ends
      it. */
  lemma FaultIff<T>(script: nat -> Outcome<T>, calls: seq<Call>, batch: int, conn: Conn, rival: Rival)
    ensures var whole := calls + [Fetch(batch, conn, rival)]; var reply := Answer(script, whole);
            && (reply == InvalidBatchSize <==> !(1 <= batch < 0x8000_0000_0000_0000))
            && (reply == ConnectionClosed <==> 1 <= batch < 0x8000_0000_0000_0000 && StillOpen(script, calls) && conn == Shut)
            && (reply == LockError <==> 1 <= batch < 0x8000_0000_0000_0000 && StillOpen(script, calls) && conn == Poisoned)
            && (reply == InvalidBatchSize || reply == ConnectionClosed ==> After(script, whole) == After(script, calls))
            && (reply == LockError ==> !StillOpen(script, whole))
  {
    var whole := calls + [Fetch(batch, conn, rival)];
    assert whole[..|calls|] == calls;
    OpenIff(script, calls);
    OpenIff(script, whole);
    if ValidBatch(batch) && After(script, calls).open && conn == Ready {
      var j := FirstStop(script, After(script, calls).pos, rival, batch);
      if j == batch {
        FullReply(script, After(script, calls).pos, batch, rival);
      } else {
        ShortReply(script, After(script, calls).pos, batch, rival, j);
      }
    }
  }

  /** A fetch that gets as far as the loop. */
  ghost predicate Loops<T>(script: nat -> Outcome<T>, calls: seq<Call>, batch: int, conn: Conn) {
    1 <= batch < 0x8000_0000_0000_0000 && StillOpen(script, calls) && conn == Ready
  }

  lemma AnswerIs<T>(script: nat -> Outcome<T>, calls: seq<Call>, batch: int, conn: Conn, rival: Rival)
    ensures Answer(script, calls + [Fetch(batch, conn, rival)]) == Fetched(script, After(script, calls), batch, conn, rival).0
  {
    assert (calls + [Fetch(batch, conn, rival)])[..|calls|] == calls;
  }

  /** The open stream stands behind the rows delivered. */
  lemma StandsBehind<T>(script: nat -> Outcome<T>, calls: seq<Call>)
    requires StillOpen(script, calls)
    ensures After(script, calls) == Stream(true, |Delivered(script, calls)|)
  {
    OpenIff(script, calls);
    DeliveredIsAPrefix(script, calls);
  }

  lemma LoopReply<T>(script: nat -> Outcome<T>, pos: nat, batch: int, rival: Rival) returns (j: nat)
    requires ValidBatch(batch)
    ensures j <= batch && GoesOn(script, pos, rival, j) && AllRows(script, pos, pos + j)
    ensures j < batch ==> StopsFirst(script, pos, rival, j)
    ensures Fetched(script, Stream(true, pos), batch, Ready, rival).0 ==
            if j == batch then Rows(Taken(script, pos, pos + j)) else StoppedReply(script, pos, rival, j)
  {
    j := FirstStop(script, pos, rival, batch);
    if j == batch {
      FullReply(script, pos, batch, rival);
    } else {
      ShortReply(script, pos, batch, rival, j);
    }
  }

  /** Done is never said too early: a valid fetch in any run is answered with it if and only if the stream had ended
      before, or the very first look of this call found the handle closed by somebody else or the statement at its
      end. */
  lemma DoneIff<T>(script: nat -> Outcome<T>, calls: seq<Call>, batch: int, conn: Conn, rival: Rival)
    requires 1 <= batch < 0x8000_0000_0000_0000
    ensures Answer(script, calls + [Fetch(batch, conn, rival)]) == Done <==>
            || !StillOpen(script, calls)
            || (conn == Ready && (rival == Some(0) || script(|Delivered(script, calls)|).End?))
  {
    AnswerIs(script, calls, batch, conn, rival);
    OpenIff(script, calls);
    if Loops(script, calls, batch, conn) {
      var pos := |Delivered(script, calls)|;
      StandsBehind(script, calls);
      var j := LoopReply(script, pos, batch, rival);
      assert j > 0 ==> GoodLook(script, pos, rival, 0);
    }
  }

  /** An error is the statement's own, met at the first bad look. */
  lemma FailureIff<T>(script: nat -> Outcome<T>, calls: seq<Call>, batch: int, conn: Conn, rival: Rival, code: int)
    ensures Answer(script, calls + [Fetch(batch, conn, rival)]) == Failure(code) <==>
            Loops(script, calls, batch, conn) && FailsWithin(script, |Delivered(script, calls)|, batch, rival, code)
  {
    AnswerIs(script, calls, batch, conn, rival);
    OpenIff(script, calls);
    if Loops(script, calls, batch, conn) {
      StandsBehind(script, calls);
      LoopFailureIff(script, |Delivered(script, calls)|, batch, rival, code);
    }
  }

  lemma LoopFailureIff<T>(script: nat -> Outcome<T>, pos: nat, batch: int, rival: Rival, code: int)
    requires ValidBatch(batch)
    ensures Fetched(script, Stream(true, pos), batch, Ready, rival).0 == Failure(code) <==> FailsWithin(script, pos, batch, rival, code)
  {
    var j := LoopReply(script, pos, batch, rival);
    if FailsWithin(script, pos, batch, rival, code) {
      var k: nat :| k < batch && FailsAt(script, pos, rival, k, code);
      SameStop(script, pos, rival, batch, j, k);
    }
    if Fetched(script, Stream(true, pos), batch, Ready, rival).0 == Failure(code) {
      assert FailsAt(script, pos, rival, j, code);
    }
  }

  ghost predicate FailsWithin<T>(script: nat -> Outcome<T>, pos: nat, batch: int, rival: Rival, code: int) {
    exists j: nat :: j < batch && FailsAt(script, pos, rival, j, code)
  }

  ghost predicate FailsAt<T>(script: nat -> Outcome<T>, pos: nat, rival: Rival, j: nat, code: int) {
    GoesOn(script, pos, rival, j) && rival != Some(j) && script(pos + j) == Failed(code)
  }

  /** The rows gathered: a full batch, or everything up to a close by somebody else or the end, which may come in the
      middle of a batch without losing a row. */
  ghost predicate Gathered<T>(script: nat -> Outcome<T>, pos: nat, batch: int, rival: Rival, rows: seq<T>) {
    && 0 < |rows| <= batch
    && GoesOn(script, pos, rival, |rows|)
    && (forall i: nat :: i < |rows| ==> script(pos + i) == Row(rows[i]))
    && (|rows| < batch ==> rival == Some(|rows|) || script(pos + |rows|).End?)
  }

  lemma GatheredIsTaken<T>(script: nat -> Outcome<T>, pos: nat, batch: int, rival: Rival, rows: seq<T>)
    requires Gathered(script, pos, batch, rival, rows)
    ensures AllRows(script, pos, pos + |rows|) && rows == Taken(script, pos, pos + |rows|)
  {
    GoesOnRows(script, pos, rival, |rows|);
  }

  lemma TakenIsGathered<T>(script: nat -> Outcome<T>, pos: nat, batch: int, rival: Rival, j: nat)
    requires 0 < j <= batch && GoesOn(script, pos, rival, j) && AllRows(script, pos, pos + j)
    requires j < batch ==> rival == Some(j) || script(pos + j).End?
    ensures Gathered(script, pos, batch, rival, Taken(script, pos, pos + j))
  {
  }

  lemma RowsIff<T>(script: nat -> Outcome<T>, calls: seq<Call>, batch: int, conn: Conn, rival: Rival, rows: seq<T>)
    ensures Answer(script, calls + [Fetch(batch, conn, rival)]) == Rows(rows) <==>
            Loops(script, calls, batch, conn) && Gathered(script, |Delivered(script, calls)|, batch, rival, rows)
  {
    AnswerIs(script, calls, batch, conn, rival);
    OpenIff(script, calls);
    if Loops(script, calls, batch, conn) {
      StandsBehind(script, calls);
      LoopRowsIff(script, |Delivered(script, calls)|, batch, rival, rows);
    }
  }

  lemma LoopRowsIff<T>(script: nat -> Outcome<T>, pos: nat, batch: int, rival: Rival, rows: seq<T>)
    requires ValidBatch(batch)
    ensures Fetched(script, Stream(true, pos), batch, Ready, rival).0 == Rows(rows) <==> Gathered(script, pos, batch, rival, rows)
  {
    var j := LoopReply(script, pos, batch, rival);
    if Gathered(script, pos, batch, rival, rows) {
      GatheredIsTaken(script, pos, batch, rival, rows);
      SameStop(script, pos, rival, batch, j, |rows|);
    }
    if Fetched(script, Stream(true, pos), batch, Ready, rival).0 == Rows(rows) {
      TakenIsGathered(script, pos, batch, rival, j);
    }
  }

  lemma SameStop<T>(script: nat -> Outcome<T>, pos: nat, rival: Rival, batch: nat, j: nat, k: nat)
    requires j <= batch && GoesOn(script, pos, rival, j) && (j < batch ==> !GoodLook(script, pos, rival, j))
    requires k <= batch && GoesOn(script, pos, rival, k) && (k < batch ==> !GoodLook(script, pos, rival, k))
    ensures j == k
  {
  }

  // Undisturbed runs: one fetch after the other on a healthy connection.

  function Plain(sizes: seq<nat>): seq<Call> {
    seq(|sizes|, i requires 0 <= i < |sizes| => Fetch(sizes[i], Ready, None))
  }

  ghost predicate AllValid(sizes: seq<nat>) {
    forall i :: 0 <= i < |sizes| ==> ValidBatch(sizes[i])
  }

  /** The statement yields exactly `n` rows and then stops. */
  ghost predicate StopsAt<T>(script: nat -> Outcome<T>, n: nat) {
    AllRows(script, 0, n) && !script(n).Row?
  }

  /** One undisturbed fetch by a stream that has made `lo` steps of a statement with `n` rows. */
  ghost function Expected<T>(script: nat -> Outcome<T>, n: nat, lo: nat, b: nat): Reply<T>
    requires StopsAt(script, n)
  {
    if lo + b <= n then Rows(Taken(script, lo, lo + b))
    else if lo > n then Done
    else if script(n).Failed? then Failure(script(n).code)
    else if lo < n then Rows(Taken(script, lo, n))
    else Done
  }

  lemma FetchIs<T>(script: nat -> Outcome<T>, n: nat, lo: nat, b: nat)
    requires StopsAt(script, n) && ValidBatch(b) && lo <= n
    ensures Fetched(script, Stream(true, lo), b, Ready, None) ==
            (Expected(script, n, lo, b), if lo + b <= n then Stream(true, lo + b) else Stream(false, n + 1))
  {
    StretchIs(script, lo, b, Min(b, n - lo));
  }

  lemma {:induction false} PlainState<T>(script: nat -> Outcome<T>, n: nat, sizes: seq<nat>)
    requires StopsAt(script, n) && AllValid(sizes)
    ensures After(script, Plain(sizes)) ==
            if Total(sizes) <= n then Stream(true, Total(sizes)) else Stream(false, n + 1)
  {
    if sizes != [] {
      var before := sizes[..|sizes| - 1];
      PlainState(script, n, before);
      assert Plain(sizes)[..|sizes| - 1] == Plain(before);
      if Total(before) <= n { FetchIs(script, n, Total(before), sizes[|sizes| - 1]); }
    }
  }

  lemma LastPlain<T>(script: nat -> Outcome<T>, sizes: seq<nat>, b: nat)
    ensures Answer(script, Plain(sizes + [b])) == Fetched(script, After(script, Plain(sizes)), b, Ready, None).0
  {
    assert Plain(sizes + [b])[..|sizes|] == Plain(sizes);
  }

  /** What each call of an undisturbed run returns, in closed form. With `lo` rows asked for before it: the
      next full batch while rows are left for one; at the end of the rows, what is left or done; at an error,
      the error, and the rows already stepped in that same call are not returned. */
  lemma PlainAnswer<T>(script: nat -> Outcome<T>, n: nat, sizes: seq<nat>, b: nat)
    requires StopsAt(script, n) && AllValid(sizes) && ValidBatch(b)
    ensures Answer(script, Plain(sizes + [b])) == Expected(script, n, Total(sizes), b)
  {
    PlainState(script, n, sizes);
    LastPlain(script, sizes, b);
    if Total(sizes) <= n { FetchIs(script, n, Total(sizes), b); }
  }

  /** The largest total of whole batches that fits in `n`. */
  function WholeBatches(sizes: seq<nat>, n: nat): (m: nat)
    ensures m <= n && m <= Total(sizes)
  {
    if sizes == [] then 0
    else if Total(sizes) <= n then Total(sizes)
    else WholeBatches(sizes[..|sizes| - 1], n)
  }

  lemma EndedStep<T>(script: nat -> Outcome<T>, n: nat, lo: nat, b: nat)
    requires StopsAt(script, n) && script(n).End? && ValidBatch(b)
    ensures Taken(script, 0, Min(n, lo)) + Payload(Expected(script, n, lo, b)) == Taken(script, 0, Min(n, lo + b))
  {
    if lo < n {
      TakenJoins(script, 0, lo, Min(n, lo + b));
    }
  }

  lemma FailedStep<T>(script: nat -> Outcome<T>, n: nat, lo: nat, b: nat)
    requires StopsAt(script, n) && script(n).Failed? && ValidBatch(b)
    ensures lo + b > n ==> Payload(Expected(script, n, lo, b)) == []
    ensures lo + b <= n ==> Taken(script, 0, lo) + Payload(Expected(script, n, lo, b)) == Taken(script, 0, lo + b)
  {
    if lo + b <= n {
      TakenJoins(script, 0, lo, lo + b);
    }
  }

  lemma PlainSnoc<T>(script: nat -> Outcome<T>, n: nat, sizes: seq<nat>, b: nat)
    requires StopsAt(script, n) && AllValid(sizes) && ValidBatch(b)
    ensures Delivered(script, Plain(sizes + [b])) ==
            Delivered(script, Plain(sizes)) + Payload(Expected(script, n, Total(sizes), b))
  {
    PlainAnswer(script, n, sizes, b);
    assert Plain(sizes + [b])[..|sizes|] == Plain(sizes);
  }

  /** Conservation. A statement that ends is delivered whole, whatever the batch sizes, as soon as they add up
      to its length. A statement that fails loses exactly the rows behind the last whole batch. */
  lemma {:induction false} PlainDelivery<T>(script: nat -> Outcome<T>, n: nat, sizes: seq<nat>)
    requires StopsAt(script, n) && AllValid(sizes)
    ensures Delivered(script, Plain(sizes)) ==
            Taken(script, 0, if script(n).End? then Min(n, Total(sizes)) else WholeBatches(sizes, n))
  {
    if sizes != [] {
      var before := sizes[..|sizes| - 1];
      var b := sizes[|sizes| - 1];
      assert before + [b] == sizes;
      PlainDelivery(script, n, before);
      PlainSnoc(script, n, before, b);
      if script(n).End? {
        EndedStep(script, n, Total(before), b);
      } else {
        FailedStep(script, n, Total(before), b);
        if Total(sizes) <= n { WholeBatchesFit(before, n); }
      }
    }
  }

  lemma WholeBatchesFit(sizes: seq<nat>, n: nat)
    requires Total(sizes) <= n
    ensures WholeBatches(sizes, n) == Total(sizes)
  {
  }

  /** The property a caller would expect of a failing statement — every row stepped before the failure is
      delivered — holds exactly when the rows fill whole batches. */
  lemma NothingIsLostIff<T>(script: nat -> Outcome<T>, n: nat, sizes: seq<nat>)
    requires StopsAt(script, n) && AllValid(sizes) && script(n).Failed? && Total(sizes) > n
    ensures Delivered(script, Plain(sizes)) == Taken(script, 0, n) <==>
            exists i :: 0 <= i <= |sizes| && Total(sizes[..i]) == n
  {
    PlainDelivery(script, n, sizes);
    WholeBatchesReach(sizes, n);
    assert |Taken(script, 0, WholeBatches(sizes, n))| == WholeBatches(sizes, n);
  }

  /** The smallest run that loses a row: one row, then a failure, fetched with room for two. */
  lemma RowsCanBeLost()
    ensures var script: nat -> Outcome<bool> := (i: nat) => if i == 0 then Row(true) else Failed(1);
            && StopsAt(script, 1)
            && Delivered(script, Plain([2])) == [] != Taken(script, 0, 1)
  {
    var script: nat -> Outcome<bool> := (i: nat) => if i == 0 then Row(true) else Failed(1);
    assert Total([2]) == 2;
    PlainDelivery(script, 1, [2]);
  }

  lemma {:induction false} WholeBatchesReach(sizes: seq<nat>, n: nat)
    requires AllValid(sizes)
    ensures WholeBatches(sizes, n) == n <==> exists i :: 0 <= i <= |sizes| && Total(sizes[..i]) == n
  {
    assert sizes[..|sizes|] == sizes;
    if sizes == [] {
      assert Total(sizes[..0]) == 0;
    } else {
      var before := sizes[..|sizes| - 1];
      WholeBatchesReach(before, n);
      assert forall i :: 0 <= i <= |before| ==> before[..i] == sizes[..i];
      TotalGrows(sizes);
      if Total(sizes) < n {
        forall i | 0 <= i <= |before| ensures Total(sizes[..i]) < n { TotalMonotone(sizes, i); }
      }
    }
  }

  lemma TotalGrows(sizes: seq<nat>)
    requires sizes != []
    ensures Total(sizes[..|sizes| - 1]) <= Total(sizes)
  {
  }

  lemma {:induction false} TotalMonotone(sizes: seq<nat>, i: nat)
    requires i <= |sizes|
    ensures Total(sizes[..i]) <= Total(sizes)
  {
    if i < |sizes| {
      var before := sizes[..|sizes| - 1];
      TotalMonotone(before, i);
      assert before[..i] == sizes[..i];
    } else {
      assert sizes[..i] == sizes;
    }
  }

  // A prepared statement stepped many times: it stays open, and says whether the end was reached.

  datatype BatchReply<T> =
    | TooSmall
    | Stepped(rows: seq<T>, done: bool)
    | Stopped(code: int)
    | StatementFinalized
    | NoConnection(poisoned: bool)

  /** The reply to one batch and the statement it leaves behind. */
  ghost function MultiStepped<T>(script: nat -> Outcome<T>, s: Stream, batch: int, conn: Conn): (BatchReply<T>, Stream) {
    if batch < 1 then (TooSmall, s)
    else if !conn.Ready? then (NoConnection(conn.Poisoned?), s)
    else if !s.open then (StatementFinalized, s)
    else
      var k := Stretch(script, s.pos, batch);
      var rows := Taken(script, s.pos, s.pos + k);
      if k == batch then (Stepped(rows, false), s.(pos := s.pos + k))
      else if script(s.pos + k).End? then (Stepped(rows, true), s.(pos := s.pos + k + 1))
      else (Stopped(script(s.pos + k).code), s.(pos := s.pos + k + 1))
  }

  /** A batch under way: `rows` gathered since step `start`. */
  ghost predicate Stepping<T>(script: nat -> Outcome<T>, start: nat, batch: int, rows: seq<T>, done: bool, steps: nat) {
    var at := start + |rows|;
    && |rows| <= batch
    && AllRows(script, start, at) && rows == Taken(script, start, at)
    && steps == (if done then at + 1 else at)
    && (done ==> |rows| < batch && script(at).End?)
  }

  lemma BatchEnds<T>(script: nat -> Outcome<T>, start: nat, batch: int, rows: seq<T>)
    requires |rows| <= batch && batch >= 1 && AllRows(script, start, start + |rows|) && rows == Taken(script, start, start + |rows|)
    requires |rows| < batch ==> !script(start + |rows|).Row?
    ensures var at := start + |rows|;
            MultiStepped(script, Stream(true, start), batch, Ready) ==
            if |rows| == batch then (Stepped(rows, false), Stream(true, at))
            else if script(at).End? then (Stepped(rows, true), Stream(true, at + 1))
            else (Stopped(script(at).code), Stream(true, at + 1))
  {
    StretchIs(script, start, batch, |rows|);
  }

  datatype MultiCall = Batch(size: int, conn: Conn) | Finalize

  ghost function MultiAfter<T>(script: nat -> Outcome<T>, calls: seq<MultiCall>): Stream {
    if calls == [] then Stream(true, 0)
    else
      var s := MultiAfter(script, calls[..|calls| - 1]);
      match calls[|calls| - 1]
      case Finalize => s.(open := false)
      case Batch(size, conn) => MultiStepped(script, s, size, conn).1
  }

  /** A statement is finalized if and only if somebody asked for it. */
  lemma {:induction false} FinalizedIff<T>(script: nat -> Outcome<T>, calls: seq<MultiCall>)
    ensures MultiAfter(script, calls).open <==> Finalize !in calls
    decreases |calls|
  {
    if calls != [] {
      var before, call := calls[..|calls| - 1], calls[|calls| - 1];
      FinalizedIff(script, before);
      assert calls == before + [call];
    }
  }

  /** The faulty batches of any run, both ways; none of them changes the statement. */
  lemma MultiFaultIff<T>(script: nat -> Outcome<T>, calls: seq<MultiCall>, batch: int, conn: Conn)
    ensures var (reply, s) := MultiStepped(script, MultiAfter(script, calls), batch, conn);
            && (reply == TooSmall <==> batch < 1)
            && (reply == NoConnection(true) <==> batch >= 1 && conn == Poisoned)
            && (reply == NoConnection(false) <==> batch >= 1 && conn == Shut)
            && (reply == StatementFinalized <==> batch >= 1 && conn == Ready && Finalize in calls)
            && (!(batch >= 1 && conn == Ready && Finalize !in calls) ==> s == MultiAfter(script, calls))
  {
    FinalizedIff(script, calls);
  }

  function Batches(sizes: seq<nat>): seq<MultiCall> {
    seq(|sizes|, i requires 0 <= i < |sizes| => Batch(sizes[i], Ready))
  }

  lemma {:induction false} MultiAfterIs<T>(script: nat -> Outcome<T>, n: nat, sizes: seq<nat>)
    requires StopsAt(script, n) && AllValid(sizes) && Total(sizes) <= n
    ensures MultiAfter(script, Batches(sizes)) == Stream(true, Total(sizes))
  {
    if sizes != [] {
      var before := sizes[..|sizes| - 1];
      MultiAfterIs(script, n, before);
      assert Batches(sizes)[..|sizes| - 1] == Batches(before);
      StretchIs(script, Total(before), sizes[|sizes| - 1], sizes[|sizes| - 1]);
    }
  }

  lemma MultiStepIs<T>(script: nat -> Outcome<T>, n: nat, lo: nat, b: nat)
    requires StopsAt(script, n) && ValidBatch(b) && lo <= n
    ensures MultiStepped(script, Stream(true, lo), b, Ready).0 ==
            if lo + b > n && script(n).Failed? then Stopped(script(n).code)
            else Stepped(Taken(script, lo, Min(n, lo + b)), lo + b > n)
  {
    StretchIs(script, lo, b, Min(b, n - lo));
  }

  /** The statement and the stream agree: until the end is reached, stepping a statement in batches returns
      what fetching from a stream returns, error codes included, and the end flag is set by the very call
      that runs past the last row, which may still carry rows. */
  lemma MultiStepAgrees<T>(script: nat -> Outcome<T>, n: nat, sizes: seq<nat>, b: nat)
    requires StopsAt(script, n) && AllValid(sizes) && ValidBatch(b) && Total(sizes) <= n
    ensures var got := MultiStepped(script, MultiAfter(script, Batches(sizes)), b, Ready).0;
            var reply := Answer(script, Plain(sizes + [b]));
            && (got.Stopped? || got.Stepped?)
            && (got.Stopped? <==> reply.Failure?)
            && (got.Stopped? ==> reply == Failure(got.code))
            && (got.Stepped? ==> got.rows == Payload(reply) && (got.done <==> Total(sizes) + b > n))
  {
    MultiAfterIs(script, n, sizes);
    MultiStepIs(script, n, Total(sizes), b);
    PlainAnswer(script, n, sizes, b);
  }
}

module Streaming {
  import opened Common
  import opened StreamSpec

  /** The stream handle: the statement pointer is present or null, and steps are only ever made under it. */
  class XqliteStream<T> {
    const script: nat -> Outcome<T>
    var present: bool
    var steps: nat

    function State(): Stream
      reads this
    {
      Stream(present, steps)
    }

    constructor (script: nat -> Outcome<T>)
      ensures State() == Stream(true, 0) && this.script == script
    {
      this.script, present, steps := script, true, 0;
    }

    method Step() returns (outcome: Outcome<T>)
      modifies this`steps
      ensures outcome == script(old(steps)) && steps == old(steps) + 1
    {
      outcome := script(steps);
      steps := steps + 1;
    }

    method Close()
      modifies this`present
      ensures !present
    {
      present := false;
    }

    method Fetch(batch: int, conn: Conn, rival: Rival) returns (reply: Reply<T>)
      modifies this
      ensures (reply, State()) == Fetched(script, old(State()), batch, conn, rival)
    {
      if batch < 1 || batch >= TWO_63 { return InvalidBatchSize; }
      if !present { return Done; }
      if conn.Poisoned? {
        present := false;
        return LockError;
      }
      if conn.Shut? { return ConnectionClosed; }
      reply := FetchLoop(batch, rival);
    }

    /** The loop under the connection Mutex. Another thread may null the handle without that Mutex, so each
        round looks at it again. */
    method FetchLoop(batch: int, rival: Rival) returns (reply: Reply<T>)
      requires ValidBatch(batch) && present
      modifies this
      ensures (reply, State()) == Fetched(script, old(State()), batch, Ready, rival)
    {
      ghost var start := steps;
      ghost var limit := Limit(batch, rival);
      var rows: seq<T> := [];
      var exhausted := false;
      var error: Option<int> := None;
      while |rows| < batch && !exhausted
        invariant Looping(script, start, batch, limit, rows, exhausted, error, State())
        decreases batch - |rows|, !exhausted
      {
        if rival == Some(|rows|) { present := false; }
        if !present {
          exhausted := true;
        } else {
          var outcome := Step();
          match outcome {
            case Row(row) =>
              TakenSnoc(script, start, start + |rows|);
              rows := rows + [row];
            case End =>
              exhausted := true;
              present := false;
            case Failed(code) =>
              exhausted := true;
              present := false;
              error := Some(code);
          }
        }
      }
      LoopEnds(script, start, batch, rival, rows, exhausted, error, State());
      reply := ReplyOf(rows, exhausted, error);
    }
  }

  /** A prepared statement stepped in batches. */
  class XqliteStatement<T> {
    const script: nat -> Outcome<T>
    var present: bool
    var steps: nat

    function State(): Stream
      reads this
    {
      Stream(present, steps)
    }

    constructor (script: nat -> Outcome<T>)
      ensures State() == Stream(true, 0) && this.script == script
    {
      this.script, present, steps := script, true, 0;
    }

    method Finalize()
      modifies this`present
      ensures !present
    {
      present := false;
    }

    /** A batch size is an i64. The pointer is loaded once, under the connection Mutex, so a finalizer that
        nulls the handle meanwhile does not disturb the batch. */
    method MultiStep(batch: int, conn: Conn) returns (reply: BatchReply<T>)
      requires -TWO_63 <= batch < TWO_63
      modifies this`steps
      ensures (reply, State()) == MultiStepped(script, old(State()), batch, conn)
    {
      if batch < 1 { return TooSmall; }
      if conn.Poisoned? { return NoConnection(true); }
      if conn.Shut? { return NoConnection(false); }
      if !present { return StatementFinalized; }
      reply := StepLoop(batch);
    }

    method StepLoop(batch: int) returns (reply: BatchReply<T>)
      requires batch >= 1 && present
      modifies this`steps
      ensures (reply, State()) == MultiStepped(script, old(State()), batch, Ready)
    {
      ghost var start := steps;
      var rows: seq<T> := [];
      var done := false;
      var n := 0;
      while n < batch && !done
        invariant n == |rows| && Stepping(script, start, batch, rows, done, steps)
        decreases batch - n, !done
      {
        var outcome := script(steps);
        steps := steps + 1;
        match outcome {
          case Row(row) =>
            TakenSnoc(script, start, start + n);
            rows := rows + [row];
            n := n + 1;
          case End =>
            done := true;
          case Failed(code) =>
            BatchEnds(script, start, batch, rows);
            return Stopped(code);
        }
      }
      BatchEnds(script, start, batch, rows);
      return Stepped(rows, done);
    }
  }
}
