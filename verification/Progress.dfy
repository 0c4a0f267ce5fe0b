/**
 What the worker can always still do with `useBuffer` off: from any state it can come to have everything
 that was published in the table, every record acked and all of that purged.
 */
module Progress {
  import opened Wrappers
  import opened FetchedRecords
  import opened FetchedRecordBuffers
  import opened Stitching
  import opened StitchingProperties
  import opened AuditTable
  import opened Ingestion
  import opened TurnProperties
  import opened AckProgress
  import opened Pipeline
  import opened Safety
  import opened LoopSteps
  import opened DeployedWorker

  /** The worker is about to fetch, and holds nothing. */
  ghost predicate Ready(w: World, s: State) {
    && Traced(w, s) && s.phase == Fetching && s.inbox == map[] && HoldsNothing(s.memory.fetchedRecordBuffer)
    && s.floor <= s.cursor
  }

  /** Every message from here on that the worker gets to see can be read. */
  ghost predicate LegibleFrom(w: World, p: int, n: int) {
    forall k :: p <= k < n && Matches(w, k) ==> FromNatsMessage(w.log[k], 0).Success?
  }

  ghost predicate Unbuffering(w: World) {
    !w.config.stitching.useBuffer && w.config.insertBatchSize > 0
  }

  // ---------------------------------------------------------------------------------------------
  // What may happen at any time
  // ---------------------------------------------------------------------------------------------

  /**
   While the worker fetches, any message that is not acked may come again, also one that it has stored; an
   ack on its way may land; and the worker may crash whatever it is doing.
   */
  lemma AnythingMayRecur(w: World, s: State, q: nat)
    requires Traced(w, s)
    ensures
      && s.phase == Fetching && s.floor < q <= s.cursor && w.log[s.base + q - 1].subject in w.subjects ==>
        Enabled(w, s, Deliver(q))
    ensures q in s.inflight ==> Enabled(w, s, AckLands(q))
    ensures Enabled(w, s, Crash) && Apply(w, s, Crash).rows == s.rows && Apply(w, s, Crash).inflight == s.inflight
  {
  }

  // ---------------------------------------------------------------------------------------------
  // One turn over one message
  // ---------------------------------------------------------------------------------------------

  /** The next message that the filter lets through. */
  ghost predicate IsNext(w: World, s: State, q: nat) {
    && s.cursor < q && s.base + q <= s.published && Matches(w, Position(s.base, q))
    && forall k :: s.cursor < k < q ==> !Matches(w, Position(s.base, k))
  }

  lemma {:induction false} NextExists(w: World, s: State, q: nat) returns (next: nat)
    requires s.cursor < q && s.base + q <= s.published && Matches(w, Position(s.base, q))
    ensures IsNext(w, s, next) && next <= q
    decreases q
  {
    if k: nat :| s.cursor < k < q && Matches(w, Position(s.base, k)) {
      next := NextExists(w, s, k);
    } else {
      next := q;
    }
  }

  function Fetched(w: World, s: State, q: nat): State
    requires Matches(w, Position(s.base, q))
  {
    s.(inbox := map[q := w.log[Position(s.base, q)]], cursor := q)
  }

  lemma DeliversNext(w: World, s: State, q: nat)
    requires Ready(w, s) && IsNext(w, s, q)
    ensures Enabled(w, s, Deliver(q)) && Apply(w, s, Deliver(q)) == Fetched(w, s, q)
    ensures Traced(w, Fetched(w, s, q))
  {
    StepTraces(w, s, Deliver(q));
  }

  /** The one message fetched can be read, so the turn can be taken. */
  lemma TurnIsTaken(w: World, s: State, q: nat) returns (turn: Turn)
    requires Ready(w, s) && IsNext(w, s, q) && FromNatsMessage(w.log[Position(s.base, q)], 0).Success?
    ensures Succeeds(w.config, s.memory, Fetched(w, s, q).inbox, turn)
  {
    var inbox := Fetched(w, s, q).inbox;
    forall k | k in inbox ensures FromNatsMessage(inbox[k], k).Success? {
      SequenceIsALabel(inbox[k], 0, k);
    }
    ParsesWhenAllRead(inbox);
    turn := TakeTurn(w.config, s.memory, inbox).value;
  }

  /** It is acked, if it is a record. */
  lemma TurnAcksIt(w: World, s: State, q: nat, turn: Turn)
    requires Ready(w, s) && IsNext(w, s, q) && Unbuffering(w) && IsRecord(w, Position(s.base, q))
    requires Succeeds(w.config, s.memory, Fetched(w, s, q).inbox, turn)
    ensures turn.ack == Some(q)
  {
    var inbox := Fetched(w, s, q).inbox;
    var b := Validly(s.memory, inbox);
    var r := Local(w, s.base, q);
    SequenceIsALabel(w.log[Position(s.base, q)], Position(s.base, q) + 1, q);
    assert ReadsAs(inbox, r);
    OfferedExactly(s.memory, inbox, r);
    InRecords(b, r);
    UnbufferedAcksAll(w.config.stitching, b);
    TurnUnbuffered(w.config, s.memory, inbox, turn);
  }

  /** The steps of that turn, up to its end. */
  function TurnSteps(w: World, q: nat, turn: Turn): seq<Step>
    requires w.config.insertBatchSize > 0
  {
    [Deliver(q)] + ([FinishFetch] + Inserts(|Chunk(turn.kept, w.config.insertBatchSize)|) + [FinishTurn])
  }

  function AfterTurn(w: World, s: State, q: nat, turn: Turn): State {
    s.(memory := turn.memory, rows := InsertAll(s.rows, turn.kept), cursor := q,
       inflight := s.inflight + if turn.ack == Some(q) && q != 0 then {q} else {})
  }

  lemma TurnRuns(w: World, s: State, q: nat, turn: Turn)
    requires Ready(w, s) && IsNext(w, s, q) && Unbuffering(w)
    requires Succeeds(w.config, s.memory, Fetched(w, s, q).inbox, turn)
    ensures Run(w, s, TurnSteps(w, q, turn)) == Some(AfterTurn(w, s, q, turn))
  {
    var s1 := Fetched(w, s, q);
    DeliversNext(w, s, q);
    RunOne(w, s, Deliver(q));
    TurnInSteps(w, s1, turn);
    RunAppend(w, s, [Deliver(q)], [FinishFetch] + Inserts(|Chunk(turn.kept, w.config.insertBatchSize)|) + [FinishTurn]);
    TurnUnbuffered(w.config, s.memory, s1.inbox, turn);
  }

  lemma TurnIsReady(w: World, s: State, q: nat, turn: Turn)
    requires Ready(w, s) && IsNext(w, s, q) && Unbuffering(w)
    requires Succeeds(w.config, s.memory, Fetched(w, s, q).inbox, turn)
    ensures Ready(w, AfterTurn(w, s, q, turn))
  {
    TurnRuns(w, s, q, turn);
    RunTraces(w, s, TurnSteps(w, q, turn));
    TurnUnbuffered(w.config, s.memory, Fetched(w, s, q).inbox, turn);
  }

  /** Purging at the ack floor leaves exactly what comes after it. */
  lemma PurgedToFloor(w: World, s: State)
    requires Traced(w, s) && s.floor > 0
    ensures Enabled(w, s, Purge(s.floor)) && Apply(w, s, Purge(s.floor)).first == s.floor + 1
  {
  }

  /** Then the ack lands and the stream is purged up to it. */
  function Settling(w: World, q: nat): seq<Step> {
    [AckLands(q), Purge(q)]
  }

  lemma AckSettles(w: World, s: State, q: nat)
    requires Ready(w, s) && q == s.cursor && q > 0 && q in s.inflight
    ensures
      var s' := s.(floor := q, first := Greater(s.first, q + 1));
      Run(w, s, Settling(w, q)) == Some(s') && Ready(w, s')
  {
    var s1 := Apply(w, s, AckLands(q));
    StepTraces(w, s, AckLands(q));
    StepTraces(w, s1, Purge(q));
    RunOne(w, s, AckLands(q));
    RunOne(w, s1, Purge(q));
    RunAppend(w, s, [AckLands(q)], [Purge(q)]);
    assert [AckLands(q)] + [Purge(q)] == Settling(w, q);
  }

  // ---------------------------------------------------------------------------------------------
  // Turn after turn
  // ---------------------------------------------------------------------------------------------

  /** The state after the message q: delivered, stored, and acked and purged if it is a record. */
  ghost predicate Passed(w: World, s: State, q: nat, s': State) {
    && Ready(w, s') && s'.base == s.base && s'.published == s.published && s'.cursor == q
    && s'.floor == (if IsRecord(w, Position(s.base, q)) then q else s.floor)
    && s'.first == (if IsRecord(w, Position(s.base, q)) then Greater(s.first, q + 1) else s.first)
  }

  lemma PassesNext(w: World, s: State, q: nat) returns (steps: seq<Step>, s': State)
    requires Ready(w, s) && IsNext(w, s, q) && Unbuffering(w)
    requires FromNatsMessage(w.log[Position(s.base, q)], 0).Success?
    ensures Run(w, s, steps) == Some(s') && Passed(w, s, q, s')
  {
    var turn := TurnIsTaken(w, s, q);
    TurnRuns(w, s, q, turn);
    TurnIsReady(w, s, q, turn);
    steps, s' := TurnSteps(w, q, turn), AfterTurn(w, s, q, turn);
    if IsRecord(w, Position(s.base, q)) {
      TurnAcksIt(w, s, q, turn);
      AckSettles(w, s', q);
      RunAppend(w, s, steps, Settling(w, q));
      steps, s' := steps + Settling(w, q), s'.(floor := q, first := Greater(s'.first, q + 1));
    }
  }

  /** All delivered, and every record delivered since acked and purged. */
  ghost predicate Finished(w: World, s: State, s': State) {
    && Ready(w, s') && s'.base == s.base && s'.published == s.published
    && (forall q :: s'.cursor < q && s.base + q <= s.published ==> !Matches(w, Position(s.base, q)))
    && (forall q :: s.cursor < q && s.base + q <= s.published && IsRecord(w, Position(s.base, q)) ==>
          q <= s'.floor && q < s'.first)
    && s.floor <= s'.floor && s.first <= s'.first
  }

  lemma {:induction false} Finishes(w: World, s: State) returns (steps: seq<Step>, s': State)
    requires Ready(w, s) && Unbuffering(w) && LegibleFrom(w, s.base + s.cursor, s.published)
    ensures Run(w, s, steps) == Some(s') && Finished(w, s, s')
    decreases s.published - s.base - s.cursor
  {
    if q: nat :| s.cursor < q && s.base + q <= s.published && Matches(w, Position(s.base, q)) {
      var next := NextExists(w, s, q);
      var first, mid := PassesNext(w, s, next);
      var rest;
      rest, s' := Finishes(w, mid);
      RunAppend(w, s, first, rest);
      steps := first + rest;
      FinishedAfter(w, s, next, mid, s');
    } else {
      steps, s' := [], s;
    }
  }

  lemma FinishedAfter(w: World, s: State, q: nat, mid: State, s': State)
    requires IsNext(w, s, q) && Passed(w, s, q, mid) && Finished(w, mid, s') && s.floor <= s.cursor
    ensures Finished(w, s, s')
  {
    forall k | s.cursor < k && s.base + k <= s.published && IsRecord(w, Position(s.base, k))
      ensures k <= s'.floor && k < s'.first
    {
      assert Matches(w, Position(s.base, k));
      if k < q {
        assert false;
      }
    }
  }

  // ---------------------------------------------------------------------------------------------
  // The ack of a turn
  // ---------------------------------------------------------------------------------------------

  lemma SentAckLands(w: World, s: State, q: nat)
    requires s.phase.Persisting? && s.phase.batches == [] && s.phase.ack == Some(q) && q != 0 && q in s.inbox
    ensures
      var s' := Run(w, s, [FinishTurn, AckLands(q)]);
      s'.Some? && s'.value.floor == Greater(s.floor, q)
  {
    var s1 := Apply(w, s, FinishTurn);
    FinishTurnSends(w, s, q);
    RunOne(w, s, FinishTurn);
    RunOne(w, s1, AckLands(q));
    RunAppend(w, s, [FinishTurn], [AckLands(q)]);
    assert [FinishTurn] + [AckLands(q)] == [FinishTurn, AckLands(q)];
  }

  /** In any run without buffering, the ack of the turn at hand can be sent and land. */
  lemma AckCanLand(w: World, steps: seq<Step>, s: State, q: nat) returns (more: seq<Step>, s': State)
    requires Reaches(w, steps, s) && Unbuffering(w) && s.phase.Persisting? && s.phase.ack == Some(q)
    ensures Run(w, s, more) == Some(s') && s'.floor == Greater(s.floor, q)
  {
    var n := |s.phase.batches|;
    RunTraces(w, Initial(), steps);
    RunStaysUnbuffered(w, Initial(), steps);
    InsertsInSteps(w, s, n);
    var s1 := AfterInserts(s, n);
    assert s.phase.batches[n..] == [];
    SentAckLands(w, s1, q);
    RunAppend(w, s, Inserts(n), [FinishTurn, AckLands(q)]);
    more := Inserts(n) + [FinishTurn, AckLands(q)];
    s' := Run(w, s, more).value;
  }

  // ---------------------------------------------------------------------------------------------
  // From any state
  // ---------------------------------------------------------------------------------------------

  /** Everything published is durable, and what the worker can read of the stream is acked and purged. */
  ghost predicate AllStored(w: World, s: State) {
    && SafeUpTo(w, s.rows, s.published)
    && forall q: nat :: q >= 1 && s.base + q <= s.published && IsRecord(w, Position(s.base, q)) ==> q <= s.floor && q < s.first
  }

  /** Starting afresh, and purging what was acked before. */
  function Restarting(s: State): seq<Step> {
    if s.floor == 0 then [Crash] else [Crash, Purge(s.floor)]
  }

  lemma RestartIsReady(w: World, s: State)
    requires Traced(w, s)
    ensures
      var s' := Booted(s).(first := s.floor + 1);
      Run(w, s, Restarting(s)) == Some(s') && Ready(w, s')
  {
    var s1 := Booted(s);
    StepTraces(w, s, Crash);
    RunOne(w, s, Crash);
    if s.floor > 0 {
      StepTraces(w, s1, Purge(s.floor));
      RunOne(w, s1, Purge(s.floor));
      RunAppend(w, s, [Crash], [Purge(s.floor)]);
      assert [Crash] + [Purge(s.floor)] == Restarting(s);
    }
  }

  lemma FinishedIsStored(w: World, s: State, s': State)
    requires s.cursor == s.floor && s.first == s.floor + 1 && Finished(w, s, s') && Inv(w, s')
    ensures AllStored(w, s')
  {
    NothingOutstanding(w, s');
    forall p | 0 <= p < s'.published && Wanted(w, p) ensures Durable(w, s'.rows, p) {
      if p >= s'.base + Processed(s') {
        NoneBeyond(w, s, s', p);
      }
    }
  }

  lemma NoneBeyond(w: World, s: State, s': State, p: int)
    requires Finished(w, s, s') && s'.base + s'.cursor <= p < s'.published
    ensures !Matches(w, p)
  {
    assert Position(s.base, p - s.base + 1) == p;
  }

  /**
   From any state of any run, with what the worker has not acked legible, the run can go on to a state
   where everything published is in the table, every record is acked and the stream is purged of it.
   */
  lemma CanStoreAll(w: World, steps: seq<Step>, s: State) returns (more: seq<Step>, s': State)
    requires KeysTellApart(w) && Reaches(w, steps, s) && Unbuffering(w)
    requires LegibleFrom(w, s.base + s.floor, s.published)
    ensures Reaches(w, steps + more, s') && s'.published == s.published && AllStored(w, s')
  {
    ReachableInv(w, steps, s);
    RestartIsReady(w, s);
    var s1 := Booted(s).(first := s.floor + 1);
    var rest;
    rest, s' := Finishes(w, s1);
    RunAppend(w, s, Restarting(s), rest);
    more := Restarting(s) + rest;
    RunAppend(w, Initial(), steps, more);
    ReachableInv(w, steps + more, s');
    FinishedIsStored(w, s1, s');
  }

  function Publishes(n: nat): seq<Step> {
    if n == 0 then [] else [Publish] + Publishes(n - 1)
  }

  lemma {:induction false} PublishesAll(w: World, s: State, n: nat)
    requires s.published + n <= |w.log|
    ensures Run(w, s, Publishes(n)) == Some(s.(published := s.published + n))
    decreases n
  {
    if n > 0 {
      PublishesAll(w, Apply(w, s, Publish), n - 1);
      assert Publishes(n)[1..] == Publishes(n - 1);
    }
  }

  /** Every log that can be read has a run that publishes all of it and stores all of it. */
  lemma EveryLogCanBeStored(w: World) returns (steps: seq<Step>, s: State)
    requires KeysTellApart(w) && Unbuffering(w) && LegibleFrom(w, 0, |w.log|)
    ensures Reaches(w, steps, s) && s.published == |w.log| && AllStored(w, s)
  {
    PublishesAll(w, Initial(), |w.log|);
    var more;
    more, s := CanStoreAll(w, Publishes(|w.log|), Initial().(published := |w.log|));
    steps := Publishes(|w.log|) + more;
  }
}
