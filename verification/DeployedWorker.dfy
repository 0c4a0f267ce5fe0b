/** The deployed worker leaves `useBuffer` off: nothing is carried from one fetch to the next. */
module DeployedWorker {
  import opened FetchedRecords
  import opened FetchedRecordBuffers
  import opened Stitching
  import opened StitchingProperties
  import opened AuditTable
  import opened Ingestion
  import opened TurnProperties
  import opened Pipeline
  import opened LoopSteps
  import opened Safety

  ghost predicate HoldsNothing(b: FetchedRecordBuffer) {
    forall r :: !b.Has(r)
  }

  /** Nothing is carried to the next fetch, and the ack names a message of this one. */
  ghost predicate Unbuffered(s: State) {
    && HoldsNothing(s.memory.fetchedRecordBuffer)
    && (s.phase.Persisting? && s.phase.ack.Some? ==> s.phase.ack.value in s.inbox)
  }

  lemma TurnUnbuffered(c: Config, m: Memory, inbox: Inbox, turn: Turn)
    requires Succeeds(c, m, inbox, turn) && HoldsNothing(m.fetchedRecordBuffer) && !c.stitching.useBuffer
    ensures HoldsNothing(turn.memory.fetchedRecordBuffer)
    ensures turn.ack.Some? ==> turn.ack.value in inbox
  {
    var b := Validly(m, inbox);
    forall r ensures !turn.memory.fetchedRecordBuffer.Has(r) {
      TurnHolds(c, m, inbox, turn, r);
    }
    if turn.ack.Some? {
      AckOrigin(c.stitching, b);
      var r :| b.Has(r) && r.streamSequence == turn.ack.value;
      OfferedExactly(m, inbox, r);
    }
  }

  lemma StepStaysUnbuffered(w: World, s: State, step: Step)
    requires Traced(w, s) && Unbuffered(s) && !w.config.stitching.useBuffer && Enabled(w, s, step)
    ensures Unbuffered(Apply(w, s, step))
  {
    if step == FinishFetch {
      TurnUnbuffered(w.config, s.memory, s.inbox, TakeTurn(w.config, s.memory, s.inbox).value);
    }
  }

  lemma {:induction false} RunStaysUnbuffered(w: World, s: State, steps: seq<Step>)
    requires Traced(w, s) && Unbuffered(s) && !w.config.stitching.useBuffer && Run(w, s, steps).Some?
    ensures Unbuffered(Run(w, s, steps).value)
    decreases |steps|
  {
    if steps != [] {
      StepTraces(w, s, steps[0]);
      StepStaysUnbuffered(w, s, steps[0]);
      RunStaysUnbuffered(w, Apply(w, s, steps[0]), steps[1..]);
    }
  }

  /**
   In every reachable state of the deployed worker the buffer is empty and a computed ack is a
   message of the current fetch, so it is really sent; and between turns every message up to the
   last stream sequence is already in the table or was dropped as empty.
   */
  lemma DeployedMode(w: World, steps: seq<Step>, s: State)
    requires KeysTellApart(w) && Reaches(w, steps, s)
    requires w.config == WorkerConfig(w.config.ignoreFields)
    ensures HoldsNothing(s.memory.fetchedRecordBuffer)
    ensures s.phase.Persisting? && s.phase.ack.Some? ==> s.phase.ack.value in s.inbox
    ensures s.phase == Fetching ==> SafeUpTo(w, s.rows, s.base + Processed(s))
  {
    ReachableInv(w, steps, s);
    RunStaysUnbuffered(w, Initial(), steps);
    if s.phase == Fetching {
      NothingOutstanding(w, s);
    }
  }

  lemma NothingOutstanding(w: World, s: State)
    requires Inv(w, s) && s.phase == Fetching && HoldsNothing(s.memory.fetchedRecordBuffer)
    ensures SafeUpTo(w, s.rows, s.base + Processed(s))
  {
    forall p | 0 <= p < s.base + Processed(s) && Wanted(w, p) ensures Durable(w, s.rows, p) {
      if p >= s.base {
        assert Settled(w, s, p - s.base + 1);
      }
    }
  }

  // ---------------------------------------------------------------------------------------------
  // Which context a row carries
  // ---------------------------------------------------------------------------------------------

  /** A context message of this fetch, for the transaction of a record of it. */
  ghost predicate ContextFetched(inbox: Inbox, r: FetchedRecord, c: FetchedRecord) {
    ReadsAs(inbox, c) && c.IsContextMessage() && SameTransaction(r, c)
  }

  ghost predicate FirstContextFetched(inbox: Inbox, r: FetchedRecord, c: FetchedRecord) {
    ContextFetched(inbox, r, c) && forall k :: ContextFetched(inbox, r, k) ==> c.streamSequence <= k.streamSequence
  }

  /** The content of a record of this fetch, with the first context that its transaction has in it, if any. */
  ghost predicate MadeWithin(inbox: Inbox, row: ChangeAttributes, r: FetchedRecord) {
    && ReadsAs(inbox, r) && r.IsSavable() && SameButContext(row, r.changeAttributes)
    && if exists c :: ContextFetched(inbox, r, c)
       then exists c :: FirstContextFetched(inbox, r, c) && row.context == c.Context()
       else row.context == EMPTY_CONTEXT
  }

  ghost predicate RowOf(inbox: Inbox, row: ChangeAttributes) {
    exists r :: MadeWithin(inbox, row, r)
  }

  /** What is still to be inserted is of the current fetch, with contexts of that fetch. */
  ghost predicate PendingCarries(s: State) {
    s.phase.Persisting? ==> forall x :: x in Flatten(s.phase.batches) ==> RowOf(s.inbox, x.changeAttributes)
  }

  ghost predicate Plain(s: State) {
    s.memory.fetchedRecordBuffer.Valid() && HoldsNothing(s.memory.fetchedRecordBuffer) && PendingCarries(s)
  }

  lemma NothingIsInOrder(b: FetchedRecordBuffer)
    requires b.Valid() && HoldsNothing(b)
    ensures InArrivalOrder(b)
  {
    forall subject, id ensures Ascending(b.ByTransactionId(subject, id)) {
      var list := b.ByTransactionId(subject, id);
      if list != [] {
        assert b.Has(list[0]);
      }
    }
  }

  lemma OfferedIsFetch(m: Memory, inbox: Inbox, r: FetchedRecord)
    requires Parsed(inbox).Success? && HoldsNothing(m.fetchedRecordBuffer)
    ensures Offered(m, inbox).Has(r) <==> ReadsAs(inbox, r)
  {
    OfferedExactly(m, inbox, r);
  }

  /** The first context in the list of a transaction is the first of the fetch. */
  lemma ListedContextIsFirst(m: Memory, inbox: Inbox, b: FetchedRecordBuffer, r: FetchedRecord)
    requires Parsed(inbox).Success? && m.fetchedRecordBuffer.Valid() && HoldsNothing(m.fetchedRecordBuffer)
    requires b == Offered(m, inbox) && b.Valid() && InArrivalOrder(b)
    ensures
      match FirstContext(b.ByTransactionId(r.subject, r.TransactionId()))
      case None => forall c :: !ContextFetched(inbox, r, c)
      case Some(c) => FirstContextFetched(inbox, r, c)
  {
    var list := b.ByTransactionId(r.subject, r.TransactionId());
    FirstContextFound(list);
    forall k | ContextFetched(inbox, r, k) ensures FirstContext(list).Some? && FirstContext(list).value.streamSequence <= k.streamSequence {
      OfferedIsFetch(m, inbox, k);
      LeastInList(b, r, k);
    }
    if FirstContext(list).Some? {
      ListedWith(b, r, FirstContext(list).value);
      OfferedIsFetch(m, inbox, FirstContext(list).value);
    }
  }

  lemma KeptCarries(c: Config, m: Memory, inbox: Inbox, turn: Turn, x: FetchedRecord)
    requires Succeeds(c, m, inbox, turn) && HoldsNothing(m.fetchedRecordBuffer) && x in turn.kept
    ensures RowOf(inbox, x.changeAttributes)
  {
    var b := Validly(m, inbox);
    var r := KeptOrigin(c, m, inbox, turn, x);
    NothingIsInOrder(m.fetchedRecordBuffer);
    OfferedInOrder(m, inbox);
    OfferedIsFetch(m, inbox, r);
    ReleaseIsSavable(VisitFor(c.stitching, b, r), r);
    AttributedKeepsChange(b, r, c.ignoreFields);
    ListedContextIsFirst(m, inbox, b, r);
    assert MadeWithin(inbox, x.changeAttributes, r);
  }

  lemma FinishFetchStaysPlain(w: World, s: State)
    requires Plain(s) && !w.config.stitching.useBuffer && Enabled(w, s, FinishFetch)
    ensures Plain(Apply(w, s, FinishFetch))
  {
    var turn := TakeTurn(w.config, s.memory, s.inbox).value;
    TurnUnbuffered(w.config, s.memory, s.inbox, turn);
    TurnHoldsValid(w.config, s.memory, s.inbox, turn);
    ChunksCover(turn.kept, w.config.insertBatchSize);
    forall x | x in turn.kept ensures RowOf(s.inbox, x.changeAttributes) {
      KeptCarries(w.config, s.memory, s.inbox, turn, x);
    }
  }

  lemma TurnHoldsValid(c: Config, m: Memory, inbox: Inbox, turn: Turn)
    requires Succeeds(c, m, inbox, turn)
    ensures turn.memory.fetchedRecordBuffer.Valid()
  {
    HeldIsValid(Visits(c.stitching, Validly(m, inbox)));
  }

  lemma StepStaysPlain(w: World, s: State, step: Step)
    requires Plain(s) && !w.config.stitching.useBuffer && Enabled(w, s, step)
    ensures Plain(Apply(w, s, step))
  {
    if step == FinishFetch {
      FinishFetchStaysPlain(w, s);
    } else if step == InsertBatch {
      FlattenHead(s.phase.batches);
    }
  }

  lemma {:induction false} RunStaysPlain(w: World, s: State, steps: seq<Step>)
    requires Plain(s) && !w.config.stitching.useBuffer && Run(w, s, steps).Some?
    ensures Plain(Run(w, s, steps).value)
    decreases |steps|
  {
    if steps != [] {
      StepStaysPlain(w, s, steps[0]);
      RunStaysPlain(w, Apply(w, s, steps[0]), steps[1..]);
    }
  }

  /** A row that a step adds carries the first context of its transaction in the fetch being stored. */
  lemma NewRowCarries(w: World, s: State, step: Step, row: ChangeAttributes)
    requires Plain(s) && Enabled(w, s, step) && row in Apply(w, s, step).rows && row !in s.rows
    ensures step == InsertBatch && !HasKey(s.rows, KeyOf(row)) && RowOf(s.inbox, row)
  {
    InsertAllRows(s.rows, s.phase.batches[0], row);
    FlattenHead(s.phase.batches);
  }

  /** The step, taken in this state, put the row there. */
  ghost predicate Adds(w: World, at: State, step: Step, row: ChangeAttributes) {
    Enabled(w, at, step) && row !in at.rows && row in Apply(w, at, step).rows
  }

  /**
   With `useBuffer` off, in every run with crashes and whatever the keys, each row was added by an
   insert of the turn over some fetch, and carries the first context of its transaction in that fetch.
   */
  lemma {:induction false} RowsCarryTheirFetch(w: World, steps: seq<Step>, s: State, row: ChangeAttributes)
    returns (j: nat, at: State)
    requires !w.config.stitching.useBuffer && Reaches(w, steps, s) && row in s.rows
    ensures j < |steps| && steps[j] == InsertBatch && Reaches(w, steps[..j], at)
    ensures Adds(w, at, InsertBatch, row) && !HasKey(at.rows, KeyOf(row)) && RowOf(at.inbox, row)
    decreases |steps|
  {
    var front, last := steps[..|steps| - 1], steps[|steps| - 1];
    var before := RunButLast(w, steps, s);
    if row in before.rows {
      j, at := RowsCarryTheirFetch(w, front, before, row);
      assert steps[..j] == front[..j];
    } else {
      j, at := |steps| - 1, before;
      RunStaysPlain(w, Initial(), front);
      NewRowCarries(w, before, last, row);
    }
  }

  lemma RunButLast(w: World, steps: seq<Step>, s: State) returns (before: State)
    requires Reaches(w, steps, s) && steps != []
    ensures Reaches(w, steps[..|steps| - 1], before)
    ensures Enabled(w, before, steps[|steps| - 1]) && Apply(w, before, steps[|steps| - 1]) == s
  {
    var front, last := steps[..|steps| - 1], steps[|steps| - 1];
    assert steps == front + [last];
    RunPrefix(w, Initial(), front, [last]);
    before := Run(w, Initial(), front).value;
    RunAppend(w, Initial(), front, [last]);
    assert [last][1..] == [];
  }
}
