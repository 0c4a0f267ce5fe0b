/** What holds in every reachable state, with no hypothesis on batching, order or `useBuffer`. */
module Safety {
  import opened Wrappers
  import opened FetchedRecords
  import opened FetchedRecordBuffers
  import opened CaptureFilter
  import opened Stitching
  import opened StitchingProperties
  import opened AuditTable
  import opened Ingestion
  import opened TurnProperties
  import opened Pipeline

  // ---------------------------------------------------------------------------------------------
  // The invariant
  // ---------------------------------------------------------------------------------------------

  /** The sequences up to here have been through the stitcher, or were acked before this incarnation. */
  function Processed(s: State): nat {
    s.memory.lastStreamSequence.GetOr(s.resumed)
  }

  ghost predicate Shape(w: World, s: State) {
    && s.published <= |w.log|
    && s.base + s.cursor <= s.published && s.base + s.floor <= s.published
    && 1 <= s.first <= s.floor + 1
    && s.resumed <= s.floor && Processed(s) <= s.cursor
    && s.memory.lastStreamSequence != Some(0)
    && (forall a :: a in s.inflight ==> s.base + a <= s.published)
  }

  /** A record of the current stream exactly as the log has it. */
  ghost predicate Authentic(w: World, base: nat, r: FetchedRecord) {
    var p := Position(base, r.streamSequence);
    r.streamSequence >= 1 && IsRecord(w, p) && RecordAt(w, p) == r.(streamSequence := p + 1)
  }

  function Local(w: World, base: nat, q: nat): FetchedRecord
    requires IsRecord(w, Position(base, q))
  {
    RecordAt(w, Position(base, q)).(streamSequence := q)
  }

  ghost predicate BufferOk(w: World, s: State) {
    && s.memory.fetchedRecordBuffer.Valid()
    && InArrivalOrder(s.memory.fetchedRecordBuffer)
    && forall r :: s.memory.fetchedRecordBuffer.Has(r) ==> Authentic(w, s.base, r) && r.streamSequence <= Processed(s)
  }

  ghost predicate InboxOk(w: World, s: State) {
    && (forall q :: q in s.inbox ==>
          && 1 <= q <= s.cursor
          && Matches(w, Position(s.base, q))
          && s.inbox[q] == w.log[Position(s.base, q)]
          && (s.phase == Fetching ==> q > Processed(s)))
    && (s.cursor == Processed(s) || (s.phase == Fetching && s.cursor in s.inbox))
  }

  /** Nothing the filter lets through was skipped, except what was acked before it could be delivered. */
  ghost predicate InboxComplete(w: World, s: State) {
    s.phase == Fetching ==>
      forall q :: Processed(s) < q <= s.cursor && Matches(w, Position(s.base, q)) ==> q in s.inbox || q <= s.floor
  }

  ghost predicate RowsOk(w: World, s: State) {
    && UniqueKeys(s.rows)
    && (forall row :: row in s.rows ==> FromLog(w, s.published, row))
    && (s.phase.Persisting? ==>
          forall x :: x in Flatten(s.phase.batches) ==> FromLog(w, s.published, x.changeAttributes))
  }

  ghost predicate Pending(w: World, phase: Phase, p: int) {
    && IsSavableAt(w, p) && phase.Persisting?
    && exists x :: x in Flatten(phase.batches) && SameButContext(x.changeAttributes, RecordAt(w, p).changeAttributes)
  }

  ghost predicate IsHeld(w: World, s: State, q: nat) {
    IsRecord(w, Position(s.base, q)) && s.memory.fetchedRecordBuffer.Has(Local(w, s.base, q))
  }

  ghost predicate Settled(w: World, s: State, q: nat) {
    var p := Position(s.base, q);
    Durable(w, s.rows, p) || Pending(w, s.phase, p) || IsHeld(w, s, q)
  }

  ghost predicate Covered(w: World, s: State) {
    forall q :: 1 <= q <= Processed(s) && Wanted(w, Position(s.base, q)) ==> Settled(w, s, q)
  }

  ghost predicate SafeUpTo(w: World, rows: seq<ChangeAttributes>, n: nat) {
    forall p :: 0 <= p < n && Wanted(w, p) ==> Durable(w, rows, p)
  }

  ghost predicate AcksSafe(w: World, s: State) {
    && SafeUpTo(w, s.rows, s.base + s.floor)
    && forall a :: a in s.inflight ==> SafeUpTo(w, s.rows, s.base + a)
  }

  /** The ack about to be sent covers nothing that is only in memory. */
  ghost predicate PendingAckBehind(s: State) {
    s.phase.Persisting? && s.phase.ack.Some? ==>
      && s.phase.ack.value <= Processed(s)
      && forall r :: s.memory.fetchedRecordBuffer.Has(r) ==> s.phase.ack.value < r.streamSequence
  }

  /** Where everything comes from: it needs nothing of the unique key. */
  ghost predicate Traced(w: World, s: State) {
    && Shape(w, s) && BufferOk(w, s) && InboxOk(w, s) && InboxComplete(w, s) && RowsOk(w, s) && PendingAckBehind(s)
  }

  ghost predicate Inv(w: World, s: State) {
    Traced(w, s) && Covered(w, s) && AcksSafe(w, s)
  }

  // ---------------------------------------------------------------------------------------------
  // Rows only accumulate
  // ---------------------------------------------------------------------------------------------

  lemma FromLogGrows(w: World, n: nat, m: nat, row: ChangeAttributes)
    requires n <= m && FromLog(w, n, row)
    ensures FromLog(w, m, row)
  {
    var p :| MadeFrom(w, n, row, p);
    assert MadeFrom(w, m, row, p);
  }

  lemma DurableGrows(w: World, rows: seq<ChangeAttributes>, rows': seq<ChangeAttributes>, p: int)
    requires rows <= rows' && Durable(w, rows, p)
    ensures Durable(w, rows', p)
  {
  }

  lemma SafeGrows(w: World, rows: seq<ChangeAttributes>, rows': seq<ChangeAttributes>, n: nat)
    requires rows <= rows' && SafeUpTo(w, rows, n)
    ensures SafeUpTo(w, rows', n)
  {
  }

  lemma SameKeySameChange(w: World, n: nat, a: ChangeAttributes, b: ChangeAttributes)
    requires KeysTellApart(w) && FromLog(w, n, a) && FromLog(w, n, b) && KeyOf(a) == KeyOf(b)
    ensures SameButContext(a, b)
  {
  }

  // ---------------------------------------------------------------------------------------------
  // Finishing a fetch
  // ---------------------------------------------------------------------------------------------

  lemma ReadHere(w: World, s: State, r: FetchedRecord)
    requires InboxOk(w, s)
    ensures ReadsAs(s.inbox, r) ==> Authentic(w, s.base, r)
  {
  }

  /** Everything the stitcher is offered is a record of the log, no later than the last delivery. */
  lemma OfferedAuthentic(w: World, s: State, r: FetchedRecord)
    requires BufferOk(w, s) && InboxOk(w, s) && Processed(s) <= s.cursor
    requires Parsed(s.inbox).Success? && Offered(s.memory, s.inbox).Has(r)
    ensures Authentic(w, s.base, r) && r.streamSequence <= s.cursor
  {
    OfferedExactly(s.memory, s.inbox, r);
    ReadHere(w, s, r);
  }

  lemma AuthenticKind(w: World, base: nat, r: FetchedRecord)
    requires Authentic(w, base, r)
    ensures
      var p := Position(base, r.streamSequence);
      && IsSavableAt(w, p) == r.IsSavable()
      && RecordAt(w, p).IsContextMessage() == r.IsContextMessage()
      && RecordAt(w, p).changeAttributes == r.changeAttributes
      && RecordAt(w, p).subject == r.subject
      && (r.IsSavable() ==> r.Context() == EMPTY_CONTEXT)
  {
  }

  lemma ContextFromLog(w: World, s: State, r: FetchedRecord, c: FetchedRecord)
    requires BufferOk(w, s) && InboxOk(w, s) && Shape(w, s) && Parsed(s.inbox).Success?
    requires Authentic(w, s.base, r)
    requires c in Validly(s.memory, s.inbox).ByTransactionId(r.subject, r.TransactionId()) && c.IsContextMessage()
    ensures
      var q := Position(s.base, c.streamSequence);
      && 0 <= q < s.base + s.cursor && ContextFor(w, Position(s.base, r.streamSequence), q)
      && RecordAt(w, q).Context() == c.Context()
  {
    ListedWith(Validly(s.memory, s.inbox), r, c);
    OfferedAuthentic(w, s, c);
    AuthenticKind(w, s.base, c);
    AuthenticKind(w, s.base, r);
  }

  lemma MadeHere(w: World, s: State, r: FetchedRecord, x: FetchedRecord, n: nat)
    requires BufferOk(w, s) && InboxOk(w, s) && Shape(w, s) && Parsed(s.inbox).Success?
    requires Offered(s.memory, s.inbox).Has(r) && r.IsSavable()
    requires x == AttributedIn(Validly(s.memory, s.inbox), r) && !IsEmpty(x.changeAttributes, w.config.ignoreFields)
    requires s.base + s.cursor <= n
    ensures FromLog(w, n, x.changeAttributes)
  {
    var b := Validly(s.memory, s.inbox);
    OfferedAuthentic(w, s, r);
    AuthenticKind(w, s.base, r);
    AttributedKeepsChange(b, r, w.config.ignoreFields);
    var list := b.ByTransactionId(r.subject, r.TransactionId());
    FirstContextFound(list);
    if FirstContext(list).Some? {
      ContextFromLog(w, s, r, FirstContext(list).value);
    }
    assert MadeFrom(w, n, x.changeAttributes, Position(s.base, r.streamSequence));
  }

  /** A record to be persisted comes from the log, with no context or one of its own transaction. */
  lemma KeptFromLog(w: World, s: State, turn: Turn, x: FetchedRecord, n: nat)
    requires BufferOk(w, s) && InboxOk(w, s) && Shape(w, s)
    requires Succeeds(w.config, s.memory, s.inbox, turn) && x in turn.kept
    requires s.base + s.cursor <= n
    ensures FromLog(w, n, x.changeAttributes)
  {
    var b := Validly(s.memory, s.inbox);
    var r := KeptOrigin(w.config, s.memory, s.inbox, turn, x);
    KeptExactly(w.config, s.memory, s.inbox, turn, x);
    ReleaseIsSavable(VisitFor(w.config.stitching, b, r), r);
    MadeHere(w, s, r, x, n);
  }

  lemma ReleaseIsSavable(v: Visit, r: FetchedRecord)
    requires FateOf(v, r) == Release
    ensures r.IsSavable()
  {
  }

  lemma FetchAdvances(w: World, s: State, turn: Turn)
    requires Shape(w, s) && InboxOk(w, s) && s.phase == Fetching && TakeTurn(w.config, s.memory, s.inbox) == Success(turn)
    ensures turn.memory.lastStreamSequence.GetOr(s.resumed) == s.cursor
    ensures turn.memory.lastStreamSequence != Some(0)
  {
  }

  lemma InboxRead(w: World, s: State, q: nat)
    requires InboxOk(w, s) && Parsed(s.inbox).Success? && q in s.inbox && Wanted(w, Position(s.base, q))
    ensures IsSavableAt(w, Position(s.base, q)) && ReadsAs(s.inbox, Local(w, s.base, q))
  {
    var p := Position(s.base, q);
    SequenceIsALabel(w.log[p], q, p + 1);
    ParsedReadsAll(s.inbox, q);
  }

  /** Whatever was held or fetched is, after the turn, durable, pending or still held. */
  lemma TurnSettles(w: World, s: State, turn: Turn, q: nat)
    requires Inv(w, s) && Succeeds(w.config, s.memory, s.inbox, turn) && w.config.insertBatchSize > 0
    requires IsSavableAt(w, Position(s.base, q)) && Offered(s.memory, s.inbox).Has(Local(w, s.base, q))
    ensures
      var p := Position(s.base, q);
      || Durable(w, s.rows, p)
      || turn.memory.fetchedRecordBuffer.Has(Local(w, s.base, q))
      || Pending(w, Persisting(Chunk(turn.kept, w.config.insertBatchSize), turn.ack), p)
  {
    var r := Local(w, s.base, q);
    TurnAccounts(w.config, s.memory, s.inbox, turn, r);
    var x := AttributedIn(Offered(s.memory, s.inbox), r);
    AttributedKeepsChange(Offered(s.memory, s.inbox), r, w.config.ignoreFields);
    if x in turn.kept {
      KeptIsPending(w, turn, x, Position(s.base, q));
    }
  }

  lemma KeptIsPending(w: World, turn: Turn, x: FetchedRecord, p: int)
    requires w.config.insertBatchSize > 0 && x in turn.kept
    requires IsSavableAt(w, p) && SameButContext(x.changeAttributes, RecordAt(w, p).changeAttributes)
    ensures Pending(w, Persisting(Chunk(turn.kept, w.config.insertBatchSize), turn.ack), p)
  {
    ChunksCover(turn.kept, w.config.insertBatchSize);
  }

  lemma FetchCovers(w: World, s: State, turn: Turn, q: nat)
    requires Inv(w, s) && s.phase == Fetching && Succeeds(w.config, s.memory, s.inbox, turn) && w.config.insertBatchSize > 0
    requires 1 <= q <= s.cursor && Wanted(w, Position(s.base, q))
    ensures
      var p := Position(s.base, q);
      || Durable(w, s.rows, p)
      || Pending(w, Persisting(Chunk(turn.kept, w.config.insertBatchSize), turn.ack), p)
      || (IsRecord(w, p) && turn.memory.fetchedRecordBuffer.Has(Local(w, s.base, q)))
  {
    var p := Position(s.base, q);
    if !Durable(w, s.rows, p) {
      if q <= Processed(s) {
        assert Settled(w, s, q);
        OfferedExactly(s.memory, s.inbox, Local(w, s.base, q));
      } else {
        assert q in s.inbox;
        InboxRead(w, s, q);
        OfferedExactly(s.memory, s.inbox, Local(w, s.base, q));
      }
      TurnSettles(w, s, turn, q);
    }
  }

  lemma FinishFetchKeepsMemory(w: World, s: State, turn: Turn)
    requires Traced(w, s) && s.phase == Fetching && Succeeds(w.config, s.memory, s.inbox, turn) && w.config.insertBatchSize > 0
    ensures
      var s' := s.(memory := turn.memory, phase := Persisting(Chunk(turn.kept, w.config.insertBatchSize), turn.ack));
      Shape(w, s') && BufferOk(w, s') && InboxOk(w, s') && InboxComplete(w, s') && PendingAckBehind(s')
  {
    FetchAdvances(w, s, turn);
    HeldInOrder(w.config.stitching, Validly(s.memory, s.inbox));
    forall r | Offered(s.memory, s.inbox).Has(r) ensures Authentic(w, s.base, r) && r.streamSequence <= s.cursor {
      OfferedAuthentic(w, s, r);
    }
    HeldIsValid(Visits(w.config.stitching, Validly(s.memory, s.inbox)));
    forall r | turn.memory.fetchedRecordBuffer.Has(r) ensures Offered(s.memory, s.inbox).Has(r) {
      TurnHolds(w.config, s.memory, s.inbox, turn, r);
    }
    if turn.ack.Some? {
      TurnAck(w.config, s.memory, s.inbox, turn, s.cursor);
    }
  }

  lemma FinishFetchKeepsRows(w: World, s: State, turn: Turn)
    requires Traced(w, s) && s.phase == Fetching && Succeeds(w.config, s.memory, s.inbox, turn) && w.config.insertBatchSize > 0
    ensures
      var s' := s.(memory := turn.memory, phase := Persisting(Chunk(turn.kept, w.config.insertBatchSize), turn.ack));
      RowsOk(w, s')
  {
    ChunksCover(turn.kept, w.config.insertBatchSize);
    forall x | x in turn.kept ensures FromLog(w, s.published, x.changeAttributes) {
      KeptFromLog(w, s, turn, x, s.published);
    }
  }

  lemma FinishFetchCovers(w: World, s: State, turn: Turn)
    requires Inv(w, s) && s.phase == Fetching && Succeeds(w.config, s.memory, s.inbox, turn) && w.config.insertBatchSize > 0
    ensures
      Covered(w, s.(memory := turn.memory, phase := Persisting(Chunk(turn.kept, w.config.insertBatchSize), turn.ack)))
  {
    var s' := s.(memory := turn.memory, phase := Persisting(Chunk(turn.kept, w.config.insertBatchSize), turn.ack));
    FetchAdvances(w, s, turn);
    forall q | 1 <= q <= Processed(s') && Wanted(w, Position(s.base, q)) ensures Settled(w, s', q) {
      FetchCovers(w, s, turn, q);
    }
  }

  lemma FinishFetchTraces(w: World, s: State)
    requires Traced(w, s) && Enabled(w, s, FinishFetch)
    ensures Traced(w, Apply(w, s, FinishFetch))
  {
    var turn := TakeTurn(w.config, s.memory, s.inbox).value;
    assert Succeeds(w.config, s.memory, s.inbox, turn);
    FinishFetchKeepsMemory(w, s, turn);
    FinishFetchKeepsRows(w, s, turn);
  }

  lemma FinishFetchKeeps(w: World, s: State)
    requires Inv(w, s) && Enabled(w, s, FinishFetch)
    ensures Inv(w, Apply(w, s, FinishFetch))
  {
    var turn := TakeTurn(w.config, s.memory, s.inbox).value;
    FinishFetchTraces(w, s);
    FinishFetchCovers(w, s, turn);
    KeepsWhatIsAcked(w, s, Apply(w, s, FinishFetch));
  }

  /** A step that changes neither the rows nor what is acked keeps the acks safe. */
  lemma KeepsWhatIsAcked(w: World, s: State, s': State)
    requires AcksSafe(w, s)
    requires s'.rows == s.rows && s'.base == s.base && s'.floor == s.floor && s'.inflight == s.inflight
    ensures AcksSafe(w, s')
  {
  }

  // ---------------------------------------------------------------------------------------------
  // The other steps
  // ---------------------------------------------------------------------------------------------

  lemma PublishTraces(w: World, s: State)
    requires Traced(w, s) && Enabled(w, s, Publish)
    ensures Traced(w, Apply(w, s, Publish))
  {
    var s' := Apply(w, s, Publish);
    forall row | FromLog(w, s.published, row) ensures FromLog(w, s'.published, row) {
      FromLogGrows(w, s.published, s'.published, row);
    }
  }

  lemma DeliverKeepsInbox(w: World, s: State, q: nat)
    requires Traced(w, s) && Enabled(w, s, Deliver(q))
    ensures
      var s' := Apply(w, s, Deliver(q));
      Shape(w, s') && InboxOk(w, s') && InboxComplete(w, s')
  {
    var s' := Apply(w, s, Deliver(q));
    if q <= Processed(s) {
      assert s'.inbox == s.inbox;
    } else if q <= s.cursor {
      assert q in s.inbox;
      assert s'.inbox == s.inbox;
    } else {
      assert s'.inbox == s.inbox[q := w.log[Position(s.base, q)]];
    }
  }

  lemma {:induction false} FlattenHead<T>(pieces: seq<seq<T>>)
    requires pieces != []
    ensures Flatten(pieces) == pieces[0] + Flatten(pieces[1..])
    decreases |pieces|
  {
    if |pieces| > 1 {
      FlattenHead(pieces[..|pieces| - 1]);
      assert pieces[..|pieces| - 1][1..] == pieces[1..][..|pieces| - 2];
    }
  }

  /** An inserted record is stored: the row with its key is the same change. */
  lemma InsertStores(w: World, n: nat, rows: seq<ChangeAttributes>, batch: seq<FetchedRecord>, x: FetchedRecord)
    requires KeysTellApart(w) && x in batch
    requires forall row :: row in rows ==> FromLog(w, n, row)
    requires forall y :: y in batch ==> FromLog(w, n, y.changeAttributes)
    ensures Stored(InsertAll(rows, batch), x.changeAttributes)
  {
    InsertAllKeys(rows, batch, KeyOf(x.changeAttributes));
    assert Carries(batch, KeyOf(x.changeAttributes));
    var row :| row in InsertAll(rows, batch) && KeyOf(row) == KeyOf(x.changeAttributes);
    RowFromLog(w, n, rows, batch, row);
    SameKeySameChange(w, n, row, x.changeAttributes);
  }

  lemma RowFromLog(w: World, n: nat, rows: seq<ChangeAttributes>, batch: seq<FetchedRecord>, row: ChangeAttributes)
    requires forall row :: row in rows ==> FromLog(w, n, row)
    requires forall y :: y in batch ==> FromLog(w, n, y.changeAttributes)
    requires row in InsertAll(rows, batch)
    ensures FromLog(w, n, row)
  {
  }

  /** A change on its way to the table keeps being so, whether its batch is the next or a later one. */
  lemma InsertKeepsSaved(w: World, s: State, p: int)
    requires KeysTellApart(w) && RowsOk(w, s) && Enabled(w, s, InsertBatch)
    requires Durable(w, s.rows, p) || Pending(w, s.phase, p)
    ensures
      var s' := Apply(w, s, InsertBatch);
      Durable(w, s'.rows, p) || Pending(w, s'.phase, p)
  {
    var s' := Apply(w, s, InsertBatch);
    var batch := s.phase.batches[0];
    FlattenHead(s.phase.batches);
    if Durable(w, s.rows, p) {
      InsertAllOnlyAppends(s.rows, batch);
      DurableGrows(w, s.rows, s'.rows, p);
    } else {
      var x :| x in Flatten(s.phase.batches) && SameButContext(x.changeAttributes, RecordAt(w, p).changeAttributes);
      if x in batch {
        InsertStores(w, s.published, s.rows, batch, x);
        assert Stored(s'.rows, RecordAt(w, p).changeAttributes);
      } else {
        assert x in Flatten(s'.phase.batches);
      }
    }
  }

  lemma InsertKeepsSettled(w: World, s: State, q: nat)
    requires KeysTellApart(w) && RowsOk(w, s) && Enabled(w, s, InsertBatch) && Settled(w, s, q)
    ensures Settled(w, Apply(w, s, InsertBatch), q)
  {
    if Durable(w, s.rows, Position(s.base, q)) || Pending(w, s.phase, Position(s.base, q)) {
      InsertKeepsSaved(w, s, Position(s.base, q));
    } else {
      assert IsHeld(w, Apply(w, s, InsertBatch), q);
    }
  }

  lemma InsertBatchTraces(w: World, s: State)
    requires Traced(w, s) && Enabled(w, s, InsertBatch)
    ensures Traced(w, Apply(w, s, InsertBatch))
  {
    var s' := Apply(w, s, InsertBatch);
    FlattenHead(s.phase.batches);
    InsertAllOnlyAppends(s.rows, s.phase.batches[0]);
    forall row | row in s'.rows ensures FromLog(w, s.published, row) {
      RowFromLog(w, s.published, s.rows, s.phase.batches[0], row);
    }
  }

  lemma InsertBatchKeeps(w: World, s: State)
    requires KeysTellApart(w) && Inv(w, s) && Enabled(w, s, InsertBatch)
    ensures Inv(w, Apply(w, s, InsertBatch))
  {
    var s' := Apply(w, s, InsertBatch);
    InsertBatchTraces(w, s);
    InsertAllOnlyAppends(s.rows, s.phase.batches[0]);
    forall n | SafeUpTo(w, s.rows, n) ensures SafeUpTo(w, s'.rows, n) {
      SafeGrows(w, s.rows, s'.rows, n);
    }
    forall q | Settled(w, s, q) ensures Settled(w, s', q) {
      InsertKeepsSettled(w, s, q);
    }
  }

  /** Every step keeps the trace, whatever the keys. */
  lemma StepTraces(w: World, s: State, step: Step)
    requires Traced(w, s) && Enabled(w, s, step)
    ensures Traced(w, Apply(w, s, step))
  {
    match step
    case Publish => PublishTraces(w, s);
    case Deliver(q) => DeliverKeepsInbox(w, s, q);
    case FinishFetch => FinishFetchTraces(w, s);
    case InsertBatch => InsertBatchTraces(w, s);
    case FinishTurn =>
    case AckLands(_) =>
    case Purge(_) =>
    case Crash =>
    case Recreate =>
  }

  lemma {:induction false} RunTraces(w: World, s: State, steps: seq<Step>)
    requires Traced(w, s) && Run(w, s, steps).Some?
    ensures Traced(w, Run(w, s, steps).value)
    decreases |steps|
  {
    if steps != [] {
      StepTraces(w, s, steps[0]);
      RunTraces(w, Apply(w, s, steps[0]), steps[1..]);
    }
  }

  lemma NothingPending(w: World, s: State, n: nat)
    requires Covered(w, s) && s.phase.Persisting? && s.phase.batches == []
    requires n <= Processed(s) && SafeUpTo(w, s.rows, s.base)
    requires forall r :: s.memory.fetchedRecordBuffer.Has(r) ==> n < r.streamSequence
    ensures SafeUpTo(w, s.rows, s.base + n)
  {
    forall p | 0 <= p < s.base + n && Wanted(w, p) ensures Durable(w, s.rows, p) {
      if p >= s.base {
        assert Settled(w, s, p - s.base + 1);
      }
    }
  }

  lemma FinishTurnKeeps(w: World, s: State)
    requires Inv(w, s) && Enabled(w, s, FinishTurn)
    ensures Inv(w, Apply(w, s, FinishTurn))
  {
    StepTraces(w, s, FinishTurn);
    FinishTurnCovers(w, s);
    FinishTurnAcksSafely(w, s);
  }

  lemma FinishTurnCovers(w: World, s: State)
    requires Covered(w, s) && Enabled(w, s, FinishTurn)
    ensures Covered(w, Apply(w, s, FinishTurn))
  {
    var s' := Apply(w, s, FinishTurn);
    forall q | 1 <= q <= Processed(s') && Wanted(w, Position(s.base, q)) ensures Settled(w, s', q) {
      assert Settled(w, s, q);
    }
  }

  lemma FinishTurnAcksSafely(w: World, s: State)
    requires Inv(w, s) && Enabled(w, s, FinishTurn)
    ensures AcksSafe(w, Apply(w, s, FinishTurn))
  {
    if s.phase.ack.Some? {
      NothingPending(w, s, s.phase.ack.value);
    }
  }

  /** Steps that change neither the rows, nor what is pending, nor what is held or processed. */
  lemma QuietKeeps(w: World, s: State, s': State)
    requires Inv(w, s) && Traced(w, s')
    requires s'.rows == s.rows && s'.memory == s.memory && s'.phase == s.phase && s'.base == s.base
    requires s'.resumed == s.resumed && s'.inflight == s.inflight
    requires s'.floor == s.floor || s'.floor in s.inflight
    ensures Inv(w, s')
  {
    assert forall k :: Settled(w, s, k) ==> Settled(w, s', k);
  }

  /** A fresh worker: everything up to the floor is durable, everything beyond is still to be delivered. */
  lemma BootedIsFine(w: World, s: State)
    requires Shape(w, s.(memory := BOOTED, resumed := s.floor, cursor := s.floor))
    requires UniqueKeys(s.rows) && forall row :: row in s.rows ==> FromLog(w, s.published, row)
    requires AcksSafe(w, s)
    ensures Inv(w, Booted(s))
  {
    var s' := Booted(s);
    forall q | 1 <= q <= Processed(s') && Wanted(w, Position(s.base, q)) ensures Settled(w, s', q) {
      assert Durable(w, s.rows, Position(s.base, q));
    }
  }

  lemma CrashKeeps(w: World, s: State)
    requires Inv(w, s)
    ensures Inv(w, Apply(w, s, Crash))
  {
    BootedIsFine(w, s);
  }

  /** A recreated stream was empty, so everything it ever held had been acked. */
  lemma RecreateKeeps(w: World, s: State)
    requires Inv(w, s) && Enabled(w, s, Recreate)
    ensures Inv(w, Apply(w, s, Recreate))
  {
    BootedIsFine(w, s.(base := s.published, first := 1, floor := 0, inflight := {}));
  }

  lemma StepKeeps(w: World, s: State, step: Step)
    requires KeysTellApart(w) && Inv(w, s) && Enabled(w, s, step)
    ensures Inv(w, Apply(w, s, step))
  {
    StepTraces(w, s, step);
    match step
    case FinishFetch => FinishFetchKeeps(w, s);
    case InsertBatch => InsertBatchKeeps(w, s);
    case FinishTurn => FinishTurnKeeps(w, s);
    case Crash => CrashKeeps(w, s);
    case Recreate => RecreateKeeps(w, s);
    case Publish => QuietKeeps(w, s, Apply(w, s, step));
    case Deliver(_) => QuietKeeps(w, s, Apply(w, s, step));
    case AckLands(_) => QuietKeeps(w, s, Apply(w, s, step));
    case Purge(_) => QuietKeeps(w, s, Apply(w, s, step));
  }

  lemma {:induction false} RunKeeps(w: World, s: State, steps: seq<Step>)
    requires KeysTellApart(w) && Inv(w, s) && Run(w, s, steps).Some?
    ensures Inv(w, Run(w, s, steps).value)
    decreases |steps|
  {
    if steps != [] {
      StepKeeps(w, s, steps[0]);
      RunKeeps(w, Apply(w, s, steps[0]), steps[1..]);
    }
  }

  lemma ReachableInv(w: World, steps: seq<Step>, s: State)
    requires KeysTellApart(w) && Reaches(w, steps, s)
    ensures Inv(w, s)
  {
    assert Inv(w, Initial());
    RunKeeps(w, Initial(), steps);
  }

  // ---------------------------------------------------------------------------------------------
  // The theorems
  // ---------------------------------------------------------------------------------------------

  /**
   No accepted change is ever lost: in every reachable state each message that must be kept is in
   the table, was dropped as empty, or is still in the stream above the ack floor.
   */
  lemma NothingIsLost(w: World, steps: seq<Step>, s: State, p: nat)
    requires KeysTellApart(w) && Reaches(w, steps, s)
    requires p < s.published && Wanted(w, p)
    ensures Durable(w, s.rows, p) || InStream(s, p)
  {
    ReachableInv(w, steps, s);
    if p < s.base + s.floor {
      assert Durable(w, s.rows, p);
    }
  }

  /** Every row is a change of the log with no context or one of its own subject and transaction. */
  lemma NeverWronglyAttributed(w: World, steps: seq<Step>, s: State, row: ChangeAttributes)
    requires Reaches(w, steps, s) && row in s.rows
    ensures FromLog(w, s.published, row)
  {
    RunTraces(w, Initial(), steps);
  }

  /** Over any run rows are only added: none is altered, moved or removed, and no key is ever there twice. */
  lemma {:induction false} RowsAreOnlyAdded(w: World, s: State, steps: seq<Step>)
    requires Run(w, s, steps).Some?
    ensures s.rows <= Run(w, s, steps).value.rows
    ensures UniqueKeys(s.rows) ==> UniqueKeys(Run(w, s, steps).value.rows)
    decreases |steps|
  {
    if steps != [] {
      if steps[0] == InsertBatch {
        InsertAllOnlyAppends(s.rows, s.phase.batches[0]);
      }
      RowsAreOnlyAdded(w, Apply(w, s, steps[0]), steps[1..]);
    }
  }

  // ---------------------------------------------------------------------------------------------
  // Exactly once
  // ---------------------------------------------------------------------------------------------

  /** Everything accepted has been delivered and stitched, and no savable record is left in memory. */
  ghost predicate CaughtUp(w: World, s: State) {
    && s.phase == Fetching && s.inbox == map[]
    && (forall q :: s.cursor < q && s.base + q <= s.published ==> !Matches(w, Position(s.base, q)))
    && forall r :: s.memory.fetchedRecordBuffer.Has(r) ==> !r.IsSavable()
  }

  ghost predicate AcceptedKey(w: World, n: nat, key: Key) {
    exists p :: 0 <= p < n && IsSavableAt(w, p) && !IsEmpty(RecordAt(w, p).changeAttributes, w.config.ignoreFields)
      && KeyOf(RecordAt(w, p).changeAttributes) == key
  }

  lemma CaughtUpIsDurable(w: World, s: State, p: nat)
    requires Inv(w, s) && CaughtUp(w, s) && p < s.published && Wanted(w, p)
    ensures Durable(w, s.rows, p)
  {
    if p >= s.base {
      var q := p - s.base + 1;
      assert Position(s.base, q) == p;
      assert Settled(w, s, q);
    }
  }

  /**
   Once caught up, after any crashes and replays, the table has each non-empty change the stream
   accepted exactly once, and nothing else.
   */
  lemma ExactlyOnceWhenCaughtUp(w: World, steps: seq<Step>, s: State, key: Key)
    requires KeysTellApart(w) && Reaches(w, steps, s) && CaughtUp(w, s)
    ensures UniqueKeys(s.rows)
    ensures HasKey(s.rows, key) <==> AcceptedKey(w, s.published, key)
  {
    ReachableInv(w, steps, s);
    if HasKey(s.rows, key) {
      var row :| row in s.rows && KeyOf(row) == key;
      var p :| MadeFrom(w, s.published, row, p);
      assert KeyOf(RecordAt(w, p).changeAttributes) == key;
    }
    if AcceptedKey(w, s.published, key) {
      var p :| 0 <= p < s.published && IsSavableAt(w, p) && !IsEmpty(RecordAt(w, p).changeAttributes, w.config.ignoreFields)
        && KeyOf(RecordAt(w, p).changeAttributes) == key;
      CaughtUpIsDurable(w, s, p);
      var row :| row in s.rows && SameButContext(row, RecordAt(w, p).changeAttributes);
      assert KeyOf(row) == key;
    }
  }

  /** Whatever the batch sizes, the buffering and the crashes, two runs that caught up agree on the keys. */
  lemma ReplaysAgree(w: World, w': World, steps: seq<Step>, steps': seq<Step>, s: State, s': State, key: Key)
    requires w.log == w'.log && w.subjects == w'.subjects && w.config.ignoreFields == w'.config.ignoreFields
    requires KeysTellApart(w)
    requires Reaches(w, steps, s) && CaughtUp(w, s)
    requires Reaches(w', steps', s') && CaughtUp(w', s')
    requires s.published == s'.published
    ensures HasKey(s.rows, key) <==> HasKey(s'.rows, key)
  {
    SameLogSameReading(w, w');
    ExactlyOnceWhenCaughtUp(w, steps, s, key);
    ExactlyOnceWhenCaughtUp(w', steps', s', key);
    if AcceptedKey(w, s.published, key) {
      var p :| 0 <= p < s.published && IsSavableAt(w, p) && !IsEmpty(RecordAt(w, p).changeAttributes, w.config.ignoreFields)
        && KeyOf(RecordAt(w, p).changeAttributes) == key;
      assert IsSavableAt(w', p);
    }
    if AcceptedKey(w', s.published, key) {
      var p :| 0 <= p < s.published && IsSavableAt(w', p) && !IsEmpty(RecordAt(w', p).changeAttributes, w.config.ignoreFields)
        && KeyOf(RecordAt(w', p).changeAttributes) == key;
      assert IsSavableAt(w, p);
    }
  }

  lemma SameLogSameReading(w: World, w': World)
    requires w.log == w'.log && w.subjects == w'.subjects
    ensures forall p :: Reading(w, p) == Reading(w', p)
    ensures KeysTellApart(w) ==> KeysTellApart(w')
  {
    forall p ensures Reading(w, p) == Reading(w', p) {
    }
    assert forall p :: IsSavableAt(w, p) == IsSavableAt(w', p);
  }
}
