/**
 When contexts come first and no turn ends where it would lose one, every row carries its
 transaction's first context, whatever crashes and replays happened on the way.
 */
module Attribution {
  import opened Wrappers
  import opened FetchedRecords
  import opened FetchedRecordBuffers
  import opened Stitching
  import opened StitchingProperties
  import opened AuditTable
  import opened Ingestion
  import opened TurnProperties
  import opened Pipeline
  import opened Safety

  // ---------------------------------------------------------------------------------------------
  // The hypothesis
  // ---------------------------------------------------------------------------------------------

  /** The earliest context message of the transaction of the record at d. */
  ghost predicate FirstContextAt(w: World, d: int, c: int) {
    && ContextFor(w, d, c)
    && forall k :: ContextFor(w, d, k) ==> c <= k
  }

  ghost predicate HasContext(w: World, d: int) {
    exists c :: ContextFor(w, d, c)
  }

  /** A transaction's first context precedes what it is to be attached to. */
  ghost predicate ContextsComeFirst(w: World) {
    forall c, d :: FirstContextAt(w, d, c) && IsSavableAt(w, d) ==> c < d
  }

  ghost predicate Siblings(w: World, d: int, e: int) {
    IsSavableAt(w, d) && IsSavableAt(w, e) && SameTransaction(RecordAt(w, d), RecordAt(w, e))
  }

  /**
   The buffer carries the context over a fetch that ends at n: it is within the orphan gap of everything
   delivered, and no change of the transaction has come.
   */
  ghost predicate Bridged(w: World, n: int, c: int, d: int) {
    && w.config.stitching.useBuffer
    && n - 1 <= c + w.config.stitching.orphanContextSequenceGap
    && forall e :: Siblings(w, d, e) && RecordAt(w, e).IsChange() ==> n <= e
  }

  /**
   A turn that ends here, its records inserted, has separated no record that is not yet durable from its
   first context, unless the buffer carries that over.
   */
  ghost predicate EndsWell(w: World, s: State) {
    var n := s.base + s.cursor;
    forall c, d :: FirstContextAt(w, d, c) && IsSavableAt(w, d) && c < n <= d && !Durable(w, s.rows, d) ==>
      Bridged(w, n, c, d)
  }

  /** Every turn that the run finishes ends like that; a turn that throws may end anywhere. */
  ghost predicate TurnsEndWell(w: World, s: State, steps: seq<Step>)
    decreases |steps|
  {
    steps != [] && Enabled(w, s, steps[0]) ==>
      && (steps[0] == FinishTurn ==> EndsWell(w, s))
      && TurnsEndWell(w, Apply(w, s, steps[0]), steps[1..])
  }

  /** What the context column should say. */
  ghost predicate Expected(w: World, d: int, context: Context) {
    if HasContext(w, d) then exists c :: FirstContextAt(w, d, c) && RecordAt(w, c).Context() == context
    else context == EMPTY_CONTEXT
  }

  ghost predicate Setting(w: World) {
    KeysTellApart(w) && ContextsComeFirst(w)
  }

  lemma {:induction false} FirstContextExists(w: World, d: int, c: nat) returns (first: nat)
    requires ContextFor(w, d, c)
    ensures FirstContextAt(w, d, first) && first <= c
    decreases c
  {
    if k :| 0 <= k < c && ContextFor(w, d, k) {
      first := FirstContextExists(w, d, k);
    } else {
      first := c;
      forall k | ContextFor(w, d, k) ensures c <= k {
        assert 0 <= k;
      }
    }
  }

  // ---------------------------------------------------------------------------------------------
  // The invariant
  // ---------------------------------------------------------------------------------------------

  ghost predicate RowsRight(w: World, rows: seq<ChangeAttributes>) {
    forall row, d :: row in rows && IsSavableAt(w, d) && SameButContext(row, RecordAt(w, d).changeAttributes) ==>
      Expected(w, d, row.context)
  }

  /** A record about to be inserted is right, or the row it repeats is already there. */
  ghost predicate RightOrKnown(w: World, rows: seq<ChangeAttributes>, a: ChangeAttributes) {
    || HasKey(rows, KeyOf(a))
    || forall d :: IsSavableAt(w, d) && SameButContext(a, RecordAt(w, d).changeAttributes) ==> Expected(w, d, a.context)
  }

  ghost predicate PendingRight(w: World, s: State) {
    s.phase.Persisting? ==>
      forall x :: x in Flatten(s.phase.batches) ==> RightOrKnown(w, s.rows, x.changeAttributes)
  }

  ghost predicate Unprocessed(s: State, p: int) {
    p >= s.base + Processed(s)
  }

  /** The record at a position of the current stream, as this stream numbers it. */
  function Here(w: World, base: nat, c: int): FetchedRecord
    requires c >= base && IsRecord(w, c)
  {
    RecordAt(w, c).(streamSequence := c - base + 1)
  }

  ghost predicate HeldIn(w: World, base: nat, b: FetchedRecordBuffer, c: int) {
    c >= base && IsRecord(w, c) && b.Has(Here(w, base, c))
  }

  ghost predicate HeldAt(w: World, s: State, c: int) {
    HeldIn(w, s.base, s.memory.fetchedRecordBuffer, c)
  }

  ghost predicate Saved(w: World, s: State, d: int) {
    Durable(w, s.rows, d) || Pending(w, s.phase, d)
  }

  /** The turn being finished leaves the context behind; the worker may still crash before it ends. */
  ghost predicate Leaves(w: World, s: State, c: int, d: int) {
    s.phase.Persisting? && !Bridged(w, s.base + s.cursor, c, d)
  }

  /** A change not yet saved is still to come, and so is its first context, unless that is in the buffer. */
  ghost predicate Waits(w: World, s: State, c: int, d: int) {
    Saved(w, s, d) || (Unprocessed(s, d) && (Unprocessed(s, c) || HeldAt(w, s, c) || Leaves(w, s, c, d)))
  }

  ghost predicate ContextWaits(w: World, s: State) {
    forall c, d :: FirstContextAt(w, d, c) && IsSavableAt(w, d) ==> Waits(w, s, c, d)
  }

  /** A context before n has had all its changes stored. */
  ghost predicate ContextsDone(w: World, rows: seq<ChangeAttributes>, n: int) {
    forall c, d :: FirstContextAt(w, d, c) && IsSavableAt(w, d) && c < n ==> Durable(w, rows, d)
  }

  ghost predicate AcksAfterChanges(w: World, s: State) {
    && ContextsDone(w, s.rows, s.base + s.floor)
    && forall a :: a in s.inflight ==> ContextsDone(w, s.rows, s.base + a)
  }

  ghost predicate Right(w: World, s: State) {
    RowsRight(w, s.rows) && PendingRight(w, s) && ContextWaits(w, s) && AcksAfterChanges(w, s)
  }

  // ---------------------------------------------------------------------------------------------
  // Finishing a fetch
  // ---------------------------------------------------------------------------------------------

  lemma ContextAtHand(w: World, s: State, c: int, d: int)
    requires InboxComplete(w, s) && ContextWaits(w, s) && AcksAfterChanges(w, s) && s.phase == Fetching
    requires FirstContextAt(w, d, c) && IsSavableAt(w, d) && !Durable(w, s.rows, d)
    requires c < s.base + s.cursor
    ensures HeldAt(w, s, c) || (c >= s.base && c - s.base + 1 in s.inbox)
  {
  }

  /** The first context of an unsaved change that has been delivered is in front of the stitcher. */
  lemma ContextOffered(w: World, s: State, c: int, d: int)
    requires Inv(w, s) && Right(w, s) && s.phase == Fetching && Parsed(s.inbox).Success?
    requires FirstContextAt(w, d, c) && IsSavableAt(w, d) && !Durable(w, s.rows, d)
    requires c < s.base + s.cursor
    ensures c >= s.base
    ensures Offered(s.memory, s.inbox).Has(Here(w, s.base, c)) && Authentic(w, s.base, Here(w, s.base, c))
  {
    ContextAtHand(w, s, c, d);
    AtHandIsOffered(w, s, c);
  }

  lemma AtHandIsOffered(w: World, s: State, c: int)
    requires InboxOk(w, s) && Parsed(s.inbox).Success? && IsRecord(w, c)
    requires HeldAt(w, s, c) || (c >= s.base && c - s.base + 1 in s.inbox)
    ensures Offered(s.memory, s.inbox).Has(Here(w, s.base, c)) && Authentic(w, s.base, Here(w, s.base, c))
  {
    var q: nat := c - s.base + 1;
    LocalIsHere(w, s.base, q, c);
    if !HeldAt(w, s, c) {
      ContextRead(w, s, q);
    }
    OfferedExactly(s.memory, s.inbox, Here(w, s.base, c));
  }

  lemma LocalIsHere(w: World, base: nat, q: nat, c: int)
    requires IsRecord(w, c) && q >= 1 && q == c - base + 1
    ensures Position(base, q) == c && Local(w, base, q) == Here(w, base, c)
    ensures Authentic(w, base, Here(w, base, c))
  {
  }

  lemma ContextRead(w: World, s: State, q: nat)
    requires InboxOk(w, s) && Parsed(s.inbox).Success? && q in s.inbox && IsRecord(w, Position(s.base, q))
    ensures ReadsAs(s.inbox, Local(w, s.base, q))
  {
  }

  /** In the transaction's list the first context is the earliest one of the log. */
  lemma FirstIsFirst(w: World, s: State, r: FetchedRecord, c: int)
    requires Inv(w, s) && s.phase == Fetching && Parsed(s.inbox).Success?
    requires Authentic(w, s.base, r) && c >= s.base && FirstContextAt(w, Position(s.base, r.streamSequence), c)
    requires Offered(s.memory, s.inbox).Has(Here(w, s.base, c))
    ensures FirstContext(Offered(s.memory, s.inbox).ByTransactionId(r.subject, r.TransactionId())) == Some(Here(w, s.base, c))
  {
    var b := Validly(s.memory, s.inbox);
    OfferedInOrder(s.memory, s.inbox);
    AuthenticKind(w, s.base, r);
    LeastInList(b, r, Here(w, s.base, c));
    var f := FirstContext(b.ByTransactionId(r.subject, r.TransactionId())).value;
    ContextFromLog(w, s, r, f);
    ListedWith(b, r, f);
    OfferedAuthentic(w, s, f);
    SamePlace(w, s.base, f, c);
  }

  lemma SamePlace(w: World, base: nat, f: FetchedRecord, c: int)
    requires Authentic(w, base, f) && c >= base && IsRecord(w, c)
    requires f.streamSequence <= c - base + 1 && c <= Position(base, f.streamSequence)
    ensures f == Here(w, base, c)
  {
  }

  lemma KeptIsRight(w: World, s: State, turn: Turn, x: FetchedRecord)
    requires Setting(w) && Inv(w, s) && Right(w, s) && s.phase == Fetching
    requires Succeeds(w.config, s.memory, s.inbox, turn) && x in turn.kept
    ensures RightOrKnown(w, s.rows, x.changeAttributes)
  {
    var b := Validly(s.memory, s.inbox);
    var r := KeptOrigin(w.config, s.memory, s.inbox, turn, x);
    KeptExactly(w.config, s.memory, s.inbox, turn, x);
    ReleaseIsSavable(VisitFor(w.config.stitching, b, r), r);
    OfferedAuthentic(w, s, r);
    AuthenticKind(w, s.base, r);
    AttributedKeepsChange(b, r, w.config.ignoreFields);
    var p := Position(s.base, r.streamSequence);
    if Durable(w, s.rows, p) {
      var row :| row in s.rows && SameButContext(row, RecordAt(w, p).changeAttributes);
      assert KeyOf(row) == KeyOf(x.changeAttributes);
    } else {
      AttributedAsExpected(w, s, r);
      forall d | IsSavableAt(w, d) && SameButContext(x.changeAttributes, RecordAt(w, d).changeAttributes)
        ensures Expected(w, d, x.Context())
      {
        ExpectedTransfers(w, p, d, x.Context());
      }
    }
  }

  lemma AttributedAsExpected(w: World, s: State, r: FetchedRecord)
    requires Setting(w) && Inv(w, s) && Right(w, s) && s.phase == Fetching && Parsed(s.inbox).Success?
    requires Offered(s.memory, s.inbox).Has(r) && r.IsSavable()
    requires !Durable(w, s.rows, Position(s.base, r.streamSequence))
    ensures Expected(w, Position(s.base, r.streamSequence), AttributedIn(Offered(s.memory, s.inbox), r).Context())
  {
    var b := Validly(s.memory, s.inbox);
    OfferedAuthentic(w, s, r);
    AuthenticKind(w, s.base, r);
    var p := Position(s.base, r.streamSequence);
    if HasContext(w, p) {
      var k :| ContextFor(w, p, k);
      var c := FirstContextExists(w, p, k);
      ContextOffered(w, s, c, p);
      FirstIsFirst(w, s, r, c);
    } else {
      var list := b.ByTransactionId(r.subject, r.TransactionId());
      FirstContextFound(list);
      if FirstContext(list).Some? {
        ContextFromLog(w, s, r, FirstContext(list).value);
      }
    }
  }

  /** The same change published twice is expected to carry the same context. */
  lemma ExpectedTransfers(w: World, p: int, d: int, context: Context)
    requires KeysTellApart(w) && IsSavableAt(w, p) && IsSavableAt(w, d)
    requires KeyOf(RecordAt(w, p).changeAttributes) == KeyOf(RecordAt(w, d).changeAttributes)
    requires Expected(w, p, context)
    ensures Expected(w, d, context)
  {
    assert forall k :: ContextFor(w, p, k) <==> ContextFor(w, d, k);
    if HasContext(w, p) {
      var c :| FirstContextAt(w, p, c) && RecordAt(w, c).Context() == context;
      assert FirstContextAt(w, d, c);
    }
  }

  lemma DeliveredIsSaved(w: World, s: State, turn: Turn, c: int, d: int)
    requires Setting(w) && Inv(w, s) && Right(w, s) && s.phase == Fetching && w.config.insertBatchSize > 0
    requires Succeeds(w.config, s.memory, s.inbox, turn)
    requires FirstContextAt(w, d, c) && IsSavableAt(w, d) && !Durable(w, s.rows, d)
    requires d < s.base + s.cursor
    ensures Pending(w, Persisting(Chunk(turn.kept, w.config.insertBatchSize), turn.ack), d)
  {
    var b := Validly(s.memory, s.inbox);
    ContextOffered(w, s, c, d);
    var q: nat := d - s.base + 1;
    assert Position(s.base, q) == d;
    FetchCovers(w, s, turn, q);
    var r := Local(w, s.base, q);
    var e := Here(w, s.base, c);
    if turn.memory.fetchedRecordBuffer.Has(r) {
      TurnHolds(w.config, s.memory, s.inbox, turn, r);
      PairedIsReleased(VisitFor(w.config.stitching, b, r), r, e);
    }
  }

  lemma WaitingAwaits(w: World, s: State, c: int, d: int)
    requires Setting(w) && Inv(w, s) && Right(w, s) && s.phase == Fetching && Parsed(s.inbox).Success?
    requires FirstContextAt(w, d, c) && IsSavableAt(w, d) && !Durable(w, s.rows, d)
    requires d >= s.base + s.cursor > c && Bridged(w, s.base + s.cursor, c, d)
    ensures c >= s.base && Fated(w.config.stitching, Validly(s.memory, s.inbox), Here(w, s.base, c), Hold)
  {
    var b := Validly(s.memory, s.inbox);
    ContextOffered(w, s, c, d);
    var e := Here(w, s.base, c);
    NoChangeYet(w, s, c, d, e);
    NotOrphaned(w, s, e);
    AwaitingIsHeld(VisitFor(w.config.stitching, b, e), e);
  }

  /** A context all of whose changes are still to come is held: none has arrived and it is no orphan. */
  lemma WaitingIsHeld(w: World, s: State, turn: Turn, c: int, d: int)
    requires Setting(w) && Inv(w, s) && Right(w, s) && s.phase == Fetching
    requires Succeeds(w.config, s.memory, s.inbox, turn)
    requires FirstContextAt(w, d, c) && IsSavableAt(w, d) && !Durable(w, s.rows, d)
    requires d >= s.base + s.cursor > c && Bridged(w, s.base + s.cursor, c, d)
    ensures HeldIn(w, s.base, turn.memory.fetchedRecordBuffer, c)
  {
    WaitingAwaits(w, s, c, d);
    TurnHolds(w.config, s.memory, s.inbox, turn, Here(w, s.base, c));
  }

  lemma NoChangeYet(w: World, s: State, c: int, d: int, e: FetchedRecord)
    requires Inv(w, s) && s.phase == Fetching && Parsed(s.inbox).Success?
    requires FirstContextAt(w, d, c) && IsSavableAt(w, d) && d >= s.base + s.cursor
    requires c >= s.base && e == Here(w, s.base, c)
    requires Bridged(w, s.base + s.cursor, c, d)
    ensures !ChangeArrived(Offered(s.memory, s.inbox).ByTransactionId(e.subject, e.TransactionId()))
  {
    var b := Validly(s.memory, s.inbox);
    var list := b.ByTransactionId(e.subject, e.TransactionId());
    forall x | x in list ensures !x.IsChange() {
      ListedWith(b, e, x);
      OfferedAuthentic(w, s, x);
      AuthenticKind(w, s.base, x);
      var k := Position(s.base, x.streamSequence);
      if x.IsChange() {
        assert Siblings(w, d, k);
      }
    }
  }

  lemma NotOrphaned(w: World, s: State, e: FetchedRecord)
    requires Inv(w, s) && Parsed(s.inbox).Success? && Offered(s.memory, s.inbox).Has(e)
    requires s.cursor - e.streamSequence <= w.config.stitching.orphanContextSequenceGap
    ensures e.subject in Offered(s.memory, s.inbox).store.keys
    ensures !Orphaned(VisitFor(w.config.stitching, Offered(s.memory, s.inbox), e), e)
  {
    var b := Validly(s.memory, s.inbox);
    forall r | b.Has(r) ensures r.streamSequence <= s.cursor {
      OfferedAuthentic(w, s, r);
    }
    NearIsNoOrphan(w.config.stitching, b, e, s.cursor);
  }

  ghost function Finished(w: World, s: State, turn: Turn): State
    requires w.config.insertBatchSize > 0
  {
    s.(memory := turn.memory, phase := Persisting(Chunk(turn.kept, w.config.insertBatchSize), turn.ack))
  }

  /** The turn that is being finished, in a state where all its facts are known. */
  ghost predicate Finishing(w: World, s: State, turn: Turn) {
    && Setting(w) && Inv(w, s) && Right(w, s) && s.phase == Fetching && w.config.insertBatchSize > 0
    && Succeeds(w.config, s.memory, s.inbox, turn)
  }

  lemma FinishProcesses(w: World, s: State, turn: Turn)
    requires Finishing(w, s, turn)
    ensures Processed(Finished(w, s, turn)) == s.cursor
  {
    FetchAdvances(w, s, turn);
  }

  lemma SoonerWaits(w: World, s: State, turn: Turn, c: int, d: int)
    requires Finishing(w, s, turn) && FirstContextAt(w, d, c) && IsSavableAt(w, d)
    requires !Durable(w, s.rows, d) && d < s.base + s.cursor
    ensures Waits(w, Finished(w, s, turn), c, d)
  {
    DeliveredIsSaved(w, s, turn, c, d);
  }

  lemma HeldWaits(w: World, s': State, c: int, d: int)
    requires HeldIn(w, s'.base, s'.memory.fetchedRecordBuffer, c) && d >= s'.base + Processed(s')
    ensures Waits(w, s', c, d)
  {
  }

  lemma LaterWaits(w: World, s: State, turn: Turn, c: int, d: int)
    requires Finishing(w, s, turn) && FirstContextAt(w, d, c) && IsSavableAt(w, d)
    requires !Durable(w, s.rows, d) && d >= s.base + s.cursor > c
    ensures Waits(w, Finished(w, s, turn), c, d)
  {
    FinishProcesses(w, s, turn);
    if Bridged(w, s.base + s.cursor, c, d) {
      WaitingIsHeld(w, s, turn, c, d);
      HeldWaits(w, Finished(w, s, turn), c, d);
    }
  }

  lemma FinishFetchWaits(w: World, s: State, turn: Turn, c: int, d: int)
    requires Finishing(w, s, turn) && FirstContextAt(w, d, c) && IsSavableAt(w, d)
    ensures Waits(w, Finished(w, s, turn), c, d)
  {
    if Durable(w, s.rows, d) {
    } else if d < s.base + s.cursor {
      SoonerWaits(w, s, turn, c, d);
    } else if c < s.base + s.cursor {
      LaterWaits(w, s, turn, c, d);
    } else {
      FinishProcesses(w, s, turn);
    }
  }

  lemma FinishFetchKeepsWaiting(w: World, s: State, turn: Turn)
    requires Finishing(w, s, turn)
    ensures ContextWaits(w, Finished(w, s, turn))
  {
    forall c, d | FirstContextAt(w, d, c) && IsSavableAt(w, d) ensures Waits(w, Finished(w, s, turn), c, d) {
      FinishFetchWaits(w, s, turn, c, d);
    }
  }

  lemma FinishFetchPendsRight(w: World, s: State, turn: Turn)
    requires Finishing(w, s, turn)
    ensures PendingRight(w, Finished(w, s, turn))
  {
    ChunksCover(turn.kept, w.config.insertBatchSize);
    forall x | x in turn.kept ensures RightOrKnown(w, s.rows, x.changeAttributes) {
      KeptIsRight(w, s, turn, x);
    }
  }

  lemma FinishFetchStaysRight(w: World, s: State)
    requires Setting(w) && Inv(w, s) && Right(w, s) && Enabled(w, s, FinishFetch)
    ensures Right(w, Apply(w, s, FinishFetch))
  {
    var turn := TakeTurn(w.config, s.memory, s.inbox).value;
    assert Succeeds(w.config, s.memory, s.inbox, turn);
    FinishFetchKeepsWaiting(w, s, turn);
    FinishFetchPendsRight(w, s, turn);
  }

  // ---------------------------------------------------------------------------------------------
  // The other steps
  // ---------------------------------------------------------------------------------------------

  lemma DoneGrows(w: World, rows: seq<ChangeAttributes>, rows': seq<ChangeAttributes>, n: int)
    requires rows <= rows' && ContextsDone(w, rows, n)
    ensures ContextsDone(w, rows', n)
  {
  }

  lemma InsertedRowsRight(w: World, rows: seq<ChangeAttributes>, batch: seq<FetchedRecord>)
    requires RowsRight(w, rows)
    requires forall x :: x in batch ==> RightOrKnown(w, rows, x.changeAttributes)
    ensures RowsRight(w, InsertAll(rows, batch))
  {
    forall row, d | row in InsertAll(rows, batch) && IsSavableAt(w, d) && SameButContext(row, RecordAt(w, d).changeAttributes)
      ensures Expected(w, d, row.context)
    {
      if row !in rows {
        InsertAllRows(rows, batch, row);
        var x :| x in batch && x.changeAttributes == row;
        assert RightOrKnown(w, rows, x.changeAttributes);
      }
    }
  }

  lemma InsertKeepsPendingRight(w: World, s: State)
    requires PendingRight(w, s) && Enabled(w, s, InsertBatch)
    ensures PendingRight(w, Apply(w, s, InsertBatch))
    ensures forall x :: x in s.phase.batches[0] ==> RightOrKnown(w, s.rows, x.changeAttributes)
  {
    var s' := Apply(w, s, InsertBatch);
    FlattenHead(s.phase.batches);
    forall x | x in Flatten(s'.phase.batches) ensures RightOrKnown(w, s'.rows, x.changeAttributes) {
      assert RightOrKnown(w, s.rows, x.changeAttributes);
      InsertAllKeys(s.rows, s.phase.batches[0], KeyOf(x.changeAttributes));
    }
  }

  lemma InsertKeepsWaits(w: World, s: State, c: int, d: int)
    requires KeysTellApart(w) && RowsOk(w, s) && Enabled(w, s, InsertBatch) && Waits(w, s, c, d)
    ensures Waits(w, Apply(w, s, InsertBatch), c, d)
  {
    if Saved(w, s, d) {
      InsertKeepsSaved(w, s, d);
    }
  }

  lemma InsertBatchStaysRight(w: World, s: State)
    requires Setting(w) && Inv(w, s) && Right(w, s) && Enabled(w, s, InsertBatch)
    ensures Right(w, Apply(w, s, InsertBatch))
  {
    var s' := Apply(w, s, InsertBatch);
    InsertKeepsPendingRight(w, s);
    InsertedRowsRight(w, s.rows, s.phase.batches[0]);
    InsertAllOnlyAppends(s.rows, s.phase.batches[0]);
    forall c, d | FirstContextAt(w, d, c) && IsSavableAt(w, d) ensures Waits(w, s', c, d) {
      InsertKeepsWaits(w, s, c, d);
    }
    forall n | ContextsDone(w, s.rows, n) ensures ContextsDone(w, s'.rows, n) {
      DoneGrows(w, s.rows, s'.rows, n);
    }
  }

  /** With everything inserted, what is not durable is still to come. */
  lemma WaitsInserted(w: World, s: State, c: int, d: int)
    requires Waits(w, s, c, d) && s.phase.Persisting? && s.phase.batches == [] && !Durable(w, s.rows, d)
    requires s.cursor == Processed(s)
    requires c < s.base + s.cursor <= d ==> Bridged(w, s.base + s.cursor, c, d)
    ensures Unprocessed(s, d) && (Unprocessed(s, c) || HeldAt(w, s, c))
  {
  }

  /** When a turn ends well, an ack at or past a context implies that its changes are stored. */
  lemma AckImpliesStored(w: World, s: State, a: nat)
    requires ContextWaits(w, s) && s.phase.Persisting? && s.phase.batches == []
    requires EndsWell(w, s) && a <= s.cursor == Processed(s)
    requires forall r :: s.memory.fetchedRecordBuffer.Has(r) ==> a < r.streamSequence
    ensures ContextsDone(w, s.rows, s.base + a)
  {
    forall c, d | FirstContextAt(w, d, c) && IsSavableAt(w, d) && c < s.base + a ensures Durable(w, s.rows, d) {
      if !Durable(w, s.rows, d) {
        WaitsInserted(w, s, c, d);
      }
    }
  }

  lemma FinishTurnAcks(w: World, s: State)
    requires Inv(w, s) && Right(w, s) && Enabled(w, s, FinishTurn) && EndsWell(w, s)
    ensures AcksAfterChanges(w, Apply(w, s, FinishTurn))
  {
    if s.phase.ack.Some? {
      AckImpliesStored(w, s, s.phase.ack.value);
    }
  }

  lemma FinishTurnWaits(w: World, s: State, c: int, d: int)
    requires Inv(w, s) && Enabled(w, s, FinishTurn) && EndsWell(w, s) && Waits(w, s, c, d)
    requires FirstContextAt(w, d, c) && IsSavableAt(w, d)
    ensures Waits(w, Apply(w, s, FinishTurn), c, d)
  {
    if !Durable(w, s.rows, d) {
      WaitsInserted(w, s, c, d);
    }
  }

  lemma FinishTurnStaysRight(w: World, s: State)
    requires Inv(w, s) && Right(w, s) && Enabled(w, s, FinishTurn) && EndsWell(w, s)
    ensures Right(w, Apply(w, s, FinishTurn))
  {
    FinishTurnAcks(w, s);
    forall c, d | FirstContextAt(w, d, c) && IsSavableAt(w, d) ensures Waits(w, Apply(w, s, FinishTurn), c, d) {
      FinishTurnWaits(w, s, c, d);
    }
  }

  lemma QuietStaysRight(w: World, s: State, s': State)
    requires Right(w, s)
    requires s'.rows == s.rows && s'.memory == s.memory && s'.phase == s.phase && s'.base == s.base && s'.resumed == s.resumed
    requires s'.inflight == s.inflight && (s'.floor == s.floor || s'.floor in s.inflight)
    requires s'.cursor == s.cursor || s.phase == Fetching
    ensures Right(w, s')
  {
    forall c, d | FirstContextAt(w, d, c) && IsSavableAt(w, d) ensures Waits(w, s', c, d) {
      assert Waits(w, s, c, d);
    }
    QuietKeepsAcks(w, s, s');
  }

  lemma QuietKeepsAcks(w: World, s: State, s': State)
    requires AcksAfterChanges(w, s) && s'.rows == s.rows && s'.base == s.base
    requires s'.inflight == s.inflight && (s'.floor == s.floor || s'.floor in s.inflight)
    ensures AcksAfterChanges(w, s')
  {
  }

  /** Nothing before the floor is unsaved, and what comes after it comes again, contexts first. */
  lemma BootedIsRight(w: World, s: State)
    requires ContextsComeFirst(w) && RowsRight(w, s.rows) && AcksAfterChanges(w, s)
    ensures Right(w, Booted(s))
  {
    var s' := Booted(s);
    forall c, d | FirstContextAt(w, d, c) && IsSavableAt(w, d) ensures Waits(w, s', c, d) {
      assert c < d;
    }
  }

  lemma RecreateStaysRight(w: World, s: State)
    requires Setting(w) && Inv(w, s) && Right(w, s) && Enabled(w, s, Recreate)
    ensures Right(w, Apply(w, s, Recreate))
  {
    assert s.published == s.base + s.floor;
    BootedIsRight(w, s.(base := s.published, first := 1, floor := 0, inflight := {}));
  }

  lemma StepStaysRight(w: World, s: State, step: Step)
    requires Setting(w) && Inv(w, s) && Right(w, s) && Enabled(w, s, step)
    requires step == FinishTurn ==> EndsWell(w, s)
    ensures Right(w, Apply(w, s, step))
  {
    match step
    case FinishFetch => FinishFetchStaysRight(w, s);
    case InsertBatch => InsertBatchStaysRight(w, s);
    case FinishTurn => FinishTurnStaysRight(w, s);
    case Crash => BootedIsRight(w, s);
    case Recreate => RecreateStaysRight(w, s);
    case Publish => QuietStaysRight(w, s, Apply(w, s, step));
    case Deliver(_) => QuietStaysRight(w, s, Apply(w, s, step));
    case AckLands(_) => QuietStaysRight(w, s, Apply(w, s, step));
    case Purge(_) => QuietStaysRight(w, s, Apply(w, s, step));
  }

  lemma {:induction false} RunStaysRight(w: World, s: State, steps: seq<Step>)
    requires Setting(w) && Inv(w, s) && Right(w, s) && Run(w, s, steps).Some? && TurnsEndWell(w, s, steps)
    ensures Right(w, Run(w, s, steps).value)
    decreases |steps|
  {
    if steps != [] {
      StepKeeps(w, s, steps[0]);
      StepStaysRight(w, s, steps[0]);
      RunStaysRight(w, Apply(w, s, steps[0]), steps[1..]);
    }
  }

  /**
   Attribution survives crashes: in every reachable state of every run, each row is a change of the
   log carrying the content of its transaction's earliest context message, or none if it has none.
   */
  lemma AttributionSurvivesCrashes(w: World, steps: seq<Step>, s: State, row: ChangeAttributes) returns (p: int)
    requires Setting(w) && Reaches(w, steps, s) && TurnsEndWell(w, Initial(), steps) && row in s.rows
    ensures MadeFrom(w, s.published, row, p) && Expected(w, p, row.context)
  {
    assert Inv(w, Initial());
    assert Right(w, Initial()) by {
      assert Initial() == Booted(Initial());
      BootedIsRight(w, Initial());
    }
    RunStaysRight(w, Initial(), steps);
    NeverWronglyAttributed(w, steps, s, row);
    p :| MadeFrom(w, s.published, row, p);
  }
}
