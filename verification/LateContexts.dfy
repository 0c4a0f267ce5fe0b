/**
 Which changes are held, and what for: a context that comes with the next fetch still reaches them.
 */
module LateContexts {
  import opened FetchedRecords
  import opened FetchedRecordBuffers
  import opened Stitching
  import opened StitchingProperties
  import opened Ingestion
  import opened TurnProperties
  import opened Incarnation
  import opened IdleFetches
  import BoundedMemory

  /** The only record of its transaction, and no record of its subject comes after it. */
  ghost predicate LoneAndLast(b: FetchedRecordBuffer, r: FetchedRecord) {
    && b.Has(r)
    && (forall x :: b.Has(x) && SameTransaction(x, r) ==> x == r)
    && (forall x :: b.Has(x) && x.subject == r.subject ==> Precedes(x, r))
  }

  lemma LoneIsTrailing(o: Settings, b: FetchedRecordBuffer, r: FetchedRecord)
    requires b.Valid() && DistinctSequences(b.Sorted(r.subject)) && r.IsChange() && LoneAndLast(b, r)
    ensures LoneTrailingChange(VisitFor(o, b, r), r)
  {
    AloneAgain(b, r);
    InSorted(b, r.subject, r);
    var s := b.Sorted(r.subject);
    InSorted(b, r.subject, s[|s| - 1]);
    SortRecordsSorts(b.FlatOf(r.subject));
    TrailingAgain(s, r);
  }

  lemma TrailingIsLast(o: Settings, b: FetchedRecordBuffer, r: FetchedRecord, x: FetchedRecord)
    requires b.Valid() && b.Has(r) && LoneTrailingChange(VisitFor(o, b, r), r)
    requires b.Has(x) && x.subject == r.subject
    ensures Precedes(x, r) && (SameTransaction(x, r) ==> x == r)
  {
    InSorted(b, r.subject, x);
    SortRecordsSorts(b.FlatOf(r.subject));
    Reflexive(b.Sorted(r.subject), x);
    OnlyMember(b.ByTransactionId(r.subject, r.TransactionId()), r);
  }

  lemma OnlyMember<T>(s: seq<T>, r: T)
    requires |s| == 1 && r in s
    ensures forall x :: x in s ==> x == r
  {
  }

  /** A change is held exactly when it is alone in its transaction and the very last of its subject. */
  lemma HeldChangesExactly(o: Settings, b: FetchedRecordBuffer, r: FetchedRecord)
    requires b.Valid() && DistinctSequences(b.Sorted(r.subject)) && o.useBuffer && r.IsChange()
    ensures Stitch(o, b).buffer.Has(r) <==> LoneAndLast(b, r)
  {
    HeldExactly(o, b, r);
    if LoneAndLast(b, r) {
      LoneIsTrailing(o, b, r);
    }
    if Fated(o, b, r, Hold) {
      forall x | b.Has(x) && x.subject == r.subject ensures Precedes(x, r) && (SameTransaction(x, r) ==> x == r) {
        TrailingIsLast(o, b, r, x);
      }
    }
  }

  /**
   The same told by operations, transactions and sequences: a row change is held exactly when buffering is
   on and every other record of its subject is of an earlier transaction.
   */
  lemma RowHeldExactly(o: Settings, b: FetchedRecordBuffer, r: FetchedRecord)
    requires b.Valid() && DistinctSequences(b.Sorted(r.subject)) && b.Has(r)
    requires r.changeAttributes.operation in {Create, Update, Delete, Truncate}
    ensures Stitch(o, b).buffer.Has(r) <==>
      && o.useBuffer
      && forall x :: b.Has(x) && x.subject == r.subject && x != r ==>
           x.changeAttributes.transactionId < r.changeAttributes.transactionId
  {
    HeldExactly(o, b, r);
    if o.useBuffer {
      HeldChangesExactly(o, b, r);
      LoneMeansOlder(b, r);
    }
  }

  lemma LoneMeansOlder(b: FetchedRecordBuffer, r: FetchedRecord)
    requires b.Has(r)
    ensures LoneAndLast(b, r) <==>
      forall x :: b.Has(x) && x.subject == r.subject && x != r ==>
        x.changeAttributes.transactionId < r.changeAttributes.transactionId
  {
    if LoneAndLast(b, r) {
      forall x | b.Has(x) && x.subject == r.subject && x != r
        ensures x.changeAttributes.transactionId < r.changeAttributes.transactionId
      {
        assert Precedes(x, r) && !SameTransaction(x, r);
      }
    }
  }

  /** Of a transaction whose change is held no context is. */
  lemma FirstIsNew(o: Settings, fetches: Fetches, r: FetchedRecord, f: FetchedRecord)
    requires fetches != [] && r.IsChange() && f.IsContextMessage() && SameTransaction(f, r)
    requires BufferAfter(o, fetches[..|fetches| - 1]).Has(r) && Facing(o, fetches).Has(f)
    ensures f in fetches[|fetches| - 1]
  {
    var front := fetches[..|fetches| - 1];
    FacingHas(o, fetches, f);
    if BufferAfter(o, front).Has(f) {
      BufferIsValid(o, front);
      ShapeOfHeld(o, Facing(o, front), r, f);
    }
  }

  /** The held change and a context of its transaction meet: the change goes out with the first one. */
  lemma MetIsReleased(o: Settings, b: FetchedRecordBuffer, r: FetchedRecord, c: FetchedRecord) returns (f: FetchedRecord)
    requires b.Valid() && InArrivalOrder(b) && b.Has(r) && b.Has(c)
    requires r.IsSavable() && c.IsContextMessage() && SameTransaction(r, c)
    ensures b.Has(f) && f.IsContextMessage() && SameTransaction(f, r) && f.streamSequence <= c.streamSequence
    ensures r.SetContext(f.Context()) in Stitch(o, b).released
  {
    LeastInList(b, r, c);
    f := FirstContext(b.ByTransactionId(r.subject, r.TransactionId())).value;
    ListedWith(b, r, f);
    PairedIsReleased(VisitFor(o, b, r), r, c);
    ReleasedArrives(o, b, r);
  }

  /**
   Whatever is to be saved and is not held is released, unchanged but for its context: that of the context
   message of its subject and transaction with the least sequence, if the pass has one.
   */
  lemma ReleasedWithFirstContext(o: Settings, b: FetchedRecordBuffer, r: FetchedRecord) returns (x: FetchedRecord)
    requires b.Valid() && InArrivalOrder(b) && b.Has(r) && !Stitch(o, b).buffer.Has(r)
    requires r.changeAttributes.operation == Message ==> r.messagePrefix !in {ContextPrefix, HeartbeatPrefix}
    ensures x in Stitch(o, b).released
    ensures x.(changeAttributes := x.changeAttributes.(context := r.changeAttributes.context)) == r
    ensures
      if exists c :: ContextBeside(b, r, c)
      then exists c :: ContextBeside(b, r, c) && x.changeAttributes.context == c.changeAttributes.context
                       && forall k :: ContextBeside(b, r, k) ==> c.streamSequence <= k.streamSequence
      else x == r
  {
    x := AttributedIn(b, r);
    HeldExactly(o, b, r);
    SavableFate(VisitFor(o, b, r), r);
    ReleasedArrives(o, b, r);
    var list := b.ByTransactionId(r.subject, r.TransactionId());
    FirstContextFound(list);
    forall k | ContextBeside(b, r, k)
      ensures FirstContext(list).Some? && FirstContext(list).value.streamSequence <= k.streamSequence
    {
      LeastInList(b, r, k);
    }
    if FirstContext(list).Some? {
      ListedWith(b, r, FirstContext(list).value);
      assert ContextBeside(b, r, FirstContext(list).value);
    }
  }

  ghost predicate ContextBeside(b: FetchedRecordBuffer, r: FetchedRecord, c: FetchedRecord) {
    && b.Has(c) && c.changeAttributes.operation == Message && c.messagePrefix == ContextPrefix
    && c.subject == r.subject && c.changeAttributes.transactionId == r.changeAttributes.transactionId
  }

  /**
   A context that comes one fetch after its change is not late: the held change is released with the
   earliest context of its transaction in that fetch.
   */
  lemma LateContextIsMet(o: Settings, fetches: Fetches, r: FetchedRecord, c: FetchedRecord) returns (f: FetchedRecord)
    requires fetches != [] && StrictlyAscending(Flatten(fetches))
    requires r.IsChange() && BufferAfter(o, fetches[..|fetches| - 1]).Has(r)
    requires c in fetches[|fetches| - 1] && c.IsContextMessage() && SameTransaction(r, c)
    ensures f in fetches[|fetches| - 1] && f.IsContextMessage() && SameTransaction(f, r)
    ensures f.streamSequence <= c.streamSequence
    ensures r.SetContext(f.Context()) in Stitch(o, Facing(o, fetches)).released
  {
    BufferIsValid(o, fetches);
    BufferInOrder(o, fetches);
    FacingHas(o, fetches, r);
    FacingHas(o, fetches, c);
    f := MetIsReleased(o, Facing(o, fetches), r, c);
    FirstIsNew(o, fetches, r, f);
  }

  // ---------------------------------------------------------------------------------------------
  // A heartbeat that frees nothing
  // ---------------------------------------------------------------------------------------------

  /** A change and after it a heartbeat of an older transaction. */
  ghost predicate HeartbeatBehind(o: Settings, x: FetchedRecord, h: FetchedRecord) {
    && o.useBuffer && x.IsChange() && h.IsHeartbeatMessage() && x.subject == h.subject
    && x.streamSequence < h.streamSequence && h.TransactionId() < x.TransactionId()
  }

  ghost predicate HasTwo(b: FetchedRecordBuffer, x: FetchedRecord, h: FetchedRecord) {
    forall r :: b.Has(r) <==> r == x || r == h
  }

  lemma BehindIsHeld(o: Settings, b: FetchedRecordBuffer, x: FetchedRecord, h: FetchedRecord)
    requires HeartbeatBehind(o, x, h) && b.Valid() && DistinctSequences(b.Sorted(x.subject)) && HasTwo(b, x, h)
    ensures Stitch(o, b).buffer.Has(x)
  {
    assert b.Has(x);
    HeldChangesExactly(o, b, x);
  }

  lemma LeftMeansNotLast(o: Settings, fetches: Fetches, x: FetchedRecord, h: FetchedRecord)
    requires HeartbeatBehind(o, x, h) && BufferAfter(o, fetches).Has(x)
    ensures !BoundedMemory.VisitEndsWith(o, fetches, h)
  {
    if BoundedMemory.VisitEndsWith(o, fetches, h) {
      BoundedMemory.HeartbeatFreesChanges(o, fetches, h, x);
    }
  }

  lemma PairFaced(o: Settings, fetches: Fetches, x: FetchedRecord, h: FetchedRecord)
    requires fetches == [[x, h]]
    ensures HasTwo(Facing(o, fetches), x, h)
  {
    forall r ensures Facing(o, fetches).Has(r) <==> r == x || r == h {
      OneFetchFaced(o, fetches, [x, h], r);
    }
  }

  lemma PairDistinct(o: Settings, fetches: Fetches, records: seq<FetchedRecord>, subject: string)
    requires fetches == [records] && StrictlyAscending(records)
    ensures Facing(o, fetches).Valid() && DistinctSequences(Facing(o, fetches).Sorted(subject))
  {
    OneFetchFlattens(fetches, records);
    BufferIsValid(o, fetches);
    FacedDistinct(o, fetches, subject);
  }

  lemma PairIsLeft(o: Settings, fetches: Fetches, x: FetchedRecord, h: FetchedRecord)
    requires HeartbeatBehind(o, x, h) && fetches == [[x, h]]
    ensures BufferAfter(o, fetches).Has(x)
  {
    PairFaced(o, fetches, x, h);
    PairDistinct(o, fetches, [x, h], x.subject);
    BehindIsHeld(o, Facing(o, fetches), x, h);
  }

  /** The heartbeat is the last record fetched but not the last visited, and the change stays held. */
  lemma HeartbeatCanLeaveChange(o: Settings, x: FetchedRecord, h: FetchedRecord)
    requires HeartbeatBehind(o, x, h)
    ensures BufferAfter(o, [[x, h]]).Has(x) && !BoundedMemory.VisitEndsWith(o, [[x, h]], h)
  {
    PairIsLeft(o, [[x, h]], x, h);
    LeftMeansNotLast(o, [[x, h]], x, h);
  }
}
