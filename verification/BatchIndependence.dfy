/**
 With `useBuffer` on, what an incarnation releases, with what it still holds, is the one-pass
 stitching of the whole stream exactly when no fetch boundary separates a change from a later record
 of its transaction that needs the context.
 */
module BatchIndependence {
  import opened Wrappers
  import opened FetchedRecords
  import opened FetchedRecordBuffers
  import opened Stitching
  import opened StitchingProperties
  import opened Ingestion
  import opened Incarnation

  // ---------------------------------------------------------------------------------------------
  // The simple specification: each change with its transaction's first context
  // ---------------------------------------------------------------------------------------------

  function ContextIn(stream: seq<FetchedRecord>, r: FetchedRecord): Option<FetchedRecord> {
    if stream == [] then None
    else if stream[0].IsContextMessage() && SameTransaction(stream[0], r) then Some(stream[0])
    else ContextIn(stream[1..], r)
  }

  function WithContext(stream: seq<FetchedRecord>, r: FetchedRecord): FetchedRecord {
    match ContextIn(stream, r)
    case Some(c) => r.SetContext(c.Context())
    case None => r
  }

  function WithContexts(stream: seq<FetchedRecord>, s: seq<FetchedRecord>): seq<FetchedRecord> {
    if s == [] then [] else WithContexts(stream, s[..|s| - 1]) + [WithContext(stream, s[|s| - 1])]
  }

  function Savables(s: seq<FetchedRecord>): seq<FetchedRecord> {
    if s == [] then []
    else Savables(s[..|s| - 1]) + if s[|s| - 1].IsSavable() then [s[|s| - 1]] else []
  }

  function OnePass(stream: seq<FetchedRecord>): seq<FetchedRecord> {
    WithContexts(stream, Savables(stream))
  }

  // ---------------------------------------------------------------------------------------------
  // The hypothesis
  // ---------------------------------------------------------------------------------------------

  /** Contexts precede the changes of their transaction, and those follow the first within the orphan gap. */
  ghost predicate ContextsLead(o: Settings, stream: seq<FetchedRecord>) {
    && (forall c, r :: c in stream && r in stream && c.IsContextMessage() && r.IsSavable() && SameTransaction(c, r) ==>
          c.streamSequence < r.streamSequence)
    && (forall r :: r in stream && r.IsSavable() && ContextIn(stream, r).Some? ==>
          r.streamSequence <= ContextIn(stream, r).value.streamSequence + o.orphanContextSequenceGap)
  }

  /** The fetches are a way of cutting the beginning of the stream. */
  ghost predicate Cuts(o: Settings, stream: seq<FetchedRecord>, fetches: Fetches) {
    && o.useBuffer
    && StrictlyAscending(stream) && ContextsLead(o, stream)
    && Flatten(fetches) <= stream
  }

  /** These records include a change of this record's transaction. */
  ghost predicate ChangeIn(s: seq<FetchedRecord>, r: FetchedRecord) {
    exists x :: x in s && x.IsChange() && SameTransaction(x, r)
  }

  /** The k-th fetch boundary lies after some change of the record's transaction and before the record. */
  ghost predicate Separates(fetches: Fetches, k: nat, r: FetchedRecord)
    requires k <= |fetches|
  {
    ChangeIn(Flatten(fetches[..k]), r) && r !in Flatten(fetches[..k])
  }

  /** No boundary separates a change from a later record of its transaction whose context it needs. */
  ghost predicate CutsKeepContexts(stream: seq<FetchedRecord>, fetches: Fetches) {
    forall k, r | 0 <= k <= |fetches| && r in stream && r.IsSavable() ::
      Separates(fetches, k, r) ==> WithContext(stream, r) == r
  }

  /** The fetch that brought the record came after one with a change of its transaction. */
  ghost predicate Severed(fetches: Fetches, r: FetchedRecord)
    decreases |fetches|
  {
    fetches != [] &&
    var front := fetches[..|fetches| - 1];
    if r in fetches[|fetches| - 1] then ChangeIn(Flatten(front), r) else Severed(front, r)
  }

  /** What becomes of a savable record: bare when severed, with its first context otherwise. */
  ghost function Given(stream: seq<FetchedRecord>, fetches: Fetches, r: FetchedRecord): FetchedRecord {
    if Severed(fetches, r) then r else WithContext(stream, r)
  }

  ghost function GivenEach(stream: seq<FetchedRecord>, fetches: Fetches, s: seq<FetchedRecord>): seq<FetchedRecord> {
    if s == [] then []
    else GivenEach(stream, fetches, s[..|s| - 1]) + [Given(stream, fetches, s[|s| - 1])]
  }

  // ---------------------------------------------------------------------------------------------
  // The first context
  // ---------------------------------------------------------------------------------------------

  lemma {:induction false} ContextInFound(stream: seq<FetchedRecord>, r: FetchedRecord)
    ensures
      match ContextIn(stream, r)
      case None => forall x :: x in stream && x.IsContextMessage() ==> !SameTransaction(x, r)
      case Some(c) => c in stream && c.IsContextMessage() && SameTransaction(c, r)
  {
    if stream != [] && !(stream[0].IsContextMessage() && SameTransaction(stream[0], r)) {
      ContextInFound(stream[1..], r);
      assert stream == [stream[0]] + stream[1..];
    }
  }

  lemma {:induction false} ContextInIsFirst(stream: seq<FetchedRecord>, r: FetchedRecord, x: FetchedRecord)
    requires StrictlyAscending(stream) && x in stream && x.IsContextMessage() && SameTransaction(x, r)
    ensures ContextIn(stream, r).Some? && ContextIn(stream, r).value.streamSequence <= x.streamSequence
  {
    if !(stream[0].IsContextMessage() && SameTransaction(stream[0], r)) {
      assert stream == [stream[0]] + stream[1..];
      ContextInIsFirst(stream[1..], r, x);
    }
  }

  /** The stream is fetched in order. */
  lemma FetchedBefore(stream: seq<FetchedRecord>, fetched: seq<FetchedRecord>, x: FetchedRecord, r: FetchedRecord)
    requires StrictlyAscending(stream) && fetched <= stream
    requires x in stream && r in fetched && x.streamSequence <= r.streamSequence
    ensures x in fetched
  {
  }

  lemma LaterThanFetched(stream: seq<FetchedRecord>, fetched: seq<FetchedRecord>, x: FetchedRecord, r: FetchedRecord)
    requires StrictlyAscending(stream) && fetched <= stream
    requires x in stream && x !in fetched && r in fetched
    ensures r.streamSequence < x.streamSequence
  {
  }

  lemma FrontCuts(o: Settings, stream: seq<FetchedRecord>, fetches: Fetches)
    requires fetches != [] && Cuts(o, stream, fetches)
    ensures Cuts(o, stream, fetches[..|fetches| - 1])
    ensures StrictlyAscending(Flatten(fetches))
  {
  }

  // ---------------------------------------------------------------------------------------------
  // Boundaries
  // ---------------------------------------------------------------------------------------------

  lemma ChangeStays(earlier: Fetches, fetches: Fetches, r: FetchedRecord)
    requires Earlier(earlier, fetches) && ChangeIn(Flatten(earlier), r)
    ensures ChangeIn(Flatten(fetches), r)
  {
    EarlierFlattens(earlier, fetches);
    var x :| x in Flatten(earlier) && x.IsChange() && SameTransaction(x, r);
    assert x in Flatten(fetches);
  }

  lemma {:induction false} SeparatedIsSevered(fetches: Fetches, k: nat, r: FetchedRecord)
    requires r in Flatten(fetches) && k <= |fetches| && Separates(fetches, k, r)
    requires StrictlyAscending(Flatten(fetches))
    ensures Severed(fetches, r)
    decreases |fetches|
  {
    assert fetches[..|fetches|] == fetches;
    var front := fetches[..|fetches| - 1];
    assert front[..k] == fetches[..k];
    if r in fetches[|fetches| - 1] {
      ChangeStays(fetches[..k], front, r);
    } else {
      FrontAscends(fetches);
      SeparatedIsSevered(front, k, r);
    }
  }

  lemma {:induction false} SeveredIsSeparated(fetches: Fetches, r: FetchedRecord) returns (k: nat)
    requires Severed(fetches, r) && StrictlyAscending(Flatten(fetches))
    ensures k <= |fetches| && Separates(fetches, k, r)
    decreases |fetches|
  {
    var front := fetches[..|fetches| - 1];
    if r in fetches[|fetches| - 1] {
      k := |front|;
      if r in Flatten(front) {
        NewIsLater(fetches, r, r);
      }
    } else {
      FrontAscends(fetches);
      k := SeveredIsSeparated(front, r);
      assert front[..k] == fetches[..k];
    }
  }

  lemma NotInLast(fetches: Fetches, r: FetchedRecord)
    requires fetches != [] && StrictlyAscending(Flatten(fetches)) && r in Flatten(fetches[..|fetches| - 1])
    ensures r !in fetches[|fetches| - 1]
  {
    if r in fetches[|fetches| - 1] {
      NewIsLater(fetches, r, r);
    }
  }

  // ---------------------------------------------------------------------------------------------
  // A context stays until the first change of its transaction, and no longer
  // ---------------------------------------------------------------------------------------------

  lemma NoChangeFaced(o: Settings, fetches: Fetches, r: FetchedRecord, c: FetchedRecord)
    requires fetches != [] && !ChangeIn(Flatten(fetches), r) && SameTransaction(c, r)
    ensures !ChangeArrived(Facing(o, fetches).ByTransactionId(c.subject, c.TransactionId()))
  {
    var b := Facing(o, fetches);
    BufferIsValid(o, fetches);
    forall x | x in b.ByTransactionId(c.subject, c.TransactionId()) ensures !x.IsChange() {
      ListedWith(b, c, x);
      FacedIsFetched(o, fetches, x);
    }
  }

  lemma NotYetOrphaned(o: Settings, stream: seq<FetchedRecord>, fetches: Fetches, r: FetchedRecord, c: FetchedRecord)
    requires fetches != [] && Cuts(o, stream, fetches)
    requires r in stream && r.IsSavable() && r !in Flatten(fetches) && ContextIn(stream, r) == Some(c)
    requires Facing(o, fetches).Has(c)
    ensures c.subject in Facing(o, fetches).store.keys
    ensures !Orphaned(VisitFor(o, Facing(o, fetches), c), c)
  {
    BufferIsValid(o, fetches);
    FacedBeforeIt(o, stream, fetches, r);
    NearIsNoOrphan(o, Facing(o, fetches), c, r.streamSequence);
  }

  lemma FacedBeforeIt(o: Settings, stream: seq<FetchedRecord>, fetches: Fetches, r: FetchedRecord)
    requires fetches != [] && StrictlyAscending(stream) && Flatten(fetches) <= stream
    requires r in stream && r !in Flatten(fetches)
    ensures forall x :: Facing(o, fetches).Has(x) ==> x.streamSequence <= r.streamSequence
  {
    forall x | Facing(o, fetches).Has(x) ensures x.streamSequence <= r.streamSequence {
      FacedIsFetched(o, fetches, x);
      LaterThanFetched(stream, Flatten(fetches), r, x);
    }
  }

  /** A fetched context is in memory as long as it has a change to come and none has. */
  lemma {:induction false} ContextStays(o: Settings, stream: seq<FetchedRecord>, fetches: Fetches,
                                        r: FetchedRecord, c: FetchedRecord)
    requires Cuts(o, stream, fetches)
    requires r in stream && r.IsSavable() && ContextIn(stream, r) == Some(c)
    requires r !in Flatten(fetches) && !ChangeIn(Flatten(fetches), r) && c in Flatten(fetches)
    ensures BufferAfter(o, fetches).Has(c)
    decreases |fetches|
  {
    var b := Facing(o, fetches);
    ContextInFound(stream, r);
    FrontCuts(o, stream, fetches);
    if c !in fetches[|fetches| - 1] {
      InFetches(fetches, r);
      ContextStays(o, stream, fetches[..|fetches| - 1], r, c);
    }
    FacingHas(o, fetches, c);
    NoChangeFaced(o, fetches, r, c);
    NotYetOrphaned(o, stream, fetches, r, c);
    AwaitingIsHeld(VisitFor(o, b, c), c);
    BufferIsValid(o, fetches);
    HeldExactly(o, b, c);
  }

  /** A context leaves memory with the pass that sees the first change of its transaction. */
  lemma ContextLeavesWithFirstChange(o: Settings, fetches: Fetches, c: FetchedRecord, r: FetchedRecord)
    requires fetches != [] && Facing(o, fetches).Has(r) && r.IsChange()
    requires c.IsContextMessage() && SameTransaction(c, r)
    ensures !BufferAfter(o, fetches).Has(c)
  {
    var b := Facing(o, fetches);
    BufferIsValid(o, fetches);
    HeldExactly(o, b, c);
    assert r in b.ByTransactionId(c.subject, c.TransactionId());
  }

  lemma NotFacedNotHeld(o: Settings, fetches: Fetches, c: FetchedRecord)
    requires fetches != [] && !Facing(o, fetches).Has(c)
    ensures !BufferAfter(o, fetches).Has(c)
  {
    if BufferAfter(o, fetches).Has(c) {
      HeldWasFaced(o, fetches, c);
    }
  }

  /** And is not in memory again. */
  lemma {:induction false} ContextsAreGone(o: Settings, fetches: Fetches, x: FetchedRecord, c: FetchedRecord)
    requires StrictlyAscending(Flatten(fetches)) && x in Flatten(fetches) && x.IsChange()
    requires c.IsContextMessage() && SameTransaction(c, x) && c.streamSequence < x.streamSequence
    ensures !BufferAfter(o, fetches).Has(c)
    decreases |fetches|
  {
    if x in fetches[|fetches| - 1] {
      FacingHas(o, fetches, x);
      ContextLeavesWithFirstChange(o, fetches, c, x);
    } else {
      InFetches(fetches, x);
      GoneStaysGone(o, fetches, x, c);
      NotFacedNotHeld(o, fetches, c);
    }
  }

  lemma {:induction false} GoneStaysGone(o: Settings, fetches: Fetches, x: FetchedRecord, c: FetchedRecord)
    requires fetches != [] && StrictlyAscending(Flatten(fetches))
    requires x in Flatten(fetches[..|fetches| - 1]) && x.IsChange()
    requires c.IsContextMessage() && SameTransaction(c, x) && c.streamSequence < x.streamSequence
    ensures !Facing(o, fetches).Has(c)
    decreases |fetches|, 0
  {
    FrontAscends(fetches);
    ContextsAreGone(o, fetches[..|fetches| - 1], x, c);
    FacingHas(o, fetches, c);
    if c in fetches[|fetches| - 1] {
      NewIsLater(fetches, x, c);
    }
  }

  /** The contexts of a transaction that have been fetched all precede this record. */
  ghost predicate LedByContexts(s: seq<FetchedRecord>, x: FetchedRecord) {
    forall c :: c in s && c.IsContextMessage() && SameTransaction(c, x) ==> c.streamSequence < x.streamSequence
  }

  /** After a fetch with a change, the transaction's records meet no context any more. */
  lemma ComesBare(o: Settings, fetches: Fetches, x: FetchedRecord, r: FetchedRecord)
    requires fetches != [] && StrictlyAscending(Flatten(fetches)) && LedByContexts(Flatten(fetches), x)
    requires x in Flatten(fetches[..|fetches| - 1]) && x.IsChange() && SameTransaction(x, r)
    ensures AttributedIn(Facing(o, fetches), r) == r
  {
    var b := Facing(o, fetches);
    var list := b.ByTransactionId(r.subject, r.TransactionId());
    FirstContextFound(list);
    if FirstContext(list).Some? {
      var c := FirstContext(list).value;
      BufferIsValid(o, fetches);
      ListedWith(b, r, c);
      FacedIsFetched(o, fetches, c);
      GoneStaysGone(o, fetches, x, c);
    }
  }

  // ---------------------------------------------------------------------------------------------
  // What each pass gives
  // ---------------------------------------------------------------------------------------------

  /** A record that is not severed meets its context: fetched with it, or kept for it. */
  lemma ContextIsFaced(o: Settings, stream: seq<FetchedRecord>, fetches: Fetches, r: FetchedRecord, c: FetchedRecord)
    requires fetches != [] && Cuts(o, stream, fetches)
    requires r in fetches[|fetches| - 1] && r.IsSavable() && ContextIn(stream, r) == Some(c)
    requires !ChangeIn(Flatten(fetches[..|fetches| - 1]), r)
    ensures Facing(o, fetches).Has(c)
  {
    var front := fetches[..|fetches| - 1];
    InFetches(fetches, r);
    ContextInFound(stream, r);
    FetchedBefore(stream, Flatten(fetches), c, r);
    InFetches(fetches, c);
    FacingHas(o, fetches, c);
    FrontCuts(o, stream, fetches);
    if c !in fetches[|fetches| - 1] {
      if r in Flatten(front) {
        NewIsLater(fetches, r, r);
      }
      ContextStays(o, stream, front, r, c);
    }
  }

  /** Unless it is severed, a change is held only when its transaction has no context at all. */
  lemma {:induction false} HeldHasNoContext(o: Settings, stream: seq<FetchedRecord>, fetches: Fetches, r: FetchedRecord)
    requires Cuts(o, stream, fetches)
    requires BufferAfter(o, fetches).Has(r) && r.IsSavable() && !Severed(fetches, r)
    ensures ContextIn(stream, r).None?
    decreases |fetches|
  {
    var b := Facing(o, fetches);
    HeldWasFaced(o, fetches, r);
    FacingHas(o, fetches, r);
    FrontCuts(o, stream, fetches);
    if r !in fetches[|fetches| - 1] {
      HeldHasNoContext(o, stream, fetches[..|fetches| - 1], r);
    } else if c :| ContextIn(stream, r) == Some(c) {
      ContextIsFaced(o, stream, fetches, r, c);
      ContextInFound(stream, r);
      PairedIsReleased(VisitFor(o, b, r), r, c);
    }
  }

  lemma HeldIsGivenItself(o: Settings, stream: seq<FetchedRecord>, fetches: Fetches, r: FetchedRecord)
    requires Cuts(o, stream, fetches) && BufferAfter(o, fetches).Has(r) && r.IsSavable()
    ensures Given(stream, fetches, r) == r
  {
    if !Severed(fetches, r) {
      HeldHasNoContext(o, stream, fetches, r);
    }
  }

  lemma FirstInListIsFirst(o: Settings, stream: seq<FetchedRecord>, fetches: Fetches, r: FetchedRecord, c: FetchedRecord)
    requires fetches != [] && Cuts(o, stream, fetches)
    requires ContextIn(stream, r) == Some(c) && Facing(o, fetches).Has(c)
    ensures FirstContext(Facing(o, fetches).ByTransactionId(r.subject, r.TransactionId())) == Some(c)
  {
    var b := Facing(o, fetches);
    FrontCuts(o, stream, fetches);
    BufferInOrder(o, fetches);
    BufferIsValid(o, fetches);
    ContextInFound(stream, r);
    LeastInList(b, r, c);
    var f := FirstContext(b.ByTransactionId(r.subject, r.TransactionId())).value;
    ListedWith(b, r, f);
    FacedIsFetched(o, fetches, f);
    ContextInIsFirst(stream, r, f);
    SameSequenceSameRecord(stream, f, c);
  }

  lemma NoneInList(o: Settings, stream: seq<FetchedRecord>, fetches: Fetches, r: FetchedRecord)
    requires fetches != [] && Cuts(o, stream, fetches) && ContextIn(stream, r).None?
    ensures FirstContext(Facing(o, fetches).ByTransactionId(r.subject, r.TransactionId())).None?
  {
    var b := Facing(o, fetches);
    var list := b.ByTransactionId(r.subject, r.TransactionId());
    FirstContextFound(list);
    if FirstContext(list).Some? {
      var f := FirstContext(list).value;
      BufferIsValid(o, fetches);
      ListedWith(b, r, f);
      FacedIsFetched(o, fetches, f);
      ContextInFound(stream, r);
    }
  }

  lemma LedInStream(o: Settings, stream: seq<FetchedRecord>, fetched: seq<FetchedRecord>, x: FetchedRecord)
    requires ContextsLead(o, stream) && fetched <= stream && x in fetched && x.IsChange()
    ensures LedByContexts(fetched, x)
  {
    assert forall y :: y in fetched ==> y in stream;
  }

  lemma SeveredComesBare(o: Settings, stream: seq<FetchedRecord>, fetches: Fetches, r: FetchedRecord)
    requires fetches != [] && Cuts(o, stream, fetches) && ChangeIn(Flatten(fetches[..|fetches| - 1]), r)
    ensures AttributedIn(Facing(o, fetches), r) == r
  {
    var x :| x in Flatten(fetches[..|fetches| - 1]) && x.IsChange() && SameTransaction(x, r);
    FrontCuts(o, stream, fetches);
    InFetches(fetches, x);
    LedInStream(o, stream, Flatten(fetches), x);
    ComesBare(o, fetches, x, r);
  }

  lemma NewAsGiven(o: Settings, stream: seq<FetchedRecord>, fetches: Fetches, r: FetchedRecord)
    requires fetches != [] && Cuts(o, stream, fetches) && r in fetches[|fetches| - 1] && r.IsSavable()
    ensures AttributedIn(Facing(o, fetches), r) == Given(stream, fetches, r)
  {
    if Severed(fetches, r) {
      SeveredComesBare(o, stream, fetches, r);
    } else {
      match ContextIn(stream, r)
      case None =>
        NoneInList(o, stream, fetches, r);
      case Some(c) =>
        ContextIsFaced(o, stream, fetches, r, c);
        FirstInListIsFirst(o, stream, fetches, r, c);
    }
  }

  lemma HeldAsGiven(o: Settings, stream: seq<FetchedRecord>, fetches: Fetches, r: FetchedRecord)
    requires fetches != [] && Cuts(o, stream, fetches) && r !in fetches[|fetches| - 1] && r.IsSavable()
    requires BufferAfter(o, fetches[..|fetches| - 1]).Has(r)
    ensures AttributedIn(Facing(o, fetches), r) == Given(stream, fetches, r)
  {
    var front := fetches[..|fetches| - 1];
    FrontCuts(o, stream, fetches);
    HeldIsGivenItself(o, stream, front, r);
    HeldIsFetched(o, front, r);
    HeldSavableIsChange(o, front, r);
    SeveredComesBare(o, stream, fetches, r);
  }

  lemma HeldSavableIsChange(o: Settings, fetches: Fetches, r: FetchedRecord)
    requires BufferAfter(o, fetches).Has(r) && r.IsSavable()
    ensures r.IsChange()
  {
    HeldWasFaced(o, fetches, r);
    HeldKinds(o, Facing(o, fetches), r);
  }

  /** A pass gives each savable record it faces its first context, unless the record was severed from it. */
  lemma AttributedAsGiven(o: Settings, stream: seq<FetchedRecord>, fetches: Fetches, r: FetchedRecord)
    requires fetches != [] && Cuts(o, stream, fetches) && Facing(o, fetches).Has(r) && r.IsSavable()
    ensures AttributedIn(Facing(o, fetches), r) == Given(stream, fetches, r)
  {
    FacingHas(o, fetches, r);
    if r in fetches[|fetches| - 1] {
      NewAsGiven(o, stream, fetches, r);
    } else {
      HeldAsGiven(o, stream, fetches, r);
    }
  }

  lemma {:induction false} EachAsGiven(stream: seq<FetchedRecord>, fetches: Fetches, b: FetchedRecordBuffer, s: seq<FetchedRecord>)
    requires forall i :: 0 <= i < |s| ==> AttributedIn(b, s[i]) == Given(stream, fetches, s[i])
    ensures AttributeEach(b, s) == GivenEach(stream, fetches, s)
    decreases |s|
  {
    if s != [] {
      EachAsGiven(stream, fetches, b, s[..|s| - 1]);
    }
  }

  lemma PassAsGiven(o: Settings, stream: seq<FetchedRecord>, fetches: Fetches)
    requires fetches != [] && Cuts(o, stream, fetches)
    ensures Stitch(o, Facing(o, fetches)).released == GivenEach(stream, fetches, Taken(o, Facing(o, fetches)))
  {
    var b := Facing(o, fetches);
    var taken := Taken(o, b);
    BufferIsValid(o, fetches);
    StitchReleases(o, b);
    forall i | 0 <= i < |taken| ensures AttributedIn(b, taken[i]) == Given(stream, fetches, taken[i]) {
      SelectedExactly(o, b, Release, taken[i]);
      FatesMakeSense(Visits(o, b), Release, taken[i]);
      AttributedAsGiven(o, stream, fetches, taken[i]);
    }
    EachAsGiven(stream, fetches, b, taken);
  }

  lemma {:induction false} GivenConcat(stream: seq<FetchedRecord>, fetches: Fetches, a: seq<FetchedRecord>, b: seq<FetchedRecord>)
    ensures GivenEach(stream, fetches, a + b) == GivenEach(stream, fetches, a) + GivenEach(stream, fetches, b)
    decreases |b|
  {
    if b == [] {
      assert a + b == a;
    } else {
      GivenConcat(stream, fetches, a, b[..|b| - 1]);
      assert (a + b)[..|a + b| - 1] == a + b[..|b| - 1];
    }
  }

  /** A later fetch does not change what an earlier record is given. */
  lemma {:induction false} GivenBefore(stream: seq<FetchedRecord>, fetches: Fetches, s: seq<FetchedRecord>)
    requires fetches != [] && forall i :: 0 <= i < |s| ==> s[i] !in fetches[|fetches| - 1]
    ensures GivenEach(stream, fetches, s) == GivenEach(stream, fetches[..|fetches| - 1], s)
    decreases |s|
  {
    if s != [] {
      GivenBefore(stream, fetches, s[..|s| - 1]);
    }
  }

  lemma {:induction false} RunAsGiven(o: Settings, stream: seq<FetchedRecord>, fetches: Fetches)
    requires Cuts(o, stream, fetches)
    ensures ReleasedOver(o, fetches) == GivenEach(stream, fetches, TakenOver(o, fetches))
    decreases |fetches|
  {
    if fetches != [] {
      var front := fetches[..|fetches| - 1];
      var taken := TakenOver(o, front);
      FrontCuts(o, stream, fetches);
      RunAsGiven(o, stream, front);
      forall i | 0 <= i < |taken| ensures taken[i] !in fetches[|fetches| - 1] {
        TakenIsFetched(o, front, i);
        NotInLast(fetches, taken[i]);
      }
      GivenBefore(stream, fetches, taken);
      PassAsGiven(o, stream, fetches);
      GivenConcat(stream, fetches, taken, Taken(o, Facing(o, fetches)));
    }
  }

  // ---------------------------------------------------------------------------------------------
  // The multiset
  // ---------------------------------------------------------------------------------------------

  lemma {:induction false} SavablesCount(s: seq<FetchedRecord>, r: FetchedRecord)
    ensures CountIn(Savables(s), r) == if r.IsSavable() then CountIn(s, r) else 0
  {
    if s != [] {
      var front, last := s[..|s| - 1], s[|s| - 1];
      SavablesCount(front, r);
      assert s == front + [last];
      CountConcat(front, [last], r);
      CountConcat(Savables(front), if last.IsSavable() then [last] else [], r);
    }
  }

  /** Attributing does not depend on the order. */
  lemma {:induction false} GivenOfMultiset(stream: seq<FetchedRecord>, fetches: Fetches, a: seq<FetchedRecord>, b: seq<FetchedRecord>)
    requires multiset(a) == multiset(b)
    ensures multiset(GivenEach(stream, fetches, a)) == multiset(GivenEach(stream, fetches, b))
    decreases |a|
  {
    if a == [] {
      assert |multiset(b)| == 0;
      assert b == [];
    } else {
      var front, last := a[..|a| - 1], a[|a| - 1];
      assert a == front + [last];
      assert last in multiset(b);
      var i :| 0 <= i < |b| && b[i] == last;
      var before, after := b[..i], b[i + 1..];
      Remove(front, before, last, after, b);
      GivenOfMultiset(stream, fetches, front, before + after);
      GivenConcat(stream, fetches, before, after);
      GivenConcat(stream, fetches, before, [last] + after);
      GivenConcat(stream, fetches, [last], after);
      GivenConcat(stream, fetches, front, [last]);
      Reinsert(GivenEach(stream, fetches, front), GivenEach(stream, fetches, before),
               GivenEach(stream, fetches, [last]), GivenEach(stream, fetches, after));
    }
  }

  lemma Remove<T>(front: seq<T>, before: seq<T>, x: T, after: seq<T>, b: seq<T>)
    requires b == before + ([x] + after) || b == before + [x] + after
    requires multiset(front + [x]) == multiset(b)
    ensures b == before + ([x] + after)
    ensures multiset(front) == multiset(before + after)
  {
    assert b == before + ([x] + after);
    assert multiset(b) == multiset(before) + multiset{x} + multiset(after);
    assert multiset(front) == multiset(front + [x]) - multiset{x};
  }

  lemma Reinsert<T>(front: seq<T>, before: seq<T>, x: seq<T>, after: seq<T>)
    requires multiset(front) == multiset(before + after)
    ensures multiset(front + x) == multiset(before + (x + after))
  {
  }

  lemma SameCounts(a: seq<FetchedRecord>, b: seq<FetchedRecord>)
    requires forall r :: CountIn(a, r) == CountIn(b, r)
    ensures multiset(a) == multiset(b)
  {
    forall r ensures multiset(a)[r] == multiset(b)[r] {
      assert CountIn(a, r) == CountIn(b, r);
    }
  }

  /** Released or held: every savable record fetched, each as often as it was fetched. */
  lemma TakenAndHeld(o: Settings, fetches: Fetches)
    ensures multiset(TakenOver(o, fetches) + Savables(BufferAfter(o, fetches).Records())) == multiset(Savables(Flatten(fetches)))
  {
    var taken, held := TakenOver(o, fetches), BufferAfter(o, fetches).Records();
    forall r ensures CountIn(taken + Savables(held), r) == CountIn(Savables(Flatten(fetches)), r) {
      CountConcat(taken, Savables(held), r);
      SavablesCount(held, r);
      SavablesCount(Flatten(fetches), r);
      if r.IsSavable() {
        RunBalances(o, fetches, r);
      } else if r in taken {
        ReleasedIsTaken(o, fetches);
      }
    }
    SameCounts(taken + Savables(held), Savables(Flatten(fetches)));
  }

  lemma {:induction false} GivenThemselves(stream: seq<FetchedRecord>, fetches: Fetches, s: seq<FetchedRecord>)
    requires forall i :: 0 <= i < |s| ==> Given(stream, fetches, s[i]) == s[i]
    ensures GivenEach(stream, fetches, s) == s
    decreases |s|
  {
    if s != [] {
      var front, last := s[..|s| - 1], s[|s| - 1];
      assert Given(stream, fetches, last) == last;
      GivenThemselves(stream, fetches, front);
      assert s == front + [last];
    }
  }

  lemma HeldAreGivenThemselves(o: Settings, stream: seq<FetchedRecord>, fetches: Fetches)
    requires Cuts(o, stream, fetches)
    ensures
      var held := Savables(BufferAfter(o, fetches).Records());
      GivenEach(stream, fetches, held) == held
  {
    var b := BufferAfter(o, fetches);
    var held := Savables(b.Records());
    BufferIsValid(o, fetches);
    forall i | 0 <= i < |held| ensures Given(stream, fetches, held[i]) == held[i] {
      SavablesCount(b.Records(), held[i]);
      assert held[i] in multiset(held);
      InRecords(b, held[i]);
      HeldIsGivenItself(o, stream, fetches, held[i]);
    }
    GivenThemselves(stream, fetches, held);
  }

  /** What came out of a run, and the changes it still holds. */
  function Outcome(o: Settings, fetches: Fetches): seq<FetchedRecord> {
    ReleasedOver(o, fetches) + Savables(BufferAfter(o, fetches).Records())
  }

  /** Whatever the cuts: each savable record once, with its first context unless it was severed from it. */
  lemma WhatComesOut(o: Settings, fetches: Fetches)
    requires Cuts(o, Flatten(fetches), fetches)
    ensures multiset(Outcome(o, fetches)) == multiset(GivenEach(Flatten(fetches), fetches, Savables(Flatten(fetches))))
  {
    var stream := Flatten(fetches);
    var taken, held := TakenOver(o, fetches), Savables(BufferAfter(o, fetches).Records());
    RunAsGiven(o, stream, fetches);
    HeldAreGivenThemselves(o, stream, fetches);
    GivenConcat(stream, fetches, taken, held);
    TakenAndHeld(o, fetches);
    GivenOfMultiset(stream, fetches, taken + held, Savables(stream));
  }

  // ---------------------------------------------------------------------------------------------
  // Exactly when the cuts do not matter
  // ---------------------------------------------------------------------------------------------

  lemma {:induction false} OnePassIsUncut(stream: seq<FetchedRecord>, s: seq<FetchedRecord>)
    ensures WithContexts(stream, s) == GivenEach(stream, [], s)
  {
    if s != [] {
      OnePassIsUncut(stream, s[..|s| - 1]);
    }
  }

  lemma {:induction false} SameGiven(stream: seq<FetchedRecord>, fetches: Fetches, s: seq<FetchedRecord>)
    requires forall i :: 0 <= i < |s| ==> Given(stream, fetches, s[i]) == WithContext(stream, s[i])
    ensures GivenEach(stream, fetches, s) == WithContexts(stream, s)
    decreases |s|
  {
    if s != [] {
      SameGiven(stream, fetches, s[..|s| - 1]);
    }
  }

  lemma {:induction false} GivenOrigin(stream: seq<FetchedRecord>, fetches: Fetches, s: seq<FetchedRecord>, x: FetchedRecord)
    returns (r: FetchedRecord)
    requires x in GivenEach(stream, fetches, s)
    ensures r in s && x == Given(stream, fetches, r) && x.streamSequence == r.streamSequence
    decreases |s|
  {
    r := s[|s| - 1];
    if x != Given(stream, fetches, r) {
      r := GivenOrigin(stream, fetches, s[..|s| - 1], x);
    }
  }

  lemma {:induction false} GivenTarget(stream: seq<FetchedRecord>, fetches: Fetches, s: seq<FetchedRecord>, r: FetchedRecord)
    requires r in s
    ensures Given(stream, fetches, r) in GivenEach(stream, fetches, s)
    decreases |s|
  {
    if r != s[|s| - 1] {
      GivenTarget(stream, fetches, s[..|s| - 1], r);
    }
  }

  lemma SavablesMember(s: seq<FetchedRecord>, r: FetchedRecord)
    ensures r in Savables(s) <==> r in s && r.IsSavable()
  {
    SavablesCount(s, r);
    assert r in Savables(s) <==> CountIn(Savables(s), r) > 0;
    assert r in s <==> CountIn(s, r) > 0;
  }

  /** Sequences tell records apart, so the multisets agree only if each record is given the same. */
  lemma SameOutcomeSameGiven(stream: seq<FetchedRecord>, fetches: Fetches, r: FetchedRecord)
    requires StrictlyAscending(stream) && r in stream && r.IsSavable()
    requires multiset(GivenEach(stream, fetches, Savables(stream))) == multiset(OnePass(stream))
    ensures Given(stream, fetches, r) == WithContext(stream, r)
  {
    SavablesMember(stream, r);
    OnePassIsUncut(stream, Savables(stream));
    GivenTarget(stream, [], Savables(stream), r);
    assert WithContext(stream, r) in multiset(GivenEach(stream, fetches, Savables(stream)));
    var x := GivenOrigin(stream, fetches, Savables(stream), WithContext(stream, r));
    SavablesMember(stream, x);
    SameSequenceSameRecord(stream, x, r);
  }

  lemma KeptContextsKeepOutcome(o: Settings, fetches: Fetches)
    requires Cuts(o, Flatten(fetches), fetches) && CutsKeepContexts(Flatten(fetches), fetches)
    ensures multiset(Outcome(o, fetches)) == multiset(OnePass(Flatten(fetches)))
  {
    var stream := Flatten(fetches);
    var s := Savables(stream);
    forall i | 0 <= i < |s| ensures Given(stream, fetches, s[i]) == WithContext(stream, s[i]) {
      SavablesMember(stream, s[i]);
      if Severed(fetches, s[i]) {
        var k := SeveredIsSeparated(fetches, s[i]);
      }
    }
    SameGiven(stream, fetches, s);
    WhatComesOut(o, fetches);
  }

  /**
   Batch independence, and exactly when: what was released and the changes still held are the one-pass
   stitching of the stream if and only if no fetch boundary separates a change from a later record of
   its transaction that needs the context.
   */
  lemma BatchesDoNotMatter(o: Settings, fetches: Fetches)
    requires Cuts(o, Flatten(fetches), fetches)
    ensures multiset(Outcome(o, fetches)) == multiset(OnePass(Flatten(fetches)))
      <==> CutsKeepContexts(Flatten(fetches), fetches)
  {
    var stream := Flatten(fetches);
    if CutsKeepContexts(stream, fetches) {
      KeptContextsKeepOutcome(o, fetches);
    }
    if multiset(Outcome(o, fetches)) == multiset(OnePass(stream)) {
      WhatComesOut(o, fetches);
      forall k, r | 0 <= k <= |fetches| && r in stream && r.IsSavable() && Separates(fetches, k, r)
        ensures WithContext(stream, r) == r
      {
        SeparatedIsSevered(fetches, k, r);
        SameOutcomeSameGiven(stream, fetches, r);
      }
    }
  }

  /** So two ways of cutting one stream agree. */
  lemma AnyTwoCutsAgree(o: Settings, fetches: Fetches, fetches': Fetches)
    requires Flatten(fetches) == Flatten(fetches')
    requires Cuts(o, Flatten(fetches), fetches)
    requires CutsKeepContexts(Flatten(fetches), fetches) && CutsKeepContexts(Flatten(fetches), fetches')
    ensures multiset(Outcome(o, fetches)) == multiset(Outcome(o, fetches'))
  {
    BatchesDoNotMatter(o, fetches);
    BatchesDoNotMatter(o, fetches');
  }

  // ---------------------------------------------------------------------------------------------
  // A straddling change, whatever else the stream holds and whether or not anything is buffered
  // ---------------------------------------------------------------------------------------------

  lemma FacedComesOut(o: Settings, fetches: Fetches, r: FetchedRecord)
    requires fetches != [] && Facing(o, fetches).Has(r) && r.IsSavable() && AttributedIn(Facing(o, fetches), r) == r
    ensures r in ReleasedOver(o, fetches) || BufferAfter(o, fetches).Has(r)
  {
    var b := Facing(o, fetches);
    BufferIsValid(o, fetches);
    HeldExactly(o, b, r);
    if !Fated(o, b, r, Hold) {
      ReleasedArrives(o, b, r);
    }
  }

  lemma {:induction false} ComesOutBare(o: Settings, fetches: Fetches, k: nat, first: FetchedRecord, later: FetchedRecord)
    requires StrictlyAscending(Flatten(fetches)) && k <= |fetches|
    requires first in Flatten(fetches[..k]) && first.IsChange() && LedByContexts(Flatten(fetches), first)
    requires later in Flatten(fetches) && later !in Flatten(fetches[..k])
    requires later.IsSavable() && SameTransaction(first, later)
    ensures later in ReleasedOver(o, fetches) || BufferAfter(o, fetches).Has(later)
    decreases |fetches|
  {
    var front := fetches[..|fetches| - 1];
    assert fetches[..|fetches|] == fetches;
    assert front[..k] == fetches[..k];
    InFetches(fetches, later);
    FacingHas(o, fetches, later);
    FrontAscends(fetches);
    if later in Flatten(front) {
      assert LedByContexts(Flatten(front), first);
      ComesOutBare(o, front, k, first, later);
    }
    if later !in ReleasedOver(o, front) {
      EarlierFlattens(fetches[..k], front);
      ComesBare(o, fetches, first, later);
      FacedComesOut(o, fetches, later);
    }
  }

  lemma BareBreaksOnePass(stream: seq<FetchedRecord>, outcome: seq<FetchedRecord>, r: FetchedRecord)
    requires StrictlyAscending(stream) && r in stream && r in outcome && WithContext(stream, r) != r
    ensures multiset(outcome) != multiset(OnePass(stream))
  {
    if multiset(outcome) == multiset(OnePass(stream)) {
      assert r in multiset(OnePass(stream));
      OnePassIsUncut(stream, Savables(stream));
      var x := GivenOrigin(stream, [], Savables(stream), r);
      SavablesMember(stream, x);
      SameSequenceSameRecord(stream, x, r);
    }
  }

  /**
   Whenever a fetch ends after a change and before a later record of its transaction, that record comes
   out bare; so if the one pass gives it a context, the run does not do what the one pass does.
   */
  lemma StraddlingChangeLosesContext(o: Settings, fetches: Fetches, k: nat, first: FetchedRecord, later: FetchedRecord)
    requires StrictlyAscending(Flatten(fetches)) && k <= |fetches|
    requires first in Flatten(fetches[..k]) && first.IsChange() && LedByContexts(Flatten(fetches), first)
    requires later in Flatten(fetches) && later !in Flatten(fetches[..k])
    requires later.IsSavable() && SameTransaction(first, later)
    ensures later in ReleasedOver(o, fetches) || BufferAfter(o, fetches).Has(later)
    ensures WithContext(Flatten(fetches), later) != later ==>
      multiset(Outcome(o, fetches)) != multiset(OnePass(Flatten(fetches)))
  {
    ComesOutBare(o, fetches, k, first, later);
    if BufferAfter(o, fetches).Has(later) {
      BufferIsValid(o, fetches);
      InRecords(BufferAfter(o, fetches), later);
      SavablesMember(BufferAfter(o, fetches).Records(), later);
    }
    if WithContext(Flatten(fetches), later) != later {
      BareBreaksOnePass(Flatten(fetches), Outcome(o, fetches), later);
    }
  }

  /** The least such run: a context and a change, then another change. */
  lemma StraddlingInput(o: Settings, c: FetchedRecord, first: FetchedRecord, later: FetchedRecord)
    requires c.IsContextMessage() && first.IsChange() && later.IsChange()
    requires SameTransaction(c, first) && SameTransaction(c, later) && c.Context() != later.Context()
    requires c.streamSequence < first.streamSequence < later.streamSequence
    ensures multiset(Outcome(o, [[c, first], [later]])) != multiset(OnePass([c, first, later]))
  {
    var fetches: Fetches, stream := [[c, first], [later]], [c, first, later];
    StraddlingFlattens(fetches, [c, first], [later]);
    assert [c, first] + [later] == stream && stream[0] == c;
    assert WithContext(stream, later) == later.SetContext(c.Context());
    assert later in [later] && first in [c, first];
    StraddlingChangeLosesContext(o, fetches, 1, first, later);
  }

  lemma StraddlingFlattens(fetches: Fetches, first: seq<FetchedRecord>, second: seq<FetchedRecord>)
    requires fetches == [first, second]
    ensures Flatten(fetches[..1]) == first && Flatten(fetches) == first + second
  {
    OneFetchFlattens(fetches[..1], first);
  }
}
