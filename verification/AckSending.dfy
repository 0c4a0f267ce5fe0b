/** When a computed ack is really sent: only if it names a message of the current fetch. */
module AckSending {
  import opened Wrappers
  import opened FetchedRecords
  import opened FetchedRecordBuffers
  import opened Stitching
  import opened StitchingProperties
  import opened Ingestion
  import opened TurnProperties
  import opened Incarnation
  import opened LateContexts
  import opened AckProgress
  import BoundedMemory

  /** Everything held came with an earlier fetch, and everything fetched is newer. */
  ghost predicate Newer(m: Memory, inbox: Inbox, last: nat) {
    && m.fetchedRecordBuffer.Valid()
    && (forall r :: m.fetchedRecordBuffer.Has(r) ==> r.streamSequence <= last)
    && (forall q :: q in inbox ==> last < q)
  }

  /** What the pass of a turn is given. */
  ghost predicate Offers(m: Memory, inbox: Inbox, b: FetchedRecordBuffer)
    ensures Offers(m, inbox, b) ==> b.Valid()
  {
    Parsed(inbox).Success? && b.Valid() && b == Offered(m, inbox)
  }

  /** An ack that names a record of the pass is sent exactly when it gets beyond the fetches before. */
  lemma NamedIsSent(m: Memory, inbox: Inbox, turn: Turn, b: FetchedRecordBuffer, last: nat)
    requires Newer(m, inbox, last) && Offers(m, inbox, b)
    requires turn.ack.Some? ==> Occurs(b, turn.ack.value)
    ensures Sent(turn.ack, inbox) <==> Covers(turn.ack, last + 1)
  {
    if Covers(turn.ack, last + 1) {
      var r :| b.Has(r) && r.streamSequence == turn.ack.value;
      OfferedExactly(m, inbox, r);
    }
  }

  // ---------------------------------------------------------------------------------------------
  // Nothing held
  // ---------------------------------------------------------------------------------------------

  /** When nothing is held, the ack is sent exactly when some message of this fetch is the last of its subject. */
  lemma UnheldAckIsSent(c: Config, m: Memory, inbox: Inbox, turn: Turn, b: FetchedRecordBuffer, last: nat)
    requires Succeeds(c, m, inbox, turn) && Newer(m, inbox, last) && Offers(m, inbox, b) && !HoldsSome(c.stitching, b)
    ensures Sent(turn.ack, inbox) <==> exists z :: LastOfSubject(b, z) && last + 1 <= z.streamSequence
  {
    NothingHeldAck(c.stitching, b, last + 1);
    NothingHeldAcksMax(c.stitching, b);
    MaxSequenceOccurs(b, |b.store.keys|);
    NamedIsSent(m, inbox, turn, b, last);
  }

  // ---------------------------------------------------------------------------------------------
  // Something held
  // ---------------------------------------------------------------------------------------------

  ghost predicate IsLeastHeld(o: Settings, b: FetchedRecordBuffer, n: nat)
    requires b.Valid()
  {
    && (exists x :: Fated(o, b, x, Hold) && x.streamSequence == n)
    && (forall x :: Fated(o, b, x, Hold) ==> n <= x.streamSequence)
  }

  function LeastKept(o: Settings, b: FetchedRecordBuffer): Option<nat> {
    MinSequence(Stitch(o, b).buffer, |Stitch(o, b).buffer.store.keys|)
  }

  lemma LeastKeptBeyond(o: Settings, b: FetchedRecordBuffer, q: nat)
    requires b.Valid() && HoldsSome(o, b)
    ensures LeastKept(o, b).Some? && (q < LeastKept(o, b).value <==> HeldBeyond(o, b, q))
  {
    LeastHeld(o, b, q);
  }

  lemma NoneBefore(o: Settings, b: FetchedRecordBuffer, n: nat)
    requires b.Valid() && IsLeastHeld(o, b, n)
    ensures HoldsSome(o, b) && LeastKept(o, b).Some? && n <= LeastKept(o, b).value
  {
    var x :| Fated(o, b, x, Hold) && x.streamSequence == n;
    LeastKeptBeyond(o, b, n);
    if n > 0 {
      LeastKeptBeyond(o, b, n - 1);
      assert HeldBeyond(o, b, n - 1);
    }
  }

  lemma NotAfter(o: Settings, b: FetchedRecordBuffer, n: nat)
    requires b.Valid() && IsLeastHeld(o, b, n)
    ensures HoldsSome(o, b) && LeastKept(o, b).Some? && LeastKept(o, b).value <= n
  {
    var x :| Fated(o, b, x, Hold) && x.streamSequence == n;
    LeastKeptBeyond(o, b, n);
    assert !HeldBeyond(o, b, n);
  }

  lemma LeastHeldIsMin(o: Settings, b: FetchedRecordBuffer, n: nat)
    requires b.Valid() && IsLeastHeld(o, b, n)
    ensures HoldsSome(o, b) && LeastKept(o, b) == Some(n)
  {
    NoneBefore(o, b, n);
    NotAfter(o, b, n);
  }

  lemma ClampedOrNot(candidate: Option<nat>, n: nat)
    ensures Covers(candidate, n) ==> Clamp(candidate, Some(n)) == if n > 1 then Some(n - 1) else None
    ensures !Covers(candidate, n) ==> Clamp(candidate, Some(n)) == candidate
  {
  }

  /** The choice among the subjects goes as far as the least record held, so the clamp moves the ack before it. */
  ghost predicate Clamps(o: Settings, b: FetchedRecordBuffer, n: nat)
    requires b.Valid()
  {
    DoneFrom(o, b, n) && NoneStops(o, b, n)
  }

  lemma AckOfTurn(c: Config, m: Memory, inbox: Inbox, turn: Turn, b: FetchedRecordBuffer, n: nat)
    requires Succeeds(c, m, inbox, turn) && Offers(m, inbox, b) && "" !in b.store.keys && IsLeastHeld(c.stitching, b, n)
    ensures Clamps(c.stitching, b, n) ==> turn.ack == if n > 1 then Some(n - 1) else None
    ensures !Clamps(c.stitching, b, n) ==> turn.ack == CandidateOf(c.stitching, b)
    ensures forall q: nat :: q >= 1 ==> (Covers(turn.ack, q) <==> MayReach(c.stitching, b, q))
  {
    LeastHeldIsMin(c.stitching, b, n);
    CandidateReaches(c.stitching, b, n);
    ClampedOrNot(CandidateOf(c.stitching, b), n);
    forall q: nat | q >= 1 ensures Covers(turn.ack, q) <==> MayReach(c.stitching, b, q) {
      AckReaches(c.stitching, b, q);
    }
  }

  /**
   When something is held, the least of it being n, the ack is sent exactly when it gets beyond the
   fetches before and, if it is clamped, the message just before n is in this fetch.
   */
  lemma BufferedAckIsSent(c: Config, m: Memory, inbox: Inbox, turn: Turn, b: FetchedRecordBuffer, last: nat, n: nat)
    requires Succeeds(c, m, inbox, turn) && Newer(m, inbox, last) && Offers(m, inbox, b)
    requires "" !in b.store.keys && IsLeastHeld(c.stitching, b, n)
    ensures Sent(turn.ack, inbox) <==>
      && MayReach(c.stitching, b, last + 1)
      && (Clamps(c.stitching, b, n) ==> n - 1 in inbox)
  {
    AckOfTurn(c, m, inbox, turn, b, n);
    if Clamps(c.stitching, b, n) {
      ClampedIsSent(inbox, turn, last, n);
    } else {
      CandidateOccurs(c.stitching, b);
      NamedIsSent(m, inbox, turn, b, last);
    }
  }

  lemma ClampedIsSent(inbox: Inbox, turn: Turn, last: nat, n: nat)
    requires turn.ack == (if n > 1 then Some(n - 1) else None) && forall q :: q in inbox ==> last < q
    ensures Sent(turn.ack, inbox) <==> Covers(turn.ack, last + 1) && n - 1 in inbox
  {
  }

  // ---------------------------------------------------------------------------------------------
  // An ack that falls into a gap of the fetch
  // ---------------------------------------------------------------------------------------------

  /** A heartbeat, a context that is held, and a second heartbeat; the message before the context is not there. */
  ghost predicate Gapped(o: Settings, a: FetchedRecord, x: FetchedRecord, d: FetchedRecord) {
    && o.useBuffer && a.IsHeartbeatMessage() && x.IsContextMessage() && d.IsHeartbeatMessage()
    && a.subject == x.subject == d.subject != ""
    && 1 <= a.streamSequence && a.streamSequence + 1 < x.streamSequence < d.streamSequence
    && d.streamSequence - x.streamSequence <= o.orphanContextSequenceGap
  }

  ghost predicate HasThree(b: FetchedRecordBuffer, a: FetchedRecord, x: FetchedRecord, d: FetchedRecord) {
    b.Valid() && b.store.keys == [x.subject] && forall r :: b.Has(r) <==> r == a || r == x || r == d
  }

  lemma ThreeFaced(o: Settings, fetches: Fetches, a: FetchedRecord, x: FetchedRecord, d: FetchedRecord)
    requires fetches == [[a, x, d]]
    ensures forall r :: Facing(o, fetches).Has(r) <==> r == a || r == x || r == d
  {
    forall r ensures Facing(o, fetches).Has(r) <==> r == a || r == x || r == d {
      OneFetchFaced(o, fetches, [a, x, d], r);
    }
  }

  lemma GappedFaced(o: Settings, fetches: Fetches, a: FetchedRecord, x: FetchedRecord, d: FetchedRecord)
    requires Gapped(o, a, x, d) && fetches == [[a, x, d]]
    ensures HasThree(Facing(o, fetches), a, x, d)
  {
    ThreeFaced(o, fetches, a, x, d);
    assert BoundedMemory.AllOf([a, x, d], x.subject);
    BoundedMemory.OneFetchKeys(o, fetches, [a, x, d], x.subject);
  }

  lemma GappedFates(o: Settings, b: FetchedRecordBuffer, a: FetchedRecord, x: FetchedRecord, d: FetchedRecord)
    requires Gapped(o, a, x, d) && HasThree(b, a, x, d)
    ensures DoneIn(o, b, a) && DoneIn(o, b, d) && IsLeastHeld(o, b, x.streamSequence)
  {
    assert b.Has(a) && b.Has(x) && b.Has(d);
    NoChangeListed(b, x);
    NearIsNoOrphan(o, b, x, d.streamSequence);
    AwaitingIsHeld(VisitFor(o, b, x), x);
    assert Fated(o, b, x, Hold);
  }

  lemma GappedReach(o: Settings, b: FetchedRecordBuffer, a: FetchedRecord, x: FetchedRecord, d: FetchedRecord)
    requires Gapped(o, a, x, d) && HasThree(b, a, x, d)
    ensures MayReach(o, b, 1) && Clamps(o, b, x.streamSequence) && IsLeastHeld(o, b, x.streamSequence)
  {
    GappedFates(o, b, a, x, d);
    OneSubjectNeverStops(o, b, 1);
    OneSubjectNeverStops(o, b, x.streamSequence);
    assert HeldBeyond(o, b, 1);
  }

  /** Everything that decides that the ack of this pass is n - 1. */
  ghost predicate ClampsBefore(o: Settings, b: FetchedRecordBuffer, n: nat) {
    b.Valid() && "" !in b.store.keys && n > 1 && IsLeastHeld(o, b, n) && Clamps(o, b, n)
  }

  lemma ClampedAck(c: Config, m: Memory, inbox: Inbox, turn: Turn, b: FetchedRecordBuffer, n: nat)
    requires Succeeds(c, m, inbox, turn) && Offers(m, inbox, b) && ClampsBefore(c.stitching, b, n)
    ensures turn.ack == Some(n - 1)
  {
    AckOfTurn(c, m, inbox, turn, b, n);
  }

  lemma GappedClamps(o: Settings, fetches: Fetches, a: FetchedRecord, x: FetchedRecord, d: FetchedRecord)
    requires Gapped(o, a, x, d) && fetches == [[a, x, d]]
    ensures Facing(o, fetches).Valid() && MayReach(o, Facing(o, fetches), 1)
    ensures ClampsBefore(o, Facing(o, fetches), x.streamSequence)
  {
    GappedFaced(o, fetches, a, x, d);
    GappedReach(o, Facing(o, fetches), a, x, d);
  }

  /** A fetch of these three messages. */
  ghost predicate ReadsThree(inbox: Inbox, a: FetchedRecord, x: FetchedRecord, d: FetchedRecord) {
    && inbox.Keys == {a.streamSequence, x.streamSequence, d.streamSequence}
    && ReadsAs(inbox, a) && ReadsAs(inbox, x) && ReadsAs(inbox, d)
  }

  lemma FirstFetchOffers(o: Settings, inbox: Inbox, fetches: Fetches, records: seq<FetchedRecord>)
    requires fetches == [records] && StrictlyAscending(records) && forall r :: r in records ==> ReadsAs(inbox, r)
    requires forall k :: k in inbox ==> exists r :: r in records && r.streamSequence == k
    ensures Offers(BOOTED, inbox, Facing(o, fetches))
  {
    ParsesTo(inbox, records);
    OneFetchAdds(o, fetches, records);
    BufferIsValid(o, fetches);
  }

  lemma AllRead(inbox: Inbox, a: FetchedRecord, x: FetchedRecord, d: FetchedRecord)
    requires ReadsThree(inbox, a, x, d)
    ensures forall r :: r in [a, x, d] ==> ReadsAs(inbox, r)
    ensures forall k :: k in inbox ==> exists r :: r in [a, x, d] && r.streamSequence == k
  {
    assert a in [a, x, d] && x in [a, x, d] && d in [a, x, d];
  }

  lemma GapIsOffered(o: Settings, inbox: Inbox, a: FetchedRecord, x: FetchedRecord, d: FetchedRecord)
    returns (b: FetchedRecordBuffer)
    requires Gapped(o, a, x, d) && ReadsThree(inbox, a, x, d)
    ensures Offers(BOOTED, inbox, b) && MayReach(o, b, 1) && ClampsBefore(o, b, x.streamSequence)
  {
    b := Facing(o, [[a, x, d]]);
    AllRead(inbox, a, x, d);
    FirstFetchOffers(o, inbox, [[a, x, d]], [a, x, d]);
    GappedClamps(o, [[a, x, d]], a, x, d);
  }

  /**
   The first turn of a worker gets beyond everything before it, and still its ack is not sent: it is
   clamped to the message just before the context, which the consumer did not deliver. Sequences 1, 3
   and 4 are the least such fetch.
   */
  lemma GapAckIsNotSent(c: Config, inbox: Inbox, turn: Turn, a: FetchedRecord, x: FetchedRecord, d: FetchedRecord)
    returns (b: FetchedRecordBuffer)
    requires Gapped(c.stitching, a, x, d) && ReadsThree(inbox, a, x, d) && Succeeds(c, BOOTED, inbox, turn)
    ensures Newer(BOOTED, inbox, 0) && Offers(BOOTED, inbox, b) && MayReach(c.stitching, b, 1)
    ensures turn.ack == Some(x.streamSequence - 1) && !Sent(turn.ack, inbox)
  {
    b := GapIsOffered(c.stitching, inbox, a, x, d);
    ClampsIntoGap(c, inbox, turn, b, a, x, d);
  }

  lemma ClampsIntoGap(c: Config, inbox: Inbox, turn: Turn, b: FetchedRecordBuffer,
                      a: FetchedRecord, x: FetchedRecord, d: FetchedRecord)
    requires Succeeds(c, BOOTED, inbox, turn) && Offers(BOOTED, inbox, b)
    requires ClampsBefore(c.stitching, b, x.streamSequence)
    requires Gapped(c.stitching, a, x, d) && ReadsThree(inbox, a, x, d)
    ensures turn.ack == Some(x.streamSequence - 1) && Newer(BOOTED, inbox, 0) && !Sent(turn.ack, inbox)
  {
    ClampedAck(c, BOOTED, inbox, turn, b, x.streamSequence);
    NotFetched(c.stitching, inbox, turn, a, x, d);
  }

  lemma NotFetched(o: Settings, inbox: Inbox, turn: Turn, a: FetchedRecord, x: FetchedRecord, d: FetchedRecord)
    requires Gapped(o, a, x, d) && ReadsThree(inbox, a, x, d) && turn.ack == Some(x.streamSequence - 1)
    ensures Newer(BOOTED, inbox, 0) && !Sent(turn.ack, inbox)
  {
  }

  // ---------------------------------------------------------------------------------------------
  // An ack that is never sent
  // ---------------------------------------------------------------------------------------------

  /** A change that waits for its context, and in the next fetch the context of a later transaction. */
  ghost predicate Waiting(o: Settings, x: FetchedRecord, c: FetchedRecord) {
    && o.useBuffer && o.orphanContextSequenceGap >= 0
    && x.IsChange() && c.IsContextMessage() && x.subject == c.subject != ""
    && x.TransactionId() < c.TransactionId() && 1 <= x.streamSequence < c.streamSequence
  }

  lemma OnlyOneSorted(b: FetchedRecordBuffer, x: FetchedRecord)
    requires b == EMPTY.AddAll([x])
    ensures b.Sorted(x.subject) == [x]
  {
    assert [x][..0] == [];
    FlatOfFirst(EMPTY, x);
    SortingSortedIsIdentity([x]);
  }

  lemma ChangeWaits(o: Settings, x: FetchedRecord)
    requires o.useBuffer && x.IsChange()
    ensures BufferAfter(o, [[x]]).Has(x)
  {
    OneFetchAdds(o, [[x]], [x]);
    LoneIsHeld(o, Of([x]), x);
  }

  lemma OneRecordIsLone(b: FetchedRecordBuffer, x: FetchedRecord)
    requires b == EMPTY.AddAll([x]) && forall r :: b.Has(r) <==> r in [x]
    ensures LoneAndLast(b, x) && DistinctSequences(b.Sorted(x.subject))
  {
    OnlyOneSorted(b, x);
    assert x in [x];
  }

  lemma LoneIsHeld(o: Settings, b: FetchedRecordBuffer, x: FetchedRecord)
    requires o.useBuffer && x.IsChange() && b.Valid() && b == EMPTY.AddAll([x])
    requires forall r :: b.Has(r) <==> r in [x]
    ensures Stitch(o, b).buffer.Has(x)
  {
    OneRecordIsLone(b, x);
    HeldChangesExactly(o, b, x);
  }

  lemma WaitingFaced(o: Settings, x: FetchedRecord, c: FetchedRecord, r: FetchedRecord)
    requires Waiting(o, x, c)
    ensures Facing(o, [[x], [c]]).Has(r) <==> r == x || r == c
  {
    var fetches: Fetches := [[x], [c]];
    assert fetches[..1] == [[x]] && [[x]][..0] == [];
    ChangeWaits(o, x);
    FacingHas(o, fetches, r);
    if BufferAfter(o, [[x]]).Has(r) {
      HeldIsFetched(o, [[x]], r);
      assert Flatten([[x]][..0]) == [];
    }
  }

  lemma NotTheLast(b: FetchedRecordBuffer, x: FetchedRecord, c: FetchedRecord)
    requires b.Valid() && b.Has(c) && x.subject == c.subject && x.TransactionId() < c.TransactionId()
    ensures b.Sorted(c.subject) != [] && b.Sorted(c.subject)[|b.Sorted(c.subject)| - 1] != x
  {
    InSorted(b, c.subject, c);
    LastSorted(b, c.subject);
  }

  lemma WaitingFates(o: Settings, b: FetchedRecordBuffer, x: FetchedRecord, c: FetchedRecord)
    requires Waiting(o, x, c) && b.Valid() && forall r :: b.Has(r) <==> r == x || r == c
    ensures Fated(o, b, x, Release) && Fated(o, b, c, Hold)
    ensures forall r :: Fated(o, b, r, Hold) ==> r == c
  {
    assert b.Has(x) && b.Has(c);
    NotTheLast(b, x, c);
    NewestContextIsHeld(o, b, c);
  }

  lemma WaitingKeys(o: Settings, x: FetchedRecord, c: FetchedRecord)
    requires Waiting(o, x, c)
    ensures Facing(o, [[x], [c]]).store.keys == [x.subject]
  {
    var fetches: Fetches := [[x], [c]];
    assert fetches[..1] == [[x]] && [[x]][..0] == [];
    assert Flatten([[x]][..0]) == [];
    assert Flatten(fetches) == [x, c];
    WaitingFaced(o, x, c, x);
    BoundedMemory.FacingKeys(o, fetches, x.subject, x);
  }

  /** The one message of the fetch. */
  ghost predicate Reads(inbox: Inbox, r: FetchedRecord) {
    inbox.Keys == {r.streamSequence} && ReadsAs(inbox, r)
  }

  lemma TwoPasses(o: Settings, x: FetchedRecord, c: FetchedRecord)
    ensures Facing(o, [[x]]) == EMPTY.AddAll([x])
    ensures Facing(o, [[x], [c]]) == BufferAfter(o, [[x]]).AddAll([c])
  {
    assert [[x], [c]][..1] == [[x]] && [[x]][..0] == [];
  }

  lemma PairReleases(o: Settings, b: FetchedRecordBuffer, x: FetchedRecord, c: FetchedRecord)
    requires Waiting(o, x, c) && b.Valid() && forall r :: b.Has(r) <==> r == x || r == c
    ensures x in Stitch(o, b).released
  {
    WaitingFates(o, b, x, c);
    forall r | r in b.ByTransactionId(x.subject, x.TransactionId()) ensures !r.IsContextMessage() {
      ListedWith(b, x, r);
    }
    FirstContextFound(b.ByTransactionId(x.subject, x.TransactionId()));
    ReleasedArrives(o, b, x);
  }

  lemma LateRelease(o: Settings, x: FetchedRecord, c: FetchedRecord)
    requires Waiting(o, x, c)
    ensures x in Stitch(o, Facing(o, [[x], [c]])).released
  {
    BufferIsValid(o, [[x], [c]]);
    forall r ensures Facing(o, [[x], [c]]).Has(r) <==> r == x || r == c {
      WaitingFaced(o, x, c, r);
    }
    PairReleases(o, Facing(o, [[x], [c]]), x, c);
  }

  /** The pass that releases the waiting change is the first whose ack covers it, and it does not cover the context. */
  lemma LateAck(o: Settings, x: FetchedRecord, c: FetchedRecord)
    requires Waiting(o, x, c)
    ensures !Covers(LastAck(o, [[x]]), x.streamSequence)
    ensures Covers(LastAck(o, [[x], [c]]), x.streamSequence) && !Covers(LastAck(o, [[x], [c]]), c.streamSequence)
  {
    var b := Facing(o, [[x], [c]]);
    BufferIsValid(o, [[x], [c]]);
    ChangeWaits(o, x);
    OwnAckIsBehind(o, x);
    WaitingKeys(o, x, c);
    forall r ensures b.Has(r) <==> r == x || r == c {
      WaitingFaced(o, x, c, r);
    }
    WaitingAck(o, b, x, c);
  }

  lemma TurnIsPass(c: Config, m: Memory, inbox: Inbox, turn: Turn, b: FetchedRecordBuffer)
    requires Succeeds(c, m, inbox, turn) && Offers(m, inbox, b)
    ensures turn.ack == Stitch(c.stitching, b).ack && turn.released == Stitch(c.stitching, b).released
    ensures turn.memory.fetchedRecordBuffer == Stitch(c.stitching, b).buffer
  {
  }

  lemma OffersOne(m: Memory, inbox: Inbox, r: FetchedRecord)
    requires Reads(inbox, r) && m.fetchedRecordBuffer.Valid()
    ensures Offers(m, inbox, m.fetchedRecordBuffer.AddAll([r]))
  {
    ParsesTo(inbox, [r]);
    AddAllKeepsValid(m.fetchedRecordBuffer, [r]);
  }

  lemma TwoTurns(config: Config, x: FetchedRecord, c: FetchedRecord, first: Inbox, second: Inbox, one: Turn, two: Turn)
    requires Reads(first, x) && Reads(second, c)
    requires Succeeds(config, BOOTED, first, one) && Succeeds(config, one.memory, second, two)
    ensures one.ack == LastAck(config.stitching, [[x]]) && two.ack == LastAck(config.stitching, [[x], [c]])
    ensures two.released == Stitch(config.stitching, Facing(config.stitching, [[x], [c]])).released
  {
    OffersOne(BOOTED, first, x);
    OffersOne(one.memory, second, c);
    TwoPasses(config.stitching, x, c);
    TurnIsPass(config, BOOTED, first, one, Facing(config.stitching, [[x]]));
    TurnIsPass(config, one.memory, second, two, Facing(config.stitching, [[x], [c]]));
  }

  /**
   Two turns from boot, each over one message: the change, then the context. The second is the first
   whose ack covers the change, and it names no message of its fetch: it is not sent, though the
   change is stored.
   */
  lemma LateAckIsNotSent(config: Config, x: FetchedRecord, c: FetchedRecord, first: Inbox, second: Inbox, one: Turn, two: Turn)
    requires Waiting(config.stitching, x, c) && Reads(first, x) && Reads(second, c)
    requires Succeeds(config, BOOTED, first, one) && Succeeds(config, one.memory, second, two)
    ensures !Covers(one.ack, x.streamSequence)
    ensures x in two.released && Covers(two.ack, x.streamSequence) && !Sent(two.ack, second)
  {
    TwoTurns(config, x, c, first, second, one, two);
    LateAck(config.stitching, x, c);
    LateRelease(config.stitching, x, c);
  }

  lemma WaitingAck(o: Settings, b: FetchedRecordBuffer, x: FetchedRecord, c: FetchedRecord)
    requires Waiting(o, x, c) && b.Valid() && b.store.keys == [x.subject]
    requires forall r :: b.Has(r) <==> r == x || r == c
    ensures Covers(Stitch(o, b).ack, x.streamSequence) && !Covers(Stitch(o, b).ack, c.streamSequence)
  {
    WaitingFates(o, b, x, c);
    OneSubjectAck(o, b, x.streamSequence);
    OneSubjectAck(o, b, c.streamSequence);
  }

  lemma OwnAckIsBehind(o: Settings, x: FetchedRecord)
    requires BufferAfter(o, [[x]]).Has(x)
    ensures !Covers(LastAck(o, [[x]]), x.streamSequence)
  {
    if LastAck(o, [[x]]).Some? {
      OwnAckBehind(o, [[x]]);
    }
  }
}
