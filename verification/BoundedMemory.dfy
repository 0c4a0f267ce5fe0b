/**
 How much an incarnation can hold, and what a heartbeat does to it: in any run, and in runs where, per
 subject, transaction ids rise with the sequences.
 */
module BoundedMemory {
  import opened Wrappers
  import opened FetchedRecords
  import opened FetchedRecordBuffers
  import opened Stitching
  import opened StitchingProperties
  import opened Ingestion
  import opened Incarnation

  /** Within a subject, a later message never belongs to an older transaction. */
  ghost predicate TransactionsRise(stream: seq<FetchedRecord>) {
    forall r, x :: r in stream && x in stream && r.subject == x.subject && r.streamSequence < x.streamSequence ==>
      r.TransactionId() <= x.TransactionId()
  }

  ghost predicate Steady(fetches: Fetches) {
    StrictlyAscending(Flatten(fetches)) && TransactionsRise(Flatten(fetches))
  }

  /** Each subject is visited in sequence order. */
  ghost predicate Orderly(b: FetchedRecordBuffer) {
    forall subject :: StrictlyAscending(b.Sorted(subject))
  }

  // ---------------------------------------------------------------------------------------------
  // Visits are in sequence order
  // ---------------------------------------------------------------------------------------------

  lemma {:induction false} RecordsContain(b: FetchedRecordBuffer, subjects: seq<string>, subject: string, r: FetchedRecord)
    requires subject in subjects
    ensures CountIn(b.FlatOf(subject), r) <= CountIn(b.RecordsOf(subjects), r)
    decreases |subjects|
  {
    var front, last := subjects[..|subjects| - 1], subjects[|subjects| - 1];
    CountConcat(b.RecordsOf(front), b.FlatOf(last), r);
    if last != subject {
      RecordsContain(b, front, subject, r);
    }
  }

  lemma SortedCounts(b: FetchedRecordBuffer, subject: string, r: FetchedRecord)
    requires b.Valid()
    ensures CountIn(b.Sorted(subject), r) <= CountIn(b.Records(), r)
  {
    SortRecordsSorts(b.FlatOf(subject));
    if subject in b.store.keys {
      RecordsContain(b, b.store.keys, subject, r);
    } else {
      assert b.FlatOf(subject) == [];
    }
  }

  lemma SortedPair(stream: seq<FetchedRecord>, a: FetchedRecord, b: FetchedRecord)
    requires TransactionsRise(stream) && a in stream && b in stream && a.subject == b.subject && Precedes(a, b)
    ensures a.streamSequence <= b.streamSequence
  {
  }

  lemma FrontIsSteady(fetches: Fetches)
    requires fetches != [] && Steady(fetches)
    ensures Steady(fetches[..|fetches| - 1])
  {
    FrontAscends(fetches);
    assert forall r :: r in Flatten(fetches[..|fetches| - 1]) ==> r in Flatten(fetches);
  }

  lemma FacingIsOrderly(o: Settings, fetches: Fetches)
    requires fetches != [] && Steady(fetches)
    ensures Orderly(Facing(o, fetches))
  {
    forall subject ensures StrictlyAscending(Facing(o, fetches).Sorted(subject)) {
      FacedInOrder(o, fetches, subject);
    }
  }

  lemma FacedInOrder(o: Settings, fetches: Fetches, subject: string)
    requires fetches != [] && Steady(fetches)
    ensures StrictlyAscending(Facing(o, fetches).Sorted(subject))
  {
    var s := Facing(o, fetches).Sorted(subject);
    SortRecordsSorts(Facing(o, fetches).FlatOf(subject));
    forall i, j | 0 <= i < j < |s| ensures s[i].streamSequence < s[j].streamSequence {
      FacedOnce(o, fetches, subject, i);
      FacedOnce(o, fetches, subject, j);
      SortedPair(Flatten(fetches), s[i], s[j]);
      if s[i].streamSequence == s[j].streamSequence {
        SameSequenceSameRecord(Flatten(fetches), s[i], s[j]);
        CountTwice(s, i, j);
      }
    }
  }

  lemma FacedOnce(o: Settings, fetches: Fetches, subject: string, i: nat)
    requires fetches != [] && StrictlyAscending(Flatten(fetches)) && i < |Facing(o, fetches).Sorted(subject)|
    ensures
      var s := Facing(o, fetches).Sorted(subject);
      s[i].subject == subject && s[i] in Flatten(fetches) && CountIn(s, s[i]) <= 1
  {
    var b := Facing(o, fetches);
    var r := b.Sorted(subject)[i];
    BufferIsValid(o, fetches);
    InSorted(b, subject, r);
    FacedIsFetched(o, fetches, r);
    SortedCounts(b, subject, r);
    FacedCounts(o, fetches, r);
    CountOnce(Flatten(fetches), r);
  }

  lemma {:induction false} FacedCounts(o: Settings, fetches: Fetches, r: FetchedRecord)
    requires fetches != []
    ensures CountIn(Facing(o, fetches).Records(), r) <= CountIn(Flatten(fetches), r)
    decreases |fetches|, 0
  {
    FacingBalances(o, fetches, r);
    HeldCounts(o, fetches[..|fetches| - 1], r);
    CountConcat(Flatten(fetches[..|fetches| - 1]), fetches[|fetches| - 1], r);
  }

  lemma {:induction false} HeldCounts(o: Settings, fetches: Fetches, r: FetchedRecord)
    ensures CountIn(BufferAfter(o, fetches).Records(), r) <= CountIn(Flatten(fetches), r)
    decreases |fetches|, 1
  {
    if fetches == [] {
      assert EMPTY.Records() == [];
    } else {
      BufferIsValid(o, fetches);
      HeldNoMore(o, Facing(o, fetches), r);
      FacedCounts(o, fetches, r);
    }
  }

  lemma HeldNoMore(o: Settings, b: FetchedRecordBuffer, r: FetchedRecord)
    requires b.Valid()
    ensures CountIn(Stitch(o, b).buffer.Records(), r) <= CountIn(b.Records(), r)
  {
    var taken, dropped, passed := Conservation(o, b);
    assert Sum4(multiset(taken), multiset(Stitch(o, b).buffer.Records()), multiset(dropped), multiset(passed))[r]
      == multiset(b.Records())[r];
  }

  // ---------------------------------------------------------------------------------------------
  // What is held is near the end
  // ---------------------------------------------------------------------------------------------

  /** What a pass holds is within the orphan gap of its subject's last record in visiting order, whatever the order. */
  lemma HeldNearLast(o: Settings, b: FetchedRecordBuffer, r: FetchedRecord)
    requires b.Valid() && o.orphanContextSequenceGap >= 0 && Fated(o, b, r, Hold)
    ensures
      var s := b.Sorted(r.subject);
      s != [] && s[|s| - 1].streamSequence - r.streamSequence <= o.orphanContextSequenceGap
  {
    var i := IndexOf(b.store.keys, r.subject);
    InSorted(b, r.subject, r);
    MaxSequenceCovers(b, i + 1, i);
  }

  /** In a subject visited in sequence order, what is held is within the gap of everything visited. */
  lemma HeldIsNear(o: Settings, b: FetchedRecordBuffer, r: FetchedRecord, x: FetchedRecord)
    requires b.Valid() && Orderly(b) && o.orphanContextSequenceGap >= 0
    requires Fated(o, b, r, Hold) && b.Has(x) && x.subject == r.subject
    ensures x.streamSequence - r.streamSequence <= o.orphanContextSequenceGap
  {
    InSorted(b, r.subject, x);
    UpToLast(b.Sorted(r.subject), x);
    HeldNearLast(o, b, r);
  }

  lemma UpToLast(s: seq<FetchedRecord>, x: FetchedRecord)
    requires StrictlyAscending(s) && x in s
    ensures x.streamSequence <= s[|s| - 1].streamSequence
  {
  }

  /** Over any run: what is held is within the gap of the last record its subject's latest visit met. */
  lemma HeldNearLastVisited(o: Settings, fetches: Fetches, r: FetchedRecord)
    requires fetches != [] && o.orphanContextSequenceGap >= 0 && BufferAfter(o, fetches).Has(r)
    ensures
      var s := Facing(o, fetches).Sorted(r.subject);
      s != [] && s[|s| - 1].streamSequence - r.streamSequence <= o.orphanContextSequenceGap
  {
    HeldWasFaced(o, fetches, r);
    HeldNearLast(o, Facing(o, fetches), r);
  }

  /** When transactions rise, everything held is within the orphan gap of everything its subject has had so far. */
  lemma {:induction false} HeldWithinGap(o: Settings, fetches: Fetches, r: FetchedRecord, x: FetchedRecord)
    requires Steady(fetches) && o.orphanContextSequenceGap >= 0
    requires BufferAfter(o, fetches).Has(r) && x in Flatten(fetches) && x.subject == r.subject
    ensures x.streamSequence - r.streamSequence <= o.orphanContextSequenceGap
    decreases |fetches|
  {
    var front := fetches[..|fetches| - 1];
    HeldWasFaced(o, fetches, r);
    FacingIsOrderly(o, fetches);
    FacingHas(o, fetches, x);
    FacingHas(o, fetches, r);
    InFetches(fetches, x);
    FrontIsSteady(fetches);
    if Facing(o, fetches).Has(x) {
      HeldIsNear(o, Facing(o, fetches), r, x);
    } else if BufferAfter(o, front).Has(r) {
      HeldWithinGap(o, front, r, x);
    } else {
      NewIsLater(fetches, x, r);
    }
  }

  lemma {:induction false} Spread(s: seq<FetchedRecord>)
    requires StrictlyAscending(s) && s != []
    ensures s[|s| - 1].streamSequence >= s[0].streamSequence + |s| - 1
  {
    if |s| > 1 {
      Spread(s[..|s| - 1]);
    }
  }

  lemma HeldInSequence(o: Settings, fetches: Fetches, subject: string)
    requires Steady(fetches)
    ensures StrictlyAscending(BufferAfter(o, fetches).Sorted(subject))
  {
    var s := BufferAfter(o, fetches).Sorted(subject);
    SortRecordsSorts(BufferAfter(o, fetches).FlatOf(subject));
    forall i, j | 0 <= i < j < |s| ensures s[i].streamSequence < s[j].streamSequence {
      HeldOnce(o, fetches, subject, i);
      HeldOnce(o, fetches, subject, j);
      SortedPair(Flatten(fetches), s[i], s[j]);
      if s[i].streamSequence == s[j].streamSequence {
        SameSequenceSameRecord(Flatten(fetches), s[i], s[j]);
        CountTwice(s, i, j);
      }
    }
  }

  lemma HeldOnce(o: Settings, fetches: Fetches, subject: string, i: nat)
    requires StrictlyAscending(Flatten(fetches)) && i < |BufferAfter(o, fetches).Sorted(subject)|
    ensures
      var s := BufferAfter(o, fetches).Sorted(subject);
      && BufferAfter(o, fetches).Has(s[i])
      && s[i].subject == subject && s[i] in Flatten(fetches) && CountIn(s, s[i]) <= 1
  {
    var b := BufferAfter(o, fetches);
    var r := b.Sorted(subject)[i];
    BufferIsValid(o, fetches);
    InSorted(b, subject, r);
    HeldIsFetched(o, fetches, r);
    SortedCounts(b, subject, r);
    HeldCounts(o, fetches, r);
    CountOnce(Flatten(fetches), r);
  }

  /**
   Bounded memory: when transactions rise, after every pass each subject has at most one record more
   than the orphan gap in memory.
   */
  lemma MemoryIsBounded(o: Settings, fetches: Fetches, subject: string)
    requires Steady(fetches) && o.orphanContextSequenceGap >= 0
    ensures BufferAfter(o, fetches).SizeBySubject(subject) <= o.orphanContextSequenceGap + 1
  {
    var b := BufferAfter(o, fetches);
    var s := b.Sorted(subject);
    SortRecordsSorts(b.FlatOf(subject));
    assert |s| == |multiset(s)| == |multiset(b.FlatOf(subject))| == b.SizeBySubject(subject);
    if s != [] {
      HeldInSequence(o, fetches, subject);
      HeldOnce(o, fetches, subject, 0);
      HeldOnce(o, fetches, subject, |s| - 1);
      HeldWithinGap(o, fetches, s[0], s[|s| - 1]);
      Spread(s);
    }
  }

  // ---------------------------------------------------------------------------------------------
  // A heartbeat moves the ack along
  // ---------------------------------------------------------------------------------------------

  ghost predicate OneSubject(fetches: Fetches, subject: string) {
    forall r :: r in Flatten(fetches) ==> r.subject == subject
  }

  ghost predicate EndsWith(fetches: Fetches, h: FetchedRecord) {
    && fetches != [] && fetches[|fetches| - 1] != []
    && h == fetches[|fetches| - 1][|fetches[|fetches| - 1]| - 1]
  }

  lemma {:induction false} KeysOfAdded(b: FetchedRecordBuffer, records: seq<FetchedRecord>, k: string)
    requires k in b.AddAll(records).store.keys && k !in b.store.keys
    ensures exists r :: r in records && r.subject == k
    decreases |records|
  {
    var front, last := records[..|records| - 1], records[|records| - 1];
    assert last in records;
    assert forall r :: r in front ==> r in records;
    if k in b.AddAll(front).store.keys {
      KeysOfAdded(b, front, k);
    }
  }

  lemma BufferKeys(o: Settings, fetches: Fetches, subject: string, k: string)
    requires OneSubject(fetches, subject) && k in BufferAfter(o, fetches).store.keys
    ensures k == subject
  {
    if fetches != [] {
      var held := Selected(Visits(o, Facing(o, fetches)), Hold);
      KeysOfAdded(EMPTY, held, k);
      var r :| r in held && r.subject == k;
      BufferIsValid(o, fetches);
      SelectedExactly(o, Facing(o, fetches), Hold, r);
      FacedIsFetched(o, fetches, r);
    }
  }

  lemma FacingKeys(o: Settings, fetches: Fetches, subject: string, h: FetchedRecord)
    requires fetches != [] && OneSubject(fetches, subject) && Facing(o, fetches).Has(h)
    ensures Facing(o, fetches).store.keys == [subject]
  {
    var b := Facing(o, fetches);
    var front, last := fetches[..|fetches| - 1], fetches[|fetches| - 1];
    BufferIsValid(o, fetches);
    assert OneSubject(front, subject);
    forall k | k in b.store.keys ensures k == subject {
      if k in BufferAfter(o, front).store.keys {
        BufferKeys(o, front, subject, k);
      } else {
        KeysOfAdded(BufferAfter(o, front), last, k);
      }
    }
    FacedIsFetched(o, fetches, h);
    OnlyKey(b.store.keys, subject);
  }

  ghost predicate AllOf(records: seq<FetchedRecord>, subject: string) {
    forall i :: 0 <= i < |records| ==> records[i].subject == subject
  }

  lemma OneFetchKeys(o: Settings, fetches: Fetches, records: seq<FetchedRecord>, subject: string)
    requires fetches == [records] && records != [] && AllOf(records, subject)
    ensures Facing(o, fetches).Valid() && Facing(o, fetches).store.keys == [subject]
  {
    BufferIsValid(o, fetches);
    OneFetchFlattens(fetches, records);
    assert records[0] in records;
    OneFetchFaced(o, fetches, records, records[0]);
    FacingKeys(o, fetches, subject, records[0]);
  }

  lemma OnlyKey(keys: seq<string>, subject: string)
    requires subject in keys && forall i, j :: 0 <= i < j < |keys| ==> keys[i] != keys[j]
    requires forall k :: k in keys ==> k == subject
    ensures keys == [subject]
  {
    forall j | 0 <= j < |keys| ensures keys[j] == subject && j == IndexOf(keys, subject) {
      assert keys[j] in keys;
      IndexIsUnique(keys, j);
    }
    assert keys[0] == subject;
    assert |keys| - 1 == IndexOf(keys, subject) == 0;
  }

  /** A subject whose last record is a heartbeat has got at least as far as that heartbeat. */
  lemma HeartbeatReached(v: Visit)
    requires v.sorted != [] && v.sorted[|v.sorted| - 1].IsHeartbeatMessage()
    ensures Reached(v, v.sorted).Some? && Reached(v, v.sorted).value >= v.sorted[|v.sorted| - 1].streamSequence
  {
  }

  lemma OnlyProgress(v: Visit, held: FetchedRecordBuffer)
    requires Reached(v, v.sorted).Some?
    ensures
      var progress := Progress([v]);
      Preferred(progress, held, |progress.keys|) == Some(v.subject) && progress.Get(v.subject) == Reached(v, v.sorted)
  {
  }

  lemma CandidateAtHeartbeat(o: Settings, b: FetchedRecordBuffer, subject: string)
    requires b.store.keys == [subject] && b.Sorted(subject) != []
    requires b.Sorted(subject)[|b.Sorted(subject)| - 1].IsHeartbeatMessage()
    ensures CandidateOf(o, b).Some?
    ensures CandidateOf(o, b).value >= b.Sorted(subject)[|b.Sorted(subject)| - 1].streamSequence
  {
    var v := VisitOf(o, b, 0);
    assert Visits(o, b) == [v];
    HeartbeatReached(v);
    OnlyProgress(v, Held([v]));
    MaxSequenceCovers(b, 1, 0);
  }

  lemma LastIsGreatest(s: seq<FetchedRecord>, h: FetchedRecord)
    requires StrictlyAscending(s) && h in s
    requires forall x :: x in s ==> x.streamSequence <= h.streamSequence
    ensures s[|s| - 1] == h
  {
  }

  /** The last record that the visit of this subject meets in the last pass. */
  ghost predicate VisitEndsWith(o: Settings, fetches: Fetches, h: FetchedRecord) {
    && fetches != []
    && var s := Facing(o, fetches).Sorted(h.subject);
       s != [] && s[|s| - 1] == h
  }

  /** When transactions rise, that is the last record fetched, if it is of the subject. */
  lemma LastFetchedIsLastVisited(o: Settings, fetches: Fetches, h: FetchedRecord)
    requires Steady(fetches) && EndsWith(fetches, h)
    ensures VisitEndsWith(o, fetches, h)
  {
    FacingHas(o, fetches, h);
    LastFetchedIsGreatest(o, fetches, h);
    FacedInOrder(o, fetches, h.subject);
    LastIsGreatest(Facing(o, fetches).Sorted(h.subject), h);
  }

  lemma LastFetchedIsGreatest(o: Settings, fetches: Fetches, h: FetchedRecord)
    requires StrictlyAscending(Flatten(fetches)) && EndsWith(fetches, h) && Facing(o, fetches).Has(h)
    ensures h in Facing(o, fetches).Sorted(h.subject)
    ensures forall x :: x in Facing(o, fetches).Sorted(h.subject) ==> x.streamSequence <= h.streamSequence
  {
    var b := Facing(o, fetches);
    BufferIsValid(o, fetches);
    InSorted(b, h.subject, h);
    forall x | x in b.Sorted(h.subject) ensures x.streamSequence <= h.streamSequence {
      InSorted(b, h.subject, x);
      FacedIsFetched(o, fetches, x);
      LastIsLatest(fetches, x, h);
    }
  }

  lemma LastIsLatest(fetches: Fetches, x: FetchedRecord, h: FetchedRecord)
    requires StrictlyAscending(Flatten(fetches)) && x in Flatten(fetches) && EndsWith(fetches, h)
    ensures x.streamSequence <= h.streamSequence
  {
    UpToLast(Flatten(fetches), x);
    assert Flatten(fetches)[|Flatten(fetches)| - 1] == h;
  }

  lemma PassFreesChanges(o: Settings, b: FetchedRecordBuffer, h: FetchedRecord, r: FetchedRecord)
    requires b.Valid() && Stitch(o, b).buffer.Has(r) && h.IsHeartbeatMessage()
    requires b.Sorted(r.subject) != [] && h == b.Sorted(r.subject)[|b.Sorted(r.subject)| - 1]
    ensures !r.IsChange()
  {
    HeldExactly(o, b, r);
    SortedOfVisit(o, b, r);
    if r.IsChange() {
      HeldChangeIsLast(VisitFor(o, b, r), r);
    }
  }

  lemma SortedOfVisit(o: Settings, b: FetchedRecordBuffer, r: FetchedRecord)
    requires r.subject in b.store.keys
    ensures VisitFor(o, b, r).sorted == b.Sorted(r.subject)
  {
  }

  lemma HeldChangeIsLast(v: Visit, r: FetchedRecord)
    requires FateOf(v, r) == Hold && r.IsChange()
    ensures v.sorted != [] && r == v.sorted[|v.sorted| - 1]
  {
  }

  /** When a subject's visit ends with a heartbeat, no change of the subject is held. */
  lemma HeartbeatFreesChanges(o: Settings, fetches: Fetches, h: FetchedRecord, r: FetchedRecord)
    requires VisitEndsWith(o, fetches, h) && h.IsHeartbeatMessage()
    requires BufferAfter(o, fetches).Has(r) && r.subject == h.subject
    ensures !r.IsChange()
  {
    BufferIsValid(o, fetches);
    PassFreesChanges(o, Facing(o, fetches), h, r);
  }

  /**
   And if there is no other subject, the ack is within the gap of the heartbeat; there is none exactly
   when the first message of the stream is still held.
   */
  lemma HeartbeatAdvancesAck(o: Settings, fetches: Fetches, h: FetchedRecord)
    requires VisitEndsWith(o, fetches, h) && h.IsHeartbeatMessage() && h.streamSequence >= 1
    requires OneSubject(fetches, h.subject) && o.orphanContextSequenceGap >= 0
    ensures LastAck(o, fetches).Some? ==> LastAck(o, fetches).value >= h.streamSequence - o.orphanContextSequenceGap - 1
    ensures LastAck(o, fetches).None? <==> exists r :: BufferAfter(o, fetches).Has(r) && r.streamSequence <= 1
  {
    VisitedIsFaced(o, fetches, h);
    FacingKeys(o, fetches, h.subject, h);
    CandidateAtHeartbeat(o, Facing(o, fetches), h.subject);
    LeastNear(o, fetches, h);
    LeastIsLow(BufferAfter(o, fetches), 1);
    ClampedNear(CandidateOf(o, Facing(o, fetches)), LeastAfter(o, fetches), h.streamSequence, o.orphanContextSequenceGap);
  }

  /** The least sequence in memory after the last pass. */
  function LeastAfter(o: Settings, fetches: Fetches): Option<nat> {
    MinSequence(BufferAfter(o, fetches), |BufferAfter(o, fetches).store.keys|)
  }

  lemma ClampedNear(candidate: Option<nat>, least: Option<nat>, h: nat, gap: int)
    requires Covers(candidate, h) && h >= 1 && gap >= 0 && (least.Some? ==> h - gap <= least.value)
    ensures Clamp(candidate, least).Some? ==> Clamp(candidate, least).value >= h - gap - 1
    ensures Clamp(candidate, least).None? <==> least.Some? && least.value <= 1
  {
  }

  lemma VisitedIsFaced(o: Settings, fetches: Fetches, h: FetchedRecord)
    requires VisitEndsWith(o, fetches, h)
    ensures Facing(o, fetches).Has(h)
  {
    BufferIsValid(o, fetches);
    InSorted(Facing(o, fetches), h.subject, h);
  }

  lemma LeastNear(o: Settings, fetches: Fetches, h: FetchedRecord)
    requires VisitEndsWith(o, fetches, h) && OneSubject(fetches, h.subject) && o.orphanContextSequenceGap >= 0
    ensures BufferAfter(o, fetches).Valid()
    ensures LeastAfter(o, fetches).Some? ==> h.streamSequence - o.orphanContextSequenceGap <= LeastAfter(o, fetches).value
  {
    var held := BufferAfter(o, fetches);
    BufferIsValid(o, fetches);
    MinSequenceOccurs(held, |held.store.keys|);
    if LeastAfter(o, fetches).Some? {
      var r :| held.Has(r) && r.streamSequence == LeastAfter(o, fetches).value;
      HeldIsFetched(o, fetches, r);
      HeldNearLastVisited(o, fetches, r);
    }
  }

  lemma LeastIsLow(held: FetchedRecordBuffer, q: nat)
    requires held.Valid()
    ensures
      var least := MinSequence(held, |held.store.keys|);
      least.Some? && least.value <= q <==> exists r :: held.Has(r) && r.streamSequence <= q
  {
    MinSequenceOccurs(held, |held.store.keys|);
    if r :| held.Has(r) && r.streamSequence <= q {
      LeastBelow(held, r);
    }
  }

  // ---------------------------------------------------------------------------------------------
  // Memory without a bound: transactions that come in the opposite order
  // ---------------------------------------------------------------------------------------------

  /** Contexts of one subject, each of an older transaction than the one before it. */
  ghost predicate Falling(s: seq<FetchedRecord>) {
    && StrictlyAscending(s)
    && (forall i :: 0 <= i < |s| ==> s[i].IsContextMessage() && s[i].subject == s[0].subject)
    && (forall i, j :: 0 <= i < j < |s| ==> s[i].TransactionId() > s[j].TransactionId())
  }

  /** The first of them is the last in visiting order. */
  lemma FallingEndsWithFirst(b: FetchedRecordBuffer, s: seq<FetchedRecord>)
    requires Falling(s) && s != [] && b.Valid() && forall r :: b.Has(r) <==> r in s
    ensures
      var sorted := b.Sorted(s[0].subject);
      sorted != [] && sorted[|sorted| - 1] == s[0]
  {
    var subject := s[0].subject;
    var sorted := b.Sorted(subject);
    assert s[0] in s;
    InSorted(b, subject, s[0]);
    InSorted(b, subject, sorted[|sorted| - 1]);
    SortRecordsSorts(b.FlatOf(subject));
    var i :| 0 <= i < |sorted| && sorted[i] == s[0];
    var j :| 0 <= j < |s| && s[j] == sorted[|sorted| - 1];
    assert i == |sorted| - 1 || Precedes(sorted[i], sorted[|sorted| - 1]);
  }

  lemma FallingIsHeld(o: Settings, b: FetchedRecordBuffer, s: seq<FetchedRecord>, r: FetchedRecord)
    requires o.useBuffer && o.orphanContextSequenceGap >= 0 && Falling(s) && r in s
    requires b.Valid() && b.store.keys == [s[0].subject] && forall r :: b.Has(r) <==> r in s
    ensures Fated(o, b, r, Hold)
  {
    var i :| 0 <= i < |s| && s[i] == r;
    forall x | x in b.ByTransactionId(r.subject, r.TransactionId()) ensures !x.IsChange() {
      ListedWith(b, r, x);
    }
    FallingEndsWithFirst(b, s);
    var k := MaxSequenceIsLast(b, 1);
    AwaitingIsHeld(VisitFor(o, b, r), r);
  }

  lemma FallingIsFaced(o: Settings, fetches: Fetches, s: seq<FetchedRecord>)
    requires Falling(s) && s != [] && fetches == [s]
    ensures Facing(o, fetches).Valid() && Facing(o, fetches).store.keys == [s[0].subject]
    ensures forall r :: Facing(o, fetches).Has(r) <==> r in s
  {
    forall r ensures Facing(o, fetches).Has(r) <==> r in s {
      OneFetchFaced(o, fetches, s, r);
    }
    OneFetchKeys(o, fetches, s, s[0].subject);
  }

  lemma OneFetchRecords(o: Settings, fetches: Fetches, s: seq<FetchedRecord>)
    requires fetches == [s]
    ensures multiset(Facing(o, fetches).Records()) == multiset(s)
  {
    OneFetchAdds(o, fetches, s);
    AddAllRefinesMultiset(EMPTY, s);
    assert EMPTY.Records() == [];
  }

  lemma NothingElse(o: Settings, b: FetchedRecordBuffer, fate: Fate)
    requires b.Valid() && fate != Hold && forall r :: b.Has(r) ==> Fated(o, b, r, Hold)
    ensures Selected(Visits(o, b), fate) == []
  {
    var chosen := Selected(Visits(o, b), fate);
    if chosen != [] {
      SelectedExactly(o, b, fate, chosen[0]);
    }
  }

  lemma HoldsEverything(o: Settings, b: FetchedRecordBuffer)
    requires b.Valid() && forall r :: b.Has(r) ==> Fated(o, b, r, Hold)
    ensures multiset(Stitch(o, b).buffer.Records()) == multiset(b.Records())
  {
    var visits := Visits(o, b);
    NothingElse(o, b, Release);
    NothingElse(o, b, Drop);
    NothingElse(o, b, Pass);
    SelectedPartitions(visits);
    MetIsEverything(b, visits, b.store.keys);
    HeldRecords(visits);
  }

  /** Such contexts are all held, however many there are. */
  lemma FallingIsHeldWhole(o: Settings, s: seq<FetchedRecord>)
    requires o.useBuffer && o.orphanContextSequenceGap >= 0 && Falling(s) && s != []
    ensures BufferAfter(o, [s]).Size() == |s|
  {
    var b := Facing(o, [s]);
    FallingIsFaced(o, [s], s);
    OneFetchRecords(o, [s], s);
    forall r | b.Has(r) ensures Fated(o, b, r, Hold) {
      FallingIsHeld(o, b, s, r);
    }
    HoldsEverything(o, b);
    BufferIsValid(o, [s]);
    SizeCounts(BufferAfter(o, [s]));
    assert |multiset(s)| == |s| && |multiset(BufferAfter(o, [s]).Records())| == |BufferAfter(o, [s]).Records()|;
  }

  /** n contexts, numbered from one on, of the transactions n down to one. */
  function Descending(n: nat): seq<FetchedRecord> {
    seq(n, i requires 0 <= i < n => Logical(ContextPrefix, "orders", n - i, i + 1))
  }

  /** When transactions fall, one fetch can leave any number of records in memory. */
  lemma MemoryIsUnbounded(o: Settings, n: nat)
    requires o.useBuffer && o.orphanContextSequenceGap >= 0 && n > 0
    ensures StrictlyAscending(Descending(n)) && BufferAfter(o, [Descending(n)]).Size() == n
  {
    var s := Descending(n);
    assert forall i :: 0 <= i < n ==> s[i] == Logical(ContextPrefix, "orders", n - i, i + 1);
    FallingIsHeldWhole(o, s);
  }
}
