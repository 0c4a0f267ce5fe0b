/**
 One incarnation of the worker: pass after pass over the records of its fetches, with no crash in
 between. The list of lists says how the stream was cut into fetches; a fetch may be empty.
 */
module Incarnation {
  import opened Wrappers
  import opened FetchedRecords
  import opened FetchedRecordBuffers
  import opened Stitching
  import opened StitchingProperties
  import opened Ingestion
  import opened TurnProperties

  type Fetches = seq<seq<FetchedRecord>>

  /** What is left in memory after the last fetch. */
  function BufferAfter(o: Settings, fetches: Fetches): FetchedRecordBuffer {
    if fetches == [] then EMPTY
    else Stitch(o, BufferAfter(o, fetches[..|fetches| - 1]).AddAll(fetches[|fetches| - 1])).buffer
  }

  /** What the last pass is given: the records held before it and those fetched. */
  function Facing(o: Settings, fetches: Fetches): FetchedRecordBuffer
    requires fetches != []
  {
    BufferAfter(o, fetches[..|fetches| - 1]).AddAll(fetches[|fetches| - 1])
  }

  function ReleasedOver(o: Settings, fetches: Fetches): seq<FetchedRecord> {
    if fetches == [] then []
    else ReleasedOver(o, fetches[..|fetches| - 1]) + Stitch(o, Facing(o, fetches)).released
  }

  /** The ack computed by the last pass. */
  function LastAck(o: Settings, fetches: Fetches): Option<nat> {
    if fetches == [] then None else Stitch(o, Facing(o, fetches)).ack
  }

  // ---------------------------------------------------------------------------------------------
  // What a pass faces
  // ---------------------------------------------------------------------------------------------

  lemma {:induction false} BufferIsValid(o: Settings, fetches: Fetches)
    ensures BufferAfter(o, fetches).Valid()
    ensures fetches != [] ==> Facing(o, fetches).Valid()
    decreases |fetches|
  {
    if fetches != [] {
      BufferIsValid(o, fetches[..|fetches| - 1]);
      AddAllKeepsValid(BufferAfter(o, fetches[..|fetches| - 1]), fetches[|fetches| - 1]);
      HeldIsValid(Visits(o, Facing(o, fetches)));
    }
  }

  lemma FacingHas(o: Settings, fetches: Fetches, r: FetchedRecord)
    requires fetches != []
    ensures Facing(o, fetches).Has(r) <==>
      BufferAfter(o, fetches[..|fetches| - 1]).Has(r) || r in fetches[|fetches| - 1]
  {
    HasAddAll(BufferAfter(o, fetches[..|fetches| - 1]), fetches[|fetches| - 1], r);
  }

  lemma OneFetchFlattens(fetches: Fetches, records: seq<FetchedRecord>)
    requires fetches == [records]
    ensures Flatten(fetches) == records
  {
    var none: Fetches := fetches[..0];
    assert none == [] && Flatten(none) == [];
  }

  lemma OneFetchAdds(o: Settings, fetches: Fetches, records: seq<FetchedRecord>)
    requires fetches == [records]
    ensures Facing(o, fetches) == EMPTY.AddAll(records)
  {
    var none: Fetches := fetches[..0];
    assert none == [] && BufferAfter(o, none) == EMPTY;
  }

  lemma OneFetchFaced(o: Settings, fetches: Fetches, records: seq<FetchedRecord>, r: FetchedRecord)
    requires fetches == [records]
    ensures Facing(o, fetches).Has(r) <==> r in records
  {
    OneFetchAdds(o, fetches, records);
    HasAddAll(EMPTY, records, r);
  }

  lemma HeldWasFaced(o: Settings, fetches: Fetches, r: FetchedRecord)
    requires fetches != [] && BufferAfter(o, fetches).Has(r)
    ensures Facing(o, fetches).Valid() && Fated(o, Facing(o, fetches), r, Hold)
  {
    BufferIsValid(o, fetches);
    HeldExactly(o, Facing(o, fetches), r);
  }

  lemma InFetches(fetches: Fetches, r: FetchedRecord)
    requires fetches != []
    ensures r in Flatten(fetches) <==> r in Flatten(fetches[..|fetches| - 1]) || r in fetches[|fetches| - 1]
  {
  }

  lemma {:induction false} HeldIsFetched(o: Settings, fetches: Fetches, r: FetchedRecord)
    requires BufferAfter(o, fetches).Has(r)
    ensures r in Flatten(fetches)
    decreases |fetches|
  {
    if fetches != [] {
      HeldWasFaced(o, fetches, r);
      FacedIsFetched(o, fetches, r);
    }
  }

  lemma {:induction false} FacedIsFetched(o: Settings, fetches: Fetches, r: FetchedRecord)
    requires fetches != [] && Facing(o, fetches).Has(r)
    ensures r in Flatten(fetches)
    decreases |fetches|, 0
  {
    FacingHas(o, fetches, r);
    InFetches(fetches, r);
    if r !in fetches[|fetches| - 1] {
      HeldIsFetched(o, fetches[..|fetches| - 1], r);
    }
  }

  lemma Across(a: seq<FetchedRecord>, b: seq<FetchedRecord>, i: nat, j: nat)
    requires StrictlyAscending(a + b) && i < |a| && j < |b|
    ensures a[i].streamSequence < b[j].streamSequence
  {
    assert (a + b)[i] == a[i] && (a + b)[|a| + j] == b[j];
  }

  lemma NewIsLater(fetches: Fetches, r: FetchedRecord, x: FetchedRecord)
    requires fetches != [] && StrictlyAscending(Flatten(fetches))
    requires r in Flatten(fetches[..|fetches| - 1]) && x in fetches[|fetches| - 1]
    ensures r.streamSequence < x.streamSequence
  {
    var front, last := Flatten(fetches[..|fetches| - 1]), fetches[|fetches| - 1];
    var i :| 0 <= i < |front| && front[i] == r;
    var j :| 0 <= j < |last| && last[j] == x;
    Across(front, last, i, j);
  }

  lemma PartsAscend(a: seq<FetchedRecord>, b: seq<FetchedRecord>)
    requires StrictlyAscending(a + b)
    ensures StrictlyAscending(a) && StrictlyAscending(b)
  {
    forall i, j | 0 <= i < j < |a| ensures a[i].streamSequence < a[j].streamSequence {
      assert (a + b)[i] == a[i] && (a + b)[j] == a[j];
    }
    forall i, j | 0 <= i < j < |b| ensures b[i].streamSequence < b[j].streamSequence {
      assert (a + b)[|a| + i] == b[i] && (a + b)[|a| + j] == b[j];
    }
  }

  lemma FrontAscends(fetches: Fetches)
    requires fetches != [] && StrictlyAscending(Flatten(fetches))
    ensures StrictlyAscending(Flatten(fetches[..|fetches| - 1]))
    ensures StrictlyAscending(fetches[|fetches| - 1])
  {
    PartsAscend(Flatten(fetches[..|fetches| - 1]), fetches[|fetches| - 1]);
  }

  /** A sequence names one record. */
  lemma SameSequenceSameRecord(s: seq<FetchedRecord>, r: FetchedRecord, x: FetchedRecord)
    requires StrictlyAscending(s) && r in s && x in s && r.streamSequence == x.streamSequence
    ensures r == x
  {
  }

  lemma {:induction false} BufferInOrder(o: Settings, fetches: Fetches)
    requires StrictlyAscending(Flatten(fetches))
    ensures InArrivalOrder(BufferAfter(o, fetches))
    ensures fetches != [] ==> InArrivalOrder(Facing(o, fetches))
    decreases |fetches|
  {
    if fetches != [] {
      var front, last := fetches[..|fetches| - 1], fetches[|fetches| - 1];
      FrontAscends(fetches);
      BufferInOrder(o, front);
      BufferIsValid(o, front);
      BufferIsValid(o, fetches);
      var b := BufferAfter(o, front);
      forall i, x | 0 <= i < |last| && b.Has(x) ensures x.streamSequence <= last[i].streamSequence {
        HeldIsFetched(o, front, x);
        NewIsLater(fetches, x, last[i]);
      }
      AddAllInOrder(b, last);
      HeldInOrder(o, Facing(o, fetches));
    }
  }

  // ---------------------------------------------------------------------------------------------
  // Acks are monotone and always behind memory
  // ---------------------------------------------------------------------------------------------

  ghost predicate NoLaterThan(s: seq<FetchedRecord>, n: nat) {
    forall r :: r in s ==> r.streamSequence <= n
  }

  lemma AckWithin(o: Settings, fetches: Fetches, n: nat)
    requires LastAck(o, fetches).Some? && NoLaterThan(Flatten(fetches), n)
    ensures LastAck(o, fetches).value <= n
  {
    var b := Facing(o, fetches);
    BufferIsValid(o, fetches);
    AckOrigin(o, b);
    forall r | b.Has(r) || Stitch(o, b).buffer.Has(r) ensures r.streamSequence <= n {
      HeldExactly(o, b, r);
      FacedIsFetched(o, fetches, r);
    }
  }

  /** An earlier moment of the same incarnation. */
  ghost predicate Earlier(earlier: Fetches, fetches: Fetches) {
    earlier <= fetches
  }

  lemma EarlierThanLast(earlier: Fetches, fetches: Fetches)
    requires Earlier(earlier, fetches) && earlier != fetches
    ensures fetches != [] && Earlier(earlier, fetches[..|fetches| - 1])
  {
    assert |earlier| < |fetches|;
  }

  lemma {:induction false} EarlierFlattens(earlier: Fetches, fetches: Fetches)
    requires Earlier(earlier, fetches)
    ensures Flatten(earlier) <= Flatten(fetches)
    decreases |fetches|
  {
    if earlier != fetches {
      EarlierThanLast(earlier, fetches);
      EarlierFlattens(earlier, fetches[..|fetches| - 1]);
    }
  }

  lemma EarlierThanNew(earlier: Fetches, fetches: Fetches, r: FetchedRecord, x: FetchedRecord)
    requires StrictlyAscending(Flatten(fetches)) && Earlier(earlier, fetches) && earlier != fetches
    requires x in Flatten(earlier) && r in fetches[|fetches| - 1]
    ensures x.streamSequence < r.streamSequence
  {
    var front := fetches[..|fetches| - 1];
    EarlierThanLast(earlier, fetches);
    EarlierFlattens(earlier, front);
    assert x in Flatten(front);
    NewIsLater(fetches, x, r);
  }

  lemma AckBeforeNew(o: Settings, earlier: Fetches, fetches: Fetches, r: FetchedRecord)
    requires StrictlyAscending(Flatten(fetches)) && Earlier(earlier, fetches) && earlier != fetches
    requires LastAck(o, earlier).Some? && r in fetches[|fetches| - 1]
    ensures LastAck(o, earlier).value < r.streamSequence
  {
    forall x: FetchedRecord | x in Flatten(earlier) ensures x.streamSequence < r.streamSequence {
      EarlierThanNew(earlier, fetches, r, x);
    }
    AckNamesSomething(o, earlier);
    assert Flatten(earlier)[0] in Flatten(earlier);
    assert NoLaterThan(Flatten(earlier), r.streamSequence - 1);
    AckWithin(o, earlier, r.streamSequence - 1);
  }

  lemma AckNamesSomething(o: Settings, fetches: Fetches)
    requires LastAck(o, fetches).Some?
    ensures Flatten(fetches) != []
  {
    var b := Facing(o, fetches);
    BufferIsValid(o, fetches);
    AckOrigin(o, b);
    if Occurs(b, LastAck(o, fetches).value) {
      var r :| b.Has(r) && r.streamSequence == LastAck(o, fetches).value;
      FacedIsFetched(o, fetches, r);
    } else {
      var r :| BufferAfter(o, fetches).Has(r) && r.streamSequence == LastAck(o, fetches).value + 1;
      HeldIsFetched(o, fetches, r);
    }
  }

  ghost predicate BehindMemory(b: FetchedRecordBuffer, ack: nat) {
    forall r :: b.Has(r) ==> ack < r.streamSequence
  }

  ghost predicate Beneath(s: seq<FetchedRecord>, ack: nat) {
    forall r :: r in s ==> ack < r.streamSequence
  }

  lemma FacedBeyond(o: Settings, fetches: Fetches, ack: nat)
    requires fetches != []
    requires BehindMemory(BufferAfter(o, fetches[..|fetches| - 1]), ack) && Beneath(fetches[|fetches| - 1], ack)
    ensures BehindMemory(Facing(o, fetches), ack) && BehindMemory(BufferAfter(o, fetches), ack)
  {
    forall r | Facing(o, fetches).Has(r) ensures ack < r.streamSequence {
      FacingHas(o, fetches, r);
    }
    forall r | BufferAfter(o, fetches).Has(r) ensures ack < r.streamSequence {
      HeldWasFaced(o, fetches, r);
    }
  }

  lemma AckBeneathNew(o: Settings, earlier: Fetches, fetches: Fetches)
    requires StrictlyAscending(Flatten(fetches)) && Earlier(earlier, fetches) && earlier != fetches
    requires LastAck(o, earlier).Some?
    ensures Beneath(fetches[|fetches| - 1], LastAck(o, earlier).value)
  {
    forall r | r in fetches[|fetches| - 1] ensures LastAck(o, earlier).value < r.streamSequence {
      AckBeforeNew(o, earlier, fetches, r);
    }
  }

  lemma OwnAckBehind(o: Settings, fetches: Fetches)
    requires LastAck(o, fetches).Some?
    ensures BehindMemory(BufferAfter(o, fetches), LastAck(o, fetches).value)
  {
    forall r | BufferAfter(o, fetches).Has(r) ensures LastAck(o, fetches).value < r.streamSequence {
      AckBelowHeld(o, Facing(o, fetches), r);
    }
  }

  /** Whatever is in memory now is strictly beyond every ack computed so far. */
  lemma {:induction false} AckBehindMemory(o: Settings, earlier: Fetches, fetches: Fetches)
    requires StrictlyAscending(Flatten(fetches)) && Earlier(earlier, fetches) && LastAck(o, earlier).Some?
    ensures BehindMemory(BufferAfter(o, fetches), LastAck(o, earlier).value)
    decreases |fetches|
  {
    if earlier == fetches {
      OwnAckBehind(o, fetches);
    } else {
      EarlierThanLast(earlier, fetches);
      FrontAscends(fetches);
      AckBehindMemory(o, earlier, fetches[..|fetches| - 1]);
      AckBeneathNew(o, earlier, fetches);
      FacedBeyond(o, fetches, LastAck(o, earlier).value);
    }
  }

  lemma NextAckIsNoLess(o: Settings, fetches: Fetches, ack: nat)
    requires LastAck(o, fetches).Some?
    requires BehindMemory(BufferAfter(o, fetches[..|fetches| - 1]), ack) && Beneath(fetches[|fetches| - 1], ack)
    ensures ack <= LastAck(o, fetches).value
  {
    FacedBeyond(o, fetches, ack);
    BufferIsValid(o, fetches);
    AckOrigin(o, Facing(o, fetches));
  }

  /** Every ack is at least every earlier one. */
  lemma AcksAreMonotone(o: Settings, earlier: Fetches, fetches: Fetches)
    requires StrictlyAscending(Flatten(fetches)) && Earlier(earlier, fetches)
    requires LastAck(o, earlier).Some? && LastAck(o, fetches).Some?
    ensures LastAck(o, earlier).value <= LastAck(o, fetches).value
  {
    if earlier != fetches {
      EarlierThanLast(earlier, fetches);
      FrontAscends(fetches);
      AckBehindMemory(o, earlier, fetches[..|fetches| - 1]);
      AckBeneathNew(o, earlier, fetches);
      NextAckIsNoLess(o, fetches, LastAck(o, earlier).value);
    }
  }

  // ---------------------------------------------------------------------------------------------
  // Nothing is released twice, nothing is lost
  // ---------------------------------------------------------------------------------------------

  function Taken(o: Settings, b: FetchedRecordBuffer): seq<FetchedRecord> {
    Selected(Visits(o, b), Release)
  }

  /** The records released so far, as they were fetched. */
  function TakenOver(o: Settings, fetches: Fetches): seq<FetchedRecord> {
    if fetches == [] then []
    else TakenOver(o, fetches[..|fetches| - 1]) + Taken(o, Facing(o, fetches))
  }

  function CountIn(s: seq<FetchedRecord>, r: FetchedRecord): nat {
    multiset(s)[r]
  }

  lemma CountConcat(a: seq<FetchedRecord>, b: seq<FetchedRecord>, r: FetchedRecord)
    ensures CountIn(a + b, r) == CountIn(a, r) + CountIn(b, r)
  {
  }

  lemma PassBalances(o: Settings, b: FetchedRecordBuffer, r: FetchedRecord)
    requires b.Valid() && r.IsSavable()
    ensures CountIn(Taken(o, b), r) + CountIn(Stitch(o, b).buffer.Records(), r) == CountIn(b.Records(), r)
  {
    var taken, dropped, passed := Conservation(o, b);
    assert r !in dropped && r !in passed;
    assert Sum4(multiset(taken), multiset(Stitch(o, b).buffer.Records()), multiset(dropped), multiset(passed))[r]
      == multiset(b.Records())[r];
  }

  lemma FacingBalances(o: Settings, fetches: Fetches, r: FetchedRecord)
    requires fetches != []
    ensures CountIn(Facing(o, fetches).Records(), r)
      == CountIn(BufferAfter(o, fetches[..|fetches| - 1]).Records(), r) + CountIn(fetches[|fetches| - 1], r)
  {
    var front := fetches[..|fetches| - 1];
    BufferIsValid(o, front);
    AddAllRefinesMultiset(BufferAfter(o, front), fetches[|fetches| - 1]);
  }

  /** Each savable record was released as often as it was fetched, or is in the buffer. */
  lemma {:induction false} RunBalances(o: Settings, fetches: Fetches, r: FetchedRecord)
    requires r.IsSavable()
    ensures CountIn(TakenOver(o, fetches), r) + CountIn(BufferAfter(o, fetches).Records(), r) == CountIn(Flatten(fetches), r)
    decreases |fetches|
  {
    if fetches == [] {
      assert EMPTY.Records() == [];
    } else {
      var front := fetches[..|fetches| - 1];
      RunBalances(o, front, r);
      FacingBalances(o, fetches, r);
      BufferIsValid(o, fetches);
      PassBalances(o, Facing(o, fetches), r);
      CountConcat(TakenOver(o, front), Taken(o, Facing(o, fetches)), r);
      CountConcat(Flatten(front), fetches[|fetches| - 1], r);
    }
  }

  lemma {:induction false} AttributeEachAt(b: FetchedRecordBuffer, s: seq<FetchedRecord>, i: nat)
    requires i < |s|
    ensures |AttributeEach(b, s)| == |s| && AttributeEach(b, s)[i] == AttributedIn(b, s[i])
  {
    if i < |s| - 1 {
      AttributeEachAt(b, s[..|s| - 1], i);
    } else if |s| > 1 {
      AttributeEachAt(b, s[..|s| - 1], 0);
    }
  }

  /** The i-th record released is the i-th taken, but for its context. */
  lemma {:induction false} ReleasedIsTaken(o: Settings, fetches: Fetches)
    ensures |ReleasedOver(o, fetches)| == |TakenOver(o, fetches)|
    ensures forall i :: 0 <= i < |TakenOver(o, fetches)| ==>
      && TakenOver(o, fetches)[i].IsSavable()
      && ReleasedOver(o, fetches)[i].streamSequence == TakenOver(o, fetches)[i].streamSequence
    decreases |fetches|
  {
    if fetches != [] {
      ReleasedIsTaken(o, fetches[..|fetches| - 1]);
      PassReleasesTaken(o, fetches);
    }
  }

  lemma PassReleasesTaken(o: Settings, fetches: Fetches)
    requires fetches != []
    ensures
      var b := Facing(o, fetches);
      && |Stitch(o, b).released| == |Taken(o, b)|
      && forall i :: 0 <= i < |Taken(o, b)| ==>
           && Taken(o, b)[i].IsSavable()
           && Stitch(o, b).released[i].streamSequence == Taken(o, b)[i].streamSequence
  {
    var b := Facing(o, fetches);
    BufferIsValid(o, fetches);
    StitchReleases(o, b);
    forall i | 0 <= i < |Taken(o, b)|
      ensures |Stitch(o, b).released| == |Taken(o, b)|
      ensures Taken(o, b)[i].IsSavable() && Stitch(o, b).released[i].streamSequence == Taken(o, b)[i].streamSequence
    {
      AttributeEachAt(b, Taken(o, b), i);
      FatesMakeSense(Visits(o, b), Release, Taken(o, b)[i]);
    }
  }

  lemma {:induction false} CountOnce(s: seq<FetchedRecord>, r: FetchedRecord)
    requires StrictlyAscending(s)
    ensures CountIn(s, r) <= 1
  {
    if s != [] {
      var front, last := s[..|s| - 1], s[|s| - 1];
      CountOnce(front, r);
      assert s == front + [last];
      CountConcat(front, [last], r);
    }
  }

  lemma CountTwice(s: seq<FetchedRecord>, i: nat, j: nat)
    requires i < j < |s| && s[i] == s[j]
    ensures CountIn(s, s[i]) >= 2
  {
    assert s == s[..j] + [s[j]] + s[j + 1..];
    assert s[i] in s[..j];
    CountConcat(s[..j] + [s[j]], s[j + 1..], s[i]);
    CountConcat(s[..j], [s[j]], s[i]);
  }

  lemma TakenIsFetched(o: Settings, fetches: Fetches, i: nat)
    requires i < |TakenOver(o, fetches)|
    ensures
      var r := TakenOver(o, fetches)[i];
      && r in Flatten(fetches) && r.IsSavable()
      && CountIn(TakenOver(o, fetches), r) + CountIn(BufferAfter(o, fetches).Records(), r) == CountIn(Flatten(fetches), r)
  {
    var r := TakenOver(o, fetches)[i];
    ReleasedIsTaken(o, fetches);
    RunBalances(o, fetches, r);
    assert r in TakenOver(o, fetches);
  }

  /** In one incarnation no sequence is released twice. */
  lemma ReleasedAtMostOnce(o: Settings, fetches: Fetches, i: nat, j: nat)
    requires StrictlyAscending(Flatten(fetches)) && i < j < |ReleasedOver(o, fetches)|
    ensures ReleasedOver(o, fetches)[i].streamSequence != ReleasedOver(o, fetches)[j].streamSequence
  {
    var taken := TakenOver(o, fetches);
    ReleasedIsTaken(o, fetches);
    TakenIsFetched(o, fetches, i);
    TakenIsFetched(o, fetches, j);
    CountOnce(Flatten(fetches), taken[i]);
    if taken[i].streamSequence == taken[j].streamSequence {
      SameSequenceSameRecord(Flatten(fetches), taken[i], taken[j]);
      CountTwice(taken, i, j);
    }
  }

  lemma ExclusiveCounts(o: Settings, fetches: Fetches, r: FetchedRecord)
    requires StrictlyAscending(Flatten(fetches)) && r.IsSavable() && r in TakenOver(o, fetches)
    ensures !BufferAfter(o, fetches).Has(r)
  {
    RunBalances(o, fetches, r);
    CountOnce(Flatten(fetches), r);
    BufferIsValid(o, fetches);
    InRecords(BufferAfter(o, fetches), r);
  }

  /** What was released is not in memory any more. */
  lemma ReleasedIsNotHeld(o: Settings, fetches: Fetches, i: nat, r: FetchedRecord)
    requires StrictlyAscending(Flatten(fetches)) && i < |ReleasedOver(o, fetches)| && BufferAfter(o, fetches).Has(r)
    ensures ReleasedOver(o, fetches)[i].streamSequence != r.streamSequence
  {
    ReleasedIsTaken(o, fetches);
    TakenIsFetched(o, fetches, i);
    ExclusiveCounts(o, fetches, TakenOver(o, fetches)[i]);
    HeldIsFetched(o, fetches, r);
    if TakenOver(o, fetches)[i].streamSequence == r.streamSequence {
      SameSequenceSameRecord(Flatten(fetches), TakenOver(o, fetches)[i], r);
    }
  }
}
