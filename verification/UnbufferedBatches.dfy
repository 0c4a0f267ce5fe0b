/**
 With `useBuffer` off each fetch is stitched by itself, and what a run releases is the one-pass stitching
 of the whole stream exactly when every record finds in its own fetch the context that the pass gives it.
 */
module UnbufferedBatches {
  import opened FetchedRecords
  import opened FetchedRecordBuffers
  import opened Stitching
  import opened StitchingProperties
  import opened Ingestion
  import opened Incarnation
  import opened BatchIndependence

  /** Every fetch stitched by itself, in turn. */
  function OwnPasses(fetches: Fetches): seq<FetchedRecord> {
    if fetches == [] then []
    else OwnPasses(fetches[..|fetches| - 1]) + OnePass(fetches[|fetches| - 1])
  }

  /** Each record gets in its own fetch what the pass over the whole stream gives it. */
  ghost predicate OwnContextsSuffice(stream: seq<FetchedRecord>, fetches: Fetches) {
    forall k, r | 0 <= k < |fetches| && r in fetches[k] && r.IsSavable() ::
      WithContext(fetches[k], r) == WithContext(stream, r)
  }

  // ---------------------------------------------------------------------------------------------
  // One fetch
  // ---------------------------------------------------------------------------------------------

  lemma NothingIsKept(o: Settings, fetches: Fetches)
    requires !o.useBuffer
    ensures BufferAfter(o, fetches) == EMPTY
  {
    if fetches != [] {
      var b := Facing(o, fetches);
      var held := Selected(Visits(o, b), Hold);
      BufferIsValid(o, fetches);
      if held != [] {
        SelectedExactly(o, b, Hold, held[0]);
      }
    }
  }

  lemma FetchIsAlone(o: Settings, fetches: Fetches)
    requires !o.useBuffer && fetches != []
    ensures Facing(o, fetches) == EMPTY.AddAll(fetches[|fetches| - 1])
  {
    NothingIsKept(o, fetches[..|fetches| - 1]);
  }

  /** The buffer that holds one fetch. */
  ghost predicate Holds(b: FetchedRecordBuffer, fetch: seq<FetchedRecord>) {
    b.Valid() && InArrivalOrder(b) && forall r :: b.Has(r) <==> r in fetch
  }

  lemma AddedAlone(fetch: seq<FetchedRecord>)
    requires StrictlyAscending(fetch)
    ensures Holds(EMPTY.AddAll(fetch), fetch)
  {
    AddAllKeepsValid(EMPTY, fetch);
    AddAllInOrder(EMPTY, fetch);
    forall r ensures EMPTY.AddAll(fetch).Has(r) <==> r in fetch {
      HasAddAll(EMPTY, fetch, r);
    }
  }

  lemma ListHasNone(b: FetchedRecordBuffer, fetch: seq<FetchedRecord>, r: FetchedRecord)
    requires Holds(b, fetch) && ContextIn(fetch, r).None?
    ensures FirstContext(b.ByTransactionId(r.subject, r.TransactionId())).None?
  {
    var list := b.ByTransactionId(r.subject, r.TransactionId());
    FirstContextFound(list);
    ContextInFound(fetch, r);
    if FirstContext(list).Some? {
      ListedWith(b, r, FirstContext(list).value);
    }
  }

  lemma ListHasFirst(b: FetchedRecordBuffer, fetch: seq<FetchedRecord>, r: FetchedRecord, c: FetchedRecord)
    requires Holds(b, fetch) && StrictlyAscending(fetch) && ContextIn(fetch, r).Some? && ContextIn(fetch, r).value == c
    ensures FirstContext(b.ByTransactionId(r.subject, r.TransactionId())).Some?
    ensures FirstContext(b.ByTransactionId(r.subject, r.TransactionId())).value == c
  {
    ContextInFound(fetch, r);
    LeastInList(b, r, c);
    var f := FirstContext(b.ByTransactionId(r.subject, r.TransactionId())).value;
    ListedWith(b, r, f);
    ContextInIsFirst(fetch, r, f);
    SameSequenceSameRecord(fetch, f, c);
  }

  lemma AttributedAlone(b: FetchedRecordBuffer, fetch: seq<FetchedRecord>, r: FetchedRecord)
    requires Holds(b, fetch) && StrictlyAscending(fetch)
    ensures AttributedIn(b, r) == WithContext(fetch, r)
  {
    if ContextIn(fetch, r).None? {
      ListHasNone(b, fetch, r);
    } else {
      ListHasFirst(b, fetch, r, ContextIn(fetch, r).value);
    }
  }

  lemma {:induction false} EachAlone(b: FetchedRecordBuffer, fetch: seq<FetchedRecord>, s: seq<FetchedRecord>)
    requires Holds(b, fetch) && StrictlyAscending(fetch)
    ensures AttributeEach(b, s) == WithContexts(fetch, s)
    decreases |s|
  {
    if s != [] {
      EachAlone(b, fetch, s[..|s| - 1]);
      AttributedAlone(b, fetch, s[|s| - 1]);
    }
  }

  /** A pass over one fetch takes every savable record of it. */
  lemma AllTaken(o: Settings, fetch: seq<FetchedRecord>)
    requires !o.useBuffer
    ensures multiset(Taken(o, EMPTY.AddAll(fetch))) == multiset(Savables(fetch))
  {
    var fetches: Fetches := [fetch];
    var none: Fetches := fetches[..0];
    assert none == [] && TakenOver(o, none) == [];
    FetchIsAlone(o, fetches);
    assert TakenOver(o, fetches) == Taken(o, Facing(o, fetches));
    OneFetchFlattens(fetches, fetch);
    NothingIsKept(o, fetches);
    TakenAndHeld(o, fetches);
    assert EMPTY.Records() == [];
  }

  /** So what it releases is the one pass over that fetch. */
  lemma FetchInOnePass(o: Settings, fetch: seq<FetchedRecord>)
    requires !o.useBuffer && StrictlyAscending(fetch)
    ensures multiset(Stitch(o, EMPTY.AddAll(fetch)).released) == multiset(OnePass(fetch))
  {
    var b := EMPTY.AddAll(fetch);
    AddedAlone(fetch);
    StitchReleases(o, b);
    EachAlone(b, fetch, Taken(o, b));
    AllTaken(o, fetch);
    OnePassIsUncut(fetch, Taken(o, b));
    OnePassIsUncut(fetch, Savables(fetch));
    GivenOfMultiset(fetch, [], Taken(o, b), Savables(fetch));
  }

  // ---------------------------------------------------------------------------------------------
  // A run
  // ---------------------------------------------------------------------------------------------

  lemma {:induction false} RunInOwnPasses(o: Settings, fetches: Fetches)
    requires !o.useBuffer && StrictlyAscending(Flatten(fetches))
    ensures multiset(ReleasedOver(o, fetches)) == multiset(OwnPasses(fetches))
    decreases |fetches|
  {
    if fetches != [] {
      FrontAscends(fetches);
      RunInOwnPasses(o, fetches[..|fetches| - 1]);
      FetchIsAlone(o, fetches);
      FetchInOnePass(o, fetches[|fetches| - 1]);
    }
  }

  /** In any run, buffering nothing, the outcome is every fetch stitched by itself. */
  lemma OutcomeIsOwnPasses(o: Settings, fetches: Fetches)
    requires !o.useBuffer && StrictlyAscending(Flatten(fetches))
    ensures multiset(Outcome(o, fetches)) == multiset(OwnPasses(fetches))
  {
    RunInOwnPasses(o, fetches);
    NothingIsKept(o, fetches);
    assert EMPTY.Records() == [];
    assert Outcome(o, fetches) == ReleasedOver(o, fetches);
  }

  lemma {:induction false} OwnPassTarget(fetches: Fetches, k: nat, r: FetchedRecord)
    requires k < |fetches| && r in fetches[k] && r.IsSavable()
    ensures WithContext(fetches[k], r) in OwnPasses(fetches)
    decreases |fetches|
  {
    if k < |fetches| - 1 {
      OwnPassTarget(fetches[..|fetches| - 1], k, r);
    } else {
      SavablesMember(fetches[k], r);
      OnePassIsUncut(fetches[k], Savables(fetches[k]));
      GivenTarget(fetches[k], [], Savables(fetches[k]), r);
    }
  }

  lemma {:induction false} SavablesConcat(a: seq<FetchedRecord>, b: seq<FetchedRecord>)
    ensures Savables(a + b) == Savables(a) + Savables(b)
    decreases |b|
  {
    if b == [] {
      assert a + b == a;
    } else {
      SavablesConcat(a, b[..|b| - 1]);
      assert (a + b)[..|a + b| - 1] == a + b[..|b| - 1];
    }
  }

  lemma {:induction false} ContextsConcat(stream: seq<FetchedRecord>, a: seq<FetchedRecord>, b: seq<FetchedRecord>)
    ensures WithContexts(stream, a + b) == WithContexts(stream, a) + WithContexts(stream, b)
    decreases |b|
  {
    if b == [] {
      assert a + b == a;
    } else {
      ContextsConcat(stream, a, b[..|b| - 1]);
      assert (a + b)[..|a + b| - 1] == a + b[..|b| - 1];
    }
  }

  lemma {:induction false} SameContexts(fetch: seq<FetchedRecord>, stream: seq<FetchedRecord>, s: seq<FetchedRecord>)
    requires forall r :: r in s ==> WithContext(fetch, r) == WithContext(stream, r)
    ensures WithContexts(fetch, s) == WithContexts(stream, s)
    decreases |s|
  {
    if s != [] {
      assert forall r :: r in s[..|s| - 1] ==> r in s;
      assert s[|s| - 1] in s;
      SameContexts(fetch, stream, s[..|s| - 1]);
    }
  }

  lemma {:induction false} SufficingPasses(stream: seq<FetchedRecord>, fetches: Fetches)
    requires OwnContextsSuffice(stream, fetches)
    ensures OwnPasses(fetches) == WithContexts(stream, Savables(Flatten(fetches)))
    decreases |fetches|
  {
    if fetches != [] {
      var front, last := fetches[..|fetches| - 1], fetches[|fetches| - 1];
      SufficingPasses(stream, front);
      forall r | r in Savables(last) ensures WithContext(last, r) == WithContext(stream, r) {
        SavablesMember(last, r);
      }
      SameContexts(last, stream, Savables(last));
      SavablesConcat(Flatten(front), last);
      ContextsConcat(stream, Savables(Flatten(front)), Savables(last));
    }
  }

  lemma {:induction false} FetchIsPart(fetches: Fetches, k: nat, r: FetchedRecord)
    requires k < |fetches| && r in fetches[k]
    ensures r in Flatten(fetches)
    decreases |fetches|
  {
    if k < |fetches| - 1 {
      FetchIsPart(fetches[..|fetches| - 1], k, r);
    }
  }

  lemma GivenInOnePass(stream: seq<FetchedRecord>, r: FetchedRecord, x: FetchedRecord)
    requires StrictlyAscending(stream) && r in stream && x in OnePass(stream) && x.streamSequence == r.streamSequence
    ensures x == WithContext(stream, r)
  {
    OnePassIsUncut(stream, Savables(stream));
    var y := GivenOrigin(stream, [], Savables(stream), x);
    SavablesMember(stream, y);
    SameSequenceSameRecord(stream, y, r);
  }

  lemma SameOutcomeSuffices(fetches: Fetches, k: nat, r: FetchedRecord)
    requires StrictlyAscending(Flatten(fetches)) && multiset(OwnPasses(fetches)) == multiset(OnePass(Flatten(fetches)))
    requires k < |fetches| && r in fetches[k] && r.IsSavable()
    ensures WithContext(fetches[k], r) == WithContext(Flatten(fetches), r)
  {
    OwnPassTarget(fetches, k, r);
    assert WithContext(fetches[k], r) in multiset(OwnPasses(fetches));
    assert WithContext(fetches[k], r) in OnePass(Flatten(fetches));
    FetchIsPart(fetches, k, r);
    GivenInOnePass(Flatten(fetches), r, WithContext(fetches[k], r));
  }

  /**
   With `useBuffer` off, whatever the stream and the cuts: what was released is the one-pass stitching of
   the stream if and only if each record finds in its own fetch what that pass gives it.
   */
  lemma UnbufferedBatchesDoNotMatter(o: Settings, fetches: Fetches)
    requires !o.useBuffer && StrictlyAscending(Flatten(fetches))
    ensures multiset(Outcome(o, fetches)) == multiset(OnePass(Flatten(fetches)))
      <==> OwnContextsSuffice(Flatten(fetches), fetches)
  {
    OutcomeIsOwnPasses(o, fetches);
    if OwnContextsSuffice(Flatten(fetches), fetches) {
      SufficingPasses(Flatten(fetches), fetches);
    }
    if multiset(OwnPasses(fetches)) == multiset(OnePass(Flatten(fetches))) {
      forall k, r | 0 <= k < |fetches| && r in fetches[k] && r.IsSavable()
        ensures WithContext(fetches[k], r) == WithContext(Flatten(fetches), r)
      {
        SameOutcomeSuffices(fetches, k, r);
      }
    }
  }

  // ---------------------------------------------------------------------------------------------
  // In terms of boundaries, when a transaction has one context message
  // ---------------------------------------------------------------------------------------------

  ghost predicate OneContextEach(stream: seq<FetchedRecord>) {
    forall c, x :: c in stream && x in stream && c.IsContextMessage() && x.IsContextMessage() && SameTransaction(c, x) ==>
      c == x
  }

  /** The context that the one pass gives a record, which it does not carry already. */
  ghost predicate Needs(stream: seq<FetchedRecord>, r: FetchedRecord, c: FetchedRecord) {
    c in stream && c.IsContextMessage() && SameTransaction(c, r) && c.Context() != r.Context()
  }

  /** Whatever context the record needs is in this fetch. */
  ghost predicate AllAtHand(stream: seq<FetchedRecord>, fetch: seq<FetchedRecord>, r: FetchedRecord) {
    forall c :: Needs(stream, r, c) ==> c in fetch
  }

  /** No fetch boundary, on either side, lies between a record and the context it needs. */
  ghost predicate NoneApart(stream: seq<FetchedRecord>, fetches: Fetches) {
    forall k, r | 0 <= k < |fetches| && r in fetches[k] && r.IsSavable() :: AllAtHand(stream, fetches[k], r)
  }

  ghost predicate PartOf(fetch: seq<FetchedRecord>, stream: seq<FetchedRecord>) {
    forall x :: x in fetch ==> x in stream
  }

  /** What any part of the stream gives a record, when the stream has one context for it. */
  lemma GivenByPart(stream: seq<FetchedRecord>, part: seq<FetchedRecord>, r: FetchedRecord, c: FetchedRecord)
    requires PartOf(part, stream) && OneContextEach(stream)
    requires c in stream && c.IsContextMessage() && SameTransaction(c, r)
    ensures WithContext(part, r) == if c in part then r.SetContext(c.Context()) else r
  {
    ContextInFound(part, r);
    if ContextIn(part, r).Some? {
      var x := ContextIn(part, r).value;
      assert x in stream;
      assert x == c;
    }
  }

  lemma NoContextEither(stream: seq<FetchedRecord>, part: seq<FetchedRecord>, r: FetchedRecord)
    requires PartOf(part, stream) && ContextIn(stream, r).None?
    ensures WithContext(part, r) == WithContext(stream, r) && AllAtHand(stream, part, r)
  {
    ContextInFound(part, r);
    ContextInFound(stream, r);
  }

  lemma OnlyNeed(stream: seq<FetchedRecord>, part: seq<FetchedRecord>, r: FetchedRecord, c: FetchedRecord)
    requires OneContextEach(stream) && c in stream && c.IsContextMessage() && SameTransaction(c, r)
    ensures AllAtHand(stream, part, r) <==> (c.Context() != r.Context() ==> c in part)
  {
    if c.Context() != r.Context() {
      assert Needs(stream, r, c);
    }
    forall x | Needs(stream, r, x) ensures x == c {
    }
  }

  lemma SufficesUnlessApart(stream: seq<FetchedRecord>, part: seq<FetchedRecord>, r: FetchedRecord)
    requires PartOf(part, stream) && OneContextEach(stream)
    ensures WithContext(part, r) == WithContext(stream, r) <==> AllAtHand(stream, part, r)
  {
    ContextInFound(stream, r);
    if ContextIn(stream, r).None? {
      NoContextEither(stream, part, r);
    } else {
      var c := ContextIn(stream, r).value;
      GivenByPart(stream, stream, r, c);
      GivenByPart(stream, part, r, c);
      OnlyNeed(stream, part, r, c);
    }
  }

  lemma SufficeUnlessApart(stream: seq<FetchedRecord>, fetches: Fetches)
    requires OneContextEach(stream) && forall k :: 0 <= k < |fetches| ==> PartOf(fetches[k], stream)
    ensures OwnContextsSuffice(stream, fetches) <==> NoneApart(stream, fetches)
  {
    forall k, r | 0 <= k < |fetches| && r in fetches[k] && r.IsSavable()
      ensures WithContext(fetches[k], r) == WithContext(stream, r) <==> AllAtHand(stream, fetches[k], r)
    {
      SufficesUnlessApart(stream, fetches[k], r);
    }
  }

  /** So then the cuts do not matter if and only if no boundary lies between a record and its context. */
  lemma UnbufferedBoundaries(o: Settings, fetches: Fetches)
    requires !o.useBuffer && StrictlyAscending(Flatten(fetches)) && OneContextEach(Flatten(fetches))
    ensures multiset(Outcome(o, fetches)) == multiset(OnePass(Flatten(fetches)))
      <==> NoneApart(Flatten(fetches), fetches)
  {
    UnbufferedBatchesDoNotMatter(o, fetches);
    forall k | 0 <= k < |fetches| ensures PartOf(fetches[k], Flatten(fetches)) {
      forall x | x in fetches[k] ensures x in Flatten(fetches) {
        FetchIsPart(fetches, k, x);
      }
    }
    SufficeUnlessApart(Flatten(fetches), fetches);
  }

  /** A record and two contexts of one content, which it needs. */
  ghost predicate Repeated(c: FetchedRecord, again: FetchedRecord, r: FetchedRecord) {
    && c.IsContextMessage() && again.IsContextMessage() && r.IsChange()
    && SameTransaction(c, r) && SameTransaction(again, r) && c.Context() == again.Context() != r.Context()
    && c.streamSequence < again.streamSequence < r.streamSequence
  }

  lemma FirstIsGiven(s: seq<FetchedRecord>, r: FetchedRecord)
    requires s != [] && s[0].IsContextMessage() && SameTransaction(s[0], r)
    ensures WithContext(s, r) == r.SetContext(s[0].Context())
  {
  }

  lemma RepeatedSuffices(stream: seq<FetchedRecord>, fetches: Fetches, c: FetchedRecord, again: FetchedRecord, r: FetchedRecord)
    requires Repeated(c, again, r) && stream == [c, again, r] && fetches == [[c], [again, r]]
    ensures OwnContextsSuffice(stream, fetches)
  {
    forall k, x | 0 <= k < |fetches| && x in fetches[k] && x.IsSavable()
      ensures WithContext(fetches[k], x) == WithContext(stream, x)
    {
      FirstIsGiven(fetches[1], r);
      FirstIsGiven(stream, r);
    }
  }

  lemma RepeatedIsApart(stream: seq<FetchedRecord>, fetches: Fetches, c: FetchedRecord, again: FetchedRecord, r: FetchedRecord)
    requires Repeated(c, again, r) && stream == [c, again, r] && fetches == [[c], [again, r]]
    ensures !NoneApart(stream, fetches)
  {
    assert r in fetches[1] && stream[0] in stream;
    assert Needs(stream, r, c) && c !in fetches[1];
    ApartAt(stream, fetches, 1, r);
  }

  lemma ApartAt(stream: seq<FetchedRecord>, fetches: Fetches, k: nat, r: FetchedRecord)
    requires k < |fetches| && r in fetches[k] && r.IsSavable() && !AllAtHand(stream, fetches[k], r)
    ensures !NoneApart(stream, fetches)
  {
  }

  lemma RepeatedFlattens(stream: seq<FetchedRecord>, fetches: Fetches, c: FetchedRecord, again: FetchedRecord, r: FetchedRecord)
    requires Repeated(c, again, r) && stream == [c, again, r] && fetches == [[c], [again, r]]
    ensures Flatten(fetches) == stream && StrictlyAscending(stream)
  {
    var first: Fetches := fetches[..1];
    assert first == [[c]];
    OneFetchFlattens(first, [c]);
    assert [c] + [again, r] == stream;
  }

  /**
   With two contexts boundaries do not decide: the record's first context is in another fetch, and a second
   one of the same content comes with it.
   */
  lemma RepeatedContextInput(o: Settings, c: FetchedRecord, again: FetchedRecord, r: FetchedRecord)
    requires !o.useBuffer && Repeated(c, again, r)
    ensures !NoneApart([c, again, r], [[c], [again, r]])
    ensures multiset(Outcome(o, [[c], [again, r]])) == multiset(OnePass([c, again, r]))
  {
    RepeatedIsApart([c, again, r], [[c], [again, r]], c, again, r);
    RepeatedSuffices([c, again, r], [[c], [again, r]], c, again, r);
    RepeatedFlattens([c, again, r], [[c], [again, r]], c, again, r);
    UnbufferedBatchesDoNotMatter(o, [[c], [again, r]]);
  }
}
