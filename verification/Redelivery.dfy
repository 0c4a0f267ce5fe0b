/**
 The loop from boot on, over whatever the consumer delivers: stale messages, repeats and all. What
 it does depends only on the messages that are new.
 */
module Redelivery {
  import opened Wrappers
  import opened FetchedRecords
  import opened FetchedRecordBuffers
  import opened Stitching
  import opened Ingestion
  import opened TurnProperties
  import opened Incarnation

  type Deliveries = seq<seq<Delivery>>

  datatype Lifetime = Lifetime(memory: Memory, released: seq<FetchedRecord>, acks: seq<Option<nat>>)

  /** Turn after turn, as long as every message can be read. */
  function Lived(c: Config, fetches: Deliveries): Result<Lifetime, Error> {
    if fetches == [] then Success(Lifetime(BOOTED, [], []))
    else
      match Lived(c, fetches[..|fetches| - 1])
      case Failure(e) => Failure(e)
      case Success(before) =>
        LivedOn(c, before, AcceptAll(fetches[|fetches| - 1], before.memory.lastStreamSequence))
  }

  function LivedOn(c: Config, before: Lifetime, inbox: Inbox): Result<Lifetime, Error> {
    match TakeTurn(c, before.memory, inbox)
    case Failure(e) => Failure(e)
    case Success(turn) =>
      Success(Lifetime(turn.memory, before.released + turn.released, before.acks + [turn.ack]))
  }

  /** Stream sequences start at one, and within a fetch a sequence names one message. */
  ghost predicate Genuine(deliveries: seq<Delivery>) {
    && (forall d :: d in deliveries ==> d.streamSequence >= 1)
    && (forall d, e :: d in deliveries && e in deliveries && d.streamSequence == e.streamSequence ==> d == e)
  }

  ghost predicate AllGenuine(fetches: Deliveries) {
    forall i :: 0 <= i < |fetches| ==> Genuine(fetches[i])
  }

  // ---------------------------------------------------------------------------------------------
  // What a fetch accepts
  // ---------------------------------------------------------------------------------------------

  predicate Fresh(lastStreamSequence: Option<nat>, d: Delivery) {
    Falsy(lastStreamSequence) || lastStreamSequence.value < d.streamSequence
  }

  lemma {:induction false} AcceptedFrom(deliveries: seq<Delivery>, last: Option<nat>, q: nat)
    requires q in AcceptAll(deliveries, last)
    ensures
      var d := Delivery(q, AcceptAll(deliveries, last)[q]);
      d in deliveries && Fresh(last, d)
  {
    var front := deliveries[..|deliveries| - 1];
    var d := deliveries[|deliveries| - 1];
    if !(Fresh(last, d) && d.streamSequence == q) {
      AcceptedFrom(front, last, q);
    }
  }

  lemma {:induction false} FreshIsAccepted(deliveries: seq<Delivery>, last: Option<nat>, d: Delivery)
    requires d in deliveries && Fresh(last, d)
    ensures d.streamSequence in AcceptAll(deliveries, last)
  {
    if d in deliveries[..|deliveries| - 1] {
      FreshIsAccepted(deliveries[..|deliveries| - 1], last, d);
    }
  }

  lemma AcceptsFresh(deliveries: seq<Delivery>, last: Option<nat>, d: Delivery)
    requires Genuine(deliveries) && d in deliveries && Fresh(last, d)
    ensures d.streamSequence in AcceptAll(deliveries, last)
    ensures AcceptAll(deliveries, last)[d.streamSequence] == d.message
  {
  }

  ghost predicate SameNews(a: seq<Delivery>, b: seq<Delivery>, last: Option<nat>) {
    forall d :: Fresh(last, d) ==> (d in a <==> d in b)
  }

  /** Neither order, nor repetition, nor what is stale makes a difference. */
  lemma SameNewsSameInbox(a: seq<Delivery>, b: seq<Delivery>, last: Option<nat>)
    requires Genuine(a) && Genuine(b) && SameNews(a, b, last)
    ensures AcceptAll(a, last) == AcceptAll(b, last)
  {
    Contained(a, b, last);
    Contained(b, a, last);
  }

  lemma Contained(a: seq<Delivery>, b: seq<Delivery>, last: Option<nat>)
    requires Genuine(b) && SameNews(a, b, last)
    ensures forall q :: q in AcceptAll(a, last) ==> q in AcceptAll(b, last) && AcceptAll(b, last)[q] == AcceptAll(a, last)[q]
  {
    forall q | q in AcceptAll(a, last)
      ensures q in AcceptAll(b, last) && AcceptAll(b, last)[q] == AcceptAll(a, last)[q]
    {
      AcceptedFrom(a, last, q);
      AcceptsFresh(b, last, Delivery(q, AcceptAll(a, last)[q]));
    }
  }

  // ---------------------------------------------------------------------------------------------
  // The last stream sequence covers everything delivered
  // ---------------------------------------------------------------------------------------------

  lemma TrackLastGrows(last: Option<nat>, inbox: Inbox, q: nat)
    requires Covers(last, q) && q >= 1
    ensures Covers(TrackLast(last, inbox), q)
  {
  }

  lemma TrackLastCovers(last: Option<nat>, inbox: Inbox, q: nat)
    requires q in inbox
    ensures Covers(TrackLast(last, inbox), q)
  {
  }

  lemma DeliveredIsCovered(deliveries: seq<Delivery>, last: Option<nat>, d: Delivery)
    requires d in deliveries && d.streamSequence >= 1
    ensures Covers(TrackLast(last, AcceptAll(deliveries, last)), d.streamSequence)
  {
    if Fresh(last, d) {
      FreshIsAccepted(deliveries, last, d);
      TrackLastCovers(last, AcceptAll(deliveries, last), d.streamSequence);
    } else {
      TrackLastGrows(last, AcceptAll(deliveries, last), d.streamSequence);
    }
  }

  lemma {:induction false} LastCovers(c: Config, fetches: Deliveries, i: nat, d: Delivery)
    requires Lived(c, fetches).Success? && AllGenuine(fetches) && i < |fetches| && d in fetches[i]
    ensures Covers(Lived(c, fetches).value.memory.lastStreamSequence, d.streamSequence)
    decreases |fetches|
  {
    var front := fetches[..|fetches| - 1];
    var last := Lived(c, front).value.memory.lastStreamSequence;
    if i == |fetches| - 1 {
      DeliveredIsCovered(fetches[i], last, d);
    } else {
      LastCovers(c, front, i, d);
      TrackLastGrows(last, AcceptAll(fetches[|fetches| - 1], last), d.streamSequence);
    }
  }

  // ---------------------------------------------------------------------------------------------
  // Redelivery is transparent
  // ---------------------------------------------------------------------------------------------

  /** No further than something delivered before the i-th fetch. */
  ghost predicate Stale(fetches: Deliveries, i: nat, d: Delivery)
    requires i <= |fetches|
  {
    exists j, e :: 0 <= j < i && e in fetches[j] && d.streamSequence <= e.streamSequence
  }

  /** The noisy fetches are the clean ones with repeats and stale messages mixed in, in any order. */
  ghost predicate MixedIn(clean: Deliveries, noisy: Deliveries) {
    && |clean| == |noisy|
    && forall i :: 0 <= i < |clean| ==>
         && (forall d :: d in clean[i] ==> d in noisy[i])
         && (forall d :: d in noisy[i] ==> d in clean[i] || Stale(clean, i, d))
  }

  lemma FrontMixedIn(clean: Deliveries, noisy: Deliveries)
    requires MixedIn(clean, noisy) && clean != []
    ensures MixedIn(clean[..|clean| - 1], noisy[..|noisy| - 1])
  {
  }

  lemma NoiseIsNoNews(c: Config, clean: Deliveries, noisy: Deliveries)
    requires clean != [] && MixedIn(clean, noisy) && AllGenuine(clean)
    requires Lived(c, clean[..|clean| - 1]).Success?
    ensures SameNews(clean[|clean| - 1], noisy[|noisy| - 1], Lived(c, clean[..|clean| - 1]).value.memory.lastStreamSequence)
  {
    var n := |clean| - 1;
    var last := Lived(c, clean[..n]).value.memory.lastStreamSequence;
    forall d | d in noisy[n] && Fresh(last, d) ensures d in clean[n] {
      if Stale(clean, n, d) {
        StaleIsNotFresh(c, clean, n, d);
      }
    }
  }

  lemma StaleIsNotFresh(c: Config, fetches: Deliveries, n: nat, d: Delivery)
    requires n <= |fetches| && AllGenuine(fetches) && Stale(fetches, n, d)
    requires Lived(c, fetches[..n]).Success?
    ensures !Fresh(Lived(c, fetches[..n]).value.memory.lastStreamSequence, d)
  {
    var j, e :| 0 <= j < n && e in fetches[j] && d.streamSequence <= e.streamSequence;
    assert Genuine(fetches[j]);
    LastCovers(c, fetches[..n], j, e);
  }

  /** Stale messages and repeats change neither memory, nor what is released, nor any ack. */
  lemma {:induction false} RedeliveryIsTransparent(c: Config, clean: Deliveries, noisy: Deliveries)
    requires MixedIn(clean, noisy) && AllGenuine(clean) && AllGenuine(noisy)
    ensures Lived(c, noisy) == Lived(c, clean)
    decreases |clean|
  {
    if clean != [] {
      var n := |clean| - 1;
      FrontMixedIn(clean, noisy);
      RedeliveryIsTransparent(c, clean[..n], noisy[..n]);
      if Lived(c, clean[..n]).Success? {
        NoiseIsNoNews(c, clean, noisy);
        SameNewsSameInbox(clean[n], noisy[n], Lived(c, clean[..n]).value.memory.lastStreamSequence);
      }
      LivedLast(c, clean);
      LivedLast(c, noisy);
    }
  }

  /** A life is its last turn after the life before it. */
  lemma LivedLast(c: Config, fetches: Deliveries)
    requires fetches != []
    ensures
      match Lived(c, fetches[..|fetches| - 1])
      case Failure(e) => Lived(c, fetches) == Failure(e)
      case Success(before) =>
        Lived(c, fetches) == LivedOn(c, before, AcceptAll(fetches[|fetches| - 1], before.memory.lastStreamSequence))
  {
  }

  // ---------------------------------------------------------------------------------------------
  // A life is an incarnation over the records it read
  // ---------------------------------------------------------------------------------------------

  ghost predicate Beyond(last: Option<nat>, records: seq<FetchedRecord>) {
    forall r :: r in records ==> r.streamSequence >= 1 && (last.Some? ==> last.value < r.streamSequence)
  }

  ghost predicate Within(last: Option<nat>, records: seq<FetchedRecord>) {
    forall r :: r in records ==> Covers(last, r.streamSequence) && r.streamSequence >= 1
  }

  /** The ack of the i-th pass. */
  function AckAt(c: Config, fetched: Fetches, i: nat): Option<nat>
    requires i < |fetched|
  {
    LastAck(c.stitching, fetched[..i + 1])
  }

  ghost predicate Acknowledges(c: Config, acks: seq<Option<nat>>, fetched: Fetches) {
    |acks| == |fetched| && forall i :: 0 <= i < |fetched| ==> acks[i] == AckAt(c, fetched, i)
  }

  ghost predicate FedBy(c: Config, life: Lifetime, fetched: Fetches) {
    && life.memory.fetchedRecordBuffer == BufferAfter(c.stitching, fetched)
    && life.released == ReleasedOver(c.stitching, fetched)
    && Acknowledges(c, life.acks, fetched)
    && StrictlyAscending(Flatten(fetched))
    && Within(life.memory.lastStreamSequence, Flatten(fetched))
    && life.memory.lastStreamSequence != Some(0)
  }

  lemma NewsIsBeyond(deliveries: seq<Delivery>, last: Option<nat>)
    requires Genuine(deliveries) && last != Some(0) && Parsed(AcceptAll(deliveries, last)).Success?
    ensures Beyond(last, Parsed(AcceptAll(deliveries, last)).value)
    ensures Within(TrackLast(last, AcceptAll(deliveries, last)), Parsed(AcceptAll(deliveries, last)).value)
    ensures TrackLast(last, AcceptAll(deliveries, last)) != Some(0)
  {
    var inbox := AcceptAll(deliveries, last);
    forall q | q in inbox ensures q >= 1 && (last.Some? ==> last.value < q) && Covers(TrackLast(last, inbox), q) {
      AcceptedFrom(deliveries, last, q);
      TrackLastCovers(last, inbox, q);
    }
    forall r | r in Parsed(inbox).value ensures r.streamSequence in inbox {
      ParsedExactly(inbox, r);
    }
  }

  lemma StillAscends(old': seq<FetchedRecord>, new': seq<FetchedRecord>, last: Option<nat>)
    requires StrictlyAscending(old') && StrictlyAscending(new') && Within(last, old') && Beyond(last, new')
    ensures StrictlyAscending(old' + new')
  {
    var s := old' + new';
    forall i, j | 0 <= i < j < |s| ensures s[i].streamSequence < s[j].streamSequence {
      if i < |old'| && j >= |old'| {
        assert s[i] in old' && s[j] in new';
      }
    }
  }

  lemma StillWithin(last: Option<nat>, inbox: Inbox, old': seq<FetchedRecord>, new': seq<FetchedRecord>)
    requires Within(last, old') && Within(TrackLast(last, inbox), new')
    ensures Within(TrackLast(last, inbox), old' + new')
  {
  }

  lemma {:induction false} LivedIsFed(c: Config, fetches: Deliveries) returns (fetched: Fetches)
    requires Lived(c, fetches).Success? && AllGenuine(fetches)
    ensures FedBy(c, Lived(c, fetches).value, fetched)
    decreases |fetches|
  {
    if fetches == [] {
      fetched := [];
    } else {
      var front, deliveries := fetches[..|fetches| - 1], fetches[|fetches| - 1];
      var before := LivedIsFed(c, front);
      var memory := Lived(c, front).value.memory;
      var last := memory.lastStreamSequence;
      var inbox := AcceptAll(deliveries, last);
      var records := Parsed(inbox).value;
      fetched := before + [records];
      NewsIsBeyond(deliveries, last);
      ParsedAscends(inbox);
      StillAscends(Flatten(before), records, last);
      StillWithin(last, inbox, Flatten(before), records);
      OneMoreFetch(c, Lived(c, front).value, TakeTurn(c, memory, inbox).value, before, records, inbox);
    }
  }

  lemma OneMoreAck(c: Config, acks: seq<Option<nat>>, before: Fetches, records: seq<FetchedRecord>, ack: Option<nat>)
    requires Acknowledges(c, acks, before) && ack == LastAck(c.stitching, before + [records])
    ensures Acknowledges(c, acks + [ack], before + [records])
  {
    var fetched := before + [records];
    forall i | 0 <= i < |fetched| ensures (acks + [ack])[i] == AckAt(c, fetched, i) {
      if i < |before| {
        AckAtFront(c, before, records, i);
      } else {
        assert fetched[..i + 1] == fetched;
      }
    }
  }

  lemma AckAtFront(c: Config, before: Fetches, records: seq<FetchedRecord>, i: nat)
    requires i < |before|
    ensures AckAt(c, before + [records], i) == AckAt(c, before, i)
  {
    assert (before + [records])[..i + 1] == before[..i + 1];
  }

  lemma OneMoreFetch(c: Config, life: Lifetime, turn: Turn, before: Fetches, records: seq<FetchedRecord>, inbox: Inbox)
    requires FedBy(c, life, before)
    requires Parsed(inbox) == Success(records) && TakeTurn(c, life.memory, inbox) == Success(turn)
    requires StrictlyAscending(Flatten(before) + records)
    requires Within(turn.memory.lastStreamSequence, Flatten(before) + records)
    requires turn.memory.lastStreamSequence != Some(0)
    ensures FedBy(c, Lifetime(turn.memory, life.released + turn.released, life.acks + [turn.ack]), before + [records])
  {
    var fetched := before + [records];
    assert fetched[..|before|] == before;
    OneMoreAck(c, life.acks, before, records, turn.ack);
  }

  // ---------------------------------------------------------------------------------------------
  // Over one incarnation, whatever is delivered
  // ---------------------------------------------------------------------------------------------

  lemma PrefixAscends(s: seq<FetchedRecord>, prefix: seq<FetchedRecord>)
    requires StrictlyAscending(s) && prefix <= s
    ensures StrictlyAscending(prefix)
  {
  }

  /** Acks never go back. */
  lemma AcksNeverGoBack(c: Config, fetches: Deliveries, i: nat, j: nat)
    requires Lived(c, fetches).Success? && AllGenuine(fetches)
    requires i <= j < |Lived(c, fetches).value.acks|
    requires Lived(c, fetches).value.acks[i].Some? && Lived(c, fetches).value.acks[j].Some?
    ensures Lived(c, fetches).value.acks[i].value <= Lived(c, fetches).value.acks[j].value
  {
    var fetched := LivedIsFed(c, fetches);
    assert AckAt(c, fetched, i).Some? && AckAt(c, fetched, j).Some?;
    AckAtMonotone(c, fetched, i, j);
  }

  lemma AckAtMonotone(c: Config, fetched: Fetches, i: nat, j: nat)
    requires StrictlyAscending(Flatten(fetched)) && i <= j < |fetched|
    requires AckAt(c, fetched, i).Some? && AckAt(c, fetched, j).Some?
    ensures AckAt(c, fetched, i).value <= AckAt(c, fetched, j).value
  {
    EarlierFlattens(fetched[..j + 1], fetched);
    PrefixAscends(Flatten(fetched), Flatten(fetched[..j + 1]));
    AcksAreMonotone(c.stitching, fetched[..i + 1], fetched[..j + 1]);
  }

  lemma AckIsCovered(c: Config, life: Lifetime, fetched: Fetches, i: nat)
    requires FedBy(c, life, fetched) && i < |life.acks| && life.acks[i].Some?
    ensures Covers(life.memory.lastStreamSequence, life.acks[i].value)
  {
    assert AckAt(c, fetched, i).Some?;
    AckNamesSomething(c.stitching, fetched[..i + 1]);
    EarlierFlattens(fetched[..i + 1], fetched);
    WithinPrefix(life.memory.lastStreamSequence, Flatten(fetched[..i + 1]), Flatten(fetched));
    AckWithin(c.stitching, fetched[..i + 1], life.memory.lastStreamSequence.value);
  }

  lemma WithinPrefix(last: Option<nat>, prefix: seq<FetchedRecord>, s: seq<FetchedRecord>)
    requires Within(last, s) && prefix <= s && prefix != []
    ensures last.Some? && NoLaterThan(prefix, last.value)
  {
    forall r | r in prefix ensures Covers(last, r.streamSequence) {
      assert r in s;
    }
    assert prefix[0] in s;
  }

  /** No ack passes the last stream sequence, and all stay strictly below everything in memory. */
  lemma AcksStayBehind(c: Config, fetches: Deliveries, i: nat)
    requires Lived(c, fetches).Success? && AllGenuine(fetches)
    requires i < |Lived(c, fetches).value.acks| && Lived(c, fetches).value.acks[i].Some?
    ensures
      var life := Lived(c, fetches).value;
      && Covers(life.memory.lastStreamSequence, life.acks[i].value)
      && forall r :: life.memory.fetchedRecordBuffer.Has(r) ==> life.acks[i].value < r.streamSequence
  {
    var life := Lived(c, fetches).value;
    var fetched := LivedIsFed(c, fetches);
    AckIsCovered(c, life, fetched, i);
    assert AckAt(c, fetched, i).Some?;
    AckBehindMemory(c.stitching, fetched[..i + 1], fetched);
  }

  /** No sequence is released twice, and none that was released is still in memory. */
  lemma NoSequenceTwice(c: Config, fetches: Deliveries, i: nat, j: nat)
    requires Lived(c, fetches).Success? && AllGenuine(fetches)
    requires i <= j < |Lived(c, fetches).value.released|
    ensures
      var life := Lived(c, fetches).value;
      && (i < j ==> life.released[i].streamSequence != life.released[j].streamSequence)
      && forall r :: life.memory.fetchedRecordBuffer.Has(r) ==> life.released[i].streamSequence != r.streamSequence
  {
    var life := Lived(c, fetches).value;
    var fetched := LivedIsFed(c, fetches);
    if i < j {
      ReleasedAtMostOnce(c.stitching, fetched, i, j);
    }
    forall r | life.memory.fetchedRecordBuffer.Has(r) ensures life.released[i].streamSequence != r.streamSequence {
      ReleasedIsNotHeld(c.stitching, fetched, i, r);
    }
  }
}
