/** What one turn of the loop does with the records it holds and the messages it fetched. */
module TurnProperties {
  import opened Wrappers
  import opened FetchedRecords
  import opened FetchedRecordBuffers
  import opened CaptureFilter
  import opened Stitching
  import opened StitchingProperties
  import opened Ingestion

  predicate ReadsAs(inbox: Inbox, r: FetchedRecord) {
    r.streamSequence in inbox && FromNatsMessage(inbox[r.streamSequence], r.streamSequence) == Success(Some(r))
  }

  lemma {:induction false} ParseMember(inbox: Inbox, keys: seq<nat>, r: FetchedRecord)
    requires forall k :: k in keys ==> k in inbox
    requires Parse(inbox, keys).Success?
    ensures r in Parse(inbox, keys).value <==> r.streamSequence in keys && ReadsAs(inbox, r)
    decreases |keys|
  {
    if keys != [] {
      var front, last := keys[..|keys| - 1], keys[|keys| - 1];
      ParseMember(inbox, front, r);
      assert forall k :: k in keys <==> k in front || k == last;
    }
  }

  lemma {:induction false} ParseReadsAll(inbox: Inbox, keys: seq<nat>, k: nat)
    requires forall k :: k in keys ==> k in inbox
    requires Parse(inbox, keys).Success? && k in keys
    ensures FromNatsMessage(inbox[k], k).Success?
    decreases |keys|
  {
    if k != keys[|keys| - 1] {
      ParseReadsAll(inbox, keys[..|keys| - 1], k);
    }
  }

  /** One message the worker cannot parse fails the whole fetch. */
  lemma ParsedReadsAll(inbox: Inbox, k: nat)
    requires Parsed(inbox).Success? && k in inbox
    ensures FromNatsMessage(inbox[k], k).Success?
  {
    AscendingKeysAscend(inbox.Keys);
    ParseReadsAll(inbox, AscendingKeys(inbox.Keys), k);
  }

  lemma {:induction false} ParseSucceeds(inbox: Inbox, keys: seq<nat>)
    requires forall k :: k in keys ==> k in inbox && FromNatsMessage(inbox[k], k).Success?
    ensures Parse(inbox, keys).Success?
    decreases |keys|
  {
    if keys != [] {
      assert keys[|keys| - 1] in keys;
      assert forall k :: k in keys[..|keys| - 1] ==> k in keys;
      ParseSucceeds(inbox, keys[..|keys| - 1]);
    }
  }

  /** A fetch parses exactly when every message of it can be read. */
  lemma ParsesWhenAllRead(inbox: Inbox)
    ensures Parsed(inbox).Success? <==> forall k :: k in inbox ==> FromNatsMessage(inbox[k], k).Success?
  {
    if Parsed(inbox).Success? {
      forall k | k in inbox ensures FromNatsMessage(inbox[k], k).Success? {
        ParsedReadsAll(inbox, k);
      }
    }
    if forall k :: k in inbox ==> FromNatsMessage(inbox[k], k).Success? {
      AscendingKeysAscend(inbox.Keys);
      ParseSucceeds(inbox, AscendingKeys(inbox.Keys));
    }
  }

  lemma {:induction false} ParseAscends(inbox: Inbox, keys: seq<nat>)
    requires forall k :: k in keys ==> k in inbox
    requires forall i, j :: 0 <= i < j < |keys| ==> keys[i] < keys[j]
    requires Parse(inbox, keys).Success?
    ensures StrictlyAscending(Parse(inbox, keys).value)
    decreases |keys|
  {
    if keys != [] {
      var front, last := keys[..|keys| - 1], keys[|keys| - 1];
      ParseAscends(inbox, front);
      var records := Parse(inbox, front).value;
      forall i | 0 <= i < |records| ensures records[i].streamSequence < last {
        ParseMember(inbox, front, records[i]);
        assert records[i].streamSequence in front;
      }
    }
  }

  /** A fetch parses to one record per message that is read... */
  lemma ParsedExactly(inbox: Inbox, r: FetchedRecord)
    requires Parsed(inbox).Success?
    ensures r in Parsed(inbox).value <==> ReadsAs(inbox, r)
  {
    AscendingKeysAscend(inbox.Keys);
    ParseMember(inbox, AscendingKeys(inbox.Keys), r);
  }

  /** ...in sequence order. */
  lemma ParsedAscends(inbox: Inbox)
    requires Parsed(inbox).Success?
    ensures StrictlyAscending(Parsed(inbox).value)
  {
    AscendingKeysAscend(inbox.Keys);
    ParseAscends(inbox, AscendingKeys(inbox.Keys));
  }

  lemma {:induction false} SameMembersSameList(a: seq<FetchedRecord>, b: seq<FetchedRecord>)
    requires StrictlyAscending(a) && StrictlyAscending(b) && forall r :: r in a <==> r in b
    ensures a == b
    decreases |a|
  {
    if a == [] || b == [] {
      NoMembers(a);
      NoMembers(b);
    } else {
      var x, y := a[|a| - 1], b[|b| - 1];
      assert x in b && y in a;
      assert x == y;
      var a', b' := a[..|a| - 1], b[..|b| - 1];
      forall r ensures r in a' <==> r in b' {
        WithoutLast(a, r);
        WithoutLast(b, r);
      }
      SameMembersSameList(a', b');
    }
  }

  lemma NoMembers(s: seq<FetchedRecord>)
    ensures s == [] <==> forall r :: r !in s
  {
    if s != [] {
      assert s[0] in s;
    }
  }

  lemma WithoutLast(s: seq<FetchedRecord>, r: FetchedRecord)
    requires StrictlyAscending(s) && s != []
    ensures r in s[..|s| - 1] <==> r in s && r != s[|s| - 1]
  {
  }

  /** A fetch whose messages are read as these records, in order. */
  lemma ParsesTo(inbox: Inbox, records: seq<FetchedRecord>)
    requires StrictlyAscending(records) && forall r :: r in records ==> ReadsAs(inbox, r)
    requires forall k :: k in inbox ==> exists r :: r in records && r.streamSequence == k
    ensures Parsed(inbox) == Success(records)
  {
    ParsesWhenAllRead(inbox);
    ParsedAscends(inbox);
    forall r ensures r in Parsed(inbox).value <==> r in records {
      ParsedExactly(inbox, r);
    }
    SameMembersSameList(Parsed(inbox).value, records);
  }

  /** What the stitcher is given: what was held, then what was fetched. */
  function Offered(m: Memory, inbox: Inbox): FetchedRecordBuffer
    requires Parsed(inbox).Success?
  {
    m.fetchedRecordBuffer.AddAll(Parsed(inbox).value)
  }

  lemma OfferedExactly(m: Memory, inbox: Inbox, r: FetchedRecord)
    requires Parsed(inbox).Success?
    ensures Offered(m, inbox).Has(r) <==> m.fetchedRecordBuffer.Has(r) || ReadsAs(inbox, r)
  {
    HasAddAll(m.fetchedRecordBuffer, Parsed(inbox).value, r);
    ParsedExactly(inbox, r);
  }

  lemma OfferedIsValid(m: Memory, inbox: Inbox)
    requires Parsed(inbox).Success? && m.fetchedRecordBuffer.Valid()
    ensures Offered(m, inbox).Valid()
  {
    AddAllKeepsValid(m.fetchedRecordBuffer, Parsed(inbox).value);
  }

  /** Fetched messages are newer than everything held, so arrival order stays sequence order. */
  lemma OfferedInOrder(m: Memory, inbox: Inbox)
    requires Parsed(inbox).Success? && m.fetchedRecordBuffer.Valid() && InArrivalOrder(m.fetchedRecordBuffer)
    requires forall x, k :: m.fetchedRecordBuffer.Has(x) && k in inbox ==> x.streamSequence <= k
    ensures InArrivalOrder(Offered(m, inbox))
  {
    var records := Parsed(inbox).value;
    ParsedAscends(inbox);
    forall i | 0 <= i < |records| ensures records[i].streamSequence in inbox {
      ParsedExactly(inbox, records[i]);
    }
    AddAllInOrder(m.fetchedRecordBuffer, records);
  }

  ghost predicate Succeeds(c: Config, m: Memory, inbox: Inbox, turn: Turn) {
    m.fetchedRecordBuffer.Valid() && TakeTurn(c, m, inbox) == Success(turn)
  }

  lemma TurnHolds(c: Config, m: Memory, inbox: Inbox, turn: Turn, r: FetchedRecord)
    requires Succeeds(c, m, inbox, turn)
    ensures turn.memory.fetchedRecordBuffer.Has(r) <==> Fated(c.stitching, Validly(m, inbox), r, Hold)
    ensures turn.memory.fetchedRecordBuffer.Valid()
  {
    var b := Validly(m, inbox);
    HeldExactly(c.stitching, b, r);
    HeldIsValid(Visits(c.stitching, b));
  }

  ghost function Validly(m: Memory, inbox: Inbox): (b: FetchedRecordBuffer)
    requires Parsed(inbox).Success? && m.fetchedRecordBuffer.Valid()
    ensures b.Valid() && b == Offered(m, inbox)
  {
    OfferedIsValid(m, inbox);
    Offered(m, inbox)
  }

  lemma KeptExactly(c: Config, m: Memory, inbox: Inbox, turn: Turn, x: FetchedRecord)
    requires Succeeds(c, m, inbox, turn)
    ensures x in turn.kept <==> x in turn.released && !IsEmpty(x.changeAttributes, c.ignoreFields)
    ensures turn.released == Stitch(c.stitching, Validly(m, inbox)).released
  {
    KeptMember(turn.released, c.ignoreFields, x);
    if c.ignoreFields == [] {
      NothingIgnoredKeepsAll(turn.released);
    }
  }

  lemma KeptOrigin(c: Config, m: Memory, inbox: Inbox, turn: Turn, x: FetchedRecord) returns (r: FetchedRecord)
    requires Succeeds(c, m, inbox, turn) && x in turn.kept
    ensures Fated(c.stitching, Validly(m, inbox), r, Release) && x == AttributedIn(Validly(m, inbox), r)
  {
    KeptExactly(c, m, inbox, turn, x);
    r := ReleasedOrigin(c.stitching, Validly(m, inbox), x);
  }

  lemma AttributedKeepsChange(b: FetchedRecordBuffer, r: FetchedRecord, ignoreFields: seq<string>)
    ensures
      var x := AttributedIn(b, r);
      && x.changeAttributes.(context := EMPTY_CONTEXT) == r.changeAttributes.(context := EMPTY_CONTEXT)
      && x.subject == r.subject && x.streamSequence == r.streamSequence
      && IsEmpty(x.changeAttributes, ignoreFields) == IsEmpty(r.changeAttributes, ignoreFields)
  {
    match FirstContext(b.ByTransactionId(r.subject, r.TransactionId()))
    case None =>
    case Some(c) => FilterIgnoresContext(r, c.Context(), ignoreFields);
  }

  /**
   The filter after stitching decides as it would have before: a released record is kept exactly when
   the record it was stitched from is not empty, so every savable record offered is held, kept or empty.
   */
  lemma TurnAccounts(c: Config, m: Memory, inbox: Inbox, turn: Turn, r: FetchedRecord)
    requires Succeeds(c, m, inbox, turn)
    requires Offered(m, inbox).Has(r) && r.IsSavable()
    ensures
      || turn.memory.fetchedRecordBuffer.Has(r)
      || IsEmpty(r.changeAttributes, c.ignoreFields)
      || AttributedIn(Offered(m, inbox), r) in turn.kept
  {
    var b := Validly(m, inbox);
    TurnHolds(c, m, inbox, turn, r);
    SavableFate(VisitFor(c.stitching, b, r), r);
    if Fated(c.stitching, b, r, Release) {
      ReleasedArrives(c.stitching, b, r);
      KeptExactly(c, m, inbox, turn, AttributedIn(b, r));
      AttributedKeepsChange(b, r, c.ignoreFields);
    }
  }

  lemma SavableFate(v: Visit, r: FetchedRecord)
    requires r.IsSavable()
    ensures FateOf(v, r) in {Hold, Release}
  {
  }

  /** The ack of a turn is below everything held and no further than something it was offered. */
  lemma TurnAck(c: Config, m: Memory, inbox: Inbox, turn: Turn, n: nat)
    requires Succeeds(c, m, inbox, turn) && turn.ack.Some?
    requires forall r :: Offered(m, inbox).Has(r) ==> r.streamSequence <= n
    ensures turn.ack.value <= n
    ensures forall r :: turn.memory.fetchedRecordBuffer.Has(r) ==> turn.ack.value < r.streamSequence
  {
    var b := Validly(m, inbox);
    AckOrigin(c.stitching, b);
    forall r | turn.memory.fetchedRecordBuffer.Has(r)
      ensures turn.ack.value < r.streamSequence && b.Has(r)
    {
      AckBelowHeld(c.stitching, b, r);
      TurnHolds(c, m, inbox, turn, r);
    }
  }

  // ---------------------------------------------------------------------------------------------
  // What stays held stays in arrival order
  // ---------------------------------------------------------------------------------------------

  lemma {:induction false} SelectStaysSorted(v: Visit, fate: Fate, s: seq<FetchedRecord>)
    requires IsSorted(s)
    ensures IsSorted(Select(v, fate, s))
    decreases |s|
  {
    if s != [] {
      var front, last := s[..|s| - 1], s[|s| - 1];
      SelectStaysSorted(v, fate, front);
      forall x | x in Select(v, fate, front) ensures Precedes(x, last) {
        SelectMember(v, fate, front, x);
      }
    }
  }

  lemma OrderedConcat(a: seq<FetchedRecord>, b: seq<FetchedRecord>)
    requires OrderedByTransaction(a) && OrderedByTransaction(b)
    requires forall x, y :: x in a && y in b ==> x.subject != y.subject
    ensures OrderedByTransaction(a + b)
  {
    var s := a + b;
    forall i, j | 0 <= i < j < |s| && SameTransaction(s[i], s[j]) ensures s[i].streamSequence <= s[j].streamSequence {
      if j < |a| {
        assert s[i] == a[i] && s[j] == a[j];
      } else if i >= |a| {
        assert s[i] == b[i - |a|] && s[j] == b[j - |a|];
      }
    }
  }

  ghost predicate Separate(visits: seq<Visit>) {
    && (forall i :: 0 <= i < |visits| ==> Own(visits[i]) && IsSorted(visits[i].sorted))
    && (forall i, j :: 0 <= i < j < |visits| ==> visits[i].subject != visits[j].subject)
  }

  lemma {:induction false} SelectedInOrder(visits: seq<Visit>, fate: Fate)
    requires Separate(visits)
    ensures OrderedByTransaction(Selected(visits, fate))
    decreases |visits|
  {
    if visits != [] {
      var front, v := visits[..|visits| - 1], visits[|visits| - 1];
      SelectedInOrder(front, fate);
      SelectStaysSorted(v, fate, v.sorted);
      forall x, y | x in Selected(front, fate) && y in Select(v, fate, v.sorted) ensures x.subject != y.subject {
        var i := SelectedFrom(front, fate, x);
        SelectMember(v, fate, v.sorted, y);
      }
      OrderedConcat(Selected(front, fate), Select(v, fate, v.sorted));
    }
  }

  lemma VisitsAreSeparate(o: Settings, b: FetchedRecordBuffer)
    requires b.Valid()
    ensures Separate(Visits(o, b))
  {
    var visits := Visits(o, b);
    forall i | 0 <= i < |visits| ensures Own(visits[i]) && IsSorted(visits[i].sorted) {
      VisitsAreOwn(o, b, i);
      SortRecordsSorts(b.FlatOf(b.store.keys[i]));
    }
  }

  lemma HeldInOrder(o: Settings, b: FetchedRecordBuffer)
    requires b.Valid()
    ensures InArrivalOrder(Stitch(o, b).buffer)
  {
    VisitsAreSeparate(o, b);
    SelectedInOrder(Visits(o, b), Hold);
    AddAllInOrder(EMPTY, Selected(Visits(o, b), Hold));
  }
}
