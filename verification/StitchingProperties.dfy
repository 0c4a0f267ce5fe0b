/** What one pass of the stitcher keeps, whatever the buffer it is given. */
module StitchingProperties {
  import opened Wrappers
  import opened FetchedRecords
  import opened FetchedRecordBuffers
  import opened Stitching

  // ---------------------------------------------------------------------------------------------
  // The fate of each record
  // ---------------------------------------------------------------------------------------------

  function IndexOf(keys: seq<string>, subject: string): (i: nat)
    requires subject in keys
    ensures i < |keys| && keys[i] == subject
  {
    if keys[|keys| - 1] == subject then |keys| - 1 else IndexOf(keys[..|keys| - 1], subject)
  }

  lemma {:induction false} IndexIsUnique(keys: seq<string>, i: nat)
    requires forall j, k :: 0 <= j < k < |keys| ==> keys[j] != keys[k]
    requires i < |keys|
    ensures IndexOf(keys, keys[i]) == i
  {
  }

  /** The visit in which the pass meets a record. */
  function VisitFor(o: Settings, b: FetchedRecordBuffer, r: FetchedRecord): Visit
    requires r.subject in b.store.keys
  {
    VisitOf(o, b, IndexOf(b.store.keys, r.subject))
  }

  ghost predicate Fated(o: Settings, b: FetchedRecordBuffer, r: FetchedRecord, fate: Fate)
    requires b.Valid()
  {
    b.Has(r) && FateOf(VisitFor(o, b, r), r) == fate
  }

  function AttributedIn(b: FetchedRecordBuffer, r: FetchedRecord): FetchedRecord {
    match FirstContext(b.ByTransactionId(r.subject, r.TransactionId()))
    case Some(c) => r.SetContext(c.Context())
    case None => r
  }

  function AttributeEach(b: FetchedRecordBuffer, s: seq<FetchedRecord>): seq<FetchedRecord> {
    if s == [] then [] else AttributeEach(b, s[..|s| - 1]) + [AttributedIn(b, s[|s| - 1])]
  }

  lemma {:induction false} SelectMember(v: Visit, fate: Fate, s: seq<FetchedRecord>, r: FetchedRecord)
    ensures r in Select(v, fate, s) <==> r in s && FateOf(v, r) == fate
  {
    if s != [] {
      var front, last := s[..|s| - 1], s[|s| - 1];
      SelectMember(v, fate, front, r);
      assert r in s <==> r in front || r == last;
    }
  }

  lemma {:induction false} SelectedAt(visits: seq<Visit>, fate: Fate, i: nat, r: FetchedRecord)
    requires i < |visits| && r in visits[i].sorted && FateOf(visits[i], r) == fate
    ensures r in Selected(visits, fate)
  {
    var last := visits[|visits| - 1];
    if i == |visits| - 1 {
      SelectMember(last, fate, last.sorted, r);
    } else {
      SelectedAt(visits[..|visits| - 1], fate, i, r);
    }
  }

  lemma {:induction false} SelectedFrom(visits: seq<Visit>, fate: Fate, r: FetchedRecord) returns (i: nat)
    requires r in Selected(visits, fate)
    ensures i < |visits| && r in visits[i].sorted && FateOf(visits[i], r) == fate
  {
    var last := visits[|visits| - 1];
    if r in Select(last, fate, last.sorted) {
      i := |visits| - 1;
      SelectMember(last, fate, last.sorted, r);
    } else {
      i := SelectedFrom(visits[..|visits| - 1], fate, r);
    }
  }

  /** The visits pick out, for each fate, exactly the records that meet it. */
  lemma SelectedExactly(o: Settings, b: FetchedRecordBuffer, fate: Fate, r: FetchedRecord)
    requires b.Valid()
    ensures r in Selected(Visits(o, b), fate) <==> Fated(o, b, r, fate)
  {
    var visits := Visits(o, b);
    if r in Selected(visits, fate) {
      var i := SelectedFrom(visits, fate, r);
      InSorted(b, b.store.keys[i], r);
      IndexIsUnique(b.store.keys, i);
    }
    if Fated(o, b, r, fate) {
      var i := IndexOf(b.store.keys, r.subject);
      InSorted(b, r.subject, r);
      SelectedAt(visits, fate, i, r);
    }
  }

  lemma HeldExactly(o: Settings, b: FetchedRecordBuffer, r: FetchedRecord)
    requires b.Valid()
    ensures Held(Visits(o, b)).Has(r) <==> Fated(o, b, r, Hold)
  {
    SelectedExactly(o, b, Hold, r);
    HasAddAll(EMPTY, Selected(Visits(o, b), Hold), r);
  }

  lemma HeldIsValid(visits: seq<Visit>)
    ensures Held(visits).Valid()
  {
    AddAllKeepsValid(EMPTY, Selected(visits, Hold));
  }

  // ---------------------------------------------------------------------------------------------
  // What is held, told by operations, transactions and sequences
  // ---------------------------------------------------------------------------------------------

  /** Whether any row change of the context's transaction has come. */
  lemma NoRowChange(b: FetchedRecordBuffer, c: FetchedRecord)
    requires b.Valid() && b.Has(c)
    ensures ChangeArrived(b.ByTransactionId(c.subject, c.TransactionId())) <==>
      exists x ::
        && b.Has(x) && x.subject == c.subject && x.changeAttributes.transactionId == c.changeAttributes.transactionId
        && x.changeAttributes.operation in {Create, Update, Delete, Truncate}
  {
    forall x | x in b.ByTransactionId(c.subject, c.TransactionId())
      ensures b.Has(x) && x.subject == c.subject && x.changeAttributes.transactionId == c.changeAttributes.transactionId
    {
      ListedWith(b, c, x);
    }
  }

  /** The last record of the i-th subject, in visiting order, is beyond this sequence. */
  ghost predicate EndsBeyond(b: FetchedRecordBuffer, i: nat, bound: int) {
    && i < |b.store.keys|
    && var s := b.Sorted(b.store.keys[i]);
       s != [] && s[|s| - 1].streamSequence > bound
  }

  /** None of the first n subjects ends beyond it. */
  ghost predicate NoneEndsBeyond(b: FetchedRecordBuffer, n: nat, bound: int) {
    forall i: nat :: i < n ==> !EndsBeyond(b, i, bound)
  }

  lemma MaxBeyond(b: FetchedRecordBuffer, n: nat, bound: int)
    requires n <= |b.store.keys|
    ensures MaxSequence(b, n).Some? && MaxSequence(b, n).value > bound <==> !NoneEndsBeyond(b, n, bound)
  {
    if MaxSequence(b, n).Some? {
      var k := MaxSequenceIsLast(b, n);
      assert MaxSequence(b, n).value > bound ==> EndsBeyond(b, k, bound);
    }
    forall i: nat | i < n && EndsBeyond(b, i, bound) ensures MaxSequence(b, n).Some? && MaxSequence(b, n).value > bound {
      MaxSequenceCovers(b, n, i);
    }
  }

  /** A context is orphaned exactly when some subject visited so far ends beyond the gap after it. */
  lemma OrphanedExactly(o: Settings, b: FetchedRecordBuffer, c: FetchedRecord)
    requires c.subject in b.store.keys
    ensures Orphaned(VisitFor(o, b, c), c) <==>
      !NoneEndsBeyond(b, IndexOf(b.store.keys, c.subject) + 1, c.streamSequence + o.orphanContextSequenceGap)
  {
    VisitMax(o, b, c);
    MaxBeyond(b, IndexOf(b.store.keys, c.subject) + 1, c.streamSequence + o.orphanContextSequenceGap);
    OrphanedByMax(VisitFor(o, b, c), c);
  }

  lemma OrphanedByMax(v: Visit, c: FetchedRecord)
    ensures Orphaned(v, c) <==>
      v.maxSequence.Some? && v.maxSequence.value > c.streamSequence + v.settings.orphanContextSequenceGap
  {
  }

  /**
   A context is held exactly when buffering is on, no row change of its transaction has come and no subject
   visited so far ends more than the orphan gap beyond it.
   */
  lemma ContextHeldExactly(o: Settings, b: FetchedRecordBuffer, c: FetchedRecord)
    requires b.Valid() && b.Has(c) && c.changeAttributes.operation == Message && c.messagePrefix == ContextPrefix
    ensures Stitch(o, b).buffer.Has(c) <==>
      && o.useBuffer
      && (forall x ::
            && b.Has(x) && x.subject == c.subject
            && x.changeAttributes.transactionId == c.changeAttributes.transactionId ==>
              x.changeAttributes.operation == Message)
      && NoneEndsBeyond(b, IndexOf(b.store.keys, c.subject) + 1, c.streamSequence + o.orphanContextSequenceGap)
  {
    HeldExactly(o, b, c);
    NoRowChange(b, c);
    OrphanedExactly(o, b, c);
  }

  // ---------------------------------------------------------------------------------------------
  // Released records
  // ---------------------------------------------------------------------------------------------

  lemma {:induction false} AttributeConcat(b: FetchedRecordBuffer, x: seq<FetchedRecord>, y: seq<FetchedRecord>)
    ensures AttributeEach(b, x + y) == AttributeEach(b, x) + AttributeEach(b, y)
  {
    if y == [] {
      assert x + y == x;
    } else {
      var front := y[..|y| - 1];
      AttributeConcat(b, x, front);
      assert (x + y)[..|x + y| - 1] == x + front;
    }
  }

  lemma {:induction false} AttributeAllIsEach(v: Visit, s: seq<FetchedRecord>)
    requires forall i :: 0 <= i < |s| ==> s[i].subject == v.subject
    ensures AttributeAll(v, s) == AttributeEach(v.buffer, s)
  {
    if s != [] {
      AttributeAllIsEach(v, s[..|s| - 1]);
    }
  }

  /** Releasing is attributing the chosen records, in visiting order. */
  lemma {:induction false} ReleasedIsAttributed(b: FetchedRecordBuffer, visits: seq<Visit>)
    requires forall i :: 0 <= i < |visits| ==> visits[i].buffer == b && Own(visits[i])
    ensures Released(visits) == AttributeEach(b, Selected(visits, Release))
    decreases |visits|
  {
    if visits != [] {
      var front, v := visits[..|visits| - 1], visits[|visits| - 1];
      ReleasedIsAttributed(b, front);
      var chosen := Select(v, Release, v.sorted);
      forall j | 0 <= j < |chosen| ensures chosen[j].subject == v.subject {
        SelectMember(v, Release, v.sorted, chosen[j]);
      }
      AttributeAllIsEach(v, chosen);
      AttributeConcat(b, Selected(front, Release), chosen);
    }
  }

  ghost predicate Own(v: Visit) {
    forall r :: r in v.sorted ==> r.subject == v.subject
  }

  lemma VisitsAreOwn(o: Settings, b: FetchedRecordBuffer, i: nat)
    requires b.Valid() && i < |b.store.keys|
    ensures Own(VisitOf(o, b, i))
  {
    forall r | r in b.Sorted(b.store.keys[i]) ensures r.subject == b.store.keys[i] {
      InSorted(b, b.store.keys[i], r);
    }
  }

  lemma StitchReleases(o: Settings, b: FetchedRecordBuffer)
    requires b.Valid()
    ensures Stitch(o, b).released == AttributeEach(b, Selected(Visits(o, b), Release))
  {
    var visits := Visits(o, b);
    forall i | 0 <= i < |visits| ensures visits[i].buffer == b && Own(visits[i]) {
      VisitsAreOwn(o, b, i);
    }
    ReleasedIsAttributed(b, visits);
  }

  /** Every released record is some buffered record with its transaction's first context. */
  lemma ReleasedOrigin(o: Settings, b: FetchedRecordBuffer, x: FetchedRecord) returns (r: FetchedRecord)
    requires b.Valid() && x in Stitch(o, b).released
    ensures Fated(o, b, r, Release) && x == AttributedIn(b, r)
  {
    var chosen := Selected(Visits(o, b), Release);
    StitchReleases(o, b);
    r := AttributeSource(b, chosen, x);
    SelectedExactly(o, b, Release, r);
  }

  lemma {:induction false} AttributeSource(b: FetchedRecordBuffer, s: seq<FetchedRecord>, x: FetchedRecord) returns (r: FetchedRecord)
    requires x in AttributeEach(b, s)
    ensures r in s && x == AttributedIn(b, r)
  {
    r := s[|s| - 1];
    if x != AttributedIn(b, r) {
      r := AttributeSource(b, s[..|s| - 1], x);
    }
  }

  lemma {:induction false} AttributeTarget(b: FetchedRecordBuffer, s: seq<FetchedRecord>, r: FetchedRecord)
    requires r in s
    ensures AttributedIn(b, r) in AttributeEach(b, s)
  {
    if r != s[|s| - 1] {
      AttributeTarget(b, s[..|s| - 1], r);
    }
  }

  lemma ReleasedArrives(o: Settings, b: FetchedRecordBuffer, r: FetchedRecord)
    requires b.Valid() && Fated(o, b, r, Release)
    ensures AttributedIn(b, r) in Stitch(o, b).released
  {
    StitchReleases(o, b);
    SelectedExactly(o, b, Release, r);
    AttributeTarget(b, Selected(Visits(o, b), Release), r);
  }

  // ---------------------------------------------------------------------------------------------
  // Conservation
  // ---------------------------------------------------------------------------------------------

  function Sum4<T>(a: multiset<T>, b: multiset<T>, c: multiset<T>, d: multiset<T>): multiset<T> {
    a + b + c + d
  }

  lemma Sum4Adds<T>(a: multiset<T>, b: multiset<T>, c: multiset<T>, d: multiset<T>,
                    a': multiset<T>, b': multiset<T>, c': multiset<T>, d': multiset<T>)
    ensures Sum4(a + a', b + b', c + c', d + d') == Sum4(a, b, c, d) + Sum4(a', b', c', d')
  {
  }

  function Fates(v: Visit, s: seq<FetchedRecord>): multiset<FetchedRecord> {
    Sum4(multiset(Select(v, Release, s)), multiset(Select(v, Hold, s)),
         multiset(Select(v, Drop, s)), multiset(Select(v, Pass, s)))
  }

  function AllFates(visits: seq<Visit>): multiset<FetchedRecord> {
    Sum4(multiset(Selected(visits, Release)), multiset(Selected(visits, Hold)),
         multiset(Selected(visits, Drop)), multiset(Selected(visits, Pass)))
  }

  function One(v: Visit, fate: Fate, r: FetchedRecord): multiset<FetchedRecord> {
    if FateOf(v, r) == fate then multiset{r} else multiset{}
  }

  lemma SelectLast(v: Visit, fate: Fate, s: seq<FetchedRecord>)
    requires s != []
    ensures multiset(Select(v, fate, s)) == multiset(Select(v, fate, s[..|s| - 1])) + One(v, fate, s[|s| - 1])
  {
  }

  lemma {:induction false} SelectPartitions(v: Visit, s: seq<FetchedRecord>)
    ensures Fates(v, s) == multiset(s)
  {
    if s != [] {
      var front, last := s[..|s| - 1], s[|s| - 1];
      SelectPartitions(v, front);
      SelectLast(v, Release, s);
      SelectLast(v, Hold, s);
      SelectLast(v, Drop, s);
      SelectLast(v, Pass, s);
      Sum4Adds(multiset(Select(v, Release, front)), multiset(Select(v, Hold, front)),
               multiset(Select(v, Drop, front)), multiset(Select(v, Pass, front)),
               One(v, Release, last), One(v, Hold, last), One(v, Drop, last), One(v, Pass, last));
      assert Sum4(One(v, Release, last), One(v, Hold, last), One(v, Drop, last), One(v, Pass, last)) == multiset{last};
      SplitLast(s);
    }
  }

  lemma OneMoreFates(visits: seq<Visit>)
    requires visits != []
    ensures
      var v := visits[|visits| - 1];
      AllFates(visits) == AllFates(visits[..|visits| - 1]) + Fates(v, v.sorted)
  {
  }

  function Met(visits: seq<Visit>): seq<FetchedRecord> {
    if visits == [] then [] else Met(visits[..|visits| - 1]) + visits[|visits| - 1].sorted
  }

  lemma {:induction false} SelectedPartitions(visits: seq<Visit>)
    ensures AllFates(visits) == multiset(Met(visits))
  {
    if visits != [] {
      var v := visits[|visits| - 1];
      SelectedPartitions(visits[..|visits| - 1]);
      OneMoreFates(visits);
      SelectPartitions(v, v.sorted);
    }
  }

  lemma {:induction false} MetIsEverything(b: FetchedRecordBuffer, visits: seq<Visit>, keys: seq<string>)
    requires |visits| == |keys|
    requires forall i :: 0 <= i < |keys| ==> visits[i].sorted == b.Sorted(keys[i])
    ensures multiset(Met(visits)) == multiset(b.RecordsOf(keys))
    decreases |visits|
  {
    if visits != [] {
      var subject := keys[|keys| - 1];
      MetIsEverything(b, visits[..|visits| - 1], keys[..|keys| - 1]);
      SortRecordsSorts(b.FlatOf(subject));
    }
  }

  lemma HeldRecords(visits: seq<Visit>)
    ensures multiset(Held(visits).Records()) == multiset(Selected(visits, Hold))
  {
    AddAllRefinesMultiset(EMPTY, Selected(visits, Hold));
    assert EMPTY.Records() == [];
  }

  lemma FatesMakeSense(visits: seq<Visit>, fate: Fate, r: FetchedRecord)
    requires r in Selected(visits, fate)
    ensures fate == Release ==> r.IsSavable()
    ensures fate == Hold ==> r.IsChange() || r.IsContextMessage()
    ensures fate == Drop ==> r.IsContextMessage()
    ensures fate == Pass ==> r.IsHeartbeatMessage()
  {
    var i := SelectedFrom(visits, fate, r);
  }

  lemma HeldKinds(o: Settings, b: FetchedRecordBuffer, x: FetchedRecord)
    requires b.Valid() && Stitch(o, b).buffer.Has(x)
    ensures x.IsChange() || x.IsContextMessage()
  {
    HeldExactly(o, b, x);
    SelectedExactly(o, b, Hold, x);
    FatesMakeSense(Visits(o, b), Hold, x);
  }

  /** What a pass did with each record: released, held, dropped, passed over. */
  ghost predicate Accounts(o: Settings, b: FetchedRecordBuffer, result: Stitched, taken: seq<FetchedRecord>,
                           dropped: seq<FetchedRecord>, passed: seq<FetchedRecord>)
  {
    && Sum4(multiset(taken), multiset(result.buffer.Records()), multiset(dropped), multiset(passed)) == multiset(b.Records())
    && result.released == AttributeEach(b, taken)
    && (forall r :: r in taken ==> r.IsSavable())
    && (forall r :: r in result.buffer.Records() ==> r.IsChange() || r.IsContextMessage())
    && (forall r :: r in dropped ==> r.IsContextMessage())
    && (forall r :: r in passed ==> r.IsHeartbeatMessage())
  }

  /**
   Every buffered record is accounted for exactly once: released with only its context changed,
   held for the next pass, dropped (contexts only) or passed over (heartbeats only).
   */
  lemma Conservation(o: Settings, b: FetchedRecordBuffer)
    returns (taken: seq<FetchedRecord>, dropped: seq<FetchedRecord>, passed: seq<FetchedRecord>)
    requires b.Valid()
    ensures Accounts(o, b, Stitch(o, b), taken, dropped, passed)
    ensures taken == Selected(Visits(o, b), Release)
  {
    var visits := Visits(o, b);
    taken, dropped, passed := Selected(visits, Release), Selected(visits, Drop), Selected(visits, Pass);
    SelectedPartitions(visits);
    MetIsEverything(b, visits, b.store.keys);
    HeldRecords(visits);
    StitchReleases(o, b);
    forall r | r in taken ensures r.IsSavable() {
      FatesMakeSense(visits, Release, r);
    }
    forall r | r in dropped ensures r.IsContextMessage() {
      FatesMakeSense(visits, Drop, r);
    }
    forall r | r in passed ensures r.IsHeartbeatMessage() {
      FatesMakeSense(visits, Pass, r);
    }
    forall r | r in Held(visits).Records() ensures r.IsChange() || r.IsContextMessage() {
      assert r in multiset(Selected(visits, Hold));
      FatesMakeSense(visits, Hold, r);
    }
  }

  // ---------------------------------------------------------------------------------------------
  // The first context
  // ---------------------------------------------------------------------------------------------

  lemma {:induction false} FirstContextFound(s: seq<FetchedRecord>)
    ensures
      match FirstContext(s)
      case None => forall r :: r in s ==> !r.IsContextMessage()
      case Some(c) => c in s && c.IsContextMessage()
  {
    if s != [] && !s[0].IsContextMessage() {
      FirstContextFound(s[1..]);
      assert s == [s[0]] + s[1..];
    }
  }

  /** In arrival order the first context is the one with the least sequence. */
  lemma {:induction false} FirstContextIsLeast(s: seq<FetchedRecord>, r: FetchedRecord)
    requires Ascending(s) && r in s && r.IsContextMessage()
    ensures FirstContext(s).Some? && FirstContext(s).value.streamSequence <= r.streamSequence
  {
    if !s[0].IsContextMessage() {
      assert s == [s[0]] + s[1..];
      FirstContextIsLeast(s[1..], r);
    }
  }

  // ---------------------------------------------------------------------------------------------
  // Companions in a transaction
  // ---------------------------------------------------------------------------------------------

  lemma ListedWith(b: FetchedRecordBuffer, r: FetchedRecord, c: FetchedRecord)
    requires b.Valid() && c in b.ByTransactionId(r.subject, r.TransactionId())
    ensures b.Has(c) && SameTransaction(r, c)
  {
  }

  lemma LeastInList(b: FetchedRecordBuffer, r: FetchedRecord, e: FetchedRecord)
    requires InArrivalOrder(b) && b.Has(e) && SameTransaction(r, e) && e.IsContextMessage()
    ensures
      var first := FirstContext(b.ByTransactionId(r.subject, r.TransactionId()));
      && first.Some? && first.value.streamSequence <= e.streamSequence
      && first.value.IsContextMessage() && first.value in b.ByTransactionId(r.subject, r.TransactionId())
  {
    var list := b.ByTransactionId(r.subject, r.TransactionId());
    FirstContextIsLeast(list, e);
    FirstContextFound(list);
  }

  /** A change whose context is at hand is not held back. */
  lemma PairedIsReleased(v: Visit, r: FetchedRecord, c: FetchedRecord)
    requires r.IsSavable() && c.IsContextMessage()
    requires r in v.buffer.ByTransactionId(v.subject, r.TransactionId())
    requires c in v.buffer.ByTransactionId(v.subject, r.TransactionId())
    ensures FateOf(v, r) == Release
  {
  }

  lemma AwaitingIsHeld(v: Visit, r: FetchedRecord)
    requires v.settings.useBuffer && AwaitsChange(v, r)
    ensures FateOf(v, r) == Hold
  {
  }

  // ---------------------------------------------------------------------------------------------
  // The ack
  // ---------------------------------------------------------------------------------------------

  ghost predicate Occurs(b: FetchedRecordBuffer, sequence: nat) {
    exists r :: b.Has(r) && r.streamSequence == sequence
  }

  lemma {:induction false} MaxSequenceOccurs(b: FetchedRecordBuffer, n: nat)
    requires b.Valid() && n <= |b.store.keys|
    ensures MaxSequence(b, n).Some? ==> Occurs(b, MaxSequence(b, n).value)
    decreases n
  {
    if n > 0 {
      MaxSequenceOccurs(b, n - 1);
      var subject := b.store.keys[n - 1];
      var sorted := b.Sorted(subject);
      if sorted != [] {
        InSorted(b, subject, sorted[|sorted| - 1]);
      }
    }
  }

  lemma MaxSequenceWithin(b: FetchedRecordBuffer, n: nat, bound: nat)
    requires b.Valid() && n <= |b.store.keys|
    requires forall r :: b.Has(r) ==> r.streamSequence <= bound
    ensures MaxSequence(b, n).Some? ==> MaxSequence(b, n).value <= bound
  {
    MaxSequenceOccurs(b, n);
  }

  /** Nothing of the pass is more than the gap beyond the context. */
  lemma NearIsNoOrphan(o: Settings, b: FetchedRecordBuffer, c: FetchedRecord, bound: nat)
    requires b.Valid() && b.Has(c) && bound - c.streamSequence <= o.orphanContextSequenceGap
    requires forall r :: b.Has(r) ==> r.streamSequence <= bound
    ensures !Orphaned(VisitFor(o, b, c), c)
  {
    MaxOfVisitWithin(o, b, c, bound);
    NearMax(VisitFor(o, b, c), c, bound);
  }

  lemma MaxOfVisitWithin(o: Settings, b: FetchedRecordBuffer, c: FetchedRecord, bound: nat)
    requires b.Valid() && c.subject in b.store.keys && forall r :: b.Has(r) ==> r.streamSequence <= bound
    ensures VisitFor(o, b, c).settings == o
    ensures VisitFor(o, b, c).maxSequence.Some? ==> VisitFor(o, b, c).maxSequence.value <= bound
  {
    VisitMax(o, b, c);
    MaxSequenceWithin(b, IndexOf(b.store.keys, c.subject) + 1, bound);
  }

  lemma NearMax(v: Visit, c: FetchedRecord, bound: nat)
    requires v.maxSequence.Some? ==> v.maxSequence.value <= bound
    requires bound - c.streamSequence <= v.settings.orphanContextSequenceGap
    ensures !Orphaned(v, c)
  {
  }

  lemma VisitMax(o: Settings, b: FetchedRecordBuffer, c: FetchedRecord)
    requires c.subject in b.store.keys
    ensures VisitFor(o, b, c).settings == o
    ensures VisitFor(o, b, c).maxSequence == MaxSequence(b, IndexOf(b.store.keys, c.subject) + 1)
  {
  }

  /** The running maximum is the last record, in visiting order, of some subject visited so far... */
  lemma {:induction false} MaxSequenceIsLast(b: FetchedRecordBuffer, n: nat) returns (i: nat)
    requires n <= |b.store.keys| && MaxSequence(b, n).Some?
    ensures i < n && b.Sorted(b.store.keys[i]) != []
    ensures
      var s := b.Sorted(b.store.keys[i]);
      s[|s| - 1].streamSequence == MaxSequence(b, n).value
    decreases n
  {
    i := n - 1;
    if MaxSequence(b, n) == MaxSequence(b, n - 1) {
      i := MaxSequenceIsLast(b, n - 1);
    }
  }

  /** ...and no less than that of any. */
  lemma {:induction false} MaxSequenceCovers(b: FetchedRecordBuffer, n: nat, i: nat)
    requires i < n <= |b.store.keys| && b.Sorted(b.store.keys[i]) != []
    ensures
      var s := b.Sorted(b.store.keys[i]);
      Covers(MaxSequence(b, n), s[|s| - 1].streamSequence)
    decreases n
  {
    if i < n - 1 {
      MaxSequenceCovers(b, n - 1, i);
    }
  }

  lemma {:induction false} ReachedOccurs(v: Visit, s: seq<FetchedRecord>)
    ensures Reached(v, s).Some? ==> exists r :: r in s && r.streamSequence == Reached(v, s).value
  {
    if s != [] {
      ReachedOccurs(v, s[..|s| - 1]);
      assert forall r :: r in s[..|s| - 1] ==> r in s;
      assert s[|s| - 1] in s;
    }
  }

  lemma {:induction false} ProgressOrigin(visits: seq<Visit>, subject: string) returns (r: FetchedRecord, i: nat)
    requires Progress(visits).Get(subject).Some?
    ensures i < |visits| && r in visits[i].sorted && r.streamSequence == Progress(visits).Get(subject).value
  {
    var v := visits[|visits| - 1];
    ReachedOccurs(v, v.sorted);
    if v.subject == subject && Reached(v, v.sorted).Some? {
      i := |visits| - 1;
      r :| r in v.sorted && r.streamSequence == Reached(v, v.sorted).value;
    } else {
      r, i := ProgressOrigin(visits[..|visits| - 1], subject);
    }
  }

  lemma ProgressOccurs(o: Settings, b: FetchedRecordBuffer, subject: string)
    requires b.Valid()
    ensures
      var progress := Progress(Visits(o, b));
      progress.Get(subject).Some? ==> Occurs(b, progress.Get(subject).value)
  {
    if Progress(Visits(o, b)).Get(subject).Some? {
      var r, i := ProgressOrigin(Visits(o, b), subject);
      InSorted(b, b.store.keys[i], r);
    }
  }

  ghost function CandidateOf(o: Settings, b: FetchedRecordBuffer): Option<nat> {
    Candidate(MaxSequence(b, |b.store.keys|), Progress(Visits(o, b)), Held(Visits(o, b)))
  }

  lemma CandidateOccurs(o: Settings, b: FetchedRecordBuffer)
    requires b.Valid()
    ensures CandidateOf(o, b).Some? ==> Occurs(b, CandidateOf(o, b).value)
  {
    MaxSequenceOccurs(b, |b.store.keys|);
    var progress := Progress(Visits(o, b));
    var chosen := Preferred(progress, Held(Visits(o, b)), |progress.keys|);
    if chosen.Some? {
      ProgressOccurs(o, b, chosen.value);
    }
  }

  lemma {:induction false} LesserBounds(least: Option<nat>, s: seq<FetchedRecord>)
    ensures
      var m := Lesser(least, s);
      && (least.Some? ==> m.Some? && m.value <= least.value)
      && (forall r :: r in s ==> m.Some? && m.value <= r.streamSequence)
      && (m.Some? ==> m == least || exists r :: r in s && r.streamSequence == m.value)
  {
    if s != [] {
      var front, last := s[..|s| - 1], s[|s| - 1];
      LesserBounds(least, front);
      assert forall r :: r in s <==> r in front || r == last;
      assert last in s;
    }
  }

  lemma {:induction false} MinSequenceBelow(b: FetchedRecordBuffer, n: nat, r: FetchedRecord)
    requires n <= |b.store.keys|
    requires exists i :: 0 <= i < n && r in b.Sorted(b.store.keys[i])
    ensures MinSequence(b, n).Some? && MinSequence(b, n).value <= r.streamSequence
    decreases n
  {
    var i :| 0 <= i < n && r in b.Sorted(b.store.keys[i]);
    LesserBounds(MinSequence(b, n - 1), b.Sorted(b.store.keys[n - 1]));
    if i < n - 1 {
      MinSequenceBelow(b, n - 1, r);
    }
  }

  lemma {:induction false} MinSequenceOccurs(b: FetchedRecordBuffer, n: nat)
    requires b.Valid() && n <= |b.store.keys|
    ensures MinSequence(b, n).Some? ==> Occurs(b, MinSequence(b, n).value)
    decreases n
  {
    if n > 0 {
      MinSequenceOccurs(b, n - 1);
      var subject := b.store.keys[n - 1];
      LesserBounds(MinSequence(b, n - 1), b.Sorted(subject));
      if MinSequence(b, n) != MinSequence(b, n - 1) {
        var r :| r in b.Sorted(subject) && r.streamSequence == MinSequence(b, n).value;
        InSorted(b, subject, r);
      }
    }
  }

  lemma ClampBelow(ack: Option<nat>, least: Option<nat>)
    requires least.Some?
    ensures Clamp(ack, least).Some? ==> Clamp(ack, least).value < least.value
  {
  }

  lemma LeastBelow(b: FetchedRecordBuffer, r: FetchedRecord)
    requires b.Valid() && b.Has(r)
    ensures MinSequence(b, |b.store.keys|).Some? && MinSequence(b, |b.store.keys|).value <= r.streamSequence
  {
    var i := IndexOf(b.store.keys, r.subject);
    InSorted(b, r.subject, r);
    MinSequenceBelow(b, |b.store.keys|, r);
  }

  /** The ack is strictly below everything that stays in memory. */
  lemma AckBelowHeld(o: Settings, b: FetchedRecordBuffer, r: FetchedRecord)
    requires Stitch(o, b).buffer.Has(r)
    ensures Stitch(o, b).ack.Some? ==> Stitch(o, b).ack.value < r.streamSequence
  {
    var held := Held(Visits(o, b));
    HeldIsValid(Visits(o, b));
    LeastBelow(held, r);
    ClampBelow(CandidateOf(o, b), MinSequence(held, |held.store.keys|));
  }

  /** The ack is the sequence of a record of this pass, or the one just before a record that is held. */
  lemma AckOrigin(o: Settings, b: FetchedRecordBuffer)
    requires b.Valid()
    ensures
      var (held, ack) := (Stitch(o, b).buffer, Stitch(o, b).ack);
      ack.Some? ==> Occurs(b, ack.value) || (ack.value > 0 && Occurs(held, ack.value + 1))
  {
    var held := Held(Visits(o, b));
    HeldIsValid(Visits(o, b));
    CandidateOccurs(o, b);
    MinSequenceOccurs(held, |held.store.keys|);
    ClampOrigin(CandidateOf(o, b), MinSequence(held, |held.store.keys|));
  }

  lemma ClampOrigin(ack: Option<nat>, least: Option<nat>)
    ensures
      var clamped := Clamp(ack, least);
      clamped.Some? ==> clamped == ack || (clamped.value > 0 && least == Some(clamped.value + 1))
  {
  }
}
