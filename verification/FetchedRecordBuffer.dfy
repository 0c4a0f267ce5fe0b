/**
 The persistent buffer of records, grouped by subject and then by transaction. Adding copies, so
 it is a value; it refines the multiset of everything added.
 */
module FetchedRecordBuffers {
  import opened Objects
  import opened FetchedRecords

  type Transactions = Object<int, seq<FetchedRecord>>

  datatype FetchedRecordBuffer = FetchedRecordBuffer(store: Object<string, Transactions>) {
    function TransactionsOf(subject: string): Transactions {
      store.Get(subject).GetOr(Empty())
    }

    function ByTransactionId(subject: string, transactionId: int): seq<FetchedRecord> {
      TransactionsOf(subject).Get(transactionId).GetOr([])
    }

    predicate Has(r: FetchedRecord) {
      r in ByTransactionId(r.subject, r.TransactionId())
    }

    /** Keys are in order, and every record sits under its own subject and transaction id. */
    ghost predicate Valid() {
      && store.Valid()
      && forall subject :: subject in store.vals ==> WellPlaced(store.vals[subject], subject)
    }

    /** One copy, with the record at the end of its transaction's list. */
    function AddFetchedRecord(r: FetchedRecord): FetchedRecordBuffer {
      var transactions := TransactionsOf(r.subject);
      var existing := transactions.Get(r.TransactionId()).GetOr([]);
      FetchedRecordBuffer(store.Put(r.subject, transactions.Put(r.TransactionId(), existing + [r])))
    }

    function AddAll(records: seq<FetchedRecord>): FetchedRecordBuffer {
      if records == [] then this
      else AddAll(records[..|records| - 1]).AddFetchedRecord(records[|records| - 1])
    }

    /** `Object.values(store[subject]).flat()`, before the sort. */
    function FlatOf(subject: string): seq<FetchedRecord>
    {
      FlatValues(TransactionsOf(subject))
    }

    function SizeBySubject(subject: string): nat
    {
      |FlatOf(subject)|
    }

    /** Everything in the buffer, subject by subject. */
    function Records(): seq<FetchedRecord> {
      RecordsOf(store.keys)
    }

    function RecordsOf(subjects: seq<string>): seq<FetchedRecord> {
      if subjects == [] then []
      else RecordsOf(subjects[..|subjects| - 1]) + FlatOf(subjects[|subjects| - 1])
    }

    /** The subjects' counts, added up. */
    function Size(): nat {
      SumSizes(store.keys)
    }

    function SumSizes(subjects: seq<string>): nat {
      if subjects == [] then 0
      else SumSizes(subjects[..|subjects| - 1]) + SizeBySubject(subjects[|subjects| - 1])
    }

    /** What `forEach` hands its callback for a subject. */
    function Sorted(subject: string): seq<FetchedRecord>
    {
      SortRecords(FlatOf(subject))
    }
  }

  ghost predicate WellPlaced(transactions: Transactions, subject: string) {
    && transactions.Valid()
    && forall id :: id in transactions.vals ==> Placed(transactions.vals[id], subject, id)
  }

  ghost predicate Placed(records: seq<FetchedRecord>, subject: string, id: int) {
    forall i :: 0 <= i < |records| ==> records[i].subject == subject && records[i].TransactionId() == id
  }

  const EMPTY := FetchedRecordBuffer(Objects.Empty())

  /** `addFetchedRecords`: one persistent add after another. */
  method AddFetchedRecords(b: FetchedRecordBuffer, records: seq<FetchedRecord>) returns (newBuffer: FetchedRecordBuffer)
    ensures newBuffer == b.AddAll(records)
  {
    newBuffer := b;
    for i := 0 to |records|
      invariant newBuffer == b.AddAll(records[..i])
    {
      newBuffer := newBuffer.AddFetchedRecord(records[i]);
      assert records[..i + 1][..i] == records[..i];
    }
    assert records[..|records|] == records;
  }

  // ---------------------------------------------------------------------------------------------
  // Sorting by transaction id, then by stream sequence
  // ---------------------------------------------------------------------------------------------

  predicate Precedes(a: FetchedRecord, b: FetchedRecord) {
    if a.TransactionId() != b.TransactionId() then a.TransactionId() < b.TransactionId()
    else a.streamSequence <= b.streamSequence
  }

  ghost predicate IsSorted(s: seq<FetchedRecord>) {
    forall i, j :: 0 <= i < j < |s| ==> Precedes(s[i], s[j])
  }

  function Insert(r: FetchedRecord, s: seq<FetchedRecord>): seq<FetchedRecord> {
    if s == [] || Precedes(s[|s| - 1], r) then s + [r]
    else Insert(r, s[..|s| - 1]) + [s[|s| - 1]]
  }

  function SortRecords(s: seq<FetchedRecord>): seq<FetchedRecord> {
    if s == [] then [] else Insert(s[|s| - 1], SortRecords(s[..|s| - 1]))
  }

  lemma {:induction false} InsertKeeps(r: FetchedRecord, s: seq<FetchedRecord>)
    ensures multiset(Insert(r, s)) == multiset(s) + multiset{r}
  {
    if s == [] || Precedes(s[|s| - 1], r) {
    } else {
      InsertKeeps(r, s[..|s| - 1]);
      assert s == s[..|s| - 1] + [s[|s| - 1]];
    }
  }

  lemma {:induction false} InsertSorts(r: FetchedRecord, s: seq<FetchedRecord>)
    requires IsSorted(s)
    ensures IsSorted(Insert(r, s))
  {
    if s == [] || Precedes(s[|s| - 1], r) {
    } else {
      var front, last := s[..|s| - 1], s[|s| - 1];
      InsertSorts(r, front);
      InsertKeeps(r, front);
      forall x | x in Insert(r, front) ensures Precedes(x, last) {
        assert x in multiset(Insert(r, front));
      }
    }
  }

  /** `forEach` visits a sorted permutation. */
  lemma {:induction false} SortRecordsSorts(s: seq<FetchedRecord>)
    ensures IsSorted(SortRecords(s))
    ensures multiset(SortRecords(s)) == multiset(s)
  {
    if s != [] {
      var front, last := s[..|s| - 1], s[|s| - 1];
      SortRecordsSorts(front);
      InsertSorts(last, SortRecords(front));
      InsertKeeps(last, SortRecords(front));
      assert s == front + [last];
    }
  }

  lemma {:induction false} SortingSortedIsIdentity(s: seq<FetchedRecord>)
    requires IsSorted(s)
    ensures SortRecords(s) == s
  {
    if s != [] {
      SortingSortedIsIdentity(s[..|s| - 1]);
    }
  }

  lemma SortedMembers(s: seq<FetchedRecord>, r: FetchedRecord)
    ensures r in SortRecords(s) <==> r in s
  {
    SortRecordsSorts(s);
    assert r in multiset(s) <==> r in multiset(SortRecords(s));
  }

  // ---------------------------------------------------------------------------------------------
  // The buffer refines a multiset of records
  // ---------------------------------------------------------------------------------------------

  lemma AddKeepsValid(b: FetchedRecordBuffer, r: FetchedRecord)
    requires b.Valid()
    ensures b.AddFetchedRecord(r).Valid()
  {
    var t, id := b.TransactionsOf(r.subject), r.TransactionId();
    var list := t.Get(id).GetOr([]) + [r];
    t.PutKeepsValid(id, list);
    b.store.PutKeepsValid(r.subject, t.Put(id, list));
    assert Placed(list, r.subject, id);
    assert WellPlaced(t.Put(id, list), r.subject);
  }

  lemma KeysAdd(b: FetchedRecordBuffer, r: FetchedRecord)
    requires b.Valid()
    ensures b.AddFetchedRecord(r).store.keys ==
      if r.subject in b.store.keys then b.store.keys else b.store.keys + [r.subject]
  {
  }

  lemma FlatOfAdd(b: FetchedRecordBuffer, r: FetchedRecord)
    requires b.Valid()
    ensures multiset(b.AddFetchedRecord(r).FlatOf(r.subject)) == multiset(b.FlatOf(r.subject)) + multiset{r}
  {
    var t, id := b.TransactionsOf(r.subject), r.TransactionId();
    var existing := t.Get(id).GetOr([]);
    FlatValuesPut(t, id, existing + [r]);
    OneMore(FlatValues(t), FlatValues(t.Put(id, existing + [r])), existing, r);
  }

  lemma FlatElsewhere(b: FetchedRecordBuffer, r: FetchedRecord, subject: string)
    requires subject != r.subject
    ensures b.AddFetchedRecord(r).FlatOf(subject) == b.FlatOf(subject)
  {
  }

  lemma {:induction false} RecordsElsewhere(b: FetchedRecordBuffer, r: FetchedRecord, subjects: seq<string>)
    requires r.subject !in subjects
    ensures b.AddFetchedRecord(r).RecordsOf(subjects) == b.RecordsOf(subjects)
  {
    if subjects != [] {
      RecordsElsewhere(b, r, subjects[..|subjects| - 1]);
      FlatElsewhere(b, r, subjects[|subjects| - 1]);
    }
  }

  lemma {:induction false} RecordsAddOf(b: FetchedRecordBuffer, r: FetchedRecord, subjects: seq<string>)
    requires b.Valid()
    requires forall i, j :: 0 <= i < j < |subjects| ==> subjects[i] != subjects[j]
    requires r.subject in subjects
    ensures multiset(b.AddFetchedRecord(r).RecordsOf(subjects)) == multiset(b.RecordsOf(subjects)) + multiset{r}
  {
    var front, last := subjects[..|subjects| - 1], subjects[|subjects| - 1];
    var flat, flat' := b.FlatOf(last), b.AddFetchedRecord(r).FlatOf(last);
    var rest, rest' := b.RecordsOf(front), b.AddFetchedRecord(r).RecordsOf(front);
    if last == r.subject {
      RecordsElsewhere(b, r, front);
      FlatOfAdd(b, r);
      PlusOne(multiset(rest), multiset(flat), multiset{r});
    } else {
      RecordsAddOf(b, r, front);
      FlatElsewhere(b, r, last);
      PlusOneFirst(multiset(rest), multiset(flat), multiset{r});
    }
  }

  lemma PlusOne<T>(a: multiset<T>, b: multiset<T>, c: multiset<T>)
    ensures (a + b) + c == a + (b + c)
  {
  }

  lemma PlusOneFirst<T>(a: multiset<T>, b: multiset<T>, c: multiset<T>)
    ensures (a + b) + c == (a + c) + b
  {
  }

  lemma RecordsAdd(b: FetchedRecordBuffer, r: FetchedRecord)
    requires b.Valid()
    ensures multiset(b.AddFetchedRecord(r).Records()) == multiset(b.Records()) + multiset{r}
  {
    if r.subject in b.store.keys {
      RecordsAddOf(b, r, b.store.keys);
    } else {
      NewSubject(b, r);
    }
  }

  lemma NewSubject(b: FetchedRecordBuffer, r: FetchedRecord)
    requires b.Valid() && r.subject !in b.store.keys
    ensures b.AddFetchedRecord(r).Records() == b.Records() + [r]
  {
    var keys, b' := b.store.keys, b.AddFetchedRecord(r);
    RecordsElsewhere(b, r, keys);
    assert b'.store.keys == keys + [r.subject];
    OneMoreSubject(b', keys, r.subject);
    FlatOfFirst(b, r);
  }

  lemma FlatOfFirst(b: FetchedRecordBuffer, r: FetchedRecord)
    requires r.subject !in b.store.vals
    ensures b.AddFetchedRecord(r).FlatOf(r.subject) == [r]
  {
    var id := r.TransactionId();
    var t: Transactions := Object([id], map[id := [r]]);
    assert [] + [id] == [id] && [] + [r] == [r];
    assert b.AddFetchedRecord(r).TransactionsOf(r.subject) == t;
    assert t.keys[..0] == [];
    assert Flat(t.keys[..0], t.vals) == [];
  }

  lemma OneMoreSubject(b: FetchedRecordBuffer, subjects: seq<string>, subject: string)
    ensures b.RecordsOf(subjects + [subject]) == b.RecordsOf(subjects) + b.FlatOf(subject)
  {
  }

  lemma {:induction false} AddAllKeepsValid(b: FetchedRecordBuffer, records: seq<FetchedRecord>)
    requires b.Valid()
    ensures b.AddAll(records).Valid()
  {
    if records != [] {
      AddAllKeepsValid(b, records[..|records| - 1]);
      AddKeepsValid(b.AddAll(records[..|records| - 1]), records[|records| - 1]);
    }
  }

  /** The buffer holds exactly the records it held and those added. */
  lemma {:induction false} AddAllRefinesMultiset(b: FetchedRecordBuffer, records: seq<FetchedRecord>)
    requires b.Valid()
    ensures multiset(b.AddAll(records).Records()) == multiset(b.Records()) + multiset(records)
  {
    if records != [] {
      var front, last := records[..|records| - 1], records[|records| - 1];
      AddAllRefinesMultiset(b, front);
      AddAllKeepsValid(b, front);
      RecordsAdd(b.AddAll(front), last);
      SplitLast(records);
      PlusOne(multiset(b.Records()), multiset(front), multiset{last});
    }
  }

  lemma SplitLast(records: seq<FetchedRecord>)
    requires records != []
    ensures multiset(records) == multiset(records[..|records| - 1]) + multiset{records[|records| - 1]}
  {
    assert records == records[..|records| - 1] + [records[|records| - 1]];
  }

  lemma {:induction false} SumSizesCounts(b: FetchedRecordBuffer, subjects: seq<string>)
    ensures b.SumSizes(subjects) == |b.RecordsOf(subjects)|
  {
    if subjects != [] {
      SumSizesCounts(b, subjects[..|subjects| - 1]);
    }
  }

  /** The size is the number of records held. */
  lemma SizeCounts(b: FetchedRecordBuffer)
    ensures b.Size() == |b.Records()|
  {
    SumSizesCounts(b, b.store.keys);
  }

  // ---------------------------------------------------------------------------------------------
  // Membership
  // ---------------------------------------------------------------------------------------------

  lemma FlatOfMembers(b: FetchedRecordBuffer, subject: string, r: FetchedRecord)
    requires b.Valid()
    ensures r in b.FlatOf(subject) <==> r.subject == subject && b.Has(r)
  {
    var t := b.TransactionsOf(subject);
    FlatMember(t.keys, t.vals, r);
    if r in b.FlatOf(subject) {
      var id := FlatOrigin(t.keys, t.vals, r);
      assert WellPlaced(t, subject);
      assert Placed(t.vals[id], subject, id);
    }
  }

  lemma InSorted(b: FetchedRecordBuffer, subject: string, r: FetchedRecord)
    requires b.Valid()
    ensures r in b.Sorted(subject) <==> r.subject == subject && b.Has(r)
  {
    FlatOfMembers(b, subject, r);
    SortedMembers(b.FlatOf(subject), r);
  }

  lemma {:induction false} InRecordsOf(b: FetchedRecordBuffer, subjects: seq<string>, r: FetchedRecord)
    requires b.Valid()
    ensures r in b.RecordsOf(subjects) <==> r.subject in subjects && b.Has(r)
  {
    if subjects != [] {
      InRecordsOf(b, subjects[..|subjects| - 1], r);
      FlatOfMembers(b, subjects[|subjects| - 1], r);
    }
  }

  lemma InRecords(b: FetchedRecordBuffer, r: FetchedRecord)
    requires b.Valid()
    ensures r in b.Records() <==> b.Has(r)
  {
    InRecordsOf(b, b.store.keys, r);
  }

  lemma HasAdd(b: FetchedRecordBuffer, x: FetchedRecord, r: FetchedRecord)
    ensures b.AddFetchedRecord(x).Has(r) <==> b.Has(r) || r == x
  {
  }

  lemma {:induction false} HasAddAll(b: FetchedRecordBuffer, records: seq<FetchedRecord>, r: FetchedRecord)
    ensures b.AddAll(records).Has(r) <==> b.Has(r) || r in records
  {
    if records != [] {
      HasAddAll(b, records[..|records| - 1], r);
      HasAdd(b.AddAll(records[..|records| - 1]), records[|records| - 1], r);
    }
  }

  // ---------------------------------------------------------------------------------------------
  // Within a transaction, arrival order is sequence order
  // ---------------------------------------------------------------------------------------------

  predicate SameTransaction(a: FetchedRecord, b: FetchedRecord) {
    a.subject == b.subject && a.TransactionId() == b.TransactionId()
  }

  ghost predicate Ascending(s: seq<FetchedRecord>) {
    forall i, j :: 0 <= i < j < |s| ==> s[i].streamSequence <= s[j].streamSequence
  }

  ghost predicate StrictlyAscending(s: seq<FetchedRecord>) {
    forall i, j :: 0 <= i < j < |s| ==> s[i].streamSequence < s[j].streamSequence
  }

  /** No two places of the list have one sequence. */
  ghost predicate DistinctSequences(s: seq<FetchedRecord>) {
    forall i, j :: 0 <= i < j < |s| ==> s[i].streamSequence != s[j].streamSequence
  }

  ghost predicate InArrivalOrder(b: FetchedRecordBuffer) {
    forall subject, id :: Ascending(b.ByTransactionId(subject, id))
  }

  ghost predicate OrderedByTransaction(s: seq<FetchedRecord>) {
    forall i, j :: 0 <= i < j < |s| && SameTransaction(s[i], s[j]) ==> s[i].streamSequence <= s[j].streamSequence
  }

  /** Each record comes after everything of its transaction that is already there. */
  ghost predicate Follows(b: FetchedRecordBuffer, records: seq<FetchedRecord>) {
    && (forall i, x :: 0 <= i < |records| && b.Has(x) && SameTransaction(x, records[i]) ==>
          x.streamSequence <= records[i].streamSequence)
    && OrderedByTransaction(records)
  }

  lemma AddInOrder(b: FetchedRecordBuffer, r: FetchedRecord)
    requires b.Valid() && InArrivalOrder(b)
    requires forall x :: b.Has(x) && SameTransaction(x, r) ==> x.streamSequence <= r.streamSequence
    ensures InArrivalOrder(b.AddFetchedRecord(r))
  {
    forall subject, id ensures Ascending(b.AddFetchedRecord(r).ByTransactionId(subject, id)) {
      ListAfterAdd(b, r, subject, id);
      if subject == r.subject && id == r.TransactionId() {
        ListUpTo(b, r);
      }
    }
  }

  lemma ListUpTo(b: FetchedRecordBuffer, r: FetchedRecord)
    requires b.Valid() && InArrivalOrder(b)
    requires forall x :: b.Has(x) && SameTransaction(x, r) ==> x.streamSequence <= r.streamSequence
    ensures Ascending(b.ByTransactionId(r.subject, r.TransactionId()) + [r])
  {
    var list := b.ByTransactionId(r.subject, r.TransactionId());
    forall i | 0 <= i < |list| ensures list[i].streamSequence <= r.streamSequence {
      ListedHere(b, r.subject, r.TransactionId(), i);
    }
  }

  lemma ListAfterAdd(b: FetchedRecordBuffer, r: FetchedRecord, subject: string, id: int)
    ensures b.AddFetchedRecord(r).ByTransactionId(subject, id) ==
      if subject == r.subject && id == r.TransactionId() then b.ByTransactionId(subject, id) + [r]
      else b.ByTransactionId(subject, id)
  {
  }

  lemma ListedHere(b: FetchedRecordBuffer, subject: string, id: int, i: nat)
    requires b.Valid() && i < |b.ByTransactionId(subject, id)|
    ensures
      var x := b.ByTransactionId(subject, id)[i];
      x.subject == subject && x.TransactionId() == id && b.Has(x)
  {
  }

  lemma {:induction false} AddAllInOrder(b: FetchedRecordBuffer, records: seq<FetchedRecord>)
    requires b.Valid() && InArrivalOrder(b) && Follows(b, records)
    ensures InArrivalOrder(b.AddAll(records))
  {
    if records != [] {
      var front, last := records[..|records| - 1], records[|records| - 1];
      assert Follows(b, front);
      AddAllInOrder(b, front);
      AddAllKeepsValid(b, front);
      var mid := b.AddAll(front);
      forall x | mid.Has(x) && SameTransaction(x, last) ensures x.streamSequence <= last.streamSequence {
        HasAddAll(b, front, x);
      }
      AddInOrder(mid, last);
    }
  }
}
