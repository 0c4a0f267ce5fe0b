/**
 The shape of what a pass holds, and exactly when a fetch that brings nothing changes nothing: when
 stitching what was held gives it back.
 */
module IdleFetches {
  import opened Wrappers
  import opened Objects
  import opened FetchedRecords
  import opened FetchedRecordBuffers
  import opened Stitching
  import opened StitchingProperties
  import opened Ingestion
  import opened TurnProperties
  import opened Incarnation
  import opened BoundedMemory

  // ---------------------------------------------------------------------------------------------
  // The shape of what is held
  // ---------------------------------------------------------------------------------------------

  lemma Reflexive(s: seq<FetchedRecord>, x: FetchedRecord)
    requires IsSorted(s) && x in s
    ensures Precedes(x, s[|s| - 1])
  {
  }

  lemma HeldTogether(v: Visit, x: FetchedRecord, y: FetchedRecord)
    requires FateOf(v, x) == Hold && FateOf(v, y) == Hold && x.IsChange()
    requires IsSorted(v.sorted) && x in v.sorted && y in v.sorted
    requires x in v.buffer.ByTransactionId(v.subject, x.TransactionId())
    requires y in v.buffer.ByTransactionId(v.subject, y.TransactionId())
    ensures Precedes(y, x)
    ensures y.IsChange() ==> y == x
    ensures y.IsContextMessage() ==> y.TransactionId() != x.TransactionId()
  {
  }

  /**
   Per subject a pass holds at most one change, which is the subject's last record, and never both a
   change and a context of one transaction.
   */
  lemma ShapeOfHeld(o: Settings, b: FetchedRecordBuffer, x: FetchedRecord, y: FetchedRecord)
    requires b.Valid() && Stitch(o, b).buffer.Has(x) && Stitch(o, b).buffer.Has(y)
    requires x.IsChange() && x.subject == y.subject
    ensures Precedes(y, x)
    ensures y.IsChange() ==> y == x
    ensures y.IsContextMessage() ==> !SameTransaction(x, y)
  {
    HeldExactly(o, b, x);
    HeldExactly(o, b, y);
    InSorted(b, x.subject, x);
    InSorted(b, x.subject, y);
    SortRecordsSorts(b.FlatOf(x.subject));
    HeldTogether(VisitFor(o, b, x), x, y);
  }

  // ---------------------------------------------------------------------------------------------
  // A sorted list is determined by its members
  // ---------------------------------------------------------------------------------------------

  lemma LastIsLast(s: seq<FetchedRecord>, t: seq<FetchedRecord>)
    requires IsSorted(s) && IsSorted(t) && DistinctSequences(t) && multiset(s) == multiset(t) && t != []
    ensures s != [] && s[|s| - 1] == t[|t| - 1]
  {
    assert |s| == |multiset(s)| == |t|;
    var x, y := s[|s| - 1], t[|t| - 1];
    assert x in multiset(t) && y in multiset(s);
    var k :| 0 <= k < |t| && t[k] == x;
    Reflexive(s, y);
    Reflexive(t, x);
    assert k == |t| - 1 || x.streamSequence != y.streamSequence;
  }

  lemma {:induction false} SortedIsUnique(s: seq<FetchedRecord>, t: seq<FetchedRecord>)
    requires IsSorted(s) && IsSorted(t) && DistinctSequences(t) && multiset(s) == multiset(t)
    ensures s == t
    decreases |t|
  {
    if t == [] {
      assert |multiset(s)| == 0;
    } else {
      LastIsLast(s, t);
      DropLast(s, t);
      SortedIsUnique(s[..|s| - 1], t[..|t| - 1]);
      assert s == s[..|s| - 1] + [s[|s| - 1]];
    }
  }

  lemma DropLast<T>(s: seq<T>, t: seq<T>)
    requires s != [] && t != [] && s[|s| - 1] == t[|t| - 1] && multiset(s) == multiset(t)
    ensures multiset(s[..|s| - 1]) == multiset(t[..|t| - 1])
  {
    assert s == s[..|s| - 1] + [s[|s| - 1]] && t == t[..|t| - 1] + [t[|t| - 1]];
    assert multiset(s[..|s| - 1]) == multiset(s) - multiset{s[|s| - 1]};
    assert multiset(t[..|t| - 1]) == multiset(t) - multiset{t[|t| - 1]};
  }

  // ---------------------------------------------------------------------------------------------
  // Adding one subject's records to a buffer that has none of it
  // ---------------------------------------------------------------------------------------------

  lemma {:induction false} AddBlockKeys(b: FetchedRecordBuffer, subject: string, block: seq<FetchedRecord>)
    requires b.Valid() && subject !in b.store.keys && block != []
    requires forall i :: 0 <= i < |block| ==> block[i].subject == subject
    ensures b.AddAll(block).store.keys == b.store.keys + [subject]
    decreases |block|
  {
    var front, last := block[..|block| - 1], block[|block| - 1];
    AddAllKeepsValid(b, front);
    KeysAdd(b.AddAll(front), last);
    if front != [] {
      AddBlockKeys(b, subject, front);
      assert subject in b.store.keys + [subject];
    }
  }

  lemma {:induction false} AddBlockFlat(b: FetchedRecordBuffer, subject: string, block: seq<FetchedRecord>)
    requires b.Valid() && b.FlatOf(subject) == []
    requires forall i :: 0 <= i < |block| ==> block[i].subject == subject
    ensures multiset(b.AddAll(block).FlatOf(subject)) == multiset(block)
    decreases |block|
  {
    if block != [] {
      var front, last := block[..|block| - 1], block[|block| - 1];
      AddBlockFlat(b, subject, front);
      AddAllKeepsValid(b, front);
      FlatOfAdd(b.AddAll(front), last);
      SplitLast(block);
    }
  }

  lemma {:induction false} AddElsewhere(b: FetchedRecordBuffer, subject: string, block: seq<FetchedRecord>, other: string)
    requires forall i :: 0 <= i < |block| ==> block[i].subject == subject
    requires other != subject
    ensures b.AddAll(block).Sorted(other) == b.Sorted(other)
    decreases |block|
  {
    if block != [] {
      AddElsewhere(b, subject, block[..|block| - 1], other);
      FlatElsewhere(b.AddAll(block[..|block| - 1]), block[|block| - 1], other);
    }
  }

  lemma BlockIsSorted(b: FetchedRecordBuffer, subject: string, block: seq<FetchedRecord>)
    requires b.Valid() && subject !in b.store.keys && block != []
    requires forall i :: 0 <= i < |block| ==> block[i].subject == subject
    requires IsSorted(block) && DistinctSequences(block)
    ensures b.AddAll(block).Sorted(subject) == block
  {
    assert b.FlatOf(subject) == [];
    AddBlockFlat(b, subject, block);
    SortRecordsSorts(b.AddAll(block).FlatOf(subject));
    SortedIsUnique(b.AddAll(block).Sorted(subject), block);
  }

  /** The subjects' sorted records, one after another. */
  function Listing(b: FetchedRecordBuffer, subjects: seq<string>): seq<FetchedRecord> {
    if subjects == [] then []
    else Listing(b, subjects[..|subjects| - 1]) + b.Sorted(subjects[|subjects| - 1])
  }

  lemma {:induction false} ListingElsewhere(b: FetchedRecordBuffer, b': FetchedRecordBuffer, subjects: seq<string>)
    requires forall k :: k in subjects ==> b.Sorted(k) == b'.Sorted(k)
    ensures Listing(b, subjects) == Listing(b', subjects)
    decreases |subjects|
  {
    if subjects != [] {
      assert subjects[|subjects| - 1] in subjects;
      ListingElsewhere(b, b', subjects[..|subjects| - 1]);
    }
  }

  // ---------------------------------------------------------------------------------------------
  // What is held lists the held records in visiting order
  // ---------------------------------------------------------------------------------------------

  ghost predicate Tidy(visits: seq<Visit>) {
    Separate(visits) && forall i :: 0 <= i < |visits| ==> DistinctSequences(visits[i].sorted)
  }

  lemma PrefixIsTidy(visits: seq<Visit>, n: nat)
    requires Tidy(visits) && n <= |visits|
    ensures Tidy(visits[..n])
  {
  }

  function Block(v: Visit): seq<FetchedRecord> {
    Select(v, Hold, v.sorted)
  }

  lemma {:induction false} SelectStaysDistinct(v: Visit, fate: Fate, s: seq<FetchedRecord>)
    requires DistinctSequences(s)
    ensures DistinctSequences(Select(v, fate, s))
    decreases |s|
  {
    if s != [] {
      var front, last := s[..|s| - 1], s[|s| - 1];
      SelectStaysDistinct(v, fate, front);
      var chosen := Select(v, fate, front);
      forall i | 0 <= i < |chosen| ensures chosen[i].streamSequence != last.streamSequence {
        SelectMember(v, fate, front, chosen[i]);
        EarlierInList(s, chosen[i]);
      }
    }
  }

  lemma EarlierInList(s: seq<FetchedRecord>, x: FetchedRecord)
    requires s != [] && DistinctSequences(s) && x in s[..|s| - 1]
    ensures x.streamSequence != s[|s| - 1].streamSequence
  {
  }

  lemma BlockIsTidy(v: Visit)
    requires Own(v) && IsSorted(v.sorted) && DistinctSequences(v.sorted)
    ensures IsSorted(Block(v)) && DistinctSequences(Block(v))
    ensures forall i :: 0 <= i < |Block(v)| ==> Block(v)[i].subject == v.subject
  {
    SelectStaysSorted(v, Hold, v.sorted);
    SelectStaysDistinct(v, Hold, v.sorted);
    forall i | 0 <= i < |Block(v)| ensures Block(v)[i].subject == v.subject {
      SelectMember(v, Hold, v.sorted, Block(v)[i]);
    }
  }

  lemma NotAHeldSubject(visits: seq<Visit>, subject: string)
    requires Separate(visits) && forall i :: 0 <= i < |visits| ==> visits[i].subject != subject
    ensures subject !in Held(visits).store.keys
  {
    if subject in Held(visits).store.keys {
      KeysOfAdded(EMPTY, Selected(visits, Hold), subject);
      var r :| r in Selected(visits, Hold) && r.subject == subject;
      var i := SelectedFrom(visits, Hold, r);
    }
  }

  lemma FreshSubject(visits: seq<Visit>)
    requires visits != [] && Tidy(visits)
    ensures Tidy(visits[..|visits| - 1])
    ensures visits[|visits| - 1].subject !in Held(visits[..|visits| - 1]).store.keys
  {
    var front := visits[..|visits| - 1];
    PrefixIsTidy(visits, |visits| - 1);
    forall i | 0 <= i < |front| ensures front[i].subject != visits[|visits| - 1].subject {
      assert front[i] == visits[i];
    }
    NotAHeldSubject(front, visits[|visits| - 1].subject);
  }

  lemma HeldGrows(visits: seq<Visit>)
    requires visits != []
    ensures Held(visits) == Held(visits[..|visits| - 1]).AddAll(Block(visits[|visits| - 1]))
  {
    OneMoreVisit(visits, |visits| - 1);
    assert visits[..|visits|] == visits;
  }

  /** The last visit adds its block as one more subject, and leaves the others as they were. */
  lemma HeldOneMore(visits: seq<Visit>)
    requires visits != [] && Tidy(visits)
    ensures
      var (front, v) := (visits[..|visits| - 1], visits[|visits| - 1]);
      var (before, after) := (Held(front), Held(visits));
      && (forall k :: k in before.store.keys ==> after.Sorted(k) == before.Sorted(k))
      && if Block(v) == [] then after == before
         else after.store.keys == before.store.keys + [v.subject] && after.Sorted(v.subject) == Block(v)
  {
    var front, v := visits[..|visits| - 1], visits[|visits| - 1];
    HeldGrows(visits);
    FreshSubject(visits);
    HeldIsValid(front);
    BlockIsTidy(v);
    if Block(v) != [] {
      AddBlockKeys(Held(front), v.subject, Block(v));
      BlockIsSorted(Held(front), v.subject, Block(v));
      forall k | k in Held(front).store.keys ensures Held(visits).Sorted(k) == Held(front).Sorted(k) {
        AddElsewhere(Held(front), v.subject, Block(v), k);
      }
    }
  }

  lemma {:induction false} HeldListing(visits: seq<Visit>)
    requires Tidy(visits)
    ensures Listing(Held(visits), Held(visits).store.keys) == Selected(visits, Hold)
    decreases |visits|
  {
    if visits != [] {
      var front, v := visits[..|visits| - 1], visits[|visits| - 1];
      FreshSubject(visits);
      HeldListing(front);
      HeldOneMore(visits);
      ListingElsewhere(Held(front), Held(visits), Held(front).store.keys);
      if Block(v) != [] {
        ListingLast(Held(visits), Held(front).store.keys, v.subject);
      }
    }
  }

  lemma ListingLast(b: FetchedRecordBuffer, subjects: seq<string>, subject: string)
    ensures Listing(b, subjects + [subject]) == Listing(b, subjects) + b.Sorted(subject)
  {
  }

  // ---------------------------------------------------------------------------------------------
  // The running maximum over what is held is no greater than it was
  // ---------------------------------------------------------------------------------------------

  ghost predicate NotBeyond(a: Option<nat>, b: Option<nat>) {
    a.Some? ==> b.Some? && a.value <= b.value
  }

  lemma LaterNotBeyond(m: Option<nat>, m': Option<nat>, block: seq<FetchedRecord>, s: seq<FetchedRecord>)
    requires NotBeyond(m, m') && StrictlyAscending(s)
    requires forall x :: x in block ==> x in s
    ensures NotBeyond(Later(m, block), Later(m', s)) && NotBeyond(m, Later(m', s))
  {
    if block != [] {
      assert block[|block| - 1] in block;
      UpToLast(s, block[|block| - 1]);
    }
  }

  lemma MaxAppended(before: FetchedRecordBuffer, after: FetchedRecordBuffer, subject: string, block: seq<FetchedRecord>)
    requires after.store.keys == before.store.keys + [subject] && after.Sorted(subject) == block
    requires forall k :: k in before.store.keys ==> after.Sorted(k) == before.Sorted(k)
    ensures
      var m := MaxSequence(before, |before.store.keys|);
      MaxSequence(after, |before.store.keys|) == m && MaxSequence(after, |after.store.keys|) == Later(m, block)
  {
    KeepMax(before, after, |before.store.keys|);
  }

  lemma MaxOneMore(visits: seq<Visit>)
    requires visits != [] && Tidy(visits)
    ensures
      var (front, v) := (visits[..|visits| - 1], visits[|visits| - 1]);
      var (before, after) := (Held(front), Held(visits));
      var m := MaxSequence(before, |before.store.keys|);
      && before.store.keys <= after.store.keys
      && MaxSequence(after, |before.store.keys|) == m
      && MaxSequence(after, |after.store.keys|) == Later(m, Block(v))
  {
    var v := visits[|visits| - 1];
    HeldOneMore(visits);
    if Block(v) != [] {
      MaxAppended(Held(visits[..|visits| - 1]), Held(visits), v.subject, Block(v));
    }
  }

  /** The running maximum over some visits. */
  function MaxOver(visits: seq<Visit>): Option<nat> {
    if visits == [] then None else Later(MaxOver(visits[..|visits| - 1]), visits[|visits| - 1].sorted)
  }

  lemma {:induction false} MaxOverVisits(o: Settings, b: FetchedRecordBuffer, n: nat)
    requires n <= |b.store.keys|
    ensures MaxOver(Visits(o, b)[..n]) == MaxSequence(b, n)
    decreases n
  {
    if n > 0 {
      MaxOverVisits(o, b, n - 1);
      assert Visits(o, b)[..n][..n - 1] == Visits(o, b)[..n - 1];
    }
  }

  ghost predicate InSequence(visits: seq<Visit>) {
    forall i :: 0 <= i < |visits| ==> StrictlyAscending(visits[i].sorted)
  }

  lemma {:induction false} MaxNotBeyond(visits: seq<Visit>)
    requires Tidy(visits) && InSequence(visits)
    ensures NotBeyond(MaxSequence(Held(visits), |Held(visits).store.keys|), MaxOver(visits))
    decreases |visits|
  {
    if visits != [] {
      var front, v := visits[..|visits| - 1], visits[|visits| - 1];
      FreshSubject(visits);
      MaxNotBeyond(front);
      MaxOneMore(visits);
      forall x | x in Block(v) ensures x in v.sorted {
        SelectMember(v, Hold, v.sorted, x);
      }
      LaterNotBeyond(MaxSequence(Held(front), |Held(front).store.keys|), MaxOver(front), Block(v), v.sorted);
    }
  }

  lemma OneVisitKeeps(visits: seq<Visit>, k: nat)
    requires visits != [] && Tidy(visits) && k <= |Held(visits[..|visits| - 1]).store.keys|
    ensures
      var (before, after) := (Held(visits[..|visits| - 1]), Held(visits));
      before.store.keys <= after.store.keys && MaxSequence(after, k) == MaxSequence(before, k)
  {
    HeldOneMore(visits);
    KeepMax(Held(visits[..|visits| - 1]), Held(visits), k);
  }

  /** Later visits do not disturb the subjects held by earlier ones. */
  lemma {:induction false} LaterVisitsKeep(visits: seq<Visit>, n: nat)
    requires Tidy(visits) && n <= |visits|
    ensures
      var (before, after) := (Held(visits[..n]), Held(visits));
      && before.store.keys <= after.store.keys
      && MaxSequence(after, |before.store.keys|) == MaxSequence(before, |before.store.keys|)
    decreases |visits|
  {
    if n == |visits| {
      assert visits[..n] == visits;
    } else {
      var front := visits[..|visits| - 1];
      assert front[..n] == visits[..n];
      PrefixIsTidy(visits, |visits| - 1);
      LaterVisitsKeep(front, n);
      OneVisitKeeps(visits, |Held(visits[..n]).store.keys|);
    }
  }

  lemma KeepMax(before: FetchedRecordBuffer, after: FetchedRecordBuffer, n: nat)
    requires n <= |before.store.keys| && before.store.keys <= after.store.keys
    requires forall k :: k in before.store.keys ==> after.Sorted(k) == before.Sorted(k)
    ensures MaxSequence(after, n) == MaxSequence(before, n)
  {
  }

  // ---------------------------------------------------------------------------------------------
  // Everything held is held again
  // ---------------------------------------------------------------------------------------------

  lemma {:induction false} ListInFlat<K, T>(keys: seq<K>, vals: map<K, seq<T>>, k: K)
    requires k in keys && k in vals
    ensures multiset(vals[k]) <= multiset(Flat(keys, vals))
  {
    var front, last := keys[..|keys| - 1], keys[|keys| - 1];
    if last != k {
      ListInFlat(front, vals, k);
    }
  }

  lemma {:induction false} DistinctCount(s: seq<FetchedRecord>, r: FetchedRecord)
    requires DistinctSequences(s)
    ensures CountIn(s, r) <= 1
  {
    if s != [] {
      var front, last := s[..|s| - 1], s[|s| - 1];
      assert s == front + [last];
      DistinctCount(front, r);
      CountConcat(front, [last], r);
    }
  }

  lemma TransactionOnce(b: FetchedRecordBuffer, subject: string, id: int, r: FetchedRecord)
    requires b.Valid() && DistinctSequences(b.Sorted(subject))
    ensures CountIn(b.ByTransactionId(subject, id), r) <= 1
  {
    var t := b.TransactionsOf(subject);
    if subject in b.store.vals && id in t.vals {
      assert WellPlaced(b.store.vals[subject], subject);
      ListInFlat(t.keys, t.vals, id);
      SortRecordsSorts(b.FlatOf(subject));
      DistinctCount(b.Sorted(subject), r);
    }
  }

  lemma AloneAgain(b: FetchedRecordBuffer, r: FetchedRecord)
    requires b.Valid() && b.Has(r) && DistinctSequences(b.Sorted(r.subject))
    requires forall x :: b.Has(x) && SameTransaction(x, r) ==> x == r
    ensures |b.ByTransactionId(r.subject, r.TransactionId())| == 1
  {
    var list := b.ByTransactionId(r.subject, r.TransactionId());
    forall i | 0 <= i < |list| ensures list[i] == r {
      ListedHere(b, r.subject, r.TransactionId(), i);
    }
    TransactionOnce(b, r.subject, r.TransactionId(), r);
    if |list| > 1 {
      CountTwice(list, 0, 1);
    }
  }

  ghost predicate AllDistinct(b: FetchedRecordBuffer) {
    forall subject :: DistinctSequences(b.Sorted(subject))
  }

  /** The setting: a pass over distinct sequences, and what it held. */
  ghost predicate Passed(o: Settings, b: FetchedRecordBuffer, held: FetchedRecordBuffer) {
    && b.Valid() && AllDistinct(b) && held == Stitch(o, b).buffer
    && held.Valid() && AllDistinct(held)
  }

  lemma LoneAgain(o: Settings, b: FetchedRecordBuffer, held: FetchedRecordBuffer, r: FetchedRecord)
    requires Passed(o, b, held) && held.Has(r) && r.IsChange()
    ensures LoneTrailingChange(VisitFor(o, held, r), r)
  {
    InSorted(held, r.subject, r);
    forall x | held.Has(x) && x.subject == r.subject ensures Precedes(x, r) && (SameTransaction(x, r) ==> x == r) {
      ShapeOfHeld(o, b, r, x);
      HeldKinds(o, b, x);
    }
    AloneAgain(held, r);
    var s := held.Sorted(r.subject);
    InSorted(held, r.subject, s[|s| - 1]);
    SortRecordsSorts(held.FlatOf(r.subject));
    TrailingAgain(s, r);
  }

  lemma TrailingAgain(s: seq<FetchedRecord>, r: FetchedRecord)
    requires IsSorted(s) && DistinctSequences(s) && r in s
    requires Precedes(s[|s| - 1], r)
    ensures r == s[|s| - 1]
  {
  }

  /** The sequence of the last record a subject's visit meets. */
  function LastSequence(b: FetchedRecordBuffer, subject: string): Option<nat> {
    var s := b.Sorted(subject);
    if s == [] then None else Some(s[|s| - 1].streamSequence)
  }

  lemma MaxIsLast(b: FetchedRecordBuffer, n: nat) returns (j: nat)
    requires n <= |b.store.keys| && MaxSequence(b, n).Some?
    ensures j < n && LastSequence(b, b.store.keys[j]) == MaxSequence(b, n)
  {
    j := MaxSequenceIsLast(b, n);
  }

  lemma MaxCoversLast(b: FetchedRecordBuffer, n: nat, j: nat)
    requires j < n <= |b.store.keys| && LastSequence(b, b.store.keys[j]).Some?
    ensures Covers(MaxSequence(b, n), LastSequence(b, b.store.keys[j]).value)
  {
    MaxSequenceCovers(b, n, j);
  }

  predicate FarBehind(o: Settings, x: FetchedRecord, last: Option<nat>) {
    last.Some? && last.value - x.streamSequence > o.orphanContextSequenceGap
  }

  /** A held context is further than the gap behind the last held record of a subject visited no later. */
  ghost predicate Expires(o: Settings, held: FetchedRecordBuffer, x: FetchedRecord, j: nat)
    requires held.Valid()
  {
    && held.Has(x) && x.IsContextMessage() && j <= IndexOf(held.store.keys, x.subject)
    && FarBehind(o, x, LastSequence(held, held.store.keys[j]))
  }

  ghost predicate NoneExpires(o: Settings, held: FetchedRecordBuffer)
    requires held.Valid()
  {
    forall x, j: nat :: !Expires(o, held, x, j)
  }

  lemma OrphanedHasCause(o: Settings, held: FetchedRecordBuffer, x: FetchedRecord) returns (j: nat)
    requires held.Valid() && held.Has(x) && x.IsContextMessage() && Orphaned(VisitFor(o, held, x), x)
    ensures Expires(o, held, x, j)
  {
    j := MaxIsLast(held, IndexOf(held.store.keys, x.subject) + 1);
  }

  lemma CauseOrphans(o: Settings, held: FetchedRecordBuffer, x: FetchedRecord, j: nat)
    requires held.Valid() && Expires(o, held, x, j)
    ensures Orphaned(VisitFor(o, held, x), x)
  {
    MaxCoversLast(held, IndexOf(held.store.keys, x.subject) + 1, j);
    VisitMax(o, held, x);
    FarIsOrphaned(VisitFor(o, held, x), x, LastSequence(held, held.store.keys[j]));
  }

  lemma FarIsOrphaned(v: Visit, x: FetchedRecord, last: Option<nat>)
    requires FarBehind(v.settings, x, last) && Covers(v.maxSequence, last.value)
    ensures Orphaned(v, x)
  {
  }

  lemma StillNoChange(o: Settings, b: FetchedRecordBuffer, held: FetchedRecordBuffer, r: FetchedRecord)
    requires Passed(o, b, held) && held.Has(r) && r.IsContextMessage()
    ensures !ChangeArrived(held.ByTransactionId(r.subject, r.TransactionId()))
  {
    forall x | x in held.ByTransactionId(r.subject, r.TransactionId()) ensures !x.IsChange() {
      ListedWith(held, r, x);
      NoChangeBesideContext(o, b, r, x);
    }
  }

  lemma NoChangeBesideContext(o: Settings, b: FetchedRecordBuffer, c: FetchedRecord, x: FetchedRecord)
    requires b.Valid() && Stitch(o, b).buffer.Has(c) && Stitch(o, b).buffer.Has(x)
    requires c.IsContextMessage() && SameTransaction(c, x)
    ensures !x.IsChange()
  {
    if x.IsChange() {
      ShapeOfHeld(o, b, x, c);
    }
  }

  lemma AwaitsAgain(o: Settings, b: FetchedRecordBuffer, held: FetchedRecordBuffer, r: FetchedRecord)
    requires Passed(o, b, held) && NoneExpires(o, held) && held.Has(r) && r.IsContextMessage()
    ensures AwaitsChange(VisitFor(o, held, r), r)
  {
    StillNoChange(o, b, held, r);
    if Orphaned(VisitFor(o, held, r), r) {
      var j := OrphanedHasCause(o, held, r);
    }
  }

  lemma Tidied(o: Settings, b: FetchedRecordBuffer)
    requires b.Valid() && AllDistinct(b)
    ensures Tidy(Visits(o, b))
  {
    VisitsAreSeparate(o, b);
  }

  /** A subject of which something is held is the last one once it has been visited. */
  lemma LastSubject(visits: seq<Visit>)
    requires Tidy(visits) && visits != [] && Block(visits[|visits| - 1]) != []
    ensures
      var keys := Held(visits).store.keys;
      keys != [] && keys[|keys| - 1] == visits[|visits| - 1].subject
  {
    HeldOneMore(visits);
  }

  lemma NoLaterMaxAt(visits: seq<Visit>, i: nat) returns (n: nat)
    requires Tidy(visits) && InSequence(visits) && i < |visits| && Block(visits[i]) != []
    ensures
      var held := Held(visits);
      && 0 < n <= |held.store.keys| && held.store.keys[n - 1] == visits[i].subject
      && NotBeyond(MaxSequence(held, n), MaxOver(visits[..i + 1]))
  {
    var upTo := visits[..i + 1];
    n := |Held(upTo).store.keys|;
    PrefixIsTidy(visits, i + 1);
    LastSubject(upTo);
    LaterVisitsKeep(visits, i + 1);
    LastOfPrefix(Held(upTo).store.keys, Held(visits).store.keys);
    MaxNotBeyond(upTo);
  }

  lemma LastOfPrefix<T>(prefix: seq<T>, s: seq<T>)
    requires prefix <= s && prefix != []
    ensures |prefix| <= |s| && s[|prefix| - 1] == prefix[|prefix| - 1]
  {
  }

  lemma NoLaterMaxIn(o: Settings, b: FetchedRecordBuffer, r: FetchedRecord) returns (n: nat)
    requires b.Valid() && AllDistinct(b) && Orderly(b) && b.Has(r) && Stitch(o, b).buffer.Has(r)
    ensures
      var held := Stitch(o, b).buffer;
      && 0 < n <= |held.store.keys| && held.store.keys[n - 1] == r.subject
      && NotBeyond(MaxSequence(held, n), MaxSequence(b, IndexOf(b.store.keys, r.subject) + 1))
  {
    BlockHasIt(o, b, r);
    n := NoLaterMaxOfVisit(o, b, IndexOf(b.store.keys, r.subject));
  }

  lemma NoLaterMaxOfVisit(o: Settings, b: FetchedRecordBuffer, i: nat) returns (n: nat)
    requires b.Valid() && AllDistinct(b) && Orderly(b) && i < |b.store.keys| && Block(VisitOf(o, b, i)) != []
    ensures
      var held := Held(Visits(o, b));
      && 0 < n <= |held.store.keys| && held.store.keys[n - 1] == b.store.keys[i]
      && NotBeyond(MaxSequence(held, n), MaxSequence(b, i + 1))
  {
    Tidied(o, b);
    VisitsInSequence(o, b);
    MaxOverVisits(o, b, i + 1);
    n := NoLaterMaxAt(Visits(o, b), i);
    SubjectOfVisit(o, b, i);
  }

  lemma SubjectOfVisit(o: Settings, b: FetchedRecordBuffer, i: nat)
    requires i < |b.store.keys|
    ensures Visits(o, b)[i] == VisitOf(o, b, i) && VisitOf(o, b, i).subject == b.store.keys[i]
  {
  }

  lemma NoLaterMax(o: Settings, b: FetchedRecordBuffer, held: FetchedRecordBuffer, r: FetchedRecord)
    requires Passed(o, b, held) && Orderly(b) && held.Has(r) && b.Has(r)
    ensures NotBeyond(VisitFor(o, held, r).maxSequence, VisitFor(o, b, r).maxSequence)
  {
    var n := NoLaterMaxIn(o, b, r);
    MaxOfVisit(o, held, r, n);
    VisitMax(o, b, r);
  }

  lemma VisitsInSequence(o: Settings, b: FetchedRecordBuffer)
    requires Orderly(b)
    ensures InSequence(Visits(o, b))
  {
  }

  lemma MaxOfVisit(o: Settings, b: FetchedRecordBuffer, r: FetchedRecord, n: nat)
    requires b.Valid() && 0 < n <= |b.store.keys| && b.store.keys[n - 1] == r.subject
    ensures VisitFor(o, b, r).maxSequence == MaxSequence(b, n)
  {
  }

  lemma BlockHasIt(o: Settings, b: FetchedRecordBuffer, r: FetchedRecord)
    requires b.Valid() && b.Has(r) && Stitch(o, b).buffer.Has(r)
    ensures Block(VisitFor(o, b, r)) != []
  {
    HeldExactly(o, b, r);
    InSorted(b, r.subject, r);
    var v := VisitFor(o, b, r);
    SelectMember(v, Hold, v.sorted, r);
  }

  /** In the next pass every record that was held is held, when none expires. */
  lemma HeldAgain(o: Settings, b: FetchedRecordBuffer, held: FetchedRecordBuffer, r: FetchedRecord)
    requires Passed(o, b, held) && NoneExpires(o, held) && held.Has(r)
    ensures FateOf(VisitFor(o, held, r), r) == Hold
  {
    HeldKinds(o, b, r);
    HeldExactly(o, b, r);
    if r.IsChange() {
      LoneAgain(o, b, held, r);
    } else {
      AwaitsAgain(o, b, held, r);
    }
  }

  // ---------------------------------------------------------------------------------------------
  // A pass that holds everything
  // ---------------------------------------------------------------------------------------------

  ghost predicate AllHeld(v: Visit, s: seq<FetchedRecord>) {
    forall r :: r in s ==> FateOf(v, r) == Hold
  }

  lemma {:induction false} SelectAllHeld(v: Visit, s: seq<FetchedRecord>)
    requires AllHeld(v, s)
    ensures Select(v, Hold, s) == s
    decreases |s|
  {
    if s != [] {
      AllHeldFront(v, s);
      SelectAllHeld(v, s[..|s| - 1]);
      SelectHeldLast(v, s);
      FrontAndLast(s);
    }
  }

  lemma FrontAndLast<T>(s: seq<T>)
    requires s != []
    ensures s[..|s| - 1] + [s[|s| - 1]] == s
  {
  }

  lemma SelectHeldLast(v: Visit, s: seq<FetchedRecord>)
    requires s != [] && FateOf(v, s[|s| - 1]) == Hold
    ensures Select(v, Hold, s) == Select(v, Hold, s[..|s| - 1]) + [s[|s| - 1]]
  {
  }

  lemma AllHeldFront(v: Visit, s: seq<FetchedRecord>)
    requires AllHeld(v, s) && s != []
    ensures AllHeld(v, s[..|s| - 1]) && FateOf(v, s[|s| - 1]) == Hold
  {
    assert forall r :: r in s[..|s| - 1] ==> r in s;
    assert s[|s| - 1] in s;
  }

  lemma {:induction false} SelectNoneReleased(v: Visit, s: seq<FetchedRecord>)
    requires AllHeld(v, s)
    ensures Select(v, Release, s) == [] && Reached(v, s).None?
    decreases |s|
  {
    if s != [] {
      AllHeldFront(v, s);
      SelectNoneReleased(v, s[..|s| - 1]);
    }
  }

  lemma {:induction false} SelectedAllHeld(visits: seq<Visit>)
    requires forall i :: 0 <= i < |visits| ==> AllHeld(visits[i], visits[i].sorted)
    ensures Selected(visits, Hold) == Met(visits) && Released(visits) == [] && Progress(visits) == Objects.Empty()
    decreases |visits|
  {
    if visits != [] {
      var v := visits[|visits| - 1];
      SelectedAllHeld(visits[..|visits| - 1]);
      SelectAllHeld(v, v.sorted);
      SelectNoneReleased(v, v.sorted);
    }
  }

  lemma {:induction false} MetIsListing(b: FetchedRecordBuffer, visits: seq<Visit>, keys: seq<string>)
    requires |visits| == |keys|
    requires forall i :: 0 <= i < |keys| ==> visits[i].sorted == b.Sorted(keys[i])
    ensures Met(visits) == Listing(b, keys)
    decreases |visits|
  {
    if visits != [] {
      MetIsListing(b, visits[..|visits| - 1], keys[..|keys| - 1]);
    }
  }

  lemma NothingToAck(held: FetchedRecordBuffer, records: seq<FetchedRecord>)
    requires held == EMPTY.AddAll(records)
    ensures Ack(MaxSequence(held, |held.store.keys|), Objects.Empty(), held).None?
  {
    AddAllRefinesMultiset(EMPTY, records);
    assert EMPTY.Records() == [];
    SizeCounts(held);
    assert |multiset(held.Records())| == |held.Records()| && |multiset(records)| == |records|;
  }

  lemma HoldingEverything(o: Settings, b: FetchedRecordBuffer)
    requires forall i :: 0 <= i < |b.store.keys| ==> AllHeld(VisitOf(o, b, i), b.Sorted(b.store.keys[i]))
    ensures
      var held := EMPTY.AddAll(Listing(b, b.store.keys));
      Stitch(o, b) == Stitched([], held, Ack(MaxSequence(b, |b.store.keys|), Objects.Empty(), held))
  {
    var visits := Visits(o, b);
    SelectedAllHeld(visits);
    MetIsListing(b, visits, b.store.keys);
  }

  lemma HeldRebuilds(o: Settings, b: FetchedRecordBuffer, held: FetchedRecordBuffer)
    requires Passed(o, b, held)
    ensures EMPTY.AddAll(Listing(held, held.store.keys)) == held
  {
    Tidied(o, b);
    HeldListing(Visits(o, b));
  }

  /**
   Stitching what was held, with nothing new, releases nothing, acks nothing and gives it back, if and
   only if no held context expires.
   */
  lemma StitchingHeldIsIdle(o: Settings, b: FetchedRecordBuffer, held: FetchedRecordBuffer)
    requires Passed(o, b, held)
    ensures Stitch(o, held) == Stitched([], held, None) <==> NoneExpires(o, held)
  {
    if NoneExpires(o, held) {
      NothingExpiresIsIdle(o, b, held);
    }
    if Stitch(o, held).buffer == held {
      KeepingAllExpiresNone(o, held);
    }
  }

  lemma NothingExpiresIsIdle(o: Settings, b: FetchedRecordBuffer, held: FetchedRecordBuffer)
    requires Passed(o, b, held) && NoneExpires(o, held)
    ensures Stitch(o, held) == Stitched([], held, None)
  {
    forall i | 0 <= i < |held.store.keys| ensures AllHeld(VisitOf(o, held, i), held.Sorted(held.store.keys[i])) {
      AllHeldAgain(o, b, held, i);
    }
    HoldingEverything(o, held);
    HeldRebuilds(o, b, held);
    NothingToAck(held, Listing(held, held.store.keys));
  }

  lemma KeepingAllExpiresNone(o: Settings, held: FetchedRecordBuffer)
    requires held.Valid() && Stitch(o, held).buffer == held
    ensures NoneExpires(o, held)
  {
    forall x, j: nat ensures !Expires(o, held, x, j) {
      if Expires(o, held, x, j) {
        CauseOrphans(o, held, x, j);
        OrphanIsNotHeld(o, held, x);
      }
    }
  }

  lemma OrphanIsNotHeld(o: Settings, b: FetchedRecordBuffer, x: FetchedRecord)
    requires b.Valid() && b.Has(x) && x.IsContextMessage() && Orphaned(VisitFor(o, b, x), x)
    ensures !Stitch(o, b).buffer.Has(x)
  {
    HeldExactly(o, b, x);
  }

  lemma AllHeldAgain(o: Settings, b: FetchedRecordBuffer, held: FetchedRecordBuffer, i: nat)
    requires Passed(o, b, held) && NoneExpires(o, held) && i < |held.store.keys|
    ensures AllHeld(VisitOf(o, held, i), held.Sorted(held.store.keys[i]))
  {
    IndexIsUnique(held.store.keys, i);
    forall r | r in held.Sorted(held.store.keys[i]) ensures FateOf(VisitOf(o, held, i), r) == Hold {
      InSorted(held, held.store.keys[i], r);
      HeldAgain(o, b, held, r);
    }
  }

  /** Where subjects are visited in sequence order nothing that was just held expires. */
  lemma OrderlyExpiresNone(o: Settings, b: FetchedRecordBuffer, held: FetchedRecordBuffer)
    requires Passed(o, b, held) && Orderly(b)
    ensures NoneExpires(o, held)
  {
    forall x, j: nat ensures !Expires(o, held, x, j) {
      if Expires(o, held, x, j) {
        StillNoOrphan(o, b, held, x);
        CauseOrphans(o, held, x, j);
      }
    }
  }

  lemma StillNoOrphan(o: Settings, b: FetchedRecordBuffer, held: FetchedRecordBuffer, x: FetchedRecord)
    requires Passed(o, b, held) && Orderly(b) && held.Has(x) && x.IsContextMessage()
    ensures !Orphaned(VisitFor(o, held, x), x)
  {
    HeldExactly(o, b, x);
    NoLaterMax(o, b, held, x);
  }

  // ---------------------------------------------------------------------------------------------
  // Idle fetches
  // ---------------------------------------------------------------------------------------------

  lemma StitchingNothing(o: Settings)
    ensures Stitch(o, EMPTY) == Stitched([], EMPTY, None)
  {
  }

  /** A fetch that brings nothing releases nothing, acks nothing and leaves the very same buffer. */
  ghost predicate Idle(o: Settings, fetches: Fetches) {
    && BufferAfter(o, fetches + [[]]) == BufferAfter(o, fetches)
    && ReleasedOver(o, fetches + [[]]) == ReleasedOver(o, fetches)
    && LastAck(o, fetches + [[]]).None?
  }

  lemma IdleIsStitchingHeld(o: Settings, fetches: Fetches)
    ensures Idle(o, fetches) <==> Stitch(o, BufferAfter(o, fetches)) == Stitched([], BufferAfter(o, fetches), None)
  {
    var more := fetches + [[]];
    assert more[..|fetches|] == fetches;
    assert Facing(o, more) == BufferAfter(o, fetches);
    assert ReleasedOver(o, more) == ReleasedOver(o, fetches) + Stitch(o, BufferAfter(o, fetches)).released;
    NothingAdded(ReleasedOver(o, fetches), Stitch(o, BufferAfter(o, fetches)).released);
  }

  lemma NothingAdded<T>(a: seq<T>, b: seq<T>)
    ensures a + b == a <==> b == []
  {
    assert |a + b| == |a| + |b|;
  }

  lemma RunIsPassed(o: Settings, fetches: Fetches)
    requires fetches != [] && StrictlyAscending(Flatten(fetches))
    ensures Passed(o, Facing(o, fetches), BufferAfter(o, fetches))
  {
    BufferIsValid(o, fetches);
    forall subject ensures DistinctSequences(Facing(o, fetches).Sorted(subject)) {
      FacedDistinct(o, fetches, subject);
    }
    forall subject ensures DistinctSequences(BufferAfter(o, fetches).Sorted(subject)) {
      HeldDistinct(o, fetches, subject);
    }
  }

  lemma FacedDistinct(o: Settings, fetches: Fetches, subject: string)
    requires fetches != [] && StrictlyAscending(Flatten(fetches))
    ensures DistinctSequences(Facing(o, fetches).Sorted(subject))
  {
    var s := Facing(o, fetches).Sorted(subject);
    forall i, j | 0 <= i < j < |s| ensures s[i].streamSequence != s[j].streamSequence {
      FacedOnce(o, fetches, subject, i);
      FacedOnce(o, fetches, subject, j);
      OnceIsDistinct(Flatten(fetches), s, i, j);
    }
  }

  lemma HeldDistinct(o: Settings, fetches: Fetches, subject: string)
    requires StrictlyAscending(Flatten(fetches))
    ensures DistinctSequences(BufferAfter(o, fetches).Sorted(subject))
  {
    var s := BufferAfter(o, fetches).Sorted(subject);
    forall i, j | 0 <= i < j < |s| ensures s[i].streamSequence != s[j].streamSequence {
      HeldOnce(o, fetches, subject, i);
      HeldOnce(o, fetches, subject, j);
      OnceIsDistinct(Flatten(fetches), s, i, j);
    }
  }

  lemma OnceIsDistinct(stream: seq<FetchedRecord>, s: seq<FetchedRecord>, i: nat, j: nat)
    requires StrictlyAscending(stream) && i < j < |s| && s[i] in stream && s[j] in stream && CountIn(s, s[i]) <= 1
    ensures s[i].streamSequence != s[j].streamSequence
  {
    if s[i].streamSequence == s[j].streamSequence {
      SameSequenceSameRecord(stream, s[i], s[j]);
      CountTwice(s, i, j);
    }
  }

  /** After any run a fetch that brings nothing is a fixed point if and only if no held context expires. */
  lemma IdleFetchChangesNothing(o: Settings, fetches: Fetches)
    requires StrictlyAscending(Flatten(fetches))
    ensures BufferAfter(o, fetches).Valid()
    ensures Idle(o, fetches) <==> NoneExpires(o, BufferAfter(o, fetches))
  {
    BufferIsValid(o, fetches);
    IdleIsStitchingHeld(o, fetches);
    if fetches == [] {
      StitchingNothing(o);
    } else {
      RunIsPassed(o, fetches);
      StitchingHeldIsIdle(o, Facing(o, fetches), BufferAfter(o, fetches));
    }
  }

  /** When transactions rise, as their sequences do, none does: every idle fetch is a fixed point. */
  lemma SteadyRunsAreIdle(o: Settings, fetches: Fetches)
    requires Steady(fetches)
    ensures Idle(o, fetches)
  {
    IdleFetchChangesNothing(o, fetches);
    if fetches != [] {
      RunIsPassed(o, fetches);
      FacingIsOrderly(o, fetches);
      OrderlyExpiresNone(o, Facing(o, fetches), BufferAfter(o, fetches));
    }
  }

  // ---------------------------------------------------------------------------------------------
  // An idle fetch that does change something
  // ---------------------------------------------------------------------------------------------

  /** A context, a heartbeat of a later transaction, and a far later context of a transaction between. */
  ghost predicate Crossing(o: Settings, c: FetchedRecord, h: FetchedRecord, late: FetchedRecord) {
    && o.useBuffer && c.IsContextMessage() && h.IsHeartbeatMessage() && late.IsContextMessage()
    && c.subject == h.subject == late.subject
    && c.TransactionId() < late.TransactionId() < h.TransactionId()
    && c.streamSequence < h.streamSequence < late.streamSequence
    && h.streamSequence - c.streamSequence <= o.orphanContextSequenceGap < late.streamSequence - c.streamSequence
  }

  lemma CrossingEndsWithHeartbeat(b: FetchedRecordBuffer, o: Settings, c: FetchedRecord, h: FetchedRecord, late: FetchedRecord)
    requires Crossing(o, c, h, late) && b.Valid() && forall r :: b.Has(r) <==> r in {c, h, late}
    ensures
      var s := b.Sorted(c.subject);
      s != [] && s[|s| - 1] == h
  {
    var s := b.Sorted(c.subject);
    assert b.Has(h);
    InSorted(b, c.subject, h);
    InSorted(b, c.subject, s[|s| - 1]);
    SortRecordsSorts(b.FlatOf(c.subject));
    Reflexive(s, h);
  }

  lemma CrossingHeld(o: Settings, b: FetchedRecordBuffer, c: FetchedRecord, h: FetchedRecord, late: FetchedRecord, r: FetchedRecord)
    requires Crossing(o, c, h, late) && b.Valid() && b.store.keys == [c.subject]
    requires (forall r :: b.Has(r) <==> r in {c, h, late}) && r in {c, late}
    ensures Fated(o, b, r, Hold)
  {
    CrossingEndsWithHeartbeat(b, o, c, h, late);
    forall x | x in b.ByTransactionId(r.subject, r.TransactionId()) ensures !x.IsChange() {
      ListedWith(b, r, x);
    }
    var i := MaxSequenceIsLast(b, 1);
    AwaitingIsHeld(VisitFor(o, b, r), r);
  }

  lemma CrossingMembers(o: Settings, fetches: Fetches, c: FetchedRecord, h: FetchedRecord, late: FetchedRecord)
    requires fetches == [[c, h, late]]
    ensures forall r :: Facing(o, fetches).Has(r) <==> r in {c, h, late}
  {
    forall r ensures Facing(o, fetches).Has(r) <==> r in {c, h, late} {
      OneFetchFaced(o, fetches, [c, h, late], r);
    }
  }

  lemma CrossingFaced(o: Settings, fetches: Fetches, c: FetchedRecord, h: FetchedRecord, late: FetchedRecord)
    requires Crossing(o, c, h, late) && fetches == [[c, h, late]]
    ensures Facing(o, fetches).Valid() && Facing(o, fetches).store.keys == [c.subject]
    ensures forall r :: Facing(o, fetches).Has(r) <==> r in {c, h, late}
  {
    assert AllOf([c, h, late], c.subject);
    OneFetchKeys(o, fetches, [c, h, late], c.subject);
    CrossingMembers(o, fetches, c, h, late);
  }

  lemma CrossingLeaves(o: Settings, b: FetchedRecordBuffer, c: FetchedRecord, h: FetchedRecord, late: FetchedRecord, r: FetchedRecord)
    requires Crossing(o, c, h, late) && b.Valid() && b.store.keys == [c.subject]
    requires forall r :: b.Has(r) <==> r in {c, h, late}
    ensures Stitch(o, b).buffer.Has(r) <==> r in {c, late}
  {
    HeldExactly(o, b, r);
    if r in {c, late} {
      CrossingHeld(o, b, c, h, late, r);
    }
  }

  lemma CrossingHolds(o: Settings, c: FetchedRecord, h: FetchedRecord, late: FetchedRecord)
    requires Crossing(o, c, h, late)
    ensures BufferAfter(o, [[c, h, late]]).Valid()
    ensures forall r :: BufferAfter(o, [[c, h, late]]).Has(r) <==> r in {c, late}
  {
    CrossingFaced(o, [[c, h, late]], c, h, late);
    BufferIsValid(o, [[c, h, late]]);
    forall r ensures BufferAfter(o, [[c, h, late]]).Has(r) <==> r in {c, late} {
      CrossingLeaves(o, Facing(o, [[c, h, late]]), c, h, late, r);
    }
  }

  lemma EmptyFetchStitchesHeld(o: Settings, fetches: Fetches)
    ensures BufferAfter(o, fetches + [[]]) == Stitch(o, BufferAfter(o, fetches)).buffer
  {
    assert (fetches + [[]])[..|fetches|] == fetches;
    assert BufferAfter(o, fetches).AddAll([]) == BufferAfter(o, fetches);
  }

  /** The first pass holds both contexts; the empty one after it drops the first as an orphan of the other. */
  lemma IdleFetchCanDrop(o: Settings, c: FetchedRecord, h: FetchedRecord, late: FetchedRecord)
    requires Crossing(o, c, h, late)
    ensures BufferAfter(o, [[c, h, late]]).Has(c) && !BufferAfter(o, [[c, h, late]] + [[]]).Has(c)
  {
    CrossingHolds(o, c, h, late);
    LateDropsIt(o, BufferAfter(o, [[c, h, late]]), c, late);
    EmptyFetchStitchesHeld(o, [[c, h, late]]);
  }

  lemma LateDropsIt(o: Settings, held: FetchedRecordBuffer, c: FetchedRecord, late: FetchedRecord)
    requires held.Valid() && c.IsContextMessage() && late.subject == c.subject && c.TransactionId() < late.TransactionId()
    requires late.streamSequence - c.streamSequence > o.orphanContextSequenceGap
    requires forall r :: held.Has(r) <==> r in {c, late}
    ensures !Stitch(o, held).buffer.Has(c)
  {
    assert held.Has(c) && held.Has(late);
    LateExpires(o, held, c, late);
    OrphanIsNotHeld(o, held, c);
  }

  lemma LateExpires(o: Settings, held: FetchedRecordBuffer, c: FetchedRecord, late: FetchedRecord)
    requires held.Valid() && held.Has(c) && held.Has(late) && c.IsContextMessage() && late.subject == c.subject
    requires late.streamSequence - c.streamSequence > o.orphanContextSequenceGap
    requires forall x :: held.Has(x) && x.subject == c.subject ==> Precedes(x, late)
    ensures Orphaned(VisitFor(o, held, c), c)
  {
    LateIsLast(held, late);
    CauseOrphans(o, held, c, IndexOf(held.store.keys, c.subject));
  }

  lemma LateIsLast(held: FetchedRecordBuffer, late: FetchedRecord)
    requires held.Valid() && held.Has(late)
    requires forall x :: held.Has(x) && x.subject == late.subject ==> Precedes(x, late)
    ensures LastSequence(held, late.subject) == Some(late.streamSequence)
  {
    var s := held.Sorted(late.subject);
    InSorted(held, late.subject, late);
    InSorted(held, late.subject, s[|s| - 1]);
    SortRecordsSorts(held.FlatOf(late.subject));
    Reflexive(s, late);
  }
}
