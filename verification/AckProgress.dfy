/**
 How far an ack gets. Safety is that it stays behind what is held; this is the other side: exactly
 which records it covers, whichever of several subjects it is taken from.
 */
module AckProgress {
  import opened Wrappers
  import opened Objects
  import opened FetchedRecords
  import opened FetchedRecordBuffers
  import opened Stitching
  import opened StitchingProperties

  // ---------------------------------------------------------------------------------------------
  // A subject's progress
  // ---------------------------------------------------------------------------------------------

  /** Released, or passed over as a heartbeat. */
  predicate Done(v: Visit, r: FetchedRecord) {
    FateOf(v, r) in {Pass, Release}
  }

  /** The greatest sequence that is done in a subject. */
  function Reach(v: Visit): Option<nat> {
    Reached(v, v.sorted)
  }

  lemma {:induction false} ReachedCovers(v: Visit, s: seq<FetchedRecord>, r: FetchedRecord)
    requires r in s && Done(v, r)
    ensures Reached(v, s).Some? && r.streamSequence <= Reached(v, s).value
    decreases |s|
  {
    var front, last := s[..|s| - 1], s[|s| - 1];
    if r in front {
      ReachedCovers(v, front, r);
    } else {
      assert r == last;
    }
  }

  lemma {:induction false} ReachedIsDone(v: Visit, s: seq<FetchedRecord>) returns (r: FetchedRecord)
    requires Reached(v, s).Some?
    ensures r in s && Done(v, r) && r.streamSequence == Reached(v, s).value
    decreases |s|
  {
    r := s[|s| - 1];
    if Reached(v, s) == Reached(v, s[..|s| - 1]) {
      r := ReachedIsDone(v, s[..|s| - 1]);
    }
  }

  ghost predicate Distinct(visits: seq<Visit>) {
    && (forall i, j :: 0 <= i < j < |visits| ==> visits[i].subject != visits[j].subject)
    && (forall i :: 0 <= i < |visits| ==> visits[i].subject != "")
  }

  /** What is recorded for a subject is its reach. */
  lemma {:induction false} ProgressAt(visits: seq<Visit>, i: nat)
    requires Distinct(visits) && i < |visits|
    ensures Progress(visits).Get(visits[i].subject) == Reach(visits[i])
    decreases |visits|
  {
    if i < |visits| - 1 {
      ProgressAt(visits[..|visits| - 1], i);
    } else {
      NoProgressElsewhere(visits[..i], visits[i].subject);
    }
  }

  lemma {:induction false} NoProgressElsewhere(visits: seq<Visit>, k: string)
    requires forall i :: 0 <= i < |visits| ==> visits[i].subject != k
    ensures Progress(visits).Get(k).None? && k !in Progress(visits).keys
    decreases |visits|
  {
    if visits != [] {
      NoProgressElsewhere(visits[..|visits| - 1], k);
    }
  }

  // ---------------------------------------------------------------------------------------------
  // The choice among subjects, over how far each got and whether it has records held
  // ---------------------------------------------------------------------------------------------

  /** One round: whether the last visit replaces the one chosen so far. */
  function Round(reach: seq<Option<nat>>, full: seq<bool>, chosen: Option<nat>, last: nat): (c: Option<nat>)
    requires last < |reach| == |full|
    requires chosen.Some? ==> chosen.value < |reach| && reach[chosen.value].Some?
  {
    if reach[last].None? then chosen
    else if chosen.None? then Some(last)
    else if reach[last].value > reach[chosen.value].value && !full[chosen.value] then Some(last)
    else chosen
  }

  /** The subject the loop ends on, by its visit, after the first n visits. */
  function Choice(reach: seq<Option<nat>>, full: seq<bool>, n: nat): (c: Option<nat>)
    requires n <= |reach| == |full|
    ensures c.Some? ==> c.value < n && reach[c.value].Some?
  {
    if n == 0 then None else Round(reach, full, Choice(reach, full, n - 1), n - 1)
  }

  /** Further than everything visited before it. */
  ghost predicate RecordHigh(reach: seq<Option<nat>>, k: nat) {
    && k < |reach| && reach[k].Some?
    && forall j :: 0 <= j < k && reach[j].Some? ==> reach[j].value < reach[k].value
  }

  predicate NoFurther(a: Option<nat>, b: Option<nat>) {
    a.Some? && b.Some? ==> a.value <= b.value
  }

  /** As far as any of the first n, unless something of it is held. */
  ghost predicate Furthest(reach: seq<Option<nat>>, full: seq<bool>, n: nat, c: nat)
    requires c < n <= |reach| == |full|
  {
    !full[c] ==> forall i :: 0 <= i < n ==> NoFurther(reach[i], reach[c])
  }

  /** No further than any record high of which something is held. */
  ghost predicate Stopped(reach: seq<Option<nat>>, full: seq<bool>, n: nat, c: nat)
    requires c < n <= |reach| == |full|
  {
    forall k :: 0 <= k < n && RecordHigh(reach, k) && full[k] ==> NoFurther(reach[c], reach[k])
  }

  lemma HighsBelow(reach: seq<Option<nat>>, full: seq<bool>, n: nat, c: nat)
    requires c < n <= |reach| == |full| && RecordHigh(reach, c) && Furthest(reach, full, n, c) && !full[c]
    ensures forall k :: 0 <= k < n && RecordHigh(reach, k) && k != c ==> reach[k].value < reach[c].value
  {
    forall k | 0 <= k < n && RecordHigh(reach, k) && k != c ensures reach[k].value < reach[c].value {
      assert NoFurther(reach[k], reach[c]);
    }
  }

  lemma {:induction false} ChoiceIsHigh(reach: seq<Option<nat>>, full: seq<bool>, n: nat)
    requires n <= |reach| == |full|
    ensures
      match Choice(reach, full, n)
      case None => forall i :: 0 <= i < n ==> reach[i].None?
      case Some(c) => RecordHigh(reach, c) && Furthest(reach, full, n, c)
    decreases n
  {
    if n > 0 {
      ChoiceIsHigh(reach, full, n - 1);
    }
  }

  lemma {:induction false} ChoiceIsStopped(reach: seq<Option<nat>>, full: seq<bool>, n: nat)
    requires n <= |reach| == |full| && Choice(reach, full, n).Some?
    ensures Stopped(reach, full, n, Choice(reach, full, n).value)
    decreases n
  {
    var before, c := Choice(reach, full, n - 1), Choice(reach, full, n).value;
    ChoiceIsHigh(reach, full, n - 1);
    if before.Some? {
      ChoiceIsStopped(reach, full, n - 1);
      if c != before.value {
        HighsBelow(reach, full, n - 1, before.value);
      }
    }
  }

  /** A record high short of q of which something is held: the loop never gets past it. */
  ghost predicate StopsAt(reach: seq<Option<nat>>, full: seq<bool>, k: nat, q: nat)
    requires |reach| == |full|
  {
    RecordHigh(reach, k) && full[k] && reach[k].value < q
  }

  /** The choice reaches q exactly when some subject does and the loop is not stopped before. */
  lemma ChoiceReaches(reach: seq<Option<nat>>, full: seq<bool>, i: nat, q: nat)
    requires |reach| == |full| && i < |reach| && reach[i].Some? && reach[i].value >= q
    ensures Choice(reach, full, |reach|).Some?
    ensures reach[Choice(reach, full, |reach|).value].value >= q <==> forall k: nat :: !StopsAt(reach, full, k, q)
  {
    ChoiceIsHigh(reach, full, |reach|);
    var c := Choice(reach, full, |reach|).value;
    ChoiceIsStopped(reach, full, |reach|);
    if reach[c].value < q {
      assert !NoFurther(reach[i], reach[c]);
      assert StopsAt(reach, full, c, q);
    }
  }

  // ---------------------------------------------------------------------------------------------
  // The loop over the recorded subjects makes that choice
  // ---------------------------------------------------------------------------------------------

  function EachReach(visits: seq<Visit>): seq<Option<nat>> {
    seq(|visits|, i requires 0 <= i < |visits| => Reach(visits[i]))
  }

  function Full(visits: seq<Visit>, held: FetchedRecordBuffer): seq<bool> {
    seq(|visits|, i requires 0 <= i < |visits| => held.SizeBySubject(visits[i].subject) != 0)
  }

  function Named(visits: seq<Visit>, c: Option<nat>): Option<string>
    requires c.Some? ==> c.value < |visits|
  {
    match c
    case None => None
    case Some(i) => Some(visits[i].subject)
  }

  lemma {:induction false} PreferredFrame(p: Object<string, nat>, p': Object<string, nat>, held: FetchedRecordBuffer, n: nat)
    requires n <= |p.keys| && n <= |p'.keys|
    requires forall i :: 0 <= i < n ==> p.keys[i] == p'.keys[i] && p.Get(p.keys[i]) == p'.Get(p'.keys[i])
    ensures Preferred(p, held, n) == Preferred(p', held, n)
    ensures Preferred(p, held, n).Some? ==> exists i :: 0 <= i < n && Preferred(p, held, n).value == p.keys[i]
    decreases n
  {
    if n > 0 {
      PreferredFrame(p, p', held, n - 1);
    }
  }

  lemma {:induction false} ProgressIsValid(visits: seq<Visit>)
    ensures Progress(visits).Valid()
  {
    if visits != [] {
      var front, v := visits[..|visits| - 1], visits[|visits| - 1];
      ProgressIsValid(front);
      if Reach(v).Some? {
        Progress(front).PutKeepsValid(v.subject, Reach(v).value);
      }
    }
  }

  lemma PutLast(p: Object<string, nat>, subject: string, value: nat, held: FetchedRecordBuffer)
    requires p.Valid() && subject !in p.keys
    ensures
      var p' := p.Put(subject, value);
      && p'.keys == p.keys + [subject]
      && Preferred(p', held, |p.keys|) == Preferred(p, held, |p.keys|)
  {
    PreferredFrame(p, p.Put(subject, value), held, |p.keys|);
  }

  lemma {:induction false} ChoiceOfFront(reach: seq<Option<nat>>, full: seq<bool>, n: nat, m: nat)
    requires n <= m <= |reach| == |full|
    ensures Choice(reach[..m], full[..m], n) == Choice(reach, full, n)
    decreases n
  {
    if n > 0 {
      ChoiceOfFront(reach, full, n - 1, m);
    }
  }

  lemma {:induction false} PreferredIsChoice(visits: seq<Visit>, held: FetchedRecordBuffer)
    requires Distinct(visits)
    ensures Preferred(Progress(visits), held, |Progress(visits).keys|)
      == Named(visits, Choice(EachReach(visits), Full(visits, held), |visits|))
    decreases |visits|
  {
    if visits != [] {
      var front, v := visits[..|visits| - 1], visits[|visits| - 1];
      PreferredIsChoice(front, held);
      assert EachReach(front) == EachReach(visits)[..|front|] && Full(front, held) == Full(visits, held)[..|front|];
      ChoiceOfFront(EachReach(visits), Full(visits, held), |front|, |front|);
      if Reach(v).Some? {
        OneMoreSubjectChosen(visits, held);
      }
    }
  }

  /** One round of the loop, on the subject recorded last. */
  lemma OneMoreRound(p: Object<string, nat>, held: FetchedRecordBuffer)
    requires p.keys != []
    requires Preferred(p, held, |p.keys| - 1) != Some("")
    ensures
      var chosen, subject := Preferred(p, held, |p.keys| - 1), p.keys[|p.keys| - 1];
      Preferred(p, held, |p.keys|) ==
      if chosen.None? then Some(subject)
      else if Further(p.Get(subject), p.Get(chosen.value)) && held.SizeBySubject(chosen.value) == 0 then Some(subject)
      else chosen
  {
  }

  /** The round on a subject with progress, in terms of the visits. */
  lemma RoundOfVisit(visits: seq<Visit>, held: FetchedRecordBuffer, p: Object<string, nat>, chosen: Option<nat>, last: nat)
    requires Distinct(visits) && last < |visits| && Reach(visits[last]).Some?
    requires chosen.Some? ==> chosen.value < |visits| && Reach(visits[chosen.value]).Some?
    requires p.keys != [] && p.keys[|p.keys| - 1] == visits[last].subject
    requires Preferred(p, held, |p.keys| - 1) == Named(visits, chosen)
    requires p.Get(visits[last].subject) == Reach(visits[last])
    requires chosen.Some? ==> p.Get(visits[chosen.value].subject) == Reach(visits[chosen.value])
    ensures Preferred(p, held, |p.keys|) == Named(visits, Round(EachReach(visits), Full(visits, held), chosen, last))
  {
    OneMoreRound(p, held);
  }

  lemma OneMoreSubjectChosen(visits: seq<Visit>, held: FetchedRecordBuffer)
    requires Distinct(visits) && visits != [] && Reach(visits[|visits| - 1]).Some?
    requires
      var front := visits[..|visits| - 1];
      Preferred(Progress(front), held, |Progress(front).keys|)
      == Named(visits, Choice(EachReach(visits), Full(visits, held), |front|))
    ensures Preferred(Progress(visits), held, |Progress(visits).keys|)
      == Named(visits, Choice(EachReach(visits), Full(visits, held), |visits|))
  {
    var last := |visits| - 1;
    var chosen := Choice(EachReach(visits), Full(visits, held), last);
    LastRecorded(visits, held);
    ProgressAt(visits, last);
    if chosen.Some? {
      ProgressAt(visits, chosen.value);
    }
    RoundOfVisit(visits, held, Progress(visits), chosen, last);
  }

  lemma LastRecorded(visits: seq<Visit>, held: FetchedRecordBuffer)
    requires Distinct(visits) && visits != [] && Reach(visits[|visits| - 1]).Some?
    ensures
      var (before, after) := (Progress(visits[..|visits| - 1]), Progress(visits));
      && after.keys == before.keys + [visits[|visits| - 1].subject]
      && Preferred(after, held, |before.keys|) == Preferred(before, held, |before.keys|)
  {
    var front, v := visits[..|visits| - 1], visits[|visits| - 1];
    ProgressIsValid(front);
    NoProgressElsewhere(front, v.subject);
    PutLast(Progress(front), v.subject, Reach(v).value, held);
  }

  /** A subject without a name gives way to whichever is recorded next. */
  lemma NamelessGivesWay(progress: Object<string, nat>, held: FetchedRecordBuffer, n: nat)
    requires n < |progress.keys| && Preferred(progress, held, n) == Some("")
    ensures Preferred(progress, held, n + 1) == Some(progress.keys[n])
  {
  }

  /** The chosen subject is as far as any, unless it has records held: then no later one replaced it. */
  lemma {:induction false} PreferredIsFurthest(progress: Object<string, nat>, held: FetchedRecordBuffer, n: nat, i: nat)
    requires progress.Valid() && "" !in progress.keys && i < n <= |progress.keys|
    ensures
      var chosen := Preferred(progress, held, n);
      && chosen.Some? && chosen.value in progress.keys
      && (held.SizeBySubject(chosen.value) == 0 ==>
            NoFurther(progress.Get(progress.keys[i]), progress.Get(chosen.value)))
    decreases n
  {
    if n > 1 {
      var subject := progress.keys[n - 1];
      assert subject in progress.keys;
      PreferredIsFurthest(progress, held, n - 1, if i < n - 1 then i else 0);
      assert progress.keys[i] in progress.keys;
    }
  }

  // ---------------------------------------------------------------------------------------------
  // The condition on the buffer
  // ---------------------------------------------------------------------------------------------

  ghost predicate DoneIn(o: Settings, b: FetchedRecordBuffer, r: FetchedRecord)
    requires b.Valid()
  {
    b.Has(r) && Done(VisitFor(o, b, r), r)
  }

  ghost predicate HoldsOf(o: Settings, b: FetchedRecordBuffer, subject: string)
    requires b.Valid()
  {
    exists x: FetchedRecord :: x.subject == subject && Fated(o, b, x, Hold)
  }

  /** Something of the subject is done, and beyond q. */
  ghost predicate DoneBeyond(o: Settings, b: FetchedRecordBuffer, subject: string, q: int)
    requires b.Valid()
  {
    exists d: FetchedRecord :: d.subject == subject && DoneIn(o, b, d) && d.streamSequence > q
  }

  /**
   The ack stays with the k-th subject and does not reach q: something of it is held, what is done of
   it is short of q, and nothing done of a subject before it is as far.
   */
  ghost predicate Stops(o: Settings, b: FetchedRecordBuffer, k: nat, q: nat)
    requires b.Valid()
  {
    && k < |b.store.keys|
    && HoldsOf(o, b, b.store.keys[k])
    && DoneBeyond(o, b, b.store.keys[k], -1) && !DoneBeyond(o, b, b.store.keys[k], q - 1)
    && forall j, e: FetchedRecord :: 0 <= j < k && e.subject == b.store.keys[j] && DoneIn(o, b, e) ==>
         DoneBeyond(o, b, b.store.keys[k], e.streamSequence)
  }

  lemma VisitOfSubject(o: Settings, b: FetchedRecordBuffer, k: nat, d: FetchedRecord)
    requires b.Valid() && k < |b.store.keys| && d.subject == b.store.keys[k]
    ensures VisitFor(o, b, d) == VisitOf(o, b, k)
    ensures DoneIn(o, b, d) <==> d in VisitOf(o, b, k).sorted && Done(VisitOf(o, b, k), d)
  {
    IndexIsUnique(b.store.keys, k);
    InSorted(b, d.subject, d);
  }

  /** How far a subject got, told by its records. */
  lemma ReachBeyond(o: Settings, b: FetchedRecordBuffer, k: nat, q: int)
    requires b.Valid() && k < |b.store.keys|
    ensures DoneBeyond(o, b, b.store.keys[k], q) <==> Reach(VisitOf(o, b, k)).Some? && Reach(VisitOf(o, b, k)).value > q
  {
    var v := VisitOf(o, b, k);
    VisitsAreOwn(o, b, k);
    if Reach(v).Some? && Reach(v).value > q {
      var d := ReachedIsDone(v, v.sorted);
      VisitOfSubject(o, b, k, d);
    }
    forall d: FetchedRecord | d.subject == b.store.keys[k] && DoneIn(o, b, d) ensures Reach(v).Some? && d.streamSequence <= Reach(v).value {
      VisitOfSubject(o, b, k, d);
      ReachedCovers(v, v.sorted, d);
    }
  }

  lemma FullMeansHolds(o: Settings, b: FetchedRecordBuffer, subject: string)
    requires b.Valid()
    ensures Stitch(o, b).buffer.SizeBySubject(subject) != 0 <==> HoldsOf(o, b, subject)
  {
    var held := Stitch(o, b).buffer;
    HeldIsValid(Visits(o, b));
    if held.FlatOf(subject) != [] {
      FlatOfMembers(held, subject, held.FlatOf(subject)[0]);
      HeldExactly(o, b, held.FlatOf(subject)[0]);
    }
    if x: FetchedRecord :| x.subject == subject && Fated(o, b, x, Hold) {
      HeldExactly(o, b, x);
      FlatOfMembers(held, subject, x);
    }
  }

  /** Nothing done of a subject before the k-th is as far as it: the k-th is a record high. */
  lemma HighMeansFurther(o: Settings, b: FetchedRecordBuffer, k: nat)
    requires b.Valid() && k < |b.store.keys| && Reach(VisitOf(o, b, k)).Some?
    ensures RecordHigh(EachReach(Visits(o, b)), k) <==>
      forall j, e: FetchedRecord :: 0 <= j < k && e.subject == b.store.keys[j] && DoneIn(o, b, e) ==>
        DoneBeyond(o, b, b.store.keys[k], e.streamSequence)
  {
    var reach := EachReach(Visits(o, b));
    if RecordHigh(reach, k) {
      forall j, e: FetchedRecord | 0 <= j < k && e.subject == b.store.keys[j] && DoneIn(o, b, e)
        ensures DoneBeyond(o, b, b.store.keys[k], e.streamSequence)
      {
        ReachBeyond(o, b, j, e.streamSequence - 1);
        ReachBeyond(o, b, k, e.streamSequence);
        assert reach[j].Some? && reach[j].value < reach[k].value;
      }
    }
    if forall j, e: FetchedRecord :: 0 <= j < k && e.subject == b.store.keys[j] && DoneIn(o, b, e) ==>
         DoneBeyond(o, b, b.store.keys[k], e.streamSequence)
    {
      forall j | 0 <= j < k && reach[j].Some? ensures reach[j].value < reach[k].value {
        FurtherThan(o, b, j, k);
      }
    }
  }

  lemma FurtherThan(o: Settings, b: FetchedRecordBuffer, j: nat, k: nat)
    requires b.Valid() && j < k < |b.store.keys| && Reach(VisitOf(o, b, j)).Some?
    requires forall e: FetchedRecord :: e.subject == b.store.keys[j] && DoneIn(o, b, e) ==>
      DoneBeyond(o, b, b.store.keys[k], e.streamSequence)
    ensures Reach(VisitOf(o, b, k)).Some? && Reach(VisitOf(o, b, j)).value < Reach(VisitOf(o, b, k)).value
  {
    var v := VisitOf(o, b, j);
    VisitsAreOwn(o, b, j);
    var e := ReachedIsDone(v, v.sorted);
    VisitOfSubject(o, b, j, e);
    ReachBeyond(o, b, k, e.streamSequence);
  }

  lemma StopsMeansStopsAt(o: Settings, b: FetchedRecordBuffer, k: nat, q: nat)
    requires b.Valid() && k < |b.store.keys|
    ensures
      var visits := Visits(o, b);
      Stops(o, b, k, q) <==> StopsAt(EachReach(visits), Full(visits, Stitch(o, b).buffer), k, q)
  {
    FullMeansHolds(o, b, b.store.keys[k]);
    ReachBeyond(o, b, k, -1);
    ReachBeyond(o, b, k, q - 1);
    if Reach(VisitOf(o, b, k)).Some? {
      HighMeansFurther(o, b, k);
    }
  }

  // ---------------------------------------------------------------------------------------------
  // What the ack covers when something is held
  // ---------------------------------------------------------------------------------------------

  ghost predicate HoldsSome(o: Settings, b: FetchedRecordBuffer)
    requires b.Valid()
  {
    exists x :: Fated(o, b, x, Hold)
  }

  lemma HeldSize(o: Settings, b: FetchedRecordBuffer)
    requires b.Valid()
    ensures Stitch(o, b).buffer.Size() != 0 <==> HoldsSome(o, b)
  {
    var held := Stitch(o, b).buffer;
    HeldIsValid(Visits(o, b));
    SizeCounts(held);
    if held.Records() != [] {
      InRecords(held, held.Records()[0]);
      HeldExactly(o, b, held.Records()[0]);
    }
    if x :| Fated(o, b, x, Hold) {
      HeldExactly(o, b, x);
      InRecords(held, x);
    }
  }

  lemma CandidateIsChoice(o: Settings, b: FetchedRecordBuffer)
    requires b.Valid() && "" !in b.store.keys && HoldsSome(o, b)
    ensures
      var visits := Visits(o, b);
      var chosen := Choice(EachReach(visits), Full(visits, Stitch(o, b).buffer), |visits|);
      CandidateOf(o, b) == if chosen.None? then None else EachReach(visits)[chosen.value]
  {
    var visits := Visits(o, b);
    assert Distinct(visits);
    HeldSize(o, b);
    PreferredIsChoice(visits, Stitch(o, b).buffer);
    var chosen := Choice(EachReach(visits), Full(visits, Stitch(o, b).buffer), |visits|);
    if chosen.Some? {
      ProgressAt(visits, chosen.value);
    }
  }

  lemma NothingStops(o: Settings, b: FetchedRecordBuffer, q: nat)
    requires b.Valid()
    ensures (forall k: nat :: !Stops(o, b, k, q)) <==>
      forall k: nat :: !StopsAt(EachReach(Visits(o, b)), Full(Visits(o, b), Stitch(o, b).buffer), k, q)
  {
    forall k: nat
      ensures Stops(o, b, k, q) <==> StopsAt(EachReach(Visits(o, b)), Full(Visits(o, b), Stitch(o, b).buffer), k, q)
    {
      if k < |b.store.keys| {
        StopsMeansStopsAt(o, b, k, q);
      }
    }
  }

  /** Something is done at or beyond q. */
  ghost predicate DoneFrom(o: Settings, b: FetchedRecordBuffer, q: nat)
    requires b.Valid()
  {
    exists d :: DoneIn(o, b, d) && d.streamSequence >= q
  }

  ghost predicate NoneStops(o: Settings, b: FetchedRecordBuffer, q: nat)
    requires b.Valid()
  {
    forall k: nat :: !Stops(o, b, k, q)
  }

  /** Everything held is beyond q. */
  ghost predicate HeldBeyond(o: Settings, b: FetchedRecordBuffer, q: nat)
    requires b.Valid()
  {
    forall x :: Fated(o, b, x, Hold) ==> q < x.streamSequence
  }

  lemma CandidateReaches(o: Settings, b: FetchedRecordBuffer, q: nat)
    requires b.Valid() && "" !in b.store.keys && HoldsSome(o, b)
    ensures Covers(CandidateOf(o, b), q) <==> DoneFrom(o, b, q) && NoneStops(o, b, q)
    ensures DoneFrom(o, b, q) ==> CandidateOf(o, b).Some?
  {
    CandidateIsChoice(o, b);
    if d :| DoneIn(o, b, d) && d.streamSequence >= q {
      CandidateCovers(o, b, d, q);
    } else {
      CandidateIsDone(o, b);
    }
  }

  lemma CandidateCovers(o: Settings, b: FetchedRecordBuffer, d: FetchedRecord, q: nat)
    requires b.Valid() && "" !in b.store.keys && HoldsSome(o, b) && DoneIn(o, b, d) && d.streamSequence >= q
    ensures Covers(CandidateOf(o, b), q) <==> NoneStops(o, b, q)
    ensures CandidateOf(o, b).Some?
  {
    var visits := Visits(o, b);
    var i := DoneReaches(o, b, d);
    CandidateIsChoice(o, b);
    ChoiceReaches(EachReach(visits), Full(visits, Stitch(o, b).buffer), i, q);
    NothingStops(o, b, q);
  }

  lemma DoneReaches(o: Settings, b: FetchedRecordBuffer, d: FetchedRecord) returns (i: nat)
    requires b.Valid() && DoneIn(o, b, d)
    ensures i < |EachReach(Visits(o, b))| && EachReach(Visits(o, b))[i].Some?
    ensures d.streamSequence <= EachReach(Visits(o, b))[i].value
  {
    i := IndexOf(b.store.keys, d.subject);
    ReachBeyond(o, b, i, d.streamSequence - 1);
  }

  lemma CandidateIsDone(o: Settings, b: FetchedRecordBuffer)
    requires b.Valid() && "" !in b.store.keys && HoldsSome(o, b)
    ensures CandidateOf(o, b).Some? ==> DoneFrom(o, b, CandidateOf(o, b).value)
  {
    CandidateIsChoice(o, b);
    var visits := Visits(o, b);
    var chosen := Choice(EachReach(visits), Full(visits, Stitch(o, b).buffer), |visits|);
    if chosen.Some? {
      var v := visits[chosen.value];
      var d := ReachedIsDone(v, v.sorted);
      VisitsAreOwn(o, b, chosen.value);
      VisitOfSubject(o, b, chosen.value, d);
    }
  }

  lemma ClampCovers(candidate: Option<nat>, least: nat, q: nat)
    requires q >= 1
    ensures Covers(Clamp(candidate, Some(least)), q) <==> Covers(candidate, q) && q < least
  {
  }

  lemma LeastHeld(o: Settings, b: FetchedRecordBuffer, q: nat)
    requires b.Valid() && HoldsSome(o, b)
    ensures
      var held := Stitch(o, b).buffer;
      var least := MinSequence(held, |held.store.keys|);
      least.Some? && (q < least.value <==> HeldBeyond(o, b, q))
  {
    var held := Stitch(o, b).buffer;
    HeldIsValid(Visits(o, b));
    MinSequenceOccurs(held, |held.store.keys|);
    forall x | Fated(o, b, x, Hold)
      ensures
        var least := MinSequence(held, |held.store.keys|);
        held.Has(x) && least.Some? && least.value <= x.streamSequence
    {
      HeldExactly(o, b, x);
      LeastBelow(held, x);
    }
    forall x | held.Has(x) ensures Fated(o, b, x, Hold) {
      HeldExactly(o, b, x);
    }
  }

  /** Something is done at or beyond q, everything held is beyond q, and no subject stops the ack short of it. */
  ghost predicate MayReach(o: Settings, b: FetchedRecordBuffer, q: nat)
    requires b.Valid()
  {
    DoneFrom(o, b, q) && HeldBeyond(o, b, q) && NoneStops(o, b, q)
  }

  /**
   When something is held, the ack reaches q exactly when something is done at or beyond q, everything
   held is beyond q, and no subject stops the ack short of it.
   */
  lemma AckReaches(o: Settings, b: FetchedRecordBuffer, q: nat)
    requires b.Valid() && "" !in b.store.keys && HoldsSome(o, b) && q >= 1
    ensures Covers(Stitch(o, b).ack, q) <==> MayReach(o, b, q)
  {
    var held := Stitch(o, b).buffer;
    CandidateReaches(o, b, q);
    LeastHeld(o, b, q);
    ClampCovers(CandidateOf(o, b), MinSequence(held, |held.store.keys|).value, q);
  }

  /** So a record that is done is covered unless a held one comes no later or some subject stops the ack. */
  lemma AckCoversReleased(o: Settings, b: FetchedRecordBuffer, r: FetchedRecord)
    requires b.Valid() && "" !in b.store.keys && HoldsSome(o, b)
    requires DoneIn(o, b, r) && r.streamSequence >= 1
    ensures Covers(Stitch(o, b).ack, r.streamSequence) <==>
      HeldBeyond(o, b, r.streamSequence) && NoneStops(o, b, r.streamSequence)
  {
    AckReaches(o, b, r.streamSequence);
  }

  /** One subject never stops the ack short of what is done. */
  lemma OneSubjectNeverStops(o: Settings, b: FetchedRecordBuffer, q: nat)
    requires b.Valid() && |b.store.keys| == 1 && DoneFrom(o, b, q)
    ensures NoneStops(o, b, q)
  {
    var d :| DoneIn(o, b, d) && d.streamSequence >= q;
    assert d.subject == b.store.keys[0];
    assert DoneBeyond(o, b, b.store.keys[0], q - 1);
  }

  /** With one subject, as the worker has, only what is held limits the ack. */
  lemma OneSubjectAck(o: Settings, b: FetchedRecordBuffer, q: nat)
    requires b.Valid() && "" !in b.store.keys && |b.store.keys| == 1 && HoldsSome(o, b) && q >= 1
    ensures Covers(Stitch(o, b).ack, q) <==>
      DoneFrom(o, b, q) && HeldBeyond(o, b, q)
  {
    AckReaches(o, b, q);
    if DoneFrom(o, b, q) {
      OneSubjectNeverStops(o, b, q);
    }
  }

  // ---------------------------------------------------------------------------------------------
  // What the ack covers when nothing is held
  // ---------------------------------------------------------------------------------------------

  /** No record of its subject comes after it in the order of the visit. */
  ghost predicate LastOfSubject(b: FetchedRecordBuffer, z: FetchedRecord) {
    b.Has(z) && forall x :: b.Has(x) && x.subject == z.subject ==> Precedes(x, z)
  }

  lemma LastSorted(b: FetchedRecordBuffer, subject: string)
    requires b.Valid() && b.Sorted(subject) != []
    ensures LastOfSubject(b, b.Sorted(subject)[|b.Sorted(subject)| - 1])
    ensures b.Sorted(subject)[|b.Sorted(subject)| - 1].subject == subject
  {
    var s := b.Sorted(subject);
    InSorted(b, subject, s[|s| - 1]);
    SortRecordsSorts(b.FlatOf(subject));
    forall x | b.Has(x) && x.subject == subject ensures Precedes(x, s[|s| - 1]) {
      InSorted(b, subject, x);
      var i :| 0 <= i < |s| && s[i] == x;
      assert i == |s| - 1 || Precedes(s[i], s[|s| - 1]);
    }
  }

  lemma MaxIsLastOf(b: FetchedRecordBuffer) returns (z: FetchedRecord)
    requires b.Valid() && MaxSequence(b, |b.store.keys|).Some?
    ensures LastOfSubject(b, z) && z.streamSequence == MaxSequence(b, |b.store.keys|).value
  {
    var i := MaxSequenceIsLast(b, |b.store.keys|);
    z := b.Sorted(b.store.keys[i])[|b.Sorted(b.store.keys[i])| - 1];
    LastSorted(b, b.store.keys[i]);
  }

  lemma MaxCoversLastOf(b: FetchedRecordBuffer, z: FetchedRecord)
    requires b.Valid() && LastOfSubject(b, z)
    ensures Covers(MaxSequence(b, |b.store.keys|), z.streamSequence)
  {
    InSorted(b, z.subject, z);
    LastSorted(b, z.subject);
    MaxSequenceCovers(b, |b.store.keys|, IndexOf(b.store.keys, z.subject));
  }

  lemma NothingHeldAcksMax(o: Settings, b: FetchedRecordBuffer)
    requires b.Valid() && !HoldsSome(o, b)
    ensures Stitch(o, b).ack == MaxSequence(b, |b.store.keys|)
  {
    var chosen := Selected(Visits(o, b), Hold);
    if chosen != [] {
      SelectedExactly(o, b, Hold, chosen[0]);
    }
    HeldSize(o, b);
  }

  /**
   When nothing is held, the ack covers a record exactly when some record at or beyond it is the last of
   its subject in transaction order.
   */
  lemma NothingHeldAck(o: Settings, b: FetchedRecordBuffer, q: nat)
    requires b.Valid() && !HoldsSome(o, b)
    ensures Covers(Stitch(o, b).ack, q) <==> exists z :: LastOfSubject(b, z) && q <= z.streamSequence
  {
    NothingHeldAcksMax(o, b);
    if Covers(Stitch(o, b).ack, q) {
      var z := MaxIsLastOf(b);
    }
    if z :| LastOfSubject(b, z) && q <= z.streamSequence {
      MaxCoversLastOf(b, z);
    }
  }

  lemma UnbufferedHoldsNothing(o: Settings, b: FetchedRecordBuffer)
    requires b.Valid() && !o.useBuffer
    ensures !HoldsSome(o, b)
  {
  }

  ghost predicate IsGreatest(b: FetchedRecordBuffer, g: FetchedRecord) {
    b.Has(g) && forall x :: b.Has(x) ==> x.streamSequence <= g.streamSequence
  }

  /** No record of its subject belongs to a later transaction. */
  ghost predicate LatestTransaction(b: FetchedRecordBuffer, g: FetchedRecord) {
    forall x :: b.Has(x) && x.subject == g.subject ==> x.TransactionId() <= g.TransactionId()
  }

  ghost predicate AcksAll(b: FetchedRecordBuffer, ack: Option<nat>) {
    forall r :: b.Has(r) ==> Covers(ack, r.streamSequence)
  }

  /**
   With `useBuffer` off a pass acks everything it was given if and only if a record with the greatest
   sequence is of the latest transaction of its subject.
   */
  lemma UnbufferedAcksAll(o: Settings, b: FetchedRecordBuffer)
    requires b.Valid() && !o.useBuffer && b.Records() != []
    ensures AcksAll(b, Stitch(o, b).ack) <==> exists g :: IsGreatest(b, g) && LatestTransaction(b, g)
    ensures Stitch(o, b).ack.Some? && Occurs(b, Stitch(o, b).ack.value)
  {
    UnbufferedHoldsNothing(o, b);
    NothingHeldAcksMax(o, b);
    InRecords(b, b.Records()[0]);
    InSorted(b, b.Records()[0].subject, b.Records()[0]);
    MaxSequenceCovers(b, |b.store.keys|, IndexOf(b.store.keys, b.Records()[0].subject));
    var z := MaxIsLastOf(b);
    if AcksAll(b, Stitch(o, b).ack) {
      assert IsGreatest(b, z) && LatestTransaction(b, z);
    }
    if g :| IsGreatest(b, g) && LatestTransaction(b, g) {
      assert LastOfSubject(b, g);
      MaxCoversLastOf(b, g);
    }
  }

  // ---------------------------------------------------------------------------------------------
  // Inputs where an ack falls short
  // ---------------------------------------------------------------------------------------------

  ghost function Of(records: seq<FetchedRecord>): (b: FetchedRecordBuffer)
    ensures b.Valid() && b == EMPTY.AddAll(records)
    ensures forall r :: b.Has(r) <==> r in records
  {
    AddAllKeepsValid(EMPTY, records);
    assert forall r :: EMPTY.AddAll(records).Has(r) <==> r in records by {
      forall r ensures EMPTY.AddAll(records).Has(r) <==> r in records {
        HasAddAll(EMPTY, records, r);
      }
    }
    EMPTY.AddAll(records)
  }

  /** Unbuffered, a transaction that started first and was published last: only its predecessor is acked. */
  lemma UnbufferedAckLags(o: Settings, x: FetchedRecord, y: FetchedRecord)
    requires !o.useBuffer && x.subject == y.subject
    requires x.streamSequence < y.streamSequence && x.TransactionId() > y.TransactionId()
    ensures Stitch(o, Of([x, y])).ack == Some(x.streamSequence)
  {
    var b := Of([x, y]);
    assert b.Has(x) && b.Has(y);
    LaterTransactionIsLast(b, x, y);
    UnbufferedHoldsNothing(o, b);
    NothingHeldAcksMax(o, b);
  }

  lemma LaterTransactionIsLast(b: FetchedRecordBuffer, x: FetchedRecord, y: FetchedRecord)
    requires b.Valid() && b.Has(x) && b.Has(y) && forall r :: b.Has(r) ==> r == x || r == y
    requires x.subject == y.subject && x.TransactionId() > y.TransactionId()
    ensures MaxSequence(b, |b.store.keys|) == Some(x.streamSequence)
  {
    MaxCoversLastOf(b, x);
    var z := MaxIsLastOf(b);
  }

  /** Two heartbeats of two subjects, and after them a context that the first subject holds. */
  ghost predicate TwoSubjects(o: Settings, b: FetchedRecordBuffer, a: FetchedRecord, c: FetchedRecord, d: FetchedRecord) {
    && o.useBuffer && o.orphanContextSequenceGap >= 0
    && b.Valid() && b.store.keys == [a.subject, d.subject] && "" !in b.store.keys
    && b.Has(a) && b.Has(c) && b.Has(d) && (forall r :: b.Has(r) ==> r in {a, c, d})
    && a.IsHeartbeatMessage() && d.IsHeartbeatMessage() && c.IsContextMessage()
    && a.subject == c.subject != d.subject
    && 1 <= a.streamSequence < d.streamSequence < c.streamSequence
  }

  lemma NoChangeListed(b: FetchedRecordBuffer, c: FetchedRecord)
    requires b.Valid() && forall r :: b.Has(r) && SameTransaction(c, r) ==> !r.IsChange()
    ensures !ChangeArrived(b.ByTransactionId(c.subject, c.TransactionId()))
  {
    forall r | r in b.ByTransactionId(c.subject, c.TransactionId()) ensures !r.IsChange() {
      ListedWith(b, c, r);
    }
  }

  /** A context that nothing comes after is held, as long as its transaction has no change. */
  lemma NewestContextIsHeld(o: Settings, b: FetchedRecordBuffer, c: FetchedRecord)
    requires o.useBuffer && o.orphanContextSequenceGap >= 0 && b.Valid() && b.Has(c) && c.IsContextMessage()
    requires forall r :: b.Has(r) ==> r.streamSequence <= c.streamSequence
    requires forall r :: b.Has(r) && SameTransaction(c, r) ==> !r.IsChange()
    ensures Fated(o, b, c, Hold)
  {
    NoChangeListed(b, c);
    NearIsNoOrphan(o, b, c, c.streamSequence);
    AwaitingIsHeld(VisitFor(o, b, c), c);
  }

  lemma TwoSubjectsFates(o: Settings, b: FetchedRecordBuffer, a: FetchedRecord, c: FetchedRecord, d: FetchedRecord)
    requires TwoSubjects(o, b, a, c, d)
    ensures DoneIn(o, b, a) && DoneIn(o, b, d) && Fated(o, b, c, Hold)
    ensures forall x :: DoneIn(o, b, x) ==> x == a || x == d
    ensures forall x :: Fated(o, b, x, Hold) ==> x == c
  {
    NewestContextIsHeld(o, b, c);
  }

  lemma FirstSubjectStops(o: Settings, b: FetchedRecordBuffer, a: FetchedRecord, c: FetchedRecord, d: FetchedRecord)
    requires TwoSubjects(o, b, a, c, d)
    ensures Stops(o, b, 0, d.streamSequence)
    ensures NoneStops(o, b, a.streamSequence)
  {
    TwoSubjectsFates(o, b, a, c, d);
    assert DoneBeyond(o, b, a.subject, -1);
    assert DoneBeyond(o, b, a.subject, a.streamSequence - 1);
  }

  /** The ack sticks: a subject with something held keeps it, though another got further before that. */
  lemma AckSticks(o: Settings, b: FetchedRecordBuffer, a: FetchedRecord, c: FetchedRecord, d: FetchedRecord)
    requires TwoSubjects(o, b, a, c, d)
    ensures Stitch(o, b).ack == Some(a.streamSequence)
  {
    TwoSubjectsFates(o, b, a, c, d);
    FirstSubjectStops(o, b, a, c, d);
    AckCoversReleased(o, b, d);
    AckCoversReleased(o, b, a);
    CandidateAtFirst(o, b, a, c, d);
    AckIsCandidate(o, b, c);
  }

  lemma CandidateAtFirst(o: Settings, b: FetchedRecordBuffer, a: FetchedRecord, c: FetchedRecord, d: FetchedRecord)
    requires TwoSubjects(o, b, a, c, d)
    requires Covers(Stitch(o, b).ack, a.streamSequence) && !Covers(Stitch(o, b).ack, d.streamSequence)
    ensures CandidateOf(o, b) == Some(a.streamSequence)
  {
    TwoSubjectsFates(o, b, a, c, d);
    FirstSubjectStops(o, b, a, c, d);
    CandidateCovers(o, b, d, d.streamSequence);
    CandidateCovers(o, b, a, a.streamSequence);
    CandidateOccurs(o, b);
  }

  lemma AckIsCandidate(o: Settings, b: FetchedRecordBuffer, c: FetchedRecord)
    requires b.Valid() && Fated(o, b, c, Hold) && (forall x :: Fated(o, b, x, Hold) ==> x == c)
    requires CandidateOf(o, b).Some? && CandidateOf(o, b).value < c.streamSequence
    ensures Stitch(o, b).ack == CandidateOf(o, b)
  {
    LeastHeld(o, b, CandidateOf(o, b).value);
  }

  // The input itself: "orders" reached 5 and holds 20, "items" reached 10.

  lemma AckSticksAtFive()
    ensures
      var records := [Logical(HeartbeatPrefix, "orders", 1, 5), Logical(HeartbeatPrefix, "items", 2, 10),
                      Logical(ContextPrefix, "orders", 3, 20)];
      Stitch(Settings(true, ORPHAN_CONTEXT_SEQUENCE_GAP), Of(records)).ack == Some(5)
  {
    var a, d := Logical(HeartbeatPrefix, "orders", 1, 5), Logical(HeartbeatPrefix, "items", 2, 10);
    var c := Logical(ContextPrefix, "orders", 3, 20);
    AckSticksFor(Settings(true, ORPHAN_CONTEXT_SEQUENCE_GAP), a, d, c);
  }

  lemma AckSticksFor(o: Settings, a: FetchedRecord, d: FetchedRecord, c: FetchedRecord)
    requires o.useBuffer && o.orphanContextSequenceGap >= 0
    requires a.IsHeartbeatMessage() && d.IsHeartbeatMessage() && c.IsContextMessage()
    requires a.subject == c.subject != d.subject && a.subject != "" && d.subject != ""
    requires 1 <= a.streamSequence < d.streamSequence < c.streamSequence
    ensures Stitch(o, Of([a, d, c])).ack == Some(a.streamSequence)
  {
    KeysOfTwo(a, d, c);
    ThreeRecords(Of([a, d, c]), a, d, c);
    AckSticks(o, Of([a, d, c]), a, c, d);
  }

  lemma ThreeRecords(b: FetchedRecordBuffer, a: FetchedRecord, d: FetchedRecord, c: FetchedRecord)
    requires forall r :: b.Has(r) <==> r in [a, d, c]
    ensures b.Has(a) && b.Has(d) && b.Has(c) && forall r :: b.Has(r) ==> r in {a, c, d}
  {
  }

  lemma KeysOfTwo(a: FetchedRecord, d: FetchedRecord, c: FetchedRecord)
    requires a.subject == c.subject != d.subject
    ensures Of([a, d, c]).store.keys == [a.subject, d.subject]
  {
    var two := EMPTY.AddFetchedRecord(a).AddFetchedRecord(d);
    TwoKeys(a, d);
    AddThree(EMPTY, a, d, c);
    assert a.subject == two.store.keys[0];
    KeysAdd(two, c);
  }

  lemma TwoKeys(a: FetchedRecord, d: FetchedRecord)
    requires a.subject != d.subject
    ensures EMPTY.AddFetchedRecord(a).AddFetchedRecord(d).Valid()
    ensures EMPTY.AddFetchedRecord(a).AddFetchedRecord(d).store.keys == [a.subject, d.subject]
  {
    OneKey(a);
    AddKeepsValid(EMPTY.AddFetchedRecord(a), d);
    KeysAdd(EMPTY.AddFetchedRecord(a), d);
  }

  lemma OneKey(a: FetchedRecord)
    ensures EMPTY.AddFetchedRecord(a).Valid() && EMPTY.AddFetchedRecord(a).store.keys == [a.subject]
  {
    AddKeepsValid(EMPTY, a);
    KeysAdd(EMPTY, a);
  }

  lemma AddThree(b: FetchedRecordBuffer, x: FetchedRecord, y: FetchedRecord, z: FetchedRecord)
    ensures b.AddAll([x, y, z]) == b.AddFetchedRecord(x).AddFetchedRecord(y).AddFetchedRecord(z)
  {
    var none: seq<FetchedRecord> := [];
    var one, two, three := [x], [x, y], [x, y, z];
    assert three[..2] == two && two[..1] == one && one[..0] == none;
    assert b.AddAll(one) == b.AddAll(none).AddFetchedRecord(x);
  }
}
