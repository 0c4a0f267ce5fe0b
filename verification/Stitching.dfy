/**
 One pass of the stitcher: visit every buffered record in order and release it with its
 transaction's context, hold it for the next pass or drop it, then choose what may be acked.
 */
module Stitching {
  import opened Wrappers
  import opened Objects
  import opened FetchedRecords
  import opened FetchedRecordBuffers

  const ORPHAN_CONTEXT_SEQUENCE_GAP := 1000

  datatype Settings = Settings(useBuffer: bool, orphanContextSequenceGap: int)

  datatype Fate = Pass | Hold | Drop | Release

  /** What the visit of one subject can see. */
  datatype Visit = Visit(
    settings: Settings, buffer: FetchedRecordBuffer, subject: string,
    sorted: seq<FetchedRecord>, maxSequence: Option<nat>)

  datatype Stitched = Stitched(released: seq<FetchedRecord>, buffer: FetchedRecordBuffer, ack: Option<nat>)

  /** JavaScript's `!n` for a number or undefined. */
  predicate Falsy(n: Option<nat>) {
    n.None? || n.value == 0
  }

  /** At or beyond q. */
  predicate Covers(n: Option<nat>, q: nat) {
    n.Some? && q <= n.value
  }

  // ---------------------------------------------------------------------------------------------
  // One record
  // ---------------------------------------------------------------------------------------------

  function FirstContext(records: seq<FetchedRecord>): Option<FetchedRecord> {
    if records == [] then None
    else if records[0].IsContextMessage() then Some(records[0])
    else FirstContext(records[1..])
  }

  predicate ChangeArrived(records: seq<FetchedRecord>) {
    exists r :: r in records && r.IsChange()
  }

  predicate Orphaned(v: Visit, r: FetchedRecord) {
    v.maxSequence.Some? && v.maxSequence.value - r.streamSequence > v.settings.orphanContextSequenceGap
  }

  /** A change that could still be waiting for its context: alone in its transaction and the very last. */
  predicate LoneTrailingChange(v: Visit, r: FetchedRecord) {
    && r.IsChange()
    && |v.buffer.ByTransactionId(v.subject, r.TransactionId())| == 1
    && v.sorted != [] && r == v.sorted[|v.sorted| - 1]
  }

  /** A context whose change may still come. */
  predicate AwaitsChange(v: Visit, r: FetchedRecord) {
    && r.IsContextMessage()
    && !ChangeArrived(v.buffer.ByTransactionId(v.subject, r.TransactionId()))
    && !Orphaned(v, r)
  }

  function FateOf(v: Visit, r: FetchedRecord): Fate {
    if r.IsHeartbeatMessage() then Pass
    else if v.settings.useBuffer && (LoneTrailingChange(v, r) || AwaitsChange(v, r)) then Hold
    else if r.IsContextMessage() then Drop
    else Release
  }

  function Attributed(v: Visit, r: FetchedRecord): FetchedRecord {
    match FirstContext(v.buffer.ByTransactionId(v.subject, r.TransactionId()))
    case Some(c) => r.SetContext(c.Context())
    case None => r
  }

  // ---------------------------------------------------------------------------------------------
  // One subject
  // ---------------------------------------------------------------------------------------------

  function Select(v: Visit, fate: Fate, s: seq<FetchedRecord>): seq<FetchedRecord> {
    if s == [] then []
    else
      var last := s[|s| - 1];
      Select(v, fate, s[..|s| - 1]) + if FateOf(v, last) == fate then [last] else []
  }

  function AttributeAll(v: Visit, s: seq<FetchedRecord>): seq<FetchedRecord> {
    if s == [] then [] else AttributeAll(v, s[..|s| - 1]) + [Attributed(v, s[|s| - 1])]
  }

  /** The greatest sequence that was released or passed over as a heartbeat. */
  function Reached(v: Visit, s: seq<FetchedRecord>): Option<nat> {
    if s == [] then None
    else
      Advance(v, Reached(v, s[..|s| - 1]), s[|s| - 1])
  }

  function Advance(v: Visit, reached: Option<nat>, r: FetchedRecord): Option<nat> {
    if FateOf(v, r) in {Pass, Release} && (Falsy(reached) || reached.value < r.streamSequence)
    then Some(r.streamSequence)
    else reached
  }

  // ---------------------------------------------------------------------------------------------
  // The subjects in turn: the first n of them
  // ---------------------------------------------------------------------------------------------

  /** The running `maxSequence`: the last record of each sorted subject, not the greatest sequence. */
  function MaxSequence(b: FetchedRecordBuffer, n: nat): Option<nat>
    requires n <= |b.store.keys|
  {
    if n == 0 then None
    else Later(MaxSequence(b, n - 1), b.Sorted(b.store.keys[n - 1]))
  }

  function Later(maxSequence: Option<nat>, sorted: seq<FetchedRecord>): Option<nat> {
    if sorted != [] && (Falsy(maxSequence) || sorted[|sorted| - 1].streamSequence > maxSequence.value)
    then Some(sorted[|sorted| - 1].streamSequence)
    else maxSequence
  }

  function VisitOf(o: Settings, b: FetchedRecordBuffer, i: nat): Visit
    requires i < |b.store.keys|
  {
    var subject := b.store.keys[i];
    Visit(o, b, subject, b.Sorted(subject), MaxSequence(b, i + 1))
  }

  function Visits(o: Settings, b: FetchedRecordBuffer): seq<Visit> {
    seq(|b.store.keys|, i requires 0 <= i < |b.store.keys| => VisitOf(o, b, i))
  }

  function Selected(visits: seq<Visit>, fate: Fate): seq<FetchedRecord> {
    if visits == [] then []
    else
      var v := visits[|visits| - 1];
      Selected(visits[..|visits| - 1], fate) + Select(v, fate, v.sorted)
  }

  function Released(visits: seq<Visit>): seq<FetchedRecord> {
    if visits == [] then []
    else
      var v := visits[|visits| - 1];
      Released(visits[..|visits| - 1]) + AttributeAll(v, Select(v, Release, v.sorted))
  }

  function Record(progress: Object<string, nat>, subject: string, reached: Option<nat>): Object<string, nat> {
    if reached.None? then progress else progress.Put(subject, reached.value)
  }

  /** `maxSequenceBySubject`. */
  function Progress(visits: seq<Visit>): Object<string, nat> {
    if visits == [] then Objects.Empty()
    else
      var v := visits[|visits| - 1];
      Record(Progress(visits[..|visits| - 1]), v.subject, Reached(v, v.sorted))
  }

  // ---------------------------------------------------------------------------------------------
  // The ack
  // ---------------------------------------------------------------------------------------------

  /** The subject whose progress is acked, among the first n that made any. */
  function Preferred(progress: Object<string, nat>, held: FetchedRecordBuffer, n: nat): Option<string>
    requires n <= |progress.keys|
  {
    if n == 0 then None
    else
      var chosen, subject := Preferred(progress, held, n - 1), progress.keys[n - 1];
      if chosen.None? || chosen.value == "" then Some(subject)
      else if Further(progress.Get(subject), progress.Get(chosen.value)) && held.SizeBySubject(chosen.value) == 0
      then Some(subject)
      else chosen
  }

  predicate Further(a: Option<nat>, b: Option<nat>) {
    a.Some? && b.Some? && a.value > b.value
  }

  function Candidate(maxSequence: Option<nat>, progress: Object<string, nat>, held: FetchedRecordBuffer): Option<nat> {
    if held.Size() != 0 then
      match Preferred(progress, held, |progress.keys|)
      case None => None
      case Some(subject) => progress.Get(subject)
    else maxSequence
  }

  function Lesser(least: Option<nat>, s: seq<FetchedRecord>): Option<nat> {
    if s == [] then least
    else
      var before, last := Lesser(least, s[..|s| - 1]), s[|s| - 1];
      if before.None? || last.streamSequence < before.value then Some(last.streamSequence) else before
  }

  function MinSequence(b: FetchedRecordBuffer, n: nat): Option<nat>
    requires n <= |b.store.keys|
  {
    if n == 0 then None else Lesser(MinSequence(b, n - 1), b.Sorted(b.store.keys[n - 1]))
  }

  /** Never at or past anything that stays in memory. */
  function Clamp(ack: Option<nat>, minBuffered: Option<nat>): Option<nat> {
    if ack.Some? && minBuffered.Some? && ack.value >= minBuffered.value then
      if minBuffered.value > 1 then Some(minBuffered.value - 1) else None
    else ack
  }

  function Held(visits: seq<Visit>): FetchedRecordBuffer {
    EMPTY.AddAll(Selected(visits, Hold))
  }

  function Ack(maxSequence: Option<nat>, progress: Object<string, nat>, held: FetchedRecordBuffer): Option<nat> {
    Clamp(Candidate(maxSequence, progress, held), MinSequence(held, |held.store.keys|))
  }

  function Stitch(o: Settings, b: FetchedRecordBuffer): Stitched {
    var visits := Visits(o, b);
    Stitched(Released(visits), Held(visits), Ack(MaxSequence(b, |b.store.keys|), Progress(visits), Held(visits)))
  }

  // ---------------------------------------------------------------------------------------------
  // The loops
  // ---------------------------------------------------------------------------------------------

  /** The inner callback: one record. */
  method VisitRecord(v: Visit, r: FetchedRecord, stitched0: seq<FetchedRecord>, maxSubjectSequence0: Option<nat>,
                     progress0: Object<string, nat>, held0: FetchedRecordBuffer, ghost others: Object<string, nat>)
    returns (stitched: seq<FetchedRecord>, maxSubjectSequence: Option<nat>,
             progress: Object<string, nat>, held: FetchedRecordBuffer)
    requires r in v.sorted
    requires progress0 == Record(others, v.subject, maxSubjectSequence0)
    ensures stitched == stitched0 + if FateOf(v, r) == Release then [Attributed(v, r)] else []
    ensures maxSubjectSequence == Advance(v, maxSubjectSequence0, r)
    ensures progress == Record(others, v.subject, maxSubjectSequence)
    ensures held == if FateOf(v, r) == Hold then held0.AddFetchedRecord(r) else held0
  {
    stitched, maxSubjectSequence, progress, held := stitched0, maxSubjectSequence0, progress0, held0;
    var sameTransaction := v.buffer.ByTransactionId(v.subject, r.TransactionId());
    var context := FirstContext(sameTransaction);
    if r.IsHeartbeatMessage() {
      if Falsy(maxSubjectSequence) || maxSubjectSequence.value < r.streamSequence {
        maxSubjectSequence := Some(r.streamSequence);
        progress := Record(progress, v.subject, maxSubjectSequence);
      }
      return;
    }
    if v.settings.useBuffer && r.IsChange() && |sameTransaction| == 1 && r == v.sorted[|v.sorted| - 1] {
      held := held.AddFetchedRecord(r);
      return;
    }
    if r.IsContextMessage() {
      if v.settings.useBuffer && !ChangeArrived(sameTransaction) && !Orphaned(v, r) {
        held := held.AddFetchedRecord(r);
      }
      return;
    }
    if Falsy(maxSubjectSequence) || maxSubjectSequence.value < r.streamSequence {
      maxSubjectSequence := Some(r.streamSequence);
      progress := Record(progress, v.subject, maxSubjectSequence);
    }
    if context.Some? {
      stitched := stitched + [r.SetContext(context.value.Context())];
    } else {
      stitched := stitched + [r];
    }
  }

  lemma OneMoreReached(v: Visit, s: seq<FetchedRecord>, j: nat)
    requires j < |s|
    ensures Reached(v, s[..j + 1]) == Advance(v, Reached(v, s[..j]), s[j])
  {
    assert s[..j + 1][..j] == s[..j];
  }

  lemma OneMoreReleased(v: Visit, s: seq<FetchedRecord>, j: nat, before: seq<FetchedRecord>)
    requires j < |s|
    ensures before + AttributeAll(v, Select(v, Release, s[..j + 1]))
      == (before + AttributeAll(v, Select(v, Release, s[..j])))
         + if FateOf(v, s[j]) == Release then [Attributed(v, s[j])] else []
  {
    assert s[..j + 1][..j] == s[..j];
    var chosen := Select(v, Release, s[..j]);
    assert (chosen + [s[j]])[..|chosen|] == chosen;
    assert Select(v, Release, s[..j + 1]) == if FateOf(v, s[j]) == Release then chosen + [s[j]] else chosen;
  }

  lemma OneMoreHeld(v: Visit, s: seq<FetchedRecord>, j: nat, b: FetchedRecordBuffer)
    requires j < |s|
    ensures
      var before := b.AddAll(Select(v, Hold, s[..j]));
      b.AddAll(Select(v, Hold, s[..j + 1])) == if FateOf(v, s[j]) == Hold then before.AddFetchedRecord(s[j]) else before
  {
    assert s[..j + 1][..j] == s[..j];
    var chosen := Select(v, Hold, s[..j]);
    assert (chosen + [s[j]])[..|chosen|] == chosen;
    assert Select(v, Hold, s[..j + 1]) == if FateOf(v, s[j]) == Hold then chosen + [s[j]] else chosen;
  }

  /** The inner loop: one subject's sorted records. */
  method VisitSubject(v: Visit, stitched0: seq<FetchedRecord>, progress0: Object<string, nat>, held0: FetchedRecordBuffer)
    returns (stitched: seq<FetchedRecord>, progress: Object<string, nat>, held: FetchedRecordBuffer)
    ensures stitched == stitched0 + AttributeAll(v, Select(v, Release, v.sorted))
    ensures progress == Record(progress0, v.subject, Reached(v, v.sorted))
    ensures held == held0.AddAll(Select(v, Hold, v.sorted))
  {
    stitched, progress, held := stitched0, progress0, held0;
    var maxSubjectSequence: Option<nat> := None;
    for j := 0 to |v.sorted|
      invariant stitched == stitched0 + AttributeAll(v, Select(v, Release, v.sorted[..j]))
      invariant maxSubjectSequence == Reached(v, v.sorted[..j])
      invariant progress == Record(progress0, v.subject, maxSubjectSequence)
      invariant held == held0.AddAll(Select(v, Hold, v.sorted[..j]))
    {
      OneMoreReached(v, v.sorted, j);
      OneMoreReleased(v, v.sorted, j, stitched0);
      OneMoreHeld(v, v.sorted, j, held0);
      stitched, maxSubjectSequence, progress, held :=
        VisitRecord(v, v.sorted[j], stitched, maxSubjectSequence, progress, held, progress0);
    }
    assert v.sorted[..|v.sorted|] == v.sorted;
  }

  lemma {:induction false} AddAllConcat(b: FetchedRecordBuffer, x: seq<FetchedRecord>, y: seq<FetchedRecord>)
    ensures b.AddAll(x).AddAll(y) == b.AddAll(x + y)
    decreases |y|
  {
    if y == [] {
      assert x + y == x;
    } else {
      var front, last := y[..|y| - 1], y[|y| - 1];
      AddAllConcat(b, x, front);
      assert (x + y)[..|x + y| - 1] == x + front && (x + y)[|x + y| - 1] == last;
      assert b.AddAll(x + y) == b.AddAll(x + front).AddFetchedRecord(last);
    }
  }

  lemma OneMoreVisit(visits: seq<Visit>, i: nat)
    requires i < |visits|
    ensures
      var v := visits[i];
      && Released(visits[..i + 1]) == Released(visits[..i]) + AttributeAll(v, Select(v, Release, v.sorted))
      && Progress(visits[..i + 1]) == Record(Progress(visits[..i]), v.subject, Reached(v, v.sorted))
      && Held(visits[..i + 1]) == Held(visits[..i]).AddAll(Select(v, Hold, v.sorted))
  {
    var v := visits[i];
    assert visits[..i + 1][..i] == visits[..i];
    AddAllConcat(EMPTY, Selected(visits[..i], Hold), Select(v, Hold, v.sorted));
  }

  /** The running maximum, moved on by one subject: no less than it was, nor than the subject's last record. */
  method TrackMax(maxSequence0: Option<nat>, sorted: seq<FetchedRecord>) returns (maxSequence: Option<nat>)
    ensures maxSequence == Later(maxSequence0, sorted)
    ensures maxSequence0.Some? ==> Covers(maxSequence, maxSequence0.value)
    ensures sorted != [] ==> Covers(maxSequence, sorted[|sorted| - 1].streamSequence)
    ensures maxSequence == maxSequence0 || (sorted != [] && maxSequence == Some(sorted[|sorted| - 1].streamSequence))
  {
    maxSequence := maxSequence0;
    if |sorted| != 0 && (Falsy(maxSequence) || sorted[|sorted| - 1].streamSequence > maxSequence.value) {
      maxSequence := Some(sorted[|sorted| - 1].streamSequence);
    }
  }

  /** The outer loop over the subjects. */
  method VisitAll(b: FetchedRecordBuffer, o: Settings)
    returns (stitched: seq<FetchedRecord>, held: FetchedRecordBuffer,
             maxSequence: Option<nat>, progress: Object<string, nat>)
    ensures stitched == Released(Visits(o, b))
    ensures held == Held(Visits(o, b))
    ensures maxSequence == MaxSequence(b, |b.store.keys|)
    ensures progress == Progress(Visits(o, b))
  {
    maxSequence, progress := None, Objects.Empty();
    stitched, held := [], EMPTY;
    ghost var visits := Visits(o, b);
    for i := 0 to |b.store.keys|
      invariant maxSequence == MaxSequence(b, i)
      invariant progress == Progress(visits[..i])
      invariant stitched == Released(visits[..i])
      invariant held == Held(visits[..i])
    {
      var subject := b.store.keys[i];
      var sorted := b.Sorted(subject);
      maxSequence := TrackMax(maxSequence, sorted);
      assert maxSequence == MaxSequence(b, i + 1);
      var v := Visit(o, b, subject, sorted, maxSequence);
      assert v == visits[i];
      OneMoreVisit(visits, i);
      stitched, progress, held := VisitSubject(v, stitched, progress, held);
    }
    assert visits[..|visits|] == visits;
  }

  /** The ack candidate before the clamp. */
  method ChooseAck(maxSequence: Option<nat>, progress: Object<string, nat>, held: FetchedRecordBuffer)
    returns (candidate: Option<nat>)
    ensures candidate == Candidate(maxSequence, progress, held)
  {
    if held.Size() == 0 {
      return maxSequence;
    }
    var chosen: Option<string> := None;
    for i := 0 to |progress.keys|
      invariant chosen == Preferred(progress, held, i)
    {
      var subject := progress.keys[i];
      if chosen.None? || chosen.value == "" {
        chosen := Some(subject);
      } else if Further(progress.Get(subject), progress.Get(chosen.value)) && held.SizeBySubject(chosen.value) == 0 {
        chosen := Some(subject);
      }
    }
    candidate := if chosen.None? then None else progress.Get(chosen.value);
  }

  /** The inner callback: the least so far, with one subject's records. */
  method LeastOf(least0: Option<nat>, records: seq<FetchedRecord>) returns (least: Option<nat>)
    ensures least == Lesser(least0, records)
  {
    least := least0;
    for j := 0 to |records|
      invariant least == Lesser(least0, records[..j])
    {
      assert records[..j + 1][..j] == records[..j];
      if least.None? || records[j].streamSequence < least.value {
        least := Some(records[j].streamSequence);
      }
    }
    assert records[..|records|] == records;
  }

  /** The least sequence left in the buffer. */
  method LeastBuffered(b: FetchedRecordBuffer) returns (minBufferedSequence: Option<nat>)
    ensures minBufferedSequence == MinSequence(b, |b.store.keys|)
  {
    minBufferedSequence := None;
    for i := 0 to |b.store.keys|
      invariant minBufferedSequence == MinSequence(b, i)
    {
      minBufferedSequence := LeastOf(minBufferedSequence, b.Sorted(b.store.keys[i]));
    }
  }

  /** `stitchFetchedRecords`. */
  method StitchFetchedRecords(b: FetchedRecordBuffer, useBuffer: bool, orphanContextSequenceGap: int)
    returns (stitched: seq<FetchedRecord>, newBuffer: FetchedRecordBuffer, ack: Option<nat>)
    ensures Stitched(stitched, newBuffer, ack) == Stitch(Settings(useBuffer, orphanContextSequenceGap), b)
  {
    var maxSequence, progress;
    stitched, newBuffer, maxSequence, progress := VisitAll(b, Settings(useBuffer, orphanContextSequenceGap));
    ack := ChooseAck(maxSequence, progress, newBuffer);
    var minBufferedSequence := LeastBuffered(newBuffer);
    if ack.Some? && minBufferedSequence.Some? && ack.value >= minBufferedSequence.value {
      ack := if minBufferedSequence.value > 1 then Some(minBufferedSequence.value - 1) else None;
    }
  }
}
