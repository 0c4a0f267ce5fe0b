/** A message the worker cannot read stays in the stream, and nothing beyond it is ever inserted. */
module Unreadable {
  import opened FetchedRecords
  import opened AuditTable
  import opened Ingestion
  import opened TurnProperties
  import opened Pipeline
  import opened Safety

  /** Every message before n that the worker gets to see can be read. */
  ghost predicate Legible(w: World, n: int) {
    forall p :: 0 <= p < n ==> Reading(w, p).Success?
  }

  /** A row all of whose past can be read. */
  ghost predicate FromLegible(w: World, row: ChangeAttributes) {
    exists n: nat :: Legible(w, n) && FromLog(w, n, row)
  }

  ghost predicate AllLegible(w: World, s: State) {
    && Legible(w, s.base + Processed(s)) && Legible(w, s.base + s.floor)
    && (forall a :: a in s.inflight ==> Legible(w, s.base + a))
    && (forall row :: row in s.rows ==> FromLegible(w, row))
    && (s.phase.Persisting? ==> forall x :: x in Flatten(s.phase.batches) ==> FromLegible(w, x.changeAttributes))
  }

  /** A fetch that parses leaves nothing unreadable behind it. */
  lemma FetchIsLegible(w: World, s: State, q: nat)
    requires Traced(w, s) && AllLegible(w, s) && s.phase == Fetching && Parsed(s.inbox).Success?
    requires 1 <= q <= s.cursor
    ensures Reading(w, Position(s.base, q)).Success?
  {
    var p := Position(s.base, q);
    if q > Processed(s) && q > s.floor && Matches(w, p) {
      assert q in s.inbox;
      ParsedReadsAll(s.inbox, q);
      SequenceIsALabel(w.log[p], q, p + 1);
    }
  }

  lemma FetchedIsLegible(w: World, s: State)
    requires Traced(w, s) && AllLegible(w, s) && s.phase == Fetching && Parsed(s.inbox).Success?
    ensures Legible(w, s.base + s.cursor)
  {
    forall p | 0 <= p < s.base + s.cursor ensures Reading(w, p).Success? {
      if p >= s.base {
        FetchIsLegible(w, s, p - s.base + 1);
      }
    }
  }

  lemma FinishFetchStaysLegible(w: World, s: State)
    requires Traced(w, s) && AllLegible(w, s) && Enabled(w, s, FinishFetch)
    ensures AllLegible(w, Apply(w, s, FinishFetch))
  {
    var turn := TakeTurn(w.config, s.memory, s.inbox).value;
    assert Succeeds(w.config, s.memory, s.inbox, turn);
    FetchAdvances(w, s, turn);
    FetchedIsLegible(w, s);
    ChunksCover(turn.kept, w.config.insertBatchSize);
    forall x | x in turn.kept ensures FromLegible(w, x.changeAttributes) {
      KeptFromLog(w, s, turn, x, s.base + s.cursor);
    }
  }

  lemma InsertBatchStaysLegible(w: World, s: State)
    requires Traced(w, s) && AllLegible(w, s) && Enabled(w, s, InsertBatch)
    ensures AllLegible(w, Apply(w, s, InsertBatch))
  {
    FlattenHead(s.phase.batches);
    forall row | row in InsertAll(s.rows, s.phase.batches[0]) ensures FromLegible(w, row) {
      if row !in s.rows {
        InsertAllRows(s.rows, s.phase.batches[0], row);
      }
    }
  }

  lemma StepStaysLegible(w: World, s: State, step: Step)
    requires Traced(w, s) && AllLegible(w, s) && Enabled(w, s, step)
    ensures AllLegible(w, Apply(w, s, step))
  {
    match step
    case FinishFetch => FinishFetchStaysLegible(w, s);
    case InsertBatch => InsertBatchStaysLegible(w, s);
    case FinishTurn =>
    case Publish =>
    case Deliver(_) =>
    case AckLands(_) =>
    case Purge(_) =>
    case Crash =>
    case Recreate =>
  }

  lemma {:induction false} RunStaysLegible(w: World, s: State, steps: seq<Step>)
    requires Traced(w, s) && AllLegible(w, s) && Run(w, s, steps).Some?
    ensures Traced(w, Run(w, s, steps).value) && AllLegible(w, Run(w, s, steps).value)
    decreases |steps|
  {
    if steps != [] {
      StepTraces(w, s, steps[0]);
      StepStaysLegible(w, s, steps[0]);
      RunStaysLegible(w, Apply(w, s, steps[0]), steps[1..]);
    }
  }

  /**
   In every reachable state an accepted message that cannot be read is still in the stream, not acked
   and not purged, and every row comes from a message before it, with a context from before it.
   */
  lemma UnreadableHoldsBack(w: World, steps: seq<Step>, s: State, p: nat)
    requires Reaches(w, steps, s) && p < s.published && Reading(w, p).Failure?
    ensures InStream(s, p)
    ensures forall row :: row in s.rows ==> FromLog(w, p, row)
  {
    RunStaysLegible(w, Initial(), steps);
    assert !Legible(w, s.base + s.floor) || p >= s.base + s.floor;
    forall row | row in s.rows ensures FromLog(w, p, row) {
      var n: nat :| Legible(w, n) && FromLog(w, n, row);
      FromLogGrows(w, n, p, row);
    }
  }
}
