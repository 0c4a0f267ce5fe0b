/**
 The pipeline as a transition system: a stream that publishes, delivers and forgets, a worker that
 can crash between any two sub-steps, and the audit table.

 Sequence numbers are those of the current stream. Recreating the stream starts them again, so a
 message is named by its position among everything ever accepted: sequence q of the current stream
 is position `base + q - 1`.
 */
module Pipeline {
  import opened Wrappers
  import opened FetchedRecords
  import opened FetchedRecordBuffers
  import opened CaptureFilter
  import opened AuditTable
  import opened Ingestion

  /** What does not change during a run: everything the stream comes to accept, and the settings. */
  datatype World = World(log: seq<StreamMessage>, subjects: set<string>, config: Config)

  datatype Phase = Fetching | Persisting(batches: seq<seq<FetchedRecord>>, ack: Option<nat>)

  datatype State = State(
    published: nat,      // how much of the log has been accepted
    base: nat,           // how much of it belongs to streams since recreated
    first: nat,          // the first sequence not purged
    floor: nat,          // the consumer's ack floor
    inflight: set<nat>,  // acks sent; each may land at any time, or never
    resumed: nat,        // where delivery to this incarnation of the worker began
    cursor: nat,         // the greatest sequence delivered to it
    rows: seq<ChangeAttributes>,
    memory: Memory,
    inbox: Inbox,
    phase: Phase)

  datatype Step =
    | Publish
    | Deliver(streamSequence: nat)
    | FinishFetch
    | InsertBatch
    | FinishTurn
    | AckLands(streamSequence: nat)
    | Purge(ackedStreamSequence: nat)
    | Crash
    | Recreate

  function Initial(): State {
    State(0, 0, 1, 0, {}, 0, 0, [], BOOTED, map[], Fetching)
  }

  function Greater(a: nat, b: nat): nat {
    if a > b then a else b
  }

  /** Whether the consumer's filter lets this message through. */
  predicate Matches(w: World, p: int) {
    0 <= p < |w.log| && w.log[p].subject in w.subjects
  }

  /** The position of a sequence of the current stream. */
  function Position(base: nat, q: nat): int {
    base + q - 1
  }

  /** Accepted, not acked, and either delivered before or the next that the filter lets through. */
  ghost predicate CanDeliver(w: World, s: State, q: nat) {
    && s.floor < q && s.base + q <= s.published
    && Matches(w, Position(s.base, q))
    && (q > s.cursor ==> forall k :: Greater(s.cursor, s.floor) < k < q ==> !Matches(w, Position(s.base, k)))
  }

  ghost predicate Enabled(w: World, s: State, step: Step) {
    match step
    case Publish => s.published < |w.log|
    case Deliver(q) => s.phase == Fetching && s.published <= |w.log| && CanDeliver(w, s, q)
    case FinishFetch => s.phase == Fetching && w.config.insertBatchSize > 0 && TakeTurn(w.config, s.memory, s.inbox).Success?
    case InsertBatch => s.phase.Persisting? && s.phase.batches != []
    case FinishTurn => s.phase.Persisting? && s.phase.batches == []
    case AckLands(q) => q in s.inflight
    case Purge(acked) => 0 < acked <= s.floor
    case Crash => true
    case Recreate => s.base + s.first == s.published + 1
  }

  /** The stream deleted and added again, and with it its consumer. */
  function Deleted(s: State): State {
    s.(base := s.published, first := 1, floor := 0, inflight := {})
  }

  /** The ack a turn puts on its way, if it sends one. */
  function Sending(ack: Option<nat>, inbox: Inbox): set<nat> {
    if Sent(ack, inbox) then {ack.value} else {}
  }

  function Booted(s: State): State {
    s.(memory := BOOTED, inbox := map[], phase := Fetching, resumed := s.floor, cursor := s.floor)
  }

  function Apply(w: World, s: State, step: Step): State
    requires Enabled(w, s, step)
  {
    match step
    case Publish =>
      s.(published := s.published + 1)
    case Deliver(q) =>
      s.(inbox := Accept(s.inbox, s.memory.lastStreamSequence, Delivery(q, w.log[Position(s.base, q)])),
         cursor := Greater(s.cursor, q))
    case FinishFetch =>
      var turn := TakeTurn(w.config, s.memory, s.inbox).value;
      s.(memory := turn.memory, phase := Persisting(Chunk(turn.kept, w.config.insertBatchSize), turn.ack))
    case InsertBatch =>
      s.(rows := InsertAll(s.rows, s.phase.batches[0]), phase := Persisting(s.phase.batches[1..], s.phase.ack))
    case FinishTurn =>
      s.(inflight := s.inflight + Sending(s.phase.ack, s.inbox), inbox := map[], phase := Fetching)
    case AckLands(q) =>
      s.(floor := Greater(s.floor, q))
    case Purge(acked) =>
      s.(first := Greater(s.first, PurgeBound(acked)))
    case Crash =>
      Booted(s)
    case Recreate =>
      Booted(Deleted(s))
  }

  /** `onAcked` purges up to but not including this sequence. */
  function PurgeBound(acked: nat): nat {
    acked + 1
  }

  /** Where a list of steps leads, or nothing if some step of it cannot be taken. */
  ghost function Run(w: World, s: State, steps: seq<Step>): Option<State>
    decreases |steps|
  {
    if steps == [] then Some(s)
    else if Enabled(w, s, steps[0]) then Run(w, Apply(w, s, steps[0]), steps[1..])
    else None
  }

  ghost predicate Reaches(w: World, steps: seq<Step>, s: State) {
    Run(w, Initial(), steps) == Some(s)
  }

  // ---------------------------------------------------------------------------------------------
  // What the log says
  // ---------------------------------------------------------------------------------------------

  /** How the worker reads the message at a position, labelled by that position. */
  function Reading(w: World, p: int): Result<Option<FetchedRecord>, Error> {
    if Matches(w, p) then FromNatsMessage(w.log[p], p + 1) else Success(None)
  }

  predicate IsRecord(w: World, p: int) {
    Reading(w, p).Success? && Reading(w, p).value.Some?
  }

  function RecordAt(w: World, p: int): FetchedRecord
    requires IsRecord(w, p)
  {
    Reading(w, p).value.value
  }

  predicate IsSavableAt(w: World, p: int) {
    IsRecord(w, p) && RecordAt(w, p).IsSavable()
  }

  /** A message that must not be lost: a savable record, or one the worker cannot parse at all. */
  predicate Wanted(w: World, p: int) {
    Reading(w, p).Failure? || IsSavableAt(w, p)
  }

  predicate SameButContext(a: ChangeAttributes, b: ChangeAttributes) {
    a.(context := EMPTY_CONTEXT) == b.(context := EMPTY_CONTEXT)
  }

  ghost predicate Stored(rows: seq<ChangeAttributes>, a: ChangeAttributes) {
    exists row :: row in rows && SameButContext(row, a)
  }

  /** In the table, or deliberately dropped by the capture filter. */
  ghost predicate Durable(w: World, rows: seq<ChangeAttributes>, p: int) {
    && IsSavableAt(w, p)
    && (IsEmpty(RecordAt(w, p).changeAttributes, w.config.ignoreFields) || Stored(rows, RecordAt(w, p).changeAttributes))
  }

  /** Still in the stream, not purged, above the ack floor. */
  predicate InStream(s: State, p: int) {
    && s.base <= p < s.published
    && s.first <= p - s.base + 1
    && s.floor < p - s.base + 1
  }

  /**
   The unique key tells changes apart: two messages with one key carry the same change. A change
   Debezium publishes twice is allowed.
   */
  ghost predicate KeysTellApart(w: World) {
    forall p, q | IsSavableAt(w, p) && IsSavableAt(w, q) ::
      KeyOf(RecordAt(w, p).changeAttributes) == KeyOf(RecordAt(w, q).changeAttributes) ==>
        && RecordAt(w, p).changeAttributes == RecordAt(w, q).changeAttributes
        && RecordAt(w, p).subject == RecordAt(w, q).subject
  }

  /** A context message of the same subject and transaction as the record at p. */
  predicate ContextFor(w: World, p: int, q: int) {
    && IsRecord(w, p) && IsRecord(w, q)
    && RecordAt(w, q).IsContextMessage()
    && SameTransaction(RecordAt(w, p), RecordAt(w, q))
  }

  /** A row made from the non-empty record at p, with no context or that of some context message for it. */
  ghost predicate MadeFrom(w: World, n: int, row: ChangeAttributes, p: int) {
    && 0 <= p < n && IsSavableAt(w, p)
    && !IsEmpty(RecordAt(w, p).changeAttributes, w.config.ignoreFields)
    && SameButContext(row, RecordAt(w, p).changeAttributes)
    && (row.context == EMPTY_CONTEXT
        || exists q :: 0 <= q < n && ContextFor(w, p, q) && RecordAt(w, q).Context() == row.context)
  }

  ghost predicate FromLog(w: World, n: int, row: ChangeAttributes) {
    exists p :: MadeFrom(w, n, row, p)
  }
}
