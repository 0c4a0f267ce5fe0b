/** One turn of the ingestion loop: fetch, stitch, filter, persist in chunks, ack. */
module Ingestion {
  import opened Wrappers
  import opened FetchedRecords
  import opened FetchedRecordBuffers
  import opened CaptureFilter
  import opened Stitching
  import opened AuditTable

  // ---------------------------------------------------------------------------------------------
  // Fetching
  // ---------------------------------------------------------------------------------------------

  /** `natsMessageBySequence`. */
  type Inbox = map<nat, StreamMessage>

  datatype Delivery = Delivery(streamSequence: nat, message: StreamMessage)

  function Accept(inbox: Inbox, lastStreamSequence: Option<nat>, d: Delivery): Inbox {
    if Falsy(lastStreamSequence) || lastStreamSequence.value < d.streamSequence
    then inbox[d.streamSequence := d.message]
    else inbox
  }

  function AcceptAll(deliveries: seq<Delivery>, lastStreamSequence: Option<nat>): Inbox {
    if deliveries == [] then map[]
    else Accept(AcceptAll(deliveries[..|deliveries| - 1], lastStreamSequence), lastStreamSequence,
                deliveries[|deliveries| - 1])
  }

  /** What is delivered beyond the last stream sequence is there; of two messages of one sequence, the later. */
  lemma {:induction false} AcceptedExactly(deliveries: seq<Delivery>, lastStreamSequence: Option<nat>, q: nat)
    ensures q in AcceptAll(deliveries, lastStreamSequence) <==>
      && (lastStreamSequence in {None, Some(0)} || lastStreamSequence.value < q)
      && exists i :: 0 <= i < |deliveries| && deliveries[i].streamSequence == q
    ensures q in AcceptAll(deliveries, lastStreamSequence) ==>
      exists i ::
        && 0 <= i < |deliveries| && deliveries[i] == Delivery(q, AcceptAll(deliveries, lastStreamSequence)[q])
        && forall j :: i < j < |deliveries| ==> deliveries[j].streamSequence != q
    decreases |deliveries|
  {
    if deliveries != [] {
      var front := deliveries[..|deliveries| - 1];
      AcceptedExactly(front, lastStreamSequence, q);
      assert forall i :: 0 <= i < |front| ==> front[i] == deliveries[i];
      assert deliveries[|deliveries| - 1].streamSequence == q ==> deliveries[|front|].streamSequence == q;
    }
  }

  method FetchNatsMessages(deliveries: seq<Delivery>, lastStreamSequence: Option<nat>) returns (inbox: Inbox)
    ensures inbox == AcceptAll(deliveries, lastStreamSequence)
  {
    inbox := map[];
    for i := 0 to |deliveries|
      invariant inbox == AcceptAll(deliveries[..i], lastStreamSequence)
    {
      assert deliveries[..i + 1][..i] == deliveries[..i];
      var d := deliveries[i];
      if Falsy(lastStreamSequence) || lastStreamSequence.value < d.streamSequence {
        inbox := inbox[d.streamSequence := d.message];
      }
    }
    assert deliveries[..|deliveries|] == deliveries;
  }

  lemma {:induction false} GreatestExists(keys: set<nat>) returns (m: nat)
    requires keys != {}
    ensures m in keys
    ensures forall k :: k in keys ==> k <= m
  {
    var first: nat :| first in keys;
    m := first;
    if keys != {first} {
      var rest := keys - {first};
      var n := GreatestExists(rest);
      m := if n > first then n else first;
      assert forall k :: k in keys ==> k == first || k in rest;
    }
  }

  function Greatest(keys: set<nat>): (m: nat)
    requires keys != {}
    ensures m in keys && forall k :: k in keys ==> k <= m
  {
    assert exists m :: m in keys && forall k :: k in keys ==> k <= m by {
      var m := GreatestExists(keys);
    }
    var m :| m in keys && forall k :: k in keys ==> k <= m;
    m
  }

  /** `Object.values` enumerates integer keys in ascending order. */
  function AscendingKeys(keys: set<nat>): seq<nat> {
    if keys == {} then [] else AscendingKeys(keys - {Greatest(keys)}) + [Greatest(keys)]
  }

  lemma {:induction false} AscendingKeysAscend(keys: set<nat>)
    ensures forall k :: k in AscendingKeys(keys) <==> k in keys
    ensures forall i, j :: 0 <= i < j < |AscendingKeys(keys)| ==> AscendingKeys(keys)[i] < AscendingKeys(keys)[j]
  {
    if keys != {} {
      AscendingKeysAscend(keys - {Greatest(keys)});
      var front := AscendingKeys(keys - {Greatest(keys)});
      forall i | 0 <= i < |front| ensures front[i] < Greatest(keys) {
        assert front[i] in front;
      }
    }
  }

  /** `fromNatsMessage` over the messages in order, without those it returns null for. */
  function Parse(inbox: Inbox, keys: seq<nat>): Result<seq<FetchedRecord>, Error>
    requires forall k :: k in keys ==> k in inbox
  {
    if keys == [] then Success([])
    else
      match Parse(inbox, keys[..|keys| - 1])
      case Failure(e) => Failure(e)
      case Success(front) =>
        var last := keys[|keys| - 1];
        match FromNatsMessage(inbox[last], last)
        case Failure(e) => Failure(e)
        case Success(None) => Success(front)
        case Success(Some(r)) => Success(front + [r])
  }

  function Parsed(inbox: Inbox): Result<seq<FetchedRecord>, Error> {
    AscendingKeysAscend(inbox.Keys);
    Parse(inbox, AscendingKeys(inbox.Keys))
  }

  // ---------------------------------------------------------------------------------------------
  // Persisting
  // ---------------------------------------------------------------------------------------------

  function Least(a: nat, b: nat): nat {
    if a < b then a else b
  }

  /** `array.slice(from, to)`. */
  function Slice<T>(s: seq<T>, from: nat, to: nat): seq<T>
    requires from <= to
  {
    s[Least(from, |s|)..Least(to, |s|)]
  }

  /** `Math.ceil(length / size)`. */
  function Pieces(length: nat, size: nat): nat
    requires size > 0
  {
    (length + size - 1) / size
  }

  function Chunk<T>(s: seq<T>, size: nat): seq<seq<T>>
    requires size > 0
  {
    seq(Pieces(|s|, size), i requires 0 <= i => Slice(s, size * i, size + size * i))
  }

  function Flatten<T>(pieces: seq<seq<T>>): seq<T> {
    if pieces == [] then [] else Flatten(pieces[..|pieces| - 1]) + pieces[|pieces| - 1]
  }

  lemma PiecesBound(length: nat, size: nat)
    requires size > 0
    ensures
      var n := Pieces(length, size);
      && (n > 0 ==> size * (n - 1) < length)
      && length <= size * n
  {
  }

  lemma Before(size: nat, i: nat, n: nat)
    requires i < n
    ensures size * i <= size * (n - 1)
    ensures size + size * i == size * (i + 1)
  {
  }

  lemma {:induction false} ChunkPrefix<T>(s: seq<T>, size: nat, k: nat)
    requires size > 0 && k <= Pieces(|s|, size)
    ensures Flatten(Chunk(s, size)[..k]) == s[..Least(size * k, |s|)]
    decreases k
  {
    if k > 0 {
      var pieces := Chunk(s, size);
      ChunkPrefix(s, size, k - 1);
      Before(size, k - 1, k);
      assert pieces[..k][..k - 1] == pieces[..k - 1];
      assert pieces[k - 1] == Slice(s, size * (k - 1), size * k);
    }
  }

  /** The pieces concatenate to the input; none is empty or exceeds the batch size, and all but the last have it. */
  lemma ChunksCover<T>(s: seq<T>, size: nat)
    requires size > 0
    ensures Flatten(Chunk(s, size)) == s
    ensures forall i :: 0 <= i < |Chunk(s, size)| ==> 0 < |Chunk(s, size)[i]| <= size
    ensures forall i :: 0 <= i < |Chunk(s, size)| - 1 ==> |Chunk(s, size)[i]| == size
  {
    var pieces := Chunk(s, size);
    PiecesBound(|s|, size);
    ChunkPrefix(s, size, |pieces|);
    assert pieces[..|pieces|] == pieces;
    forall i | 0 <= i < |pieces| ensures 0 < |pieces[i]| <= size && (i < |pieces| - 1 ==> |pieces[i]| == size) {
      Before(size, i, |pieces|);
      if i < |pieces| - 1 {
        Before(size, i + 1, |pieces|);
      }
    }
  }

  lemma OneMoreBatch(rows: seq<ChangeAttributes>, batches: seq<seq<FetchedRecord>>, i: nat)
    requires i < |batches|
    ensures InsertAll(InsertAll(rows, Flatten(batches[..i])), batches[i]) == InsertAll(rows, Flatten(batches[..i + 1]))
  {
    assert batches[..i + 1][..i] == batches[..i];
    InsertAllConcat(rows, Flatten(batches[..i]), batches[i]);
  }

  /**
   `persistFetchedRecords`: batch after batch until one fails, which leaves the batches before it
   inserted. `failing` is the batch the database rejects, if there is one.
   */
  method PersistFetchedRecords(table: Table, fetchedRecords: seq<FetchedRecord>, insertBatchSize: nat, failing: Option<nat>)
    returns (saved: bool)
    requires insertBatchSize > 0
    modifies table
    ensures saved <==> failing.None? || failing.value >= |Chunk(fetchedRecords, insertBatchSize)|
    ensures saved ==> table.rows == InsertAll(old(table.rows), fetchedRecords)
    ensures !saved ==>
      table.rows == InsertAll(old(table.rows), Flatten(Chunk(fetchedRecords, insertBatchSize)[..failing.value]))
  {
    var batches := Chunk(fetchedRecords, insertBatchSize);
    for i := 0 to |batches|
      invariant failing.Some? ==> i <= failing.value
      invariant table.rows == InsertAll(old(table.rows), Flatten(batches[..i]))
    {
      if failing == Some(i) {
        return false;
      }
      OneMoreBatch(old(table.rows), batches, i);
      table.InsertIgnoringConflicts(batches[i]);
    }
    ChunksCover(fetchedRecords, insertBatchSize);
    assert batches[..|batches|] == batches;
    saved := true;
  }

  // ---------------------------------------------------------------------------------------------
  // The loop body
  // ---------------------------------------------------------------------------------------------

  datatype Config = Config(stitching: Settings, insertBatchSize: nat, ignoreFields: seq<string>)

  /** The deployed worker: `useBuffer` keeps its default. */
  function WorkerConfig(ignoreFields: seq<string>): (c: Config)
    ensures c == Config(Settings(false, 1000), 100, ignoreFields)
  {
    Config(Settings(false, ORPHAN_CONTEXT_SEQUENCE_GAP), 100, ignoreFields)
  }

  datatype Memory = Memory(lastStreamSequence: Option<nat>, fetchedRecordBuffer: FetchedRecordBuffer)

  const BOOTED := Memory(None, EMPTY)

  datatype Turn = Turn(memory: Memory, released: seq<FetchedRecord>, kept: seq<FetchedRecord>, ack: Option<nat>)

  function TrackLast(lastStreamSequence: Option<nat>, inbox: Inbox): Option<nat> {
    if inbox == map[] then lastStreamSequence
    else if Falsy(lastStreamSequence) || Greatest(inbox.Keys) > lastStreamSequence.value then Some(Greatest(inbox.Keys))
    else lastStreamSequence
  }

  /** From a completed fetch to what is to be persisted and acked. */
  function TakeTurn(c: Config, m: Memory, inbox: Inbox): Result<Turn, Error> {
    match Parsed(inbox)
    case Failure(e) => Failure(e)
    case Success(records) =>
      var stitched := Stitch(c.stitching, m.fetchedRecordBuffer.AddAll(records));
      Success(Turn(Memory(TrackLast(m.lastStreamSequence, inbox), stitched.buffer),
                   stitched.released, FilterEmptyChanges(stitched.released, c.ignoreFields).0, stitched.ack))
  }

  /** The ack is sent only if it names a message of the fetch. */
  predicate Sent(ack: Option<nat>, inbox: Inbox) {
    !Falsy(ack) && ack.value in inbox
  }

  /** How a turn ended: acked this message, acked nothing, or threw. */
  datatype Ending = Acked(streamSequence: nat) | NotAcked | Threw

  class IngestionLoop {
    var lastStreamSequence: Option<nat>
    var fetchedRecordBuffer: FetchedRecordBuffer
    const config: Config

    constructor (config: Config)
      ensures this.config == config && lastStreamSequence == None && fetchedRecordBuffer == EMPTY
    {
      this.config := config;
      lastStreamSequence, fetchedRecordBuffer := None, EMPTY;
    }

    ghost function Remembers(): Memory
      reads this
    {
      Memory(lastStreamSequence, fetchedRecordBuffer)
    }

    /** The body of `while (true)`, given what the consumer delivered and which batch fails, if any. */
    method RunOnce(table: Table, deliveries: seq<Delivery>, failing: Option<nat>) returns (ending: Ending)
      requires config.insertBatchSize > 0
      modifies this, table
      ensures
        var inbox := AcceptAll(deliveries, old(lastStreamSequence));
        match TakeTurn(config, old(Remembers()), inbox)
        case Failure(_) => ending == Threw && table.rows == old(table.rows)
        case Success(turn) =>
          var batches := Chunk(turn.kept, config.insertBatchSize);
          if failing.Some? && failing.value < |batches| then
            && ending == Threw
            && table.rows == InsertAll(old(table.rows), Flatten(batches[..failing.value]))
          else
            && table.rows == InsertAll(old(table.rows), turn.kept)
            && Remembers() == turn.memory
            && ending == if turn.ack.Some? && turn.ack.value != 0 && turn.ack.value in inbox
                         then Acked(turn.ack.value) else NotAcked
    {
      var inbox := FetchNatsMessages(deliveries, lastStreamSequence);
      ghost var before := Remembers();
      lastStreamSequence := TrackLast(lastStreamSequence, inbox);
      var parsed := Parsed(inbox);
      if parsed.Failure? {
        return Threw;
      }
      var buffered := AddFetchedRecords(fetchedRecordBuffer, parsed.value);
      var stitched, newBuffer, ack :=
        StitchFetchedRecords(buffered, config.stitching.useBuffer, config.stitching.orphanContextSequenceGap);
      fetchedRecordBuffer := newBuffer;
      var kept := FilterEmptyChanges(stitched, config.ignoreFields).0;
      assert TakeTurn(config, before, inbox).value == Turn(Remembers(), stitched, kept, ack);
      if |kept| != 0 {
        var saved := PersistFetchedRecords(table, kept, config.insertBatchSize, failing);
        if !saved {
          return Threw;
        }
      } else {
        assert Chunk(kept, config.insertBatchSize) == [] by { NoPieces(config.insertBatchSize); }
      }
      if Sent(ack, inbox) {
        return Acked(ack.value);
      }
      return NotAcked;
    }
  }

  lemma NoPieces(size: nat)
    requires size > 0
    ensures Pieces(0, size) == 0
  {
  }
}
