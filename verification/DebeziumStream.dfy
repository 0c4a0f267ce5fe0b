/** Preparing the stream at every boot: created, reused in place, or recreated, never emptied. */
module DebeziumStream {
  import opened Wrappers
  import opened FetchedRecords
  import opened Pipeline
  import opened Safety

  datatype Storage = File | InMemory

  datatype Retention = Limits | Interest | Workqueue

  datatype Discard = DiscardOld | DiscardNew

  datatype StreamConfig = StreamConfig(
    name: string, subjects: seq<string>, retention: Retention, storage: Storage,
    discard: Discard, maxBytes: int, maxAge: int, numReplicas: int)

  /** A stream as the server has it. */
  datatype Stream = Stream(config: StreamConfig, messages: seq<StreamMessage>)

  datatype Outcome = Created | Updated | Recreated | Refused | LookupFailed

  const DEFAULT_STREAM_MAX_BYTES := 1024 * 1024 * 1024
  const DEFAULT_STREAM_MAX_AGE_NS := 0

  function WantedConfig(stream: string, subjects: seq<string>, maxBytes: Option<int>, maxAgeNs: Option<int>): StreamConfig {
    StreamConfig(stream, subjects, Limits, File, DiscardNew,
                 maxBytes.GetOr(DEFAULT_STREAM_MAX_BYTES), maxAgeNs.GetOr(DEFAULT_STREAM_MAX_AGE_NS), 1)
  }

  /** What the server does with an update: name, storage and retention cannot change. */
  function Merged(existing: StreamConfig, wanted: StreamConfig): StreamConfig {
    wanted.(name := existing.name, storage := existing.storage, retention := existing.retention)
  }

  predicate ImmutableChanged(existing: StreamConfig, wanted: StreamConfig) {
    existing.storage != wanted.storage || existing.retention != wanted.retention
  }

  /** The server's side of one stream name. */
  class StreamManager {
    const name: string
    var stream: Option<Stream>

    ghost predicate Valid()
      reads this
    {
      stream.Some? ==> stream.value.config.name == name
    }

    constructor (name: string)
      ensures Valid() && this.name == name && stream == None
    {
      this.name := name;
      stream := None;
    }

    method Add(config: StreamConfig)
      requires stream.None?
      modifies this
      ensures stream == Some(Stream(config, []))
    {
      stream := Some(Stream(config, []));
    }

    method Delete()
      modifies this
      ensures stream.None?
    {
      stream := None;
    }

    method Update(config: StreamConfig)
      requires stream.Some?
      modifies this
      ensures stream == Some(old(stream.value).(config := Merged(old(stream.value.config), config)))
    {
      stream := Some(stream.value.(config := Merged(stream.value.config, config)));
    }

    /**
     `ensureDebeziumStream`; the lookup may fail for another reason than a missing stream. Whatever it
     finds it keeps every message, and it refuses exactly when it could not. When it succeeds the
     settings are in force, and a second boot would change nothing.
     */
    method EnsureDebeziumStream(subjects: seq<string>, maxBytes: Option<int>, maxAgeNs: Option<int>, lookupFails: bool)
      returns (outcome: Outcome)
      requires Valid()
      modifies this
      ensures Valid()
      ensures (outcome, stream) == Ensured(old(stream), WantedConfig(name, subjects, maxBytes, maxAgeNs), lookupFails)
      ensures old(stream).Some? ==> stream.Some? && stream.value.messages == old(stream).value.messages
      ensures old(stream).None? && stream.Some? ==> stream.value.messages == []
      ensures outcome in {Refused, LookupFailed} ==> stream == old(stream)
      ensures outcome == Refused <==>
        && !lookupFails && old(stream).Some? && old(stream).value.messages != []
        && (old(stream).value.config.storage != File || old(stream).value.config.retention != Limits)
      ensures outcome == LookupFailed <==> lookupFails
      ensures outcome == Created <==> !lookupFails && old(stream).None?
      ensures outcome == Updated <==>
        && !lookupFails && old(stream).Some?
        && old(stream).value.config.storage == File && old(stream).value.config.retention == Limits
      ensures outcome !in {Refused, LookupFailed} ==>
        && stream.Some?
        && stream.value.config == StreamConfig(
             name, subjects, Limits, File, DiscardNew,
             if maxBytes.Some? then maxBytes.value else 1073741824, if maxAgeNs.Some? then maxAgeNs.value else 0, 1)
        && Ensured(stream, WantedConfig(name, subjects, maxBytes, maxAgeNs), false) == (Updated, stream)
    {
      var wanted := WantedConfig(name, subjects, maxBytes, maxAgeNs);
      if lookupFails {
        return LookupFailed;
      }
      BootSettles(stream, wanted);
      if stream.None? {
        Add(wanted);
        return Created;
      }
      var existing := stream.value;
      if existing.config.storage != wanted.storage || existing.config.retention != wanted.retention {
        if |existing.messages| > 0 {
          return Refused;
        }
        Delete();
        Add(wanted);
        return Recreated;
      }
      Update(wanted);
      return Updated;
    }
  }

  /** The outcome, and the stream afterwards. */
  function Ensured(stream: Option<Stream>, wanted: StreamConfig, lookupFails: bool): (Outcome, Option<Stream>) {
    if lookupFails then (LookupFailed, stream)
    else
      match stream
      case None => (Created, Some(Stream(wanted, [])))
      case Some(existing) =>
        if !ImmutableChanged(existing.config, wanted)
        then (Updated, Some(existing.(config := Merged(existing.config, wanted))))
        else if existing.messages == [] then (Recreated, Some(Stream(wanted, [])))
        else (Refused, stream)
  }

  /** After a boot that succeeds the settings are in force, and booting again changes nothing. */
  lemma BootSettles(stream: Option<Stream>, wanted: StreamConfig)
    requires stream.Some? ==> stream.value.config.name == wanted.name
    ensures
      var (outcome, stream') := Ensured(stream, wanted, false);
      outcome != Refused ==>
        stream'.Some? && stream'.value.config == wanted && Ensured(stream', wanted, false) == (Updated, stream')
  {
  }

  // ---------------------------------------------------------------------------------------------
  // The step of the pipeline
  // ---------------------------------------------------------------------------------------------

  /** What the current stream holds: accepted since it was created and not purged. */
  ghost function Contents(w: World, s: State): seq<StreamMessage>
    requires Shape(w, s)
  {
    w.log[s.base + s.first - 1..s.published]
  }

  /** A boot recreates the stream only in a state where the pipeline may, and loses nothing by it. */
  lemma RecreatingIsSafe(w: World, steps: seq<Step>, s: State, config: StreamConfig, wanted: StreamConfig, p: nat)
    requires KeysTellApart(w) && Reaches(w, steps, s) && Shape(w, s)
    requires Ensured(Some(Stream(config, Contents(w, s))), wanted, false).0 == Recreated
    ensures Enabled(w, s, Recreate)
    ensures p < s.published && Wanted(w, p) ==> Durable(w, s.rows, p)
  {
    assert |Contents(w, s)| == s.published - (s.base + s.first - 1);
    if p < s.published && Wanted(w, p) {
      NothingIsLost(w, steps, s, p);
    }
  }

  /** Accepted and to be kept, and now neither durable nor in the stream. */
  ghost predicate Lost(w: World, s: State, p: int) {
    0 <= p < s.published && Wanted(w, p) && !Durable(w, s.rows, p) && !InStream(s, p)
  }

  /** Everything accepted from n on is durable, as far as it is to be kept. */
  ghost predicate DurableFrom(w: World, s: State, n: int) {
    forall p :: n <= p < s.published && Wanted(w, p) ==> Durable(w, s.rows, p)
  }

  lemma DurableBefore(w: World, steps: seq<Step>, seen: State, later: seq<Step>, s: State, p: nat)
    requires KeysTellApart(w) && Reaches(w, steps, seen) && Enabled(w, seen, Recreate)
    requires Run(w, seen, later) == Some(s) && p < seen.published && Wanted(w, p)
    ensures Durable(w, s.rows, p)
  {
    NothingIsLost(w, steps, seen, p);
    RowsAreOnlyAdded(w, seen, later);
  }

  /**
   The boot looks and deletes in two calls. Were the pipeline to go on between them, from the state seen
   to the state s, the deletion would lose nothing if and only if what was published since is durable:
   always, if nothing was.
   */
  lemma LateDeleteLoses(w: World, steps: seq<Step>, seen: State, later: seq<Step>, s: State)
    requires KeysTellApart(w) && Reaches(w, steps, seen) && Enabled(w, seen, Recreate)
    requires Run(w, seen, later) == Some(s)
    ensures (forall p :: !Lost(w, Deleted(s), p)) <==> DurableFrom(w, s, seen.published)
    ensures s.published == seen.published ==> forall p :: !Lost(w, Deleted(s), p)
  {
    forall p | Lost(w, Deleted(s), p) ensures p >= seen.published && !Durable(w, s.rows, p) {
      if p < seen.published {
        DurableBefore(w, steps, seen, later, s, p);
      }
    }
    forall p | seen.published <= p < s.published && Wanted(w, p) && !Durable(w, s.rows, p)
      ensures Lost(w, Deleted(s), p)
    {
    }
  }
}
