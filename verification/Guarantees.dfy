/**
 What the pipeline promises, told by the messages and the rows alone: by what a message is read as, the
 columns of a row, and where the stream begins and is acked.
 */
module Guarantees {
  import opened Wrappers
  import opened FetchedRecords
  import opened CaptureFilter
  import opened AuditTable
  import opened Ingestion
  import opened Pipeline
  import opened Safety
  import opened Attribution
  import opened Progress

  /** What the worker reads of the p-th message accepted, if it gets to see it. */
  ghost predicate ReadAt(w: World, p: int, r: FetchedRecord) {
    && 0 <= p < |w.log| && w.log[p].subject in w.subjects
    && FromNatsMessage(w.log[p], p + 1) == Success(Some(r))
  }

  lemma ReadIsRecord(w: World, p: int, r: FetchedRecord)
    requires 0 <= p < |w.log| && w.log[p].subject in w.subjects && FromNatsMessage(w.log[p], p + 1) == Success(Some(r))
    ensures IsRecord(w, p) && RecordAt(w, p) == r
    ensures IsSavableAt(w, p) <==> r.changeAttributes.operation == Message ==> r.messagePrefix == Unset
  {
  }

  /** Messages with one key on the five columns carry one change. */
  ghost predicate OneChangePerKey(w: World) {
    forall p, q, a, b |
      && ReadAt(w, p, a) && ReadAt(w, q, b) && a.IsSavable() && b.IsSavable()
      && a.changeAttributes.position == b.changeAttributes.position
      && a.changeAttributes.table == b.changeAttributes.table && a.changeAttributes.schema == b.changeAttributes.schema
      && a.changeAttributes.database == b.changeAttributes.database
      && a.changeAttributes.operation == b.changeAttributes.operation
    :: a.changeAttributes == b.changeAttributes && a.subject == b.subject
  }

  lemma KeysAreTold(w: World)
    ensures OneChangePerKey(w) <==> KeysTellApart(w)
  {
    if OneChangePerKey(w) {
      forall p, q | IsSavableAt(w, p) && IsSavableAt(w, q)
                    && KeyOf(RecordAt(w, p).changeAttributes) == KeyOf(RecordAt(w, q).changeAttributes)
        ensures RecordAt(w, p).changeAttributes == RecordAt(w, q).changeAttributes
        ensures RecordAt(w, p).subject == RecordAt(w, q).subject
      {
        KeysDecide(RecordAt(w, p).changeAttributes, RecordAt(w, q).changeAttributes);
        assert ReadAt(w, p, RecordAt(w, p)) && ReadAt(w, q, RecordAt(w, q));
      }
    }
    if KeysTellApart(w) {
      forall p, q, a, b | ReadAt(w, p, a) && ReadAt(w, q, b) && a.IsSavable() && b.IsSavable()
                          && a.changeAttributes.position == b.changeAttributes.position
                          && a.changeAttributes.table == b.changeAttributes.table
                          && a.changeAttributes.schema == b.changeAttributes.schema
                          && a.changeAttributes.database == b.changeAttributes.database
                          && a.changeAttributes.operation == b.changeAttributes.operation
        ensures a.changeAttributes == b.changeAttributes && a.subject == b.subject
      {
        ReadIsRecord(w, p, a);
        ReadIsRecord(w, q, b);
        KeysDecide(a.changeAttributes, b.changeAttributes);
      }
    }
  }

  /**
   In every state of every run, whatever crashed: a change that was accepted is in the table but for its
   context, or is an update that differs in no field but ignored ones, or is in the stream, neither purged
   nor acked.
   */
  lemma NoChangeIsLost(w: World, steps: seq<Step>, s: State, p: nat, r: FetchedRecord)
    requires OneChangePerKey(w) && Run(w, Initial(), steps) == Some(s)
    requires p < s.published && p < |w.log| && w.log[p].subject in w.subjects
    requires FromNatsMessage(w.log[p], p + 1) == Success(Some(r))
    requires r.changeAttributes.operation == Message ==> r.messagePrefix == Unset
    ensures
      || (exists row :: row in s.rows && row.(context := "{}") == r.changeAttributes.(context := "{}"))
      || (&& w.config.ignoreFields != []
          && r.changeAttributes.operation == Update && r.changeAttributes.before != map[]
          && forall key :: key !in w.config.ignoreFields ==>
               Side(r.changeAttributes.before, key) == Side(r.changeAttributes.after, key))
      || (s.base <= p && s.first <= p - s.base + 1 && s.floor < p - s.base + 1)
  {
    KeysAreTold(w);
    ReadIsRecord(w, p, r);
    NothingIsLost(w, steps, s, p);
    OutsideEqualFieldwise(r.changeAttributes.before, r.changeAttributes.after, w.config.ignoreFields);
  }

  /** A message that cannot be read is in the stream, neither purged nor acked. */
  lemma NoUnreadableIsLost(w: World, steps: seq<Step>, s: State, p: nat)
    requires OneChangePerKey(w) && Run(w, Initial(), steps) == Some(s)
    requires p < s.published && p < |w.log| && w.log[p].subject in w.subjects
    requires FromNatsMessage(w.log[p], p + 1).Failure?
    ensures s.base <= p && s.first <= p - s.base + 1 && s.floor < p - s.base + 1
  {
    KeysAreTold(w);
    NothingIsLost(w, steps, s, p);
  }

  /**
   In every state of every run, whatever the keys: a row is an accepted change but for its context, which
   is none or that of an accepted context message of the same subject and transaction, and it was not to
   be dropped.
   */
  lemma EveryRowIsAChange(w: World, steps: seq<Step>, s: State, row: ChangeAttributes)
    returns (p: nat, r: FetchedRecord)
    requires Run(w, Initial(), steps) == Some(s) && row in s.rows
    ensures p < s.published && p < |w.log| && w.log[p].subject in w.subjects
    ensures FromNatsMessage(w.log[p], p + 1) == Success(Some(r))
    ensures r.changeAttributes.operation == Message ==> r.messagePrefix == Unset
    ensures row.(context := "{}") == r.changeAttributes.(context := "{}")
    ensures row.context == "{}" || exists q, c ::
      q < s.published && ContextAt(w, r, q, c) && row.context == c.changeAttributes.context
    ensures
      || w.config.ignoreFields == [] || r.changeAttributes.operation != Update || r.changeAttributes.before == map[]
      || exists key :: key !in w.config.ignoreFields
           && Side(r.changeAttributes.before, key) != Side(r.changeAttributes.after, key)
  {
    NeverWronglyAttributed(w, steps, s, row);
    p :| MadeFrom(w, s.published, row, p);
    r := RecordAt(w, p);
    ReadIsRecord(w, p, r);
    OutsideEqualFieldwise(r.changeAttributes.before, r.changeAttributes.after, w.config.ignoreFields);
    if row.context != "{}" {
      var q :| 0 <= q < s.published && ContextFor(w, p, q) && RecordAt(w, q).Context() == row.context;
      assert ContextAt(w, r, q, RecordAt(w, q));
    }
  }

  /**
   When contexts come first and every turn ends well, a row carries the context of the context message of
   its subject and transaction that comes first in the whole log, or none if there is none.
   */
  lemma RowCarriesFirstContext(w: World, steps: seq<Step>, s: State, row: ChangeAttributes)
    returns (p: int, r: FetchedRecord)
    requires Setting(w) && TurnsEndWell(w, Initial(), steps)
    requires Run(w, Initial(), steps) == Some(s) && row in s.rows
    ensures ReadAt(w, p, r) && row.(context := "{}") == r.changeAttributes.(context := "{}")
    ensures
      if exists q, c :: ContextAt(w, r, q, c)
      then exists q, c :: ContextAt(w, r, q, c) && row.context == c.changeAttributes.context
                          && forall k, x :: ContextAt(w, r, k, x) ==> q <= k
      else row.context == "{}"
  {
    p := AttributionSurvivesCrashes(w, steps, s, row);
    r := RecordAt(w, p);
    ReadIsRecord(w, p, r);
    forall q, c ensures ContextAt(w, r, q, c) <==> ContextFor(w, p, q) && c == RecordAt(w, q) {
      if ContextAt(w, r, q, c) {
        ReadIsRecord(w, q, c);
      }
    }
    if HasContext(w, p) {
      var q :| FirstContextAt(w, p, q) && RecordAt(w, q).Context() == row.context;
      assert ContextAt(w, r, q, RecordAt(w, q));
    }
  }

  /** A context message for the record, at this place of the log. */
  ghost predicate ContextAt(w: World, r: FetchedRecord, q: int, c: FetchedRecord) {
    && ReadAt(w, q, c) && c.changeAttributes.operation == Message && c.messagePrefix == ContextPrefix
    && c.subject == r.subject && c.changeAttributes.transactionId == r.changeAttributes.transactionId
  }

  /** No two rows agree on the five columns of the constraint. */
  lemma NoTwoRowsAgree(w: World, steps: seq<Step>, s: State, i: nat, j: nat)
    requires Run(w, Initial(), steps) == Some(s) && i < j < |s.rows|
    ensures
      || s.rows[i].position != s.rows[j].position || s.rows[i].table != s.rows[j].table
      || s.rows[i].schema != s.rows[j].schema || s.rows[i].database != s.rows[j].database
      || s.rows[i].operation != s.rows[j].operation
  {
    RowsAreOnlyAdded(w, Initial(), steps);
    KeysDecide(s.rows[i], s.rows[j]);
  }

  /**
   And with `useBuffer` off there is a run to the end: if every message can be read, one that accepts the
   whole log and after which each change of it is in the table, or differs in no field but ignored ones.
   */
  lemma EveryChangeCanBeStored(w: World) returns (steps: seq<Step>, s: State)
    requires OneChangePerKey(w) && !w.config.stitching.useBuffer && w.config.insertBatchSize > 0
    requires forall p :: 0 <= p < |w.log| ==> FromNatsMessage(w.log[p], p + 1).Success?
    ensures Run(w, Initial(), steps) == Some(s) && s.published == |w.log|
    ensures forall p, r :: ReadAt(w, p, r) && (r.changeAttributes.operation == Message ==> r.messagePrefix == Unset) ==>
      || (exists row :: row in s.rows && row.(context := "{}") == r.changeAttributes.(context := "{}"))
      || (&& w.config.ignoreFields != []
          && r.changeAttributes.operation == Update && r.changeAttributes.before != map[]
          && forall key :: key !in w.config.ignoreFields ==>
               Side(r.changeAttributes.before, key) == Side(r.changeAttributes.after, key))
    ensures forall p, r :: ReadAt(w, p, r) ==> p < s.base || (p - s.base + 1 <= s.floor && p - s.base + 1 < s.first)
  {
    KeysAreTold(w);
    forall k | 0 <= k < |w.log| ensures FromNatsMessage(w.log[k], 0).Success? {
      SequenceIsALabel(w.log[k], 0, k + 1);
    }
    steps, s := EveryLogCanBeStored(w);
    forall p, r | ReadAt(w, p, r)
      ensures p < s.base || (p - s.base + 1 <= s.floor && p - s.base + 1 < s.first)
      ensures (r.changeAttributes.operation == Message ==> r.messagePrefix == Unset) ==>
        Durable(w, s.rows, p) && RecordAt(w, p) == r
    {
      ReadIsRecord(w, p, r);
      if p >= s.base {
        assert Position(s.base, p - s.base + 1) == p;
      }
    }
    forall p, r | ReadAt(w, p, r) && (r.changeAttributes.operation == Message ==> r.messagePrefix == Unset)
      ensures
        || (exists row :: row in s.rows && row.(context := "{}") == r.changeAttributes.(context := "{}"))
        || (&& w.config.ignoreFields != []
            && r.changeAttributes.operation == Update && r.changeAttributes.before != map[]
            && forall key :: key !in w.config.ignoreFields ==>
                 Side(r.changeAttributes.before, key) == Side(r.changeAttributes.after, key))
    {
      assert Durable(w, s.rows, p) && RecordAt(w, p) == r;
      OutsideEqualFieldwise(r.changeAttributes.before, r.changeAttributes.after, w.config.ignoreFields);
    }
  }
}
