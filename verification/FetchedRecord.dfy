/**
 What the worker makes of one stream message: its kind, the record it is stored as, and the
 normalisation of column values the database did not send.
 */
module FetchedRecords {
  import opened Wrappers

  const MESSAGE_PREFIX_CONTEXT := "_bemi"
  const MESSAGE_PREFIX_HEARTBEAT := "_bemi_heartbeat"
  const UNAVAILABLE_VALUE_PLACEHOLDER := "__bemi_unavailable_value"

  /** A column value. Numbers, booleans, nulls and objects are their JSON text. */
  datatype Value = Undefined | Text(text: string) | List(items: seq<Value>) | Json(json: string)

  type Image = map<string, Value>

  /** The application context, as the text of its JSON object. */
  type Context = string

  const EMPTY_CONTEXT: Context := "{}"

  datatype Operation = Create | Update | Delete | Truncate | Message

  /**
   `source` of a Debezium event, with the log sequence number as `position`. A logical message that was
   emitted outside a transaction has no transaction id.
   */
  datatype Source = Source(database: string, schema: string, table: string, transactionId: Option<int>, position: int)

  /** The content of a logical message: the text of its JSON object, falsy JSON, or no JSON at all. */
  datatype Content = JsonObject(context: Context) | FalsyJson | NotJson

  /** The payload of one stream message. Only a logical message carries a prefix and a content. */
  datatype Event =
    | RowEvent(op: char, before: Option<Image>, after: Option<Image>, source: Source)
    | LogicalMessage(prefix: string, content: Content, source: Source)

  datatype StreamMessage = StreamMessage(subject: string, event: Event)

  /** A row of the audit table, less the columns no decision reads. */
  datatype ChangeAttributes = ChangeAttributes(
    operation: Operation, before: Image, after: Image, context: Context,
    database: string, schema: string, table: string, transactionId: int, position: int)

  datatype Prefix = Unset | ContextPrefix | HeartbeatPrefix | ForeignPrefix

  datatype FetchedRecord = FetchedRecord(
    changeAttributes: ChangeAttributes, subject: string, streamSequence: nat, messagePrefix: Prefix)
  {
    predicate IsMessage() {
      changeAttributes.operation == Message
    }

    predicate IsContextMessage()
      ensures IsContextMessage() ==> changeAttributes.operation !in {Create, Update, Delete, Truncate}
    {
      IsMessage() && messagePrefix == ContextPrefix
    }

    predicate IsHeartbeatMessage() {
      IsMessage() && messagePrefix == HeartbeatPrefix
    }

    predicate IsChange()
      ensures IsChange() <==> changeAttributes.operation in {Create, Update, Delete, Truncate}
    {
      !IsMessage()
    }

    /** What ends up in the table: changes, and logical messages without a prefix. */
    predicate IsSavable()
      ensures IsSavable() <==> changeAttributes.operation == Message ==> messagePrefix in {Unset, ForeignPrefix}
    {
      !IsContextMessage() && !IsHeartbeatMessage()
    }

    function TransactionId(): int {
      changeAttributes.transactionId
    }

    function Context(): Context {
      changeAttributes.context
    }

    function SetContext(context: Context): FetchedRecord {
      this.(changeAttributes := changeAttributes.(context := context))
    }
  }

  datatype Error = UnknownOperation | UnavailableValue | MalformedContext | MissingTransaction

  // ---------------------------------------------------------------------------------------------
  // Normalisation
  // ---------------------------------------------------------------------------------------------

  /** `image[key]`, which is undefined for a key that is not there. */
  function Side(image: Image, key: string): Value {
    if key in image then image[key] else Undefined
  }

  /** An array holding the placeholder: the database did not send this value. */
  predicate Missing(value: Value) {
    value.List? && Text(UNAVAILABLE_VALUE_PLACEHOLDER) in value.items
  }

  /** A bare placeholder that no array rule resolves. */
  predicate Irrecoverable(before: Value, after: Value) {
    && !Missing(before) && !Missing(after)
    && (before == Text(UNAVAILABLE_VALUE_PLACEHOLDER) || after == Text(UNAVAILABLE_VALUE_PLACEHOLDER))
  }

  function NormalBefore(before: Image, after: Image): Image {
    map key | key in before :: if Missing(before[key]) then Side(after, key) else before[key]
  }

  function NormalAfter(before: Image, after: Image): Image {
    map key | key in after ::
      if key in before && !Missing(before[key]) && Missing(after[key]) then before[key] else after[key]
  }

  predicate Resolvable(before: Image, after: Image) {
    forall key :: key in before ==> !Irrecoverable(before[key], Side(after, key))
  }

  /** Which side a key ends up with, keyed on the images the loop started from. */
  function Normalised(before: Image, after: Image): Result<(Image, Image), Error> {
    if Resolvable(before, after) then Success((NormalBefore(before, after), NormalAfter(before, after)))
    else Failure(UnavailableValue)
  }

  /** The loop over the before-image's keys, overwriting whichever side was not sent. */
  method Normalise(beforeRaw: Option<Image>, afterRaw: Option<Image>) returns (r: Result<(Image, Image), Error>)
    ensures r == Normalised(beforeRaw.GetOr(map[]), afterRaw.GetOr(map[]))
  {
    var before, after := beforeRaw.GetOr(map[]), afterRaw.GetOr(map[]);
    ghost var b0, a0 := before, after;
    var todo := before.Keys;
    while todo != {}
      invariant todo <= b0.Keys == before.Keys && after.Keys == a0.Keys
      invariant forall key :: key in before ==>
        before[key] == if key in todo then b0[key] else NormalBefore(b0, a0)[key]
      invariant forall key :: key in after ==>
        after[key] == if key in todo then a0[key] else NormalAfter(b0, a0)[key]
      invariant forall key :: key in b0 && key !in todo ==> !Irrecoverable(b0[key], Side(a0, key))
      decreases todo
    {
      var key :| key in todo;
      if Missing(before[key]) {
        before := before[key := Side(after, key)];
      } else if Missing(Side(after, key)) {
        after := after[key := before[key]];
      } else if before[key] == Text(UNAVAILABLE_VALUE_PLACEHOLDER) || Side(after, key) == Text(UNAVAILABLE_VALUE_PLACEHOLDER) {
        assert Irrecoverable(b0[key], Side(a0, key));
        return Failure(UnavailableValue);
      }
      todo := todo - {key};
    }
    assert before == NormalBefore(b0, a0) && after == NormalAfter(b0, a0);
    r := Success((before, after));
  }

  /**
   The two sides of a key agree afterwards exactly when they agreed before or the before-image had
   the key and a side of it was an array that holds the placeholder; every other value is as it was sent.
   */
  lemma NormalisationEqualises(before: Image, after: Image, key: string)
    ensures
      var (b, a) := (Side(before, key), Side(after, key));
      var (noBefore, noAfter) := (b.List? && Text("__bemi_unavailable_value") in b.items,
                                  a.List? && Text("__bemi_unavailable_value") in a.items);
      var (b', a') := (Side(NormalBefore(before, after), key), Side(NormalAfter(before, after), key));
      && (b' == a' <==> b == a || (key in before && (noBefore || noAfter)))
      && (key !in before || !noBefore ==> b' == b)
      && (key !in before || !noAfter || noBefore ==> a' == a)
      && (key in before && key in after && noBefore != noAfter ==> b' == a' == if noBefore then a else b)
  {
    var b, a := NormalBefore(before, after), NormalAfter(before, after);
    assert key in b <==> key in before;
    assert key in a <==> key in after;
  }

  // ---------------------------------------------------------------------------------------------
  // Parsing
  // ---------------------------------------------------------------------------------------------

  function OperationOf(op: char): Result<Operation, Error> {
    match op
    case 'c' => Success(Create)
    case 'u' => Success(Update)
    case 'd' => Success(Delete)
    case 't' => Success(Truncate)
    case _ => Failure(UnknownOperation)
  }

  function Classify(prefix: string): Prefix {
    if prefix == "" then Unset
    else if prefix == MESSAGE_PREFIX_CONTEXT then ContextPrefix
    else if prefix == MESSAGE_PREFIX_HEARTBEAT then HeartbeatPrefix
    else ForeignPrefix
  }

  /** Only a context message's content is parsed; falsy JSON is no context, and a parse error is thrown. */
  function ContextOf(kind: Prefix, content: Content): Result<Context, Error> {
    if kind != ContextPrefix then Success(EMPTY_CONTEXT)
    else
      match content
      case JsonObject(context) => Success(context)
      case FalsyJson => Success(EMPTY_CONTEXT)
      case NotJson => Failure(MalformedContext)
  }

  /** The record; without a transaction id it cannot be buffered, which throws in the turn that read it. */
  function RecordOf(operation: Operation, before: Image, after: Image, context: Context, source: Source,
                    subject: string, streamSequence: nat, kind: Prefix): Result<Option<FetchedRecord>, Error>
  {
    match source.transactionId
    case None => Failure(MissingTransaction)
    case Some(transactionId) =>
      var attributes := ChangeAttributes(operation, before, after, context, source.database, source.schema,
                                         source.table, transactionId, source.position);
      Success(Some(FetchedRecord(attributes, subject, streamSequence, kind)))
  }

  /** `FetchedRecord.fromNatsMessage`: nothing for a foreign prefix, an error where the turn throws. */
  function FromNatsMessage(message: StreamMessage, streamSequence: nat): (r: Result<Option<FetchedRecord>, Error>)
    ensures r.Success? && r.value.Some? ==>
      var record := r.value.value;
      && record.subject == message.subject && record.streamSequence == streamSequence
      && Some(record.TransactionId()) == message.event.source.transactionId
      && record.messagePrefix != ForeignPrefix
      && (!record.IsContextMessage() ==> record.Context() == EMPTY_CONTEXT)
    ensures r == Failure(MalformedContext) <==>
      message.event.LogicalMessage? && Classify(message.event.prefix) == ContextPrefix && message.event.content == NotJson
    ensures r == Success(None) <==> message.event.LogicalMessage? && Classify(message.event.prefix) == ForeignPrefix
  {
    match message.event
    case LogicalMessage(prefix, content, source) =>
      var kind := Classify(prefix);
      if kind == ForeignPrefix then Success(None)
      else
        (match ContextOf(kind, content)
         case Failure(e) => Failure(e)
         case Success(context) =>
           RecordOf(Message, map[], map[], context, source, message.subject, streamSequence, kind))
    case RowEvent(op, before, after, source) =>
      match OperationOf(op)
      case Failure(e) => Failure(e)
      case Success(operation) =>
        match Normalised(before.GetOr(map[]), after.GetOr(map[]))
        case Failure(e) => Failure(e)
        case Success((b, a)) =>
          RecordOf(operation, b, a, EMPTY_CONTEXT, source, message.subject, streamSequence, Unset)
  }

  /** What a row event is read as: its operation, where it happened, and nothing of a message. */
  lemma RowEventIsRead(message: StreamMessage, streamSequence: nat, r: FetchedRecord)
    requires message.event.RowEvent? && FromNatsMessage(message, streamSequence) == Success(Some(r))
    ensures
      var op, a, source := message.event.op, r.changeAttributes, message.event.source;
      && op in {'c', 'u', 'd', 't'}
      && (op == 'c' <==> a.operation == Create) && (op == 'u' <==> a.operation == Update)
      && (op == 'd' <==> a.operation == Delete) && (op == 't' <==> a.operation == Truncate)
      && a.database == source.database && a.schema == source.schema && a.table == source.table
      && a.position == source.position && Some(a.transactionId) == source.transactionId
      && a.context == "{}" && r.messagePrefix == Unset
      && r.subject == message.subject && r.streamSequence == streamSequence
  {
  }

  /**
   What its images are read as, key by key: the before-image keeps its keys and has each value as it was
   sent, or the other side's where an array holds the placeholder; the after-image likewise, but takes
   the other side's only where that was sent.
   */
  lemma RowEventImages(message: StreamMessage, streamSequence: nat, r: FetchedRecord, key: string)
    requires message.event.RowEvent? && FromNatsMessage(message, streamSequence) == Success(Some(r))
    ensures
      var before := if message.event.before.Some? then message.event.before.value else map[];
      var after := if message.event.after.Some? then message.event.after.value else map[];
      && (key in r.changeAttributes.before <==> key in before) && (key in r.changeAttributes.after <==> key in after)
      && (key in before ==>
            r.changeAttributes.before[key] ==
            if before[key].List? && Text("__bemi_unavailable_value") in before[key].items
            then (if key in after then after[key] else Undefined) else before[key])
      && (key in after ==>
            r.changeAttributes.after[key] ==
            if && after[key].List? && Text("__bemi_unavailable_value") in after[key].items
               && key in before && !(before[key].List? && Text("__bemi_unavailable_value") in before[key].items)
            then before[key] else after[key])
  {
  }

  /**
   Exactly which row events can be read: the operation is known, there is a transaction, and no key of the
   before-image has a bare placeholder on a side while neither side is an array that holds one.
   */
  lemma RowEventCanBeRead(message: StreamMessage, streamSequence: nat)
    requires message.event.RowEvent?
    ensures
      var before := if message.event.before.Some? then message.event.before.value else map[];
      var after := if message.event.after.Some? then message.event.after.value else map[];
      FromNatsMessage(message, streamSequence).Success? <==>
        && message.event.op in {'c', 'u', 'd', 't'} && message.event.source.transactionId.Some?
        && forall key :: key in before ==>
             var (b, a) := (before[key], if key in after then after[key] else Undefined);
             || (b.List? && Text("__bemi_unavailable_value") in b.items)
             || (a.List? && Text("__bemi_unavailable_value") in a.items)
             || (b != Text("__bemi_unavailable_value") && a != Text("__bemi_unavailable_value"))
  {
    var before, after := message.event.before.GetOr(map[]), message.event.after.GetOr(map[]);
    assert Resolvable(before, after) <==> forall key :: key in before ==> !Irrecoverable(before[key], Side(after, key));
  }

  /** What a logical message is read as, by its prefix, and when it cannot be. */
  lemma LogicalMessageIsRead(message: StreamMessage, streamSequence: nat)
    requires message.event.LogicalMessage?
    ensures
      var (prefix, content, source) := (message.event.prefix, message.event.content, message.event.source);
      match FromNatsMessage(message, streamSequence)
      case Failure(_) =>
        && prefix in {"_bemi", "_bemi_heartbeat", ""}
        && (source.transactionId.None? || (prefix == "_bemi" && content == NotJson))
      case Success(None) => prefix !in {"_bemi", "_bemi_heartbeat", ""}
      case Success(Some(r)) =>
        && prefix in {"_bemi", "_bemi_heartbeat", ""}
        && (prefix == "_bemi" <==> r.IsContextMessage()) && (prefix == "_bemi_heartbeat" <==> r.IsHeartbeatMessage())
        && (prefix == "" <==> r.IsSavable())
        && (prefix == "_bemi" ==> content != NotJson)
        && r.changeAttributes == ChangeAttributes(
             Message, map[], map[], if prefix == "_bemi" && content.JsonObject? then content.context else "{}",
             source.database, source.schema, source.table, r.changeAttributes.transactionId, source.position)
        && Some(r.changeAttributes.transactionId) == source.transactionId
        && r.subject == message.subject && r.streamSequence == streamSequence
  {
  }

  /** The sequence number is only a label: it decides neither success nor content. */
  lemma SequenceIsALabel(message: StreamMessage, m: nat, n: nat)
    ensures
      match (FromNatsMessage(message, m), FromNatsMessage(message, n))
      case (Success(Some(a)), Success(Some(b))) => a.(streamSequence := n) == b
      case (a, b) => a == b
  {
  }

  // ---------------------------------------------------------------------------------------------
  // Inputs for the examples
  // ---------------------------------------------------------------------------------------------

  /** A logical message, of which the stitcher reads only what is given here. */
  function Logical(prefix: Prefix, subject: string, transactionId: int, sequence: nat): FetchedRecord {
    FetchedRecord(ChangeAttributes(Message, map[], map[], EMPTY_CONTEXT, "", "", "", transactionId, 0), subject, sequence, prefix)
  }
}
