/** Dropping updates that touched nothing but ignored fields. */
module CaptureFilter {
  import opened FetchedRecords

  /** The image as a partial map: what `JSON.stringify` would see outside the ignored fields. */
  function Outside(image: Image, ignoreFields: seq<string>): Image {
    map key | key in image && key !in ignoreFields && image[key] != Undefined :: image[key]
  }

  /** An update whose two images agree as partial maps once the ignored fields are taken away. */
  predicate IsEmpty(changeAttributes: ChangeAttributes, ignoreFields: seq<string>) {
    && ignoreFields != []
    && changeAttributes.operation == Update
    && changeAttributes.before != map[]
    && Outside(changeAttributes.before, ignoreFields) == Outside(changeAttributes.after, ignoreFields)
  }

  lemma OutsideEqualFieldwise(before: Image, after: Image, ignoreFields: seq<string>)
    ensures Outside(before, ignoreFields) == Outside(after, ignoreFields) <==>
      forall key :: (key in before || key in after) && key !in ignoreFields ==> Side(before, key) == Side(after, key)
  {
    var b, a := Outside(before, ignoreFields), Outside(after, ignoreFields);
    assert forall key :: key !in ignoreFields ==> Side(b, key) == Side(before, key) && Side(a, key) == Side(after, key);
    if forall key :: (key in before || key in after) && key !in ignoreFields ==> Side(before, key) == Side(after, key) {
      assert forall key :: key in b <==> key in a;
    }
  }

  /** The field loop with its early return. */
  method AllUnchanged(fields: set<string>, before: Image, after: Image) returns (same: bool)
    ensures same <==> forall key :: key in fields ==> Side(before, key) == Side(after, key)
  {
    var todo := fields;
    while todo != {}
      invariant todo <= fields
      invariant forall key :: key in fields && key !in todo ==> Side(before, key) == Side(after, key)
      decreases todo
    {
      var field :| field in todo;
      if Side(before, field) != Side(after, field) {
        return false;
      }
      todo := todo - {field};
    }
    return true;
  }

  /** `isEmptyChange`, told by the fields: an absent one is undefined on its side. */
  method IsEmptyChange(changeAttributes: ChangeAttributes, ignoreFields: seq<string>) returns (empty: bool)
    ensures empty <==> IsEmpty(changeAttributes, ignoreFields)
    ensures empty <==>
      && ignoreFields != [] && changeAttributes.operation == Update && changeAttributes.before != map[]
      && forall key :: key !in ignoreFields ==> Side(changeAttributes.before, key) == Side(changeAttributes.after, key)
  {
    if |ignoreFields| == 0 {
      return false;
    }
    if changeAttributes.operation != Update {
      return false;
    }
    var before, after := changeAttributes.before, changeAttributes.after;
    if |before.Keys| == 0 {
      assert before == map[];
      return false;
    }
    var fields := before.Keys + after.Keys;
    for i := 0 to |ignoreFields|
      invariant fields == set key | key in before.Keys + after.Keys && key !in ignoreFields[..i]
    {
      fields := fields - {ignoreFields[i]};
    }
    assert ignoreFields[..|ignoreFields|] == ignoreFields;
    assert before != map[];
    OutsideEqualFieldwise(before, after, ignoreFields);
    empty := AllUnchanged(fields, before, after);
  }

  /** A kept record is one of those given that is not an update, or has no before-image, or differs in some field. */
  lemma KeptFieldwise(fetchedRecords: seq<FetchedRecord>, ignoreFields: seq<string>, r: FetchedRecord)
    requires ignoreFields != []
    ensures r in FilterEmptyChanges(fetchedRecords, ignoreFields).0 <==>
      && r in fetchedRecords
      && (|| r.changeAttributes.operation in {Create, Delete, Truncate, Message}
          || r.changeAttributes.before == map[]
          || exists key ::
               key !in ignoreFields && Side(r.changeAttributes.before, key) != Side(r.changeAttributes.after, key))
  {
    KeptMember(fetchedRecords, ignoreFields, r);
    OutsideEqualFieldwise(r.changeAttributes.before, r.changeAttributes.after, ignoreFields);
  }

  function Kept(fetchedRecords: seq<FetchedRecord>, ignoreFields: seq<string>): seq<FetchedRecord> {
    if fetchedRecords == [] then []
    else
      var last := fetchedRecords[|fetchedRecords| - 1];
      Kept(fetchedRecords[..|fetchedRecords| - 1], ignoreFields)
      + if IsEmpty(last.changeAttributes, ignoreFields) then [] else [last]
  }

  /** `filterEmptyChanges`. */
  function FilterEmptyChanges(fetchedRecords: seq<FetchedRecord>, ignoreFields: seq<string>): (seq<FetchedRecord>, int) {
    if ignoreFields == [] then (fetchedRecords, 0)
    else
      var kept := Kept(fetchedRecords, ignoreFields);
      (kept, |fetchedRecords| - |kept|)
  }

  lemma {:induction false} NothingIgnoredKeepsAll(fetchedRecords: seq<FetchedRecord>)
    ensures Kept(fetchedRecords, []) == fetchedRecords
  {
    if fetchedRecords != [] {
      NothingIgnoredKeepsAll(fetchedRecords[..|fetchedRecords| - 1]);
    }
  }

  lemma {:induction false} KeptMember(fetchedRecords: seq<FetchedRecord>, ignoreFields: seq<string>, record: FetchedRecord)
    ensures record in Kept(fetchedRecords, ignoreFields) <==>
      record in fetchedRecords && !IsEmpty(record.changeAttributes, ignoreFields)
  {
    if fetchedRecords != [] {
      var front, last := fetchedRecords[..|fetchedRecords| - 1], fetchedRecords[|fetchedRecords| - 1];
      KeptMember(front, ignoreFields, record);
      assert record in fetchedRecords <==> record in front || record == last;
    }
  }

  /** The records dropped, in order: the complement the count reports. */
  ghost function Skipped(fetchedRecords: seq<FetchedRecord>, ignoreFields: seq<string>): seq<FetchedRecord> {
    if fetchedRecords == [] then []
    else
      var last := fetchedRecords[|fetchedRecords| - 1];
      Skipped(fetchedRecords[..|fetchedRecords| - 1], ignoreFields)
      + if IsEmpty(last.changeAttributes, ignoreFields) then [last] else []
  }

  /** Order survives: filtering a concatenation concatenates what each part keeps. */
  lemma {:induction false} KeptConcat(a: seq<FetchedRecord>, b: seq<FetchedRecord>, ignoreFields: seq<string>)
    ensures Kept(a + b, ignoreFields) == Kept(a, ignoreFields) + Kept(b, ignoreFields)
  {
    if b == [] {
      assert a + b == a;
    } else {
      KeptConcat(a, b[..|b| - 1], ignoreFields);
      assert (a + b)[..|a + b| - 1] == a + b[..|b| - 1];
    }
  }

  /** Nothing is invented, duplicated or lost, and the count is the number dropped. */
  lemma {:induction false} FilterPartitions(fetchedRecords: seq<FetchedRecord>, ignoreFields: seq<string>)
    ensures
      var (kept, skippedCount) := FilterEmptyChanges(fetchedRecords, ignoreFields);
      && multiset(kept) + multiset(Skipped(fetchedRecords, ignoreFields)) == multiset(fetchedRecords)
      && skippedCount == |Skipped(fetchedRecords, ignoreFields)|
      && forall record :: record in kept <==>
           record in fetchedRecords && !IsEmpty(record.changeAttributes, ignoreFields)
  {
    if ignoreFields == [] {
      NothingIgnoredKeepsAll(fetchedRecords);
    }
    KeptAndSkipped(fetchedRecords, ignoreFields);
    forall record
      ensures record in Kept(fetchedRecords, ignoreFields) <==>
        record in fetchedRecords && !IsEmpty(record.changeAttributes, ignoreFields)
    {
      KeptMember(fetchedRecords, ignoreFields, record);
    }
  }

  lemma {:induction false} KeptAndSkipped(fetchedRecords: seq<FetchedRecord>, ignoreFields: seq<string>)
    ensures multiset(Kept(fetchedRecords, ignoreFields)) + multiset(Skipped(fetchedRecords, ignoreFields))
      == multiset(fetchedRecords)
    ensures |Kept(fetchedRecords, ignoreFields)| + |Skipped(fetchedRecords, ignoreFields)| == |fetchedRecords|
    decreases |fetchedRecords|
  {
    if fetchedRecords != [] {
      var front, last := fetchedRecords[..|fetchedRecords| - 1], fetchedRecords[|fetchedRecords| - 1];
      KeptAndSkipped(front, ignoreFields);
      assert fetchedRecords == front + [last];
      OneMoreEither(Kept(front, ignoreFields), Skipped(front, ignoreFields), front, last);
      LastKeptOrSkipped(fetchedRecords, ignoreFields);
    }
  }

  lemma LastKeptOrSkipped(s: seq<FetchedRecord>, ignoreFields: seq<string>)
    requires s != []
    ensures
      var front, last := s[..|s| - 1], s[|s| - 1];
      if IsEmpty(last.changeAttributes, ignoreFields)
      then Kept(s, ignoreFields) == Kept(front, ignoreFields) + [] && Skipped(s, ignoreFields) == Skipped(front, ignoreFields) + [last]
      else Kept(s, ignoreFields) == Kept(front, ignoreFields) + [last] && Skipped(s, ignoreFields) == Skipped(front, ignoreFields) + []
  {
  }

  lemma OneMoreEither<T>(a: seq<T>, b: seq<T>, c: seq<T>, x: T)
    requires multiset(a) + multiset(b) == multiset(c)
    ensures multiset(a + [x]) + multiset(b + []) == multiset(c + [x])
    ensures multiset(a + []) + multiset(b + [x]) == multiset(c + [x])
  {
  }

  /** The decision reads only the operation and the images, so attaching a context cannot change it. */
  lemma FilterIgnoresContext(record: FetchedRecord, context: Context, ignoreFields: seq<string>)
    ensures IsEmpty(record.SetContext(context).changeAttributes, ignoreFields)
      == IsEmpty(record.changeAttributes, ignoreFields)
  {
  }

  /** A value only one side was sent never by itself keeps an update: ignoring its key changes nothing. */
  lemma NormalisedKeyIsNeutral(before: Image, after: Image, key: string, ignoreFields: seq<string>)
    requires ignoreFields != []
    requires key in before && (Missing(before[key]) || Missing(Side(after, key)))
    ensures
      var b, a := NormalBefore(before, after), NormalAfter(before, after);
      Outside(b, ignoreFields) == Outside(a, ignoreFields)
      <==> Outside(b, ignoreFields + [key]) == Outside(a, ignoreFields + [key])
  {
    var b, a := NormalBefore(before, after), NormalAfter(before, after);
    NormalisationEqualises(before, after, key);
    OutsideEqualFieldwise(b, a, ignoreFields);
    OutsideEqualFieldwise(b, a, ignoreFields + [key]);
  }
}
