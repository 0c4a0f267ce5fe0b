/** The audit table: rows with a unique key, written by inserts that ignore conflicts. */
module AuditTable {
  import opened FetchedRecords

  datatype Key = Key(position: int, table: string, schema: string, database: string, operation: Operation)

  function KeyOf(row: ChangeAttributes): Key {
    Key(row.position, row.table, row.schema, row.database, row.operation)
  }

  /** The unique constraint: five columns. */
  lemma KeysDecide(a: ChangeAttributes, b: ChangeAttributes)
    ensures KeyOf(a) == KeyOf(b) <==>
      && a.position == b.position && a.table == b.table && a.schema == b.schema && a.database == b.database
      && a.operation == b.operation
  {
  }

  predicate HasKey(rows: seq<ChangeAttributes>, key: Key) {
    exists row :: row in rows && KeyOf(row) == key
  }

  /** `INSERT ... ON CONFLICT DO NOTHING` of one row. */
  function Insert(rows: seq<ChangeAttributes>, row: ChangeAttributes): seq<ChangeAttributes> {
    if HasKey(rows, KeyOf(row)) then rows else rows + [row]
  }

  function InsertAll(rows: seq<ChangeAttributes>, records: seq<FetchedRecord>): seq<ChangeAttributes> {
    if records == [] then rows
    else Insert(InsertAll(rows, records[..|records| - 1]), records[|records| - 1].changeAttributes)
  }

  /** A row is appended if and only if none that is there agrees with it on the five columns. */
  lemma AppendedExactly(rows: seq<ChangeAttributes>, row: ChangeAttributes)
    ensures Insert(rows, row) == rows + [row] <==>
      forall x :: x in rows ==>
        || x.position != row.position || x.table != row.table || x.schema != row.schema || x.database != row.database
        || x.operation != row.operation
    ensures Insert(rows, row) in {rows, rows + [row]}
  {
    forall x | x in rows
      ensures KeyOf(x) != KeyOf(row) <==>
        || x.position != row.position || x.table != row.table || x.schema != row.schema || x.database != row.database
        || x.operation != row.operation
    {
      KeysDecide(x, row);
    }
    assert |rows + [row]| > |rows|;
  }

  /** Two changes that differ in any of the five are both stored. */
  lemma BothAreStored(a: FetchedRecord, b: FetchedRecord)
    requires
      var (x, y) := (a.changeAttributes, b.changeAttributes);
      || x.position != y.position || x.table != y.table || x.schema != y.schema || x.database != y.database
      || x.operation != y.operation
    ensures InsertAll([], [a, b]) == [a.changeAttributes, b.changeAttributes]
  {
    var none: seq<FetchedRecord>, one, two := [], [a], [a, b];
    assert two[..1] == one && one[..0] == none;
    assert InsertAll([], one) == Insert([], a.changeAttributes) && InsertAll([], two) == Insert(InsertAll([], one), b.changeAttributes);
    AppendedExactly([], a.changeAttributes);
    AppendedExactly([a.changeAttributes], b.changeAttributes);
  }

  ghost predicate UniqueKeys(rows: seq<ChangeAttributes>) {
    forall i, j :: 0 <= i < j < |rows| ==> KeyOf(rows[i]) != KeyOf(rows[j])
  }

  /** Existing rows are never altered, moved or removed, and no key is ever stored twice. */
  lemma {:induction false} InsertAllOnlyAppends(rows: seq<ChangeAttributes>, records: seq<FetchedRecord>)
    ensures rows <= InsertAll(rows, records)
    ensures UniqueKeys(rows) ==> UniqueKeys(InsertAll(rows, records))
    decreases |records|
  {
    if records != [] {
      InsertAllOnlyAppends(rows, records[..|records| - 1]);
    }
  }

  lemma InsertKeepsKey(rows: seq<ChangeAttributes>, row: ChangeAttributes, key: Key)
    ensures HasKey(Insert(rows, row), key) <==> HasKey(rows, key) || KeyOf(row) == key
  {
  }

  ghost predicate Carries(records: seq<FetchedRecord>, key: Key) {
    exists r :: r in records && KeyOf(r.changeAttributes) == key
  }

  /** The keys afterwards are the keys before and the keys inserted. */
  lemma {:induction false} InsertAllKeys(rows: seq<ChangeAttributes>, records: seq<FetchedRecord>, key: Key)
    ensures HasKey(InsertAll(rows, records), key) <==> HasKey(rows, key) || Carries(records, key)
    decreases |records|
  {
    if records != [] {
      var front, last := records[..|records| - 1], records[|records| - 1];
      InsertAllKeys(rows, front, key);
      InsertKeepsKey(InsertAll(rows, front), last.changeAttributes, key);
      assert forall r :: r in records <==> r in front || r == last;
    }
  }

  /** A new row is some inserted record, and its key was not there before. */
  lemma {:induction false} InsertAllRows(rows: seq<ChangeAttributes>, records: seq<FetchedRecord>, row: ChangeAttributes)
    requires row in InsertAll(rows, records) && row !in rows
    ensures !HasKey(rows, KeyOf(row))
    ensures exists r :: r in records && r.changeAttributes == row
    decreases |records|
  {
    var front, last := records[..|records| - 1], records[|records| - 1];
    assert forall r :: r in front ==> r in records;
    assert last in records;
    if row in InsertAll(rows, front) {
      InsertAllRows(rows, front, row);
    } else {
      InsertAllKeys(rows, front, KeyOf(row));
    }
  }

  lemma {:induction false} InsertAllConcat(rows: seq<ChangeAttributes>, a: seq<FetchedRecord>, b: seq<FetchedRecord>)
    ensures InsertAll(InsertAll(rows, a), b) == InsertAll(rows, a + b)
    decreases |b|
  {
    if b == [] {
      assert a + b == a;
    } else {
      InsertAllConcat(rows, a, b[..|b| - 1]);
      assert (a + b)[..|a + b| - 1] == a + b[..|b| - 1];
    }
  }

  lemma {:induction false} InsertingKnownKeys(rows: seq<ChangeAttributes>, records: seq<FetchedRecord>)
    requires forall r :: r in records ==> HasKey(rows, KeyOf(r.changeAttributes))
    ensures InsertAll(rows, records) == rows
    decreases |records|
  {
    if records != [] {
      assert forall r :: r in records[..|records| - 1] ==> r in records;
      assert records[|records| - 1] in records;
      InsertingKnownKeys(rows, records[..|records| - 1]);
    }
  }

  /** Replaying from any point already written reaches the very same table as one clean insert. */
  lemma ReplayIsIdempotent(rows: seq<ChangeAttributes>, records: seq<FetchedRecord>, written: nat, resumed: nat)
    requires resumed <= written <= |records|
    ensures InsertAll(InsertAll(rows, records[..written]), records[resumed..]) == InsertAll(rows, records)
  {
    var before := InsertAll(rows, records[..written]);
    var again := records[resumed..written];
    forall r | r in again ensures HasKey(before, KeyOf(r.changeAttributes)) {
      assert r in records[..written];
      InsertAllKeys(rows, records[..written], KeyOf(r.changeAttributes));
    }
    InsertingKnownKeys(before, again);
    assert records[resumed..] == again + records[written..];
    InsertAllConcat(before, again, records[written..]);
    InsertAllConcat(rows, records[..written], records[written..]);
    assert records[..written] + records[written..] == records;
  }

  class Table {
    var rows: seq<ChangeAttributes>

    constructor ()
      ensures rows == []
    {
      rows := [];
    }

    /**
     One statement: it inserts the whole batch. Each record then has a row that agrees with it on the five
     columns of the constraint, and no new row agrees with one before it.
     */
    method InsertIgnoringConflicts(records: seq<FetchedRecord>)
      modifies this
      ensures rows == InsertAll(old(rows), records)
      ensures old(rows) <= rows
      ensures forall r :: r in records ==> exists x ::
        && x in rows && x.position == r.changeAttributes.position && x.table == r.changeAttributes.table
        && x.schema == r.changeAttributes.schema && x.database == r.changeAttributes.database
        && x.operation == r.changeAttributes.operation
      ensures forall i, j :: 0 <= i < j < |rows| && |old(rows)| <= j ==>
        || rows[i].position != rows[j].position || rows[i].table != rows[j].table || rows[i].schema != rows[j].schema
        || rows[i].database != rows[j].database || rows[i].operation != rows[j].operation
    {
      for i := 0 to |records|
        invariant rows == InsertAll(old(rows), records[..i])
        invariant |old(rows)| <= |rows|
        invariant forall k, j :: 0 <= k < j < |rows| && |old(rows)| <= j ==> KeyOf(rows[k]) != KeyOf(rows[j])
      {
        assert records[..i + 1][..i] == records[..i];
        if !HasKey(rows, KeyOf(records[i].changeAttributes)) {
          rows := rows + [records[i].changeAttributes];
        }
      }
      assert records[..|records|] == records;
      InsertAllOnlyAppends(old(rows), records);
      forall r | r in records ensures HasKey(rows, KeyOf(r.changeAttributes)) {
        InsertAllKeys(old(rows), records, KeyOf(r.changeAttributes));
      }
    }
  }
}
