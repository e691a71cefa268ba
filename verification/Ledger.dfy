/** The claim ledger: table rows under dashed keys that behave as a map from claim references. */
module Ledger {
  import opened Options
  import opened ClaimData
  import opened Collections

  datatype Value = Text(text: string) | Moment(at: int)

  datatype Column = AT | CLAIM_REF | SUBJECT | TYPE | TOWN | OWNER | CARD_URL | EXTRACTOR_USED

  type Entity = map<Column, Value>

  datatype Record = Record(at: int, ref: string, subject: string, kind: string, town: Option<string>,
                           owner: Option<string>, cardUrl: string, extractor: Option<string>)

  // ----- Rows -----

  /** `replace("/", "-")`. */
  function Dashed(s: string): (r: string)
    ensures |r| == |s|
  {
    seq(|s|, i requires 0 <= i < |s| => if s[i] == '/' then '-' else s[i])
  }

  function Optional(e: Entity, column: Column, value: Option<string>): Entity {
    if value == None then e else e[column := Text(value.value)]
  }

  /** The columns of a record; an absent value has no column. */
  function Columns(r: Record): Entity {
    var always: Entity := map[AT := Moment(r.at), CLAIM_REF := Text(r.ref), SUBJECT := Text(r.subject),
                              TYPE := Text(r.kind), CARD_URL := Text(r.cardUrl)];
    Optional(Optional(Optional(always, TOWN, r.town), OWNER, r.owner), EXTRACTOR_USED, r.extractor)
  }

  predicate Has(e: Entity, column: Column) {
    column in e && e[column].Text?
  }

  function Get(e: Entity, column: Column): Option<string> {
    if Has(e, column) then Some(e[column].text) else None
  }

  /** `_to_claim_record`; a required column that is missing raises. */
  function ToRecord(e: Entity): Option<Record> {
    if AT in e && e[AT].Moment? && Has(e, CLAIM_REF) && Has(e, SUBJECT) && Has(e, TYPE) && Has(e, CARD_URL)
    then Some(Record(e[AT].at, e[CLAIM_REF].text, e[SUBJECT].text, e[TYPE].text, Get(e, TOWN),
                     Get(e, OWNER), e[CARD_URL].text, Get(e, EXTRACTOR_USED)))
    else None
  }

  /** A row written in full is read back as the record, absent fields included. */
  lemma RecordRoundTrip(r: Record)
    ensures ToRecord(Columns(r)) == Some(r)
  {
  }

  // ----- Keys -----

  /** References of one digit class that does not hold "/" have different keys. */
  lemma KeysAreInjective(d: DigitClass, a: Ref, b: Ref)
    requires !d('/') && IsRef(d, a) && IsRef(d, b)
    ensures Dashed(a.Text()) == a.year + "-" + a.number
    ensures Dashed(a.Text()) == Dashed(b.Text()) ==> a == b
  {
    assert Dashed(b.Text()) == b.year + "-" + b.number;
    if Dashed(a.Text()) == Dashed(b.Text()) {
      var s := Dashed(a.Text());
      assert s[..4] == a.year && s[..4] == b.year;
      assert s[5..] == a.number && s[5..] == b.number;
    }
  }

  // ----- The table as a map -----

  type Table = map<string, Entity>

  /** The table after a sequence of `record_claim`. */
  function Rows(log: seq<Record>): Table {
    if log == [] then map[]
    else var r := log[|log| - 1]; Rows(log[..|log| - 1])[Dashed(r.ref) := Columns(r)]
  }

  /** What the ledger means: the latest record of each reference. */
  function Latest(log: seq<Record>): map<string, Record> {
    if log == [] then map[]
    else var r := log[|log| - 1]; Latest(log[..|log| - 1])[r.ref := r]
  }

  function Find(rows: Table, ref: string): Option<Record> {
    if Dashed(ref) in rows then ToRecord(rows[Dashed(ref)]) else None
  }

  ghost predicate Names(d: DigitClass, text: string) {
    exists ref: Ref | ref.Text() == text :: IsRef(d, ref)
  }

  ghost predicate Refs(d: DigitClass, log: seq<Record>) {
    forall r | r in log :: Names(d, r.ref)
  }

  lemma RefsFront(d: DigitClass, log: seq<Record>)
    requires Refs(d, log) && log != []
    ensures Refs(d, log[..|log| - 1]) && Names(d, log[|log| - 1].ref)
  {
    assert forall r | r in log[..|log| - 1] :: r in log;
    assert log[|log| - 1] in log;
  }

  /** After any sequence of records, redone ones included, a look-up returns the latest record of
      that very reference, or none. */
  lemma {:induction false} LedgerIsMap(d: DigitClass, log: seq<Record>, ref: Ref)
    requires !d('/') && IsRef(d, ref) && Refs(d, log)
    ensures Find(Rows(log), ref.Text())
            == if ref.Text() in Latest(log) then Some(Latest(log)[ref.Text()]) else None
  {
    hide Columns, ToRecord, IsRef, Dashed;
    if log != [] {
      var front, r := log[..|log| - 1], log[|log| - 1];
      RefsFront(d, log);
      LedgerIsMap(d, front, ref);
      RecordRoundTrip(r);
      var own: Ref :| own.Text() == r.ref && IsRef(d, own);
      KeysAreInjective(d, own, ref);
    }
  }

  /** The rows are exactly the latest records, each under its key. */
  lemma {:induction false} RowsAreLatest(d: DigitClass, log: seq<Record>)
    requires !d('/') && Refs(d, log)
    ensures forall key | key in Rows(log) ::
      var x := ToRecord(Rows(log)[key]);
      x.Some? && Dashed(x.value.ref) == key && x.value.ref in Latest(log) && Latest(log)[x.value.ref] == x.value
    ensures forall ref | ref in Latest(log) ::
      var x := Latest(log)[ref];
      x.ref == ref && Dashed(ref) in Rows(log) && ToRecord(Rows(log)[Dashed(ref)]) == Some(x)
  {
    hide Columns, ToRecord, IsRef, Dashed;
    if log != [] {
      var front, r := log[..|log| - 1], log[|log| - 1];
      RefsFront(d, log);
      RowsAreLatest(d, front);
      RecordRoundTrip(r);
      LatestAreRefs(d, front);
      var own: Ref :| own.Text() == r.ref && IsRef(d, own);
      forall ref | ref in Latest(front) && ref != r.ref
        ensures Dashed(ref) != Dashed(r.ref)
      {
        var other: Ref :| other.Text() == ref && IsRef(d, other);
        KeysAreInjective(d, own, other);
      }
    }
  }

  lemma {:induction false} LatestAreRefs(d: DigitClass, log: seq<Record>)
    requires Refs(d, log)
    ensures forall ref | ref in Latest(log) :: Names(d, ref)
  {
    if log != [] {
      RefsFront(d, log);
      LatestAreRefs(d, log[..|log| - 1]);
    }
  }

  predicate Newer(a: Record, b: Record) {
    a.at >= b.at
  }

  lemma NewerIsOrder()
    ensures TotalPreorder(Newer)
  {
  }

  /** The ledger's part of the state store. */
  class LedgerStore {
    var rows: Table
    ghost var log: seq<Record>

    ghost predicate Valid()
      reads this
    {
      rows == Rows(log)
    }

    constructor ()
      ensures Valid() && log == []
    {
      rows, log := map[], [];
    }

    /** `record_claim`: an upsert that replaces the whole row. */
    method RecordClaim(record: Record)
      requires Valid()
      modifies this
      ensures Valid() && log == old(log) + [record]
      ensures rows == old(rows)[Dashed(record.ref) := Columns(record)]
    {
      rows := rows[Dashed(record.ref) := Columns(record)];
      log := log + [record];
    }

    /** `get_claim`. */
    method GetClaim(ref: Ref, d: DigitClass) returns (found: Option<Record>)
      requires Valid() && !d('/') && IsRef(d, ref) && Refs(d, log)
      ensures found == if ref.Text() in Latest(log) then Some(Latest(log)[ref.Text()]) else None
    {
      LedgerIsMap(d, log, ref);
      found := Find(rows, ref.Text());
    }

    /** `list_claims`: every row once, newest first; the scan may return the rows in any order. */
    method ListClaims(d: DigitClass) returns (records: seq<Record>)
      requires Valid() && !d('/') && Refs(d, log)
      ensures (forall i, j | 0 <= i < j < |records| :: records[i].at >= records[j].at) && Distinct(records)
      ensures forall r :: r in records <==> r.ref in Latest(log) && Latest(log)[r.ref] == r
    {
      hide *;
      RowsAreLatest(d, log) by { hide *; }
      assert rows == Rows(log) by { ValidIs(); }
      var keys := rows.Keys;
      records := [];
      NothingDistinct();
      while keys != {}
        invariant keys <= rows.Keys
        invariant forall r | r in records :: Dashed(r.ref) in rows.Keys - keys && ToRecord(rows[Dashed(r.ref)]) == Some(r)
        invariant forall key | key in rows.Keys - keys :: ToRecord(rows[key]).Some? && ToRecord(rows[key]).value in records
        invariant Distinct(records)
      {
        var key :| key in keys;
        var record := ToRecord(rows[key]);
        assert record.Some? && Dashed(record.value.ref) == key;
        assert record.value !in records;
        DistinctSnoc(records, record.value);
        records := records + [record.value];
        keys := keys - {key};
      }
      NewerIsOrder();
      SortSorted(records, Newer);
      SortPermutes(records, Newer);
      SortDistinct(records, Newer);
      records := StableSort(records, Newer);
      NewestFirst(records);
    }

    lemma ValidIs()
      requires Valid()
      ensures rows == Rows(log)
    {
    }
  }

  lemma NewestFirst(records: seq<Record>)
    requires Sorted(records, Newer)
    ensures forall i, j | 0 <= i < j < |records| :: records[i].at >= records[j].at
  {
  }

  lemma NothingDistinct()
    ensures Distinct<Record>([])
  {
  }

  lemma DistinctSnoc(records: seq<Record>, r: Record)
    requires Distinct(records) && r !in records
    ensures Distinct(records + [r])
  {
  }
}
