/**
 * The `PUT /api/history` handler: every submitted entry is checked for the required
 * fields and types, and the batch is appended to the store only if all pass. The
 * store is a table keyed by exercise, set number and timestamp, and the append is one
 * transaction: a batch that repeats a key is refused as a whole.
 */
module HistoryApi {
  import opened Seqs
  import opened Js

  /** The fields an entry must carry, with the `typeof` each must have. */
  const REQUIRED_FIELDS: seq<(string, TypeTag)> := [
    ("exercise", StringType),
    ("setNumber", NumberType),
    ("weight", NumberType),
    ("reps", NumberType),
    ("timestamp", StringType)
  ]

  /**
   * `isValidEntry`: a truthy object whose five data fields have the right `typeof`.
   * The optional `type` field, any other field and the numbers' values go unchecked.
   */
  function IsValidEntry(entry: Json): (valid: bool)
    ensures valid <==>
              entry.JObject?
              && Holds(entry.fields, "exercise", StringType)
              && Holds(entry.fields, "setNumber", NumberType)
              && Holds(entry.fields, "weight", NumberType)
              && Holds(entry.fields, "reps", NumberType)
              && Holds(entry.fields, "timestamp", StringType)
  {
    if Falsy(entry) || TypeOf(Some(entry)) != ObjectType then false
    else
      TypeOf(Field(entry, "exercise")) == StringType
      && TypeOf(Field(entry, "setNumber")) == NumberType
      && TypeOf(Field(entry, "weight")) == NumberType
      && TypeOf(Field(entry, "reps")) == NumberType
      && TypeOf(Field(entry, "timestamp")) == StringType
  }

  /** `key` is present in the object `fields` and holds a value of type `tag`. */
  predicate Holds(fields: map<string, Json>, key: string, tag: TypeTag) {
    key in fields
    && match tag
       case StringType => fields[key].JString?
       case NumberType => fields[key].JNumber?
       case _ => false
  }

  /**
   * The answer to a `PUT`: 400 with an error body, 200 `{ ok: true }`, or the server
   * error the framework answers with when `appendHistory` throws.
   */
  datatype Response = InvalidPayload | Ok | StoreFailed

  /** The primary key of a stored row: its exercise, set number and timestamp. */
  function Key(entry: Json): (Option<Json>, Option<Json>, Option<Json>) {
    (Field(entry, "exercise"), Field(entry, "setNumber"), Field(entry, "timestamp"))
  }

  /** No two rows share a primary key: what the table itself enforces. */
  predicate UniqueKeys(rows: seq<Json>) {
    forall i, j :: 0 <= i < j < |rows| ==> Key(rows[i]) != Key(rows[j])
  }

  /**
   * Every insert of the transaction finds its key free: no entry of `batch` repeats
   * the key of a stored row or of an earlier entry of the batch.
   */
  predicate Fresh(stored: seq<Json>, batch: seq<Json>) {
    forall j :: 0 <= j < |batch| ==>
      (forall i :: 0 <= i < |stored| ==> Key(stored[i]) != Key(batch[j]))
      && (forall k :: 0 <= k < j ==> Key(batch[k]) != Key(batch[j]))
  }

  /** The response together with the stored entries afterwards. */
  datatype PutResult = PutResult(response: Response, stored: seq<Json>)

  /**
   * `PUT`: `body` is the parsed request body, or `None` when it is not JSON (which the
   * handler reads as `null`). The `entries` of the body must be an array of valid
   * entries; then `appendHistory` inserts them all in one transaction, which rolls
   * back and throws at the first repeated key. Only a fully accepted batch changes
   * `stored`.
   */
  function Put(body: Option<Json>, stored: seq<Json>): (r: PutResult)
    ensures r.response != InvalidPayload <==>
              body.Some? && body.value.JObject? && "entries" in body.value.fields
              && body.value.fields["entries"].JArray?
              && forall i :: 0 <= i < |body.value.fields["entries"].items| ==>
                   IsValidEntry(body.value.fields["entries"].items[i])
    ensures r.response == Ok <==>
              r.response != InvalidPayload && Fresh(stored, body.value.fields["entries"].items)
    ensures r.response == Ok ==> r.stored == stored + body.value.fields["entries"].items
    ensures r.response != Ok ==> r.stored == stored
    ensures UniqueKeys(stored) ==> UniqueKeys(r.stored)
  {
    var parsed := if body.Some? then body.value else JNull;
    var entries := Field(parsed, "entries");
    if entries.None? || !entries.value.JArray? || !AllValid(entries.value.items) then
      PutResult(InvalidPayload, stored)
    else if !Fresh(stored, entries.value.items) then
      PutResult(StoreFailed, stored)
    else
      FreshKeepsKeysUnique(stored, entries.value.items);
      PutResult(Ok, stored + entries.value.items)
  }

  /** Appending a fresh batch to rows with unique keys keeps the keys unique. */
  lemma FreshKeepsKeysUnique(stored: seq<Json>, batch: seq<Json>)
    requires Fresh(stored, batch)
    ensures UniqueKeys(stored) ==> UniqueKeys(stored + batch)
  {
    var all := stored + batch;
    if UniqueKeys(stored) {
      forall i, j | 0 <= i < j < |all|
        ensures Key(all[i]) != Key(all[j])
      {
        if j >= |stored| {
          assert all[j] == batch[j - |stored|];
          if i < |stored| {
            assert all[i] == stored[i];
          } else {
            assert all[i] == batch[i - |stored|];
          }
        } else {
          assert all[i] == stored[i] && all[j] == stored[j];
        }
      }
    }
  }

  /** Over rows with unique keys, a batch is fresh exactly when appending it keeps keys unique. */
  lemma FreshIff(stored: seq<Json>, batch: seq<Json>)
    requires UniqueKeys(stored)
    ensures Fresh(stored, batch) <==> UniqueKeys(stored + batch)
  {
    var all := stored + batch;
    if Fresh(stored, batch) {
      FreshKeepsKeysUnique(stored, batch);
    } else {
      var j :| 0 <= j < |batch| && !(
        (forall i :: 0 <= i < |stored| ==> Key(stored[i]) != Key(batch[j]))
        && (forall k :: 0 <= k < j ==> Key(batch[k]) != Key(batch[j])));
      assert all[|stored| + j] == batch[j];
      if exists i :: 0 <= i < |stored| && Key(stored[i]) == Key(batch[j]) {
        var i :| 0 <= i < |stored| && Key(stored[i]) == Key(batch[j]);
        assert all[i] == stored[i];
      } else {
        var k :| 0 <= k < j && Key(batch[k]) == Key(batch[j]);
        assert all[|stored| + k] == batch[k];
      }
    }
  }

  /** A batch splits into two fresh halves, the second fresh after the first. */
  lemma FreshAppend(stored: seq<Json>, a: seq<Json>, b: seq<Json>)
    requires Fresh(stored, a + b)
    ensures Fresh(stored, a) && Fresh(stored + a, b)
  {
    var ab := stored + a;
    forall j | 0 <= j < |a|
      ensures (forall i :: 0 <= i < |stored| ==> Key(stored[i]) != Key(a[j]))
              && (forall k :: 0 <= k < j ==> Key(a[k]) != Key(a[j]))
    {
      assert (a + b)[j] == a[j];
      assert forall k :: 0 <= k < j ==> (a + b)[k] == a[k];
    }
    forall j | 0 <= j < |b|
      ensures (forall i :: 0 <= i < |ab| ==> Key(ab[i]) != Key(b[j]))
              && (forall k :: 0 <= k < j ==> Key(b[k]) != Key(b[j]))
    {
      assert (a + b)[|a| + j] == b[j];
      forall i | 0 <= i < |ab|
        ensures Key(ab[i]) != Key(b[j])
      {
        if i >= |stored| {
          assert ab[i] == a[i - |stored|] == (a + b)[i - |stored|];
        }
      }
      assert forall k :: 0 <= k < j ==> (a + b)[|a| + k] == b[k];
    }
  }

  /** Every entry of the batch passes `isValidEntry`. */
  function AllValid(entries: seq<Json>): (r: bool)
    ensures r <==> forall i :: 0 <= i < |entries| ==> IsValidEntry(entries[i])
  {
    if entries == [] then true else IsValidEntry(entries[0]) && AllValid(entries[1..])
  }

  /** Anything but an object is rejected: `null`, arrays and every primitive. */
  lemma RejectsNonObjects(entry: Json)
    requires !entry.JObject?
    ensures !IsValidEntry(entry)
  {
  }

  /** An entry is valid exactly when it is an object holding every required field with its type. */
  lemma ValidEntryIff(entry: Json)
    ensures IsValidEntry(entry) <==>
              entry.JObject?
              && forall k :: 0 <= k < |REQUIRED_FIELDS| ==>
                   Holds(entry.fields, REQUIRED_FIELDS[k].0, REQUIRED_FIELDS[k].1)
  {
    if entry.JObject? {
      var f := entry.fields;
      assert REQUIRED_FIELDS[0] == ("exercise", StringType);
      assert REQUIRED_FIELDS[1] == ("setNumber", NumberType);
      assert REQUIRED_FIELDS[2] == ("weight", NumberType);
      assert REQUIRED_FIELDS[3] == ("reps", NumberType);
      assert REQUIRED_FIELDS[4] == ("timestamp", StringType);
    }
  }

  /** Setting a field other than the five required ones, `type` included, never changes validity. */
  lemma OtherFieldsIgnored(fields: map<string, Json>, key: string, value: Json)
    requires key !in {"exercise", "setNumber", "weight", "reps", "timestamp"}
    ensures IsValidEntry(JObject(fields[key := value])) == IsValidEntry(JObject(fields))
  {
    var updated := fields[key := value];
    assert forall k :: k in {"exercise", "setNumber", "weight", "reps", "timestamp"} ==>
             Field(JObject(updated), k) == Field(JObject(fields), k);
  }

  /**
   * Values are not range-checked: negative, fractional and infinite numbers pass
   * (`1e400` parses to `Infinity`).
   */
  lemma NumbersNotRangeChecked()
    ensures IsValidEntry(JObject(map[
              "exercise" := JString(""),
              "setNumber" := JNumber(Finite(2.5)),
              "weight" := JNumber(PositiveInfinity),
              "reps" := JNumber(Finite(-5.0)),
              "timestamp" := JString("not a date"),
              "type" := JNumber(PositiveInfinity)]))
  {
  }

  /** One invalid entry rejects the whole batch, and nothing is appended. */
  lemma OneInvalidRejectsAll(fields: map<string, Json>, stored: seq<Json>, i: nat)
    requires "entries" in fields && fields["entries"].JArray?
    requires i < |fields["entries"].items| && !IsValidEntry(fields["entries"].items[i])
    ensures Put(Some(JObject(fields)), stored) == PutResult(InvalidPayload, stored)
  {
  }

  /** A body that is not JSON, or has no `entries` array, is rejected. */
  lemma MalformedBodyRejected(body: Option<Json>, stored: seq<Json>)
    requires body.None? || Field(body.value, "entries").None? || !Field(body.value, "entries").value.JArray?
    ensures Put(body, stored) == PutResult(InvalidPayload, stored)
  {
  }

  /**
   * Two batches sent one after the other append in order, as the one batch holding
   * both would, when that batch repeats no key.
   */
  lemma PutTwice(items1: seq<Json>, items2: seq<Json>, stored: seq<Json>)
    requires forall i :: 0 <= i < |items1| ==> IsValidEntry(items1[i])
    requires forall i :: 0 <= i < |items2| ==> IsValidEntry(items2[i])
    requires Fresh(stored, items1 + items2)
    ensures Put(Some(JObject(map["entries" := JArray(items2)])),
                Put(Some(JObject(map["entries" := JArray(items1)])), stored).stored)
            == Put(Some(JObject(map["entries" := JArray(items1 + items2)])), stored)
  {
    var both := items1 + items2;
    forall i | 0 <= i < |both|
      ensures IsValidEntry(both[i])
    {
      if i < |items1| {
        assert both[i] == items1[i];
      } else {
        assert both[i] == items2[i - |items1|];
      }
    }
    FreshAppend(stored, items1, items2);
    var first := Put(Some(JObject(map["entries" := JArray(items1)])), stored);
    assert first.stored == stored + items1;
    assert stored + items1 + items2 == stored + both;
  }

  /**
   * Sending an accepted, non-empty batch again fails in the store and changes nothing:
   * a retried request never duplicates a row.
   */
  lemma ResubmitFails(body: Option<Json>, stored: seq<Json>)
    requires Put(body, stored).response == Ok
    requires body.value.fields["entries"].items != []
    ensures Put(body, Put(body, stored).stored) == PutResult(StoreFailed, Put(body, stored).stored)
  {
    var items := body.value.fields["entries"].items;
    var after := stored + items;
    assert after[|stored|] == items[0];
    assert !Fresh(after, items);
  }
}
