/** The row normaliser run on every successful fetch: it maps the raw activity
    records of a response to display rows, one per record, in order. */
module RowNormalizer {
  import opened MigrationTypes

  /** `entry.payload?.migratedCollections || []` */
  function CollectionsOf(entry: RawActivity): (cols: seq<CollectionResult>)
    ensures entry.payload.None? ==> cols == []
    ensures entry.payload.Some? && entry.payload.value.migratedCollections.None? ==> cols == []
    ensures entry.payload.Some? && entry.payload.value.migratedCollections.Some? ==>
              cols == entry.payload.value.migratedCollections.value
  {
    match entry.payload
    case None => []
    case Some(p) => if p.migratedCollections.Some? then p.migratedCollections.value else []
  }

  /** `entry.payload?.mongoDbName` */
  function NameOf(entry: RawActivity): (name: Option<string>)
    ensures entry.payload.None? ==> name.None?
    ensures entry.payload.Some? ==> name == entry.payload.value.mongoDbName
  {
    if entry.payload.Some? then entry.payload.value.mongoDbName else None
  }

  /** True iff some collection of the list failed. */
  ghost predicate SomeFailed(cols: seq<CollectionResult>) {
    exists i :: 0 <= i < |cols| && Failed(cols[i])
  }

  /** `migratedCollections.filter((entry) => !entry.success)` */
  function Failures(cols: seq<CollectionResult>): (fs: seq<CollectionResult>)
    ensures |fs| <= |cols|
    ensures forall k :: 0 <= k < |fs| ==> Failed(fs[k])
    ensures fs == [] <==> !SomeFailed(cols)
  {
    if cols == [] then []
    else
      var rest := Failures(cols[1..]);
      assert SomeFailed(cols[1..]) ==> SomeFailed(cols) by {
        if SomeFailed(cols[1..]) {
          var i :| 0 <= i < |cols[1..]| && Failed(cols[1..][i]);
          assert Failed(cols[i + 1]);
        }
      }
      if Failed(cols[0]) then [cols[0]] + rest else rest
  }

  /** `errors.map((error) => error.error)` */
  function ErrorMessages(fs: seq<CollectionResult>): (msgs: seq<Option<string>>)
    ensures |msgs| == |fs|
    ensures forall k :: 0 <= k < |fs| ==> msgs[k] == fs[k].error
  {
    seq(|fs|, k requires 0 <= k < |fs| => fs[k].error)
  }

  /** The display row of one activity record; `format` stands for the
      locale formatting of `createdAt`. */
  function NormalizeRow(format: Option<string> -> string, entry: RawActivity): (r: DisplayRow)
    ensures r.name == (NameOf(entry), true)
    ensures r.quantity == |CollectionsOf(entry)|
    ensures entry.payload.None? ==> r.quantity == 0
    ensures r.errors == ErrorMessages(Failures(CollectionsOf(entry)))
    ensures |r.errors| <= r.quantity
    ensures r.hasErrors <==> SomeFailed(CollectionsOf(entry))
    ensures r.hasErrors <==> r.errors != []
    ensures r.status == ERROR <==> r.hasErrors
    ensures r.status != PROCESSING
    ensures r.date == format(entry.createdAt)
    ensures r.progress == 100
  {
    var migratedCollections := CollectionsOf(entry);
    var errors := Failures(migratedCollections);
    DisplayRow(
      name := (NameOf(entry), true),
      quantity := |migratedCollections|,
      errors := ErrorMessages(errors),
      hasErrors := |errors| > 0,
      status := if |errors| > 0 then ERROR else COMPLETED,
      date := format(entry.createdAt),
      progress := 100)
  }

  /** `(activities || []).map(...)` */
  function Normalize(format: Option<string> -> string, activities: seq<RawActivity>): (rows: seq<DisplayRow>)
    ensures |rows| == |activities|
    ensures forall i :: 0 <= i < |activities| ==> rows[i] == NormalizeRow(format, activities[i])
  {
    if activities == [] then []
    else [NormalizeRow(format, activities[0])] + Normalize(format, activities[1..])
  }

  /** `response.data ? response.data.activities : []`, then `|| []`. */
  function ActivitiesOf(response: Response): (acts: seq<RawActivity>)
    ensures response.data.None? ==> acts == []
    ensures response.data.Some? && response.data.value.activities.None? ==> acts == []
    ensures response.data.Some? && response.data.value.activities.Some? ==>
              acts == response.data.value.activities.value
  {
    match response.data
    case None => []
    case Some(body) => if body.activities.Some? then body.activities.value else []
  }

  /** The `cleanData` built from a successful response. */
  function CleanData(format: Option<string> -> string, response: Response): (rows: seq<DisplayRow>)
    ensures |rows| == |ActivitiesOf(response)|
    ensures response.data.None? ==> rows == []
    ensures response.data.Some? && response.data.value.activities.None? ==> rows == []
  {
    Normalize(format, ActivitiesOf(response))
  }

  // ---------------------------------------------------------------------------
  // `errors` is exactly the error fields of the failed entries, in order.

  /** The indices, from `i` on, of the failed entries, in increasing order. */
  function FailedIndicesFrom(cols: seq<CollectionResult>, i: nat): seq<nat>
    requires i <= |cols|
    decreases |cols| - i
  {
    if i == |cols| then []
    else if Failed(cols[i]) then [i] + FailedIndicesFrom(cols, i + 1)
    else FailedIndicesFrom(cols, i + 1)
  }

  lemma {:induction false} FailedIndicesFromSound(cols: seq<CollectionResult>, i: nat)
    requires i <= |cols|
    ensures forall k :: 0 <= k < |FailedIndicesFrom(cols, i)| ==>
              i <= FailedIndicesFrom(cols, i)[k] < |cols| && Failed(cols[FailedIndicesFrom(cols, i)[k]])
    ensures forall k, l :: 0 <= k < l < |FailedIndicesFrom(cols, i)| ==>
              FailedIndicesFrom(cols, i)[k] < FailedIndicesFrom(cols, i)[l]
    ensures forall j :: i <= j < |cols| && Failed(cols[j]) ==> j in FailedIndicesFrom(cols, i)
    decreases |cols| - i
  {
    if i < |cols| {
      FailedIndicesFromSound(cols, i + 1);
      var rest := FailedIndicesFrom(cols, i + 1);
      if Failed(cols[i]) {
        var idx := [i] + rest;
        assert idx == FailedIndicesFrom(cols, i);
        forall k | 0 <= k < |idx| ensures i <= idx[k] < |cols| && Failed(cols[idx[k]]) {
          if k > 0 { assert idx[k] == rest[k - 1]; }
        }
      }
    }
  }

  lemma {:induction false} FailuresAtIndices(cols: seq<CollectionResult>, i: nat)
    requires i <= |cols|
    ensures var idx := FailedIndicesFrom(cols, i);
      |Failures(cols[i..])| == |idx| &&
      forall k :: 0 <= k < |idx| ==> idx[k] < |cols| && Failures(cols[i..])[k] == cols[idx[k]]
    decreases |cols| - i
  {
    FailedIndicesFromSound(cols, i);
    if i < |cols| {
      FailuresAtIndices(cols, i + 1);
      assert cols[i..][1..] == cols[i + 1..];
    }
  }

  /** The error messages of a row are the `error` fields of exactly the
      failed collections, taken in their original order. */
  lemma ErrorsAreFailedEntriesInOrder(cols: seq<CollectionResult>)
    ensures var idx := FailedIndicesFrom(cols, 0);
      var msgs := ErrorMessages(Failures(cols));
      |msgs| == |idx| &&
      (forall k :: 0 <= k < |idx| ==> idx[k] < |cols| && Failed(cols[idx[k]]) && msgs[k] == cols[idx[k]].error) &&
      (forall k, l :: 0 <= k < l < |idx| ==> idx[k] < idx[l]) &&
      (forall j :: 0 <= j < |cols| && Failed(cols[j]) ==> j in idx)
  {
    FailedIndicesFromSound(cols, 0);
    FailuresAtIndices(cols, 0);
    assert cols[0..] == cols;
  }

  // ---------------------------------------------------------------------------
  // Every normalised row is well formed, and a well-formed row is recovered
  // from a record built back out of it.

  /** What `NormalizeRow` guarantees of every row it builds. */
  predicate WellFormedRow(r: DisplayRow) {
    r.name.1 &&
    |r.errors| <= r.quantity &&
    (r.hasErrors <==> r.errors != []) &&
    r.status == (if r.hasErrors then ERROR else COMPLETED) &&
    r.progress == 100
  }

  lemma NormalizedRowsWellFormed(format: Option<string> -> string, activities: seq<RawActivity>)
    ensures forall r :: r in Normalize(format, activities) ==> WellFormedRow(r)
  {
  }

  /** A record whose failed entries carry the row's errors, followed by as many
      successful entries as the row has succeeded tables. */
  function Denormalize(r: DisplayRow, createdAt: Option<string>): (entry: RawActivity)
    requires |r.errors| <= r.quantity
    ensures |CollectionsOf(entry)| == r.quantity
  {
    var failed := seq(|r.errors|, k requires 0 <= k < |r.errors| => CollectionResult(Some(false), r.errors[k]));
    var succeeded := seq(r.quantity - |r.errors|, k => CollectionResult(Some(true), None));
    RawActivity(createdAt, Some(Payload(r.name.0, Some(failed + succeeded))))
  }

  lemma {:induction false} FailuresOfAllFailedThenSucceeded(failed: seq<CollectionResult>, succeeded: seq<CollectionResult>)
    requires forall k :: 0 <= k < |failed| ==> Failed(failed[k])
    requires forall k :: 0 <= k < |succeeded| ==> !Failed(succeeded[k])
    ensures Failures(failed + succeeded) == failed
  {
    if failed == [] {
      assert failed + succeeded == succeeded;
      SuccessesHaveNoFailures(succeeded);
    } else {
      assert (failed + succeeded)[1..] == failed[1..] + succeeded;
      FailuresOfAllFailedThenSucceeded(failed[1..], succeeded);
    }
  }

  lemma SuccessesHaveNoFailures(succeeded: seq<CollectionResult>)
    requires forall k :: 0 <= k < |succeeded| ==> !Failed(succeeded[k])
    ensures Failures(succeeded) == []
  {
  }

  /** Normalising a record rebuilt from a well-formed row gives that row back. */
  lemma NormalizeDenormalize(format: Option<string> -> string, r: DisplayRow, createdAt: Option<string>)
    requires WellFormedRow(r)
    requires r.date == format(createdAt)
    ensures NormalizeRow(format, Denormalize(r, createdAt)) == r
  {
    var failed := seq(|r.errors|, k requires 0 <= k < |r.errors| => CollectionResult(Some(false), r.errors[k]));
    var succeeded := seq(r.quantity - |r.errors|, k => CollectionResult(Some(true), None));
    FailuresOfAllFailedThenSucceeded(failed, succeeded);
    assert CollectionsOf(Denormalize(r, createdAt)) == failed + succeeded;
    assert ErrorMessages(failed) == r.errors;
  }
}
