/** Values that flow through the migrations check table: the activity records
    the backend reports, and the display rows the table renders. */
module MigrationTypes {

  /** A JavaScript value that may be `undefined`. */
  datatype Option<+T> = None | Some(value: T)

  /** One entry of `payload.migratedCollections`: the outcome of migrating one
      collection. Either field may be absent from the JSON. */
  datatype CollectionResult = CollectionResult(success: Option<bool>, error: Option<string>)

  /** The `payload` of an activity record. */
  datatype Payload = Payload(mongoDbName: Option<string>, migratedCollections: Option<seq<CollectionResult>>)

  /** One activity record as the backend reports it. */
  datatype RawActivity = RawActivity(createdAt: Option<string>, payload: Option<Payload>)

  /** The JSON body of `GET /api/activities`. */
  datatype ResponseBody = ResponseBody(activities: Option<seq<RawActivity>>)

  /** An HTTP response; `data` is falsy (here: absent) when there is no body. */
  datatype Response = Response(data: Option<ResponseBody>)

  /** The members of the MigrationCheckTableStatus enumeration. */
  datatype Status = COMPLETED | ERROR | PROCESSING

  /** One row of the table, as built by the normaliser. */
  datatype DisplayRow = DisplayRow(
    name: (Option<string>, bool),
    quantity: nat,
    errors: seq<Option<string>>,
    hasErrors: bool,
    status: Status,
    date: string,
    progress: int)

  /** `!entry.success`: an entry fails unless its `success` field is `true`;
      `false` and a missing field are both falsy. */
  function Failed(c: CollectionResult): (failed: bool)
    ensures c.success == Some(true) ==> !failed
    ensures c.success == Some(false) ==> failed
    ensures c.success.None? ==> failed
  {
    c.success != Some(true)
  }
}
