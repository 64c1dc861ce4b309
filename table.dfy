/** The MigrationsCheckTable component's state: the dashboard store it writes
    on every fetch and its `isFetching` ref, with the effect of a fetch outcome
    and of the timer callback on them. */
module MigrationsCheckTable {
  import opened MigrationTypes
  import RowNormalizer
  import PieChart

  /** How `axios.get('/api/activities')` settled. */
  datatype FetchOutcome = Fetched(response: Response) | FetchFailed

  /** The shared dashboard store (`useDashboardStore`): the table's rows and
      the aggregates shown beside it. */
  class DashboardStore {
    var migrationsData: seq<DisplayRow>
    var totalMigrations: int
    var successPercentage: int
    var failurePercentage: int

    /** The store's initial values are set by its creator. */
    constructor (data: seq<DisplayRow>, total: int, success: int, failure: int)
      ensures migrationsData == data && totalMigrations == total
      ensures successPercentage == success && failurePercentage == failure
    {
      migrationsData, totalMigrations := data, total;
      successPercentage, failurePercentage := success, failure;
    }

    /** True iff the store holds `rows` and the aggregates computed from them. */
    ghost predicate Publishes(rows: seq<DisplayRow>)
      reads this
    {
      var stats := PieChart.Aggregate(rows);
      migrationsData == rows &&
      totalMigrations == stats.totalMigrations &&
      successPercentage == stats.successPercentage &&
      failurePercentage == stats.failurePercentage
    }

    method SetMigrationsData(data: seq<DisplayRow>)
      modifies this`migrationsData
      ensures migrationsData == data
    {
      migrationsData := data;
    }

    method SetTotalMigrations(total: int)
      modifies this`totalMigrations
      ensures totalMigrations == total
    {
      totalMigrations := total;
    }

    method SetSuccessPercentage(percentage: int)
      modifies this`successPercentage
      ensures successPercentage == percentage
    {
      successPercentage := percentage;
    }

    method SetFailurePercentage(percentage: int)
      modifies this`failurePercentage
      ensures failurePercentage == percentage
    {
      failurePercentage := percentage;
    }
  }

  /** One mounted table. `format` stands for the locale formatting of
      `createdAt` used by the normaliser. */
  class Table {
    const store: DashboardStore
    const format: Option<string> -> string
    var isFetching: bool

    /** `isFetching` starts `false` and nothing ever sets it to `true`. */
    ghost predicate Valid()
      reads this
    {
      !isFetching
    }

    constructor (store: DashboardStore, format: Option<string> -> string)
      ensures Valid()
      ensures this.store == store && this.format == format
    {
      this.store := store;
      this.format := format;
      isFetching := false;
    }

    /** `refreshPieChart`: publishes the aggregates of `activities`, leaving
        the rows as they were. */
    method RefreshPieChart(activities: seq<DisplayRow>)
      modifies store`totalMigrations, store`successPercentage, store`failurePercentage
      ensures store.totalMigrations == |activities|
      ensures var stats := PieChart.Aggregate(activities);
        store.successPercentage == stats.successPercentage &&
        store.failurePercentage == stats.failurePercentage
    {
      var stats := PieChart.Aggregate(activities);
      store.SetFailurePercentage(stats.failurePercentage);
      store.SetSuccessPercentage(stats.successPercentage);
      store.SetTotalMigrations(stats.totalMigrations);
    }

    /** The end of the `.then` callback: publishes the normalised rows and
        their aggregates. */
    method PublishCleanData(cleanData: seq<DisplayRow>)
      modifies store
      ensures store.Publishes(cleanData)
    {
      RefreshPieChart(cleanData);
      store.SetMigrationsData(cleanData);
    }

    /** `fetchActivities` once the request has settled: a response replaces
        the rows and all three aggregates; a failure only logs, and the store
        is left as it was; either way `isFetching` ends `false`. */
    method FetchActivities(outcome: FetchOutcome)
      modifies this`isFetching, store
      ensures !isFetching
      ensures outcome.Fetched? ==> store.Publishes(RowNormalizer.CleanData(format, outcome.response))
      ensures outcome.FetchFailed? ==> unchanged(store)
    {
      match outcome {
        case Fetched(response) =>
          var cleanData := RowNormalizer.CleanData(format, response);
          PublishCleanData(cleanData);
        case FetchFailed =>
      }
      isFetching := false;
    }

    /** The `setTimeout` callback: it skips the fetch while `isFetching` is
        set, and fetches otherwise. */
    method TimerCallback(outcome: FetchOutcome)
      modifies this`isFetching, store
      ensures old(isFetching) ==> isFetching && unchanged(store)
      ensures !old(isFetching) ==> !isFetching
      ensures !old(isFetching) && outcome.Fetched? ==>
                store.Publishes(RowNormalizer.CleanData(format, outcome.response))
      ensures !old(isFetching) && outcome.FetchFailed? ==> unchanged(store)
    {
      if isFetching {
        return;
      }
      FetchActivities(outcome);
    }
  }

  /** The mounting effect: the initial fetch and the one timer callback's
      fetch. `first` and `second` are the two requests in the order they
      settle, not the order they are sent: a slow initial request can settle
      after the timer's. Since `isFetching` is never set, the callback's guard
      never skips, and the store ends up with whichever of the two settled
      last among those that succeeded. */
  method MountThenTimer(table: Table, first: FetchOutcome, second: FetchOutcome)
    requires table.Valid()
    modifies table, table.store
    ensures table.Valid()
    ensures second.Fetched? ==>
              table.store.Publishes(RowNormalizer.CleanData(table.format, second.response))
    ensures second.FetchFailed? && first.Fetched? ==>
              table.store.Publishes(RowNormalizer.CleanData(table.format, first.response))
    ensures second.FetchFailed? && first.FetchFailed? ==> unchanged(table.store)
  {
    table.FetchActivities(first);
    table.TimerCallback(second);
  }

  /** The error count behind the failure percentage is the number of
      activities with at least one failed collection. */
  lemma ErrorCountOfActivities(format: Option<string> -> string, activities: seq<RawActivity>)
    ensures PieChart.CountWithErrors(RowNormalizer.Normalize(format, activities)) ==
            |set i: nat | i < |activities| && RowNormalizer.SomeFailed(RowNormalizer.CollectionsOf(activities[i]))|
  {
    var rows := RowNormalizer.Normalize(format, activities);
    PieChart.CountWithErrorsIsCardinality(rows);
    assert PieChart.RowsWithErrors(rows) ==
      set i: nat | i < |activities| && RowNormalizer.SomeFailed(RowNormalizer.CollectionsOf(activities[i]));
  }

  /** A response without a body, or without `activities`, empties the table
      and zeroes every aggregate. */
  lemma EmptyResponse(format: Option<string> -> string, response: Response)
    requires response.data.None? || response.data.value.activities.None?
    ensures RowNormalizer.CleanData(format, response) == []
    ensures PieChart.Aggregate(RowNormalizer.CleanData(format, response)) == PieChart.PieStats(0, 0, 0)
  {
  }

  /** One activity with one successful and one failed collection. */
  lemma OneFailedCollection(format: Option<string> -> string)
    ensures var entry := RawActivity(Some("2024-01-02T10:00:00Z"), Some(Payload(Some("shopdb"),
              Some([CollectionResult(Some(true), None), CollectionResult(Some(false), Some("timeout"))]))));
      var rows := RowNormalizer.CleanData(format, Response(Some(ResponseBody(Some([entry])))));
      |rows| == 1 &&
      rows[0].name == (Some("shopdb"), true) && rows[0].quantity == 2 &&
      rows[0].errors == [Some("timeout")] && rows[0].hasErrors && rows[0].status == ERROR &&
      PieChart.Aggregate(rows) == PieChart.PieStats(1, 0, 100)
  {
    var cols := [CollectionResult(Some(true), None), CollectionResult(Some(false), Some("timeout"))];
    assert cols[1..][1..] == [];
    assert RowNormalizer.Failures(cols) == [cols[1]];
    var entry := RawActivity(Some("2024-01-02T10:00:00Z"), Some(Payload(Some("shopdb"), Some(cols))));
    var rows := RowNormalizer.CleanData(format, Response(Some(ResponseBody(Some([entry])))));
    assert rows == [RowNormalizer.NormalizeRow(format, entry)];
    assert PieChart.CountWithErrors(rows) == 1;
    PieChart.FullShare(1);
    PieChart.ZeroShare(1);
  }
}
