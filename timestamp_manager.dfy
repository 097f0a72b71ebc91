/** The ingestion-window ledger (src/timestamp_manager.py): a registry that
    counts the pipeline's runs, keeps a summary of the first and latest run
    and of the newest data point, and appends one history entry per run. The
    clock is a parameter and the JSON file it is saved to is not modelled. */
module TimestampLedger {
  import opened Json

  /** A reading of the clock in ISO 8601 text, which is never empty. */
  type Instant = s: string | s != "" witness "0"

  /** The `metadata.description` of every registry. */
  const Description := "Historical log of data ingestion windows"

  /** One entry of `history`. */
  datatype RunEntry = RunEntry(runId: int, executedAt: string, dataUpTo: Value, recordsProcessed: int)

  /** Python truthiness of `summary.first_run`: neither None nor empty. */
  predicate IsSet(t: Option<string>)
  {
    t.Some? && t.value != ""
  }

  /** A registry as `TimestampManager` holds it in `self.state`. */
  class TimestampManager {
    /** `metadata.created_at`. */
    var createdAt: string
    /** `metadata.description`. */
    var description: string
    /** `summary.first_run`. */
    var firstRun: Option<string>
    /** `summary.latest_run`. */
    var latestRun: Option<string>
    /** `summary.total_runs`. */
    var totalRuns: int
    /** `summary.last_data_point`, Null for None. */
    var lastDataPoint: Value
    /** `history`. */
    var history: seq<RunEntry>

    /** A registry grown from the empty one: one history entry per run,
        numbered from one, and a summary that describes the history. */
    ghost predicate Valid()
      reads this
    {
      && description == Description
      && totalRuns == |history|
      && (forall i :: 0 <= i < |history| ==> history[i].runId == i + 1)
      && (forall i :: 0 <= i < |history| ==> history[i].executedAt != "")
      && (history == [] ==> firstRun == None && latestRun == None && lastDataPoint == Null)
      && (history != [] ==>
            && firstRun == Some(history[0].executedAt)
            && latestRun == Some(history[|history| - 1].executedAt)
            && lastDataPoint == history[|history| - 1].dataUpTo)
    }

    /** `_get_empty_state`, as the registry starts when no file exists. */
    constructor (createdAt: Instant)
      ensures Valid()
      ensures this.createdAt == createdAt && description == Description
      ensures firstRun == None && latestRun == None && totalRuns == 0 && lastDataPoint == Null
      ensures history == []
    {
      this.createdAt := createdAt;
      description := Description;
      firstRun := None;
      latestRun := None;
      totalRuns := 0;
      lastDataPoint := Null;
      history := [];
    }

    /** `update_timestamps`: records one run that finished at `runTime`
        with data up to `batchLatest`. */
    method UpdateTimestamps(runTime: Instant, batchLatest: Value, recordCount: int)
      modifies this
      ensures firstRun == if IsSet(old(firstRun)) then old(firstRun) else Option<string>.Some(runTime)
      ensures latestRun == Option<string>.Some(runTime)
      ensures lastDataPoint == batchLatest
      ensures totalRuns == old(totalRuns) + 1
      ensures history == old(history) + [RunEntry(totalRuns, runTime, batchLatest, recordCount)]
      ensures createdAt == old(createdAt) && description == old(description)
      ensures old(Valid()) ==> Valid()
    {
      if !IsSet(firstRun) {
        firstRun := Option<string>.Some(runTime);
      }
      latestRun := Option<string>.Some(runTime);
      lastDataPoint := batchLatest;
      totalRuns := totalRuns + 1;
      var entry := RunEntry(totalRuns, runTime, batchLatest, recordCount);
      history := history + [entry];
    }

    /** `reset_registry`: back to the empty state, with a new creation time. */
    method ResetRegistry(createdAt: Instant)
      modifies this
      ensures Valid()
      ensures this.createdAt == createdAt && description == Description
      ensures firstRun == None && latestRun == None && totalRuns == 0 && lastDataPoint == Null
      ensures history == []
    {
      this.createdAt := createdAt;
      description := Description;
      firstRun := None;
      latestRun := None;
      totalRuns := 0;
      lastDataPoint := Null;
      history := [];
    }

    /** `get_last_processed_time`: the data point of the latest run, or None
        before the first. */
    method GetLastProcessedTime() returns (t: Value)
      ensures t == lastDataPoint
      ensures Valid() ==> t == if history == [] then Null else history[|history| - 1].dataUpTo
    {
      t := lastDataPoint;
    }
  }
}
