/** The all-schedulers ETL driver (`schedulers.py` `process`): one unit per
    slot and branch, each record carrying the tasks of every scheduler the
    provider can answer for and the sorted regression labels. Records built
    before a failing push still reach the sink, the first failing unit stops
    the run, and shards are merged only after a complete run. */
module Schedulers {
  import opened Wrappers
  import opened Ordering
  import opened Planner
  import opened RangeState
  import opened Pushes
  import opened Runs

  /** One output record; `revision` and `timestamp` are the `etl` block. */
  datatype Record = Record(
    pushId: int,
    date: int,
    changesets: seq<string>,
    tasks: map<string, seq<string>>,
    indicators: seq<string>,
    branch: string,
    revision: string,
    timestamp: int)

  /** The `tasks` dictionary after the loop over `config.schedulers`: a
      scheduler whose lookup raises is skipped. */
  function TasksFor(p: Push, schedulers: seq<string>): map<string, seq<string>>
  {
    if |schedulers| == 0 then map[]
    else
      var m := TasksFor(p, schedulers[..|schedulers| - 1]);
      var s := schedulers[|schedulers| - 1];
      if s in p.shadowTasks then m[s := SortStrings(p.shadowTasks[s])] else m
  }

  /** One sorted entry per scheduler whose lookup succeeds, and no other. */
  lemma {:induction false} TasksForContents(p: Push, schedulers: seq<string>)
    ensures forall s :: s in TasksFor(p, schedulers) <==> s in schedulers && s in p.shadowTasks
    ensures forall s :: s in TasksFor(p, schedulers) ==> TasksFor(p, schedulers)[s] == SortStrings(p.shadowTasks[s])
  {
    if |schedulers| > 0 {
      var init := schedulers[..|schedulers| - 1];
      TasksForContents(p, init);
      assert schedulers == init + [schedulers[|schedulers| - 1]];
    }
  }

  /** The `for s in config.schedulers` loop with its `try`/`except: pass`. */
  method BuildTasks(p: Push, schedulers: seq<string>) returns (tasks: map<string, seq<string>>)
    ensures tasks == TasksFor(p, schedulers)
  {
    tasks := map[];
    var i := 0;
    while i < |schedulers|
      invariant 0 <= i <= |schedulers|
      invariant tasks == TasksFor(p, schedulers[..i])
    {
      assert schedulers[..i + 1][..i] == schedulers[..i];
      var s := schedulers[i];
      if s in p.shadowTasks {
        tasks := tasks[s := SortStrings(p.shadowTasks[s])];
      }
      i := i + 1;
    }
    assert schedulers[..i] == schedulers;
  }

  /** The record of one push; `get_regressions` raising is the only way it
      fails. */
  function MakeRecord(p: Push, schedulers: seq<string>, branch: string, revision: string, timestamp: int): Result<Record>
  {
    if p.regressions.None? then Failure("regressions unavailable")
    else Success(Record(p.id, p.date, p.revs, TasksFor(p, schedulers), SortStrings(p.regressions.value),
                        branch, revision, timestamp))
  }

  /** A record's indicators are the push's regression labels, sorted, one
      entry per label. */
  lemma MakeRecordShape(p: Push, schedulers: seq<string>, branch: string, revision: string, timestamp: int)
    ensures MakeRecord(p, schedulers, branch, revision, timestamp).Success? <==> p.regressions.Some?
    ensures p.regressions.Some? ==>
      var r := MakeRecord(p, schedulers, branch, revision, timestamp).value;
      && r.pushId == p.id && r.changesets == p.revs && r.branch == branch
      && multiset(r.indicators) == multiset(p.regressions.value)
      && SortedBy(r.indicators, Identity)
      && r.tasks == TasksFor(p, schedulers)
  {
  }

  function RecordOf(schedulers: seq<string>, branch: string, revision: string, timestamp: int): Push -> Result<Record>
  {
    p => MakeRecord(p, schedulers, branch, revision, timestamp)
  }

  /** What one unit does: the batch it hands the sink (None when nothing is
      extended) and the error it raises. */
  datatype Effect = Effect(batch: Option<seq<Record>>, error: Option<string>)

  function UnitEffect(u: WorkUnit, fetch: Provider, schedulers: seq<string>, revision: string, timestamp: int): Effect
  {
    match fetch(u.branch, u.start, u.end)
    case MissingData => Effect(None, None)
    case FetchError(_) => Effect(None, Some("not expected"))
    case Pushes(ps) =>
      var r := Collect(ps, RecordOf(schedulers, u.branch, revision, timestamp));
      Effect(Some(r.values), r.error)
  }

  /** Because of the `finally`, a unit whose fetch succeeded always extends
      the sink, with the records of the pushes before the first failing one;
      the error, if any, is that push's. */
  lemma UnitEffectKeepsEarlierRecords(u: WorkUnit, fetch: Provider, schedulers: seq<string>, revision: string, timestamp: int)
    requires fetch(u.branch, u.start, u.end).Pushes?
    ensures var ps := fetch(u.branch, u.start, u.end).pushes;
      var e := UnitEffect(u, fetch, schedulers, revision, timestamp);
      && e.batch.Some? && |e.batch.value| <= |ps|
      && (forall k :: 0 <= k < |e.batch.value| ==>
            Success(e.batch.value[k]) == MakeRecord(ps[k], schedulers, u.branch, revision, timestamp))
      && (e.error.None? <==> |e.batch.value| == |ps|)
      && (e.error.Some? ==> ps[|e.batch.value|].regressions.None?)
  {
    var ps := fetch(u.branch, u.start, u.end).pushes;
    CollectValues(ps, RecordOf(schedulers, u.branch, revision, timestamp));
  }

  /** `MissingDataError` returns before the record list exists: nothing is
      extended and nothing is raised. */
  lemma MissingDataExtendsNothing(u: WorkUnit, fetch: Provider, schedulers: seq<string>, revision: string, timestamp: int)
    requires fetch(u.branch, u.start, u.end) == MissingData
    ensures UnitEffect(u, fetch, schedulers, revision, timestamp) == Effect(None, None)
  {
  }

  /** The `for push in pushes` loop inside `try`/`finally`. */
  method BuildRecords(pushes: seq<Push>, schedulers: seq<string>, branch: string, revision: string, timestamp: int)
    returns (data: seq<Record>, error: Option<string>)
    ensures Partial(data, error) == Collect(pushes, RecordOf(schedulers, branch, revision, timestamp))
  {
    ghost var f := RecordOf(schedulers, branch, revision, timestamp);
    data := [];
    var i := 0;
    while i < |pushes|
      invariant 0 <= i <= |pushes|
      invariant Collect(pushes[..i], f) == Partial(data, None)
    {
      CollectSnoc(pushes[..i], pushes[i], f);
      assert pushes[..i + 1] == pushes[..i] + [pushes[i]];
      var p := pushes[i];
      var tasks := BuildTasks(p, schedulers);
      if p.regressions.None? {
        CollectStable(pushes, f, i + 1);
        return data, Some("regressions unavailable");
      }
      data := data + [Record(p.id, p.date, p.revs, tasks, SortStrings(p.regressions.value), branch, revision, timestamp)];
      i := i + 1;
    }
    assert pushes[..i] == pushes;
    error := None;
  }

  /** `process_one`: advance and persist the watermark, fetch, then build the
      records, extending the sink with whatever was built even when a push
      raises. */
  method ProcessOne(done: Watermark, store: RangeStore, sink: Sink<Record>, u: WorkUnit,
                    fetch: Provider, schedulers: seq<string>, revision: string, timestamp: int)
    returns (error: Option<string>)
    modifies done, store, sink
    ensures (done.min, done.max) == Advanced((old(done.min), old(done.max)), u.start, u.end)
    ensures store.rows == Overwritten(old(store.rows), done.AsRow())
    ensures sink.merges == old(sink.merges)
    ensures var e := UnitEffect(u, fetch, schedulers, revision, timestamp);
      && error == e.error
      && sink.batches == old(sink.batches) + (if e.batch.Some? then [e.batch.value] else [])
  {
    done.Advance(u.start, u.end);
    store.Update(done.AsRow());
    var pushes: seq<Push>;
    match fetch(u.branch, u.start, u.end) {
      case MissingData =>
        return None;
      case FetchError(_) =>
        return Some("not expected");
      case Pushes(ps) =>
        pushes := ps;
    }
    var data;
    data, error := BuildRecords(pushes, schedulers, u.branch, revision, timestamp);
    sink.Extend(data);
  }

  // ----- the driver -----

  /** The driver's result: the batches the sink received, how many units
      ran, and the error that stopped the run. */
  datatype Run = Run(batches: seq<seq<Record>>, attempted: nat, error: Option<string>)

  /** Batch a unit's effect hands the sink, as a list of zero or one batch. */
  function Extended(e: Effect): seq<seq<Record>>
  {
    if e.batch.Some? then [e.batch.value] else []
  }

  /** The `for start, end, branch in todo` loop, stopping at the first unit
      that raises. */
  function Drained(todo: seq<WorkUnit>, fetch: Provider, schedulers: seq<string>, revision: string, timestamp: int): (r: Run)
    ensures r.attempted <= |todo|
  {
    if |todo| == 0 then Run([], 0, None)
    else
      var prev := Drained(todo[..|todo| - 1], fetch, schedulers, revision, timestamp);
      if prev.error.Some? then prev
      else
        var e := UnitEffect(todo[|todo| - 1], fetch, schedulers, revision, timestamp);
        Run(prev.batches + Extended(e), prev.attempted + 1, e.error)
  }

  /** A run is complete exactly when no unit raised. */
  lemma {:induction false} DrainedCompleteIff(todo: seq<WorkUnit>, fetch: Provider, schedulers: seq<string>, revision: string, timestamp: int)
    ensures var r := Drained(todo, fetch, schedulers, revision, timestamp);
      && (r.error.None? <==> forall k :: 0 <= k < |todo| ==> UnitEffect(todo[k], fetch, schedulers, revision, timestamp).error.None?)
      && (r.error.None? ==> r.attempted == |todo|)
  {
    if |todo| > 0 {
      var init := todo[..|todo| - 1];
      DrainedCompleteIff(init, fetch, schedulers, revision, timestamp);
      assert forall k :: 0 <= k < |init| ==> init[k] == todo[k];
      if Drained(init, fetch, schedulers, revision, timestamp).error.Some? {
        DrainedStopsAtFirstError(init, fetch, schedulers, revision, timestamp);
      }
    }
  }

  /** An incomplete run stopped at its first raising unit: every unit before
      it ran without error. */
  lemma {:induction false} DrainedStopsAtFirstError(todo: seq<WorkUnit>, fetch: Provider, schedulers: seq<string>, revision: string, timestamp: int)
    requires Drained(todo, fetch, schedulers, revision, timestamp).error.Some?
    ensures var r := Drained(todo, fetch, schedulers, revision, timestamp);
      && 1 <= r.attempted
      && UnitEffect(todo[r.attempted - 1], fetch, schedulers, revision, timestamp).error == r.error
      && forall k :: 0 <= k < r.attempted - 1 ==> UnitEffect(todo[k], fetch, schedulers, revision, timestamp).error.None?
  {
    var init := todo[..|todo| - 1];
    assert forall k :: 0 <= k < |init| ==> init[k] == todo[k];
    if Drained(init, fetch, schedulers, revision, timestamp).error.Some? {
      DrainedStopsAtFirstError(init, fetch, schedulers, revision, timestamp);
    } else {
      DrainedCompleteIff(init, fetch, schedulers, revision, timestamp);
    }
  }

  /** Once a prefix stops with an error, the rest of the list is never run. */
  lemma {:induction false} DrainedStable(todo: seq<WorkUnit>, fetch: Provider, schedulers: seq<string>, revision: string, timestamp: int, k: nat)
    requires k <= |todo|
    requires Drained(todo[..k], fetch, schedulers, revision, timestamp).error.Some?
    ensures Drained(todo, fetch, schedulers, revision, timestamp) == Drained(todo[..k], fetch, schedulers, revision, timestamp)
    decreases |todo|
  {
    if k < |todo| {
      assert todo[..|todo| - 1][..k] == todo[..k];
      DrainedStable(todo[..|todo| - 1], fetch, schedulers, revision, timestamp, k);
    } else {
      assert todo[..k] == todo;
    }
  }

  /** Running unit `i` after a run that has not stopped. */
  lemma DrainedStep(todo: seq<WorkUnit>, i: nat, fetch: Provider, schedulers: seq<string>, revision: string, timestamp: int)
    requires i < |todo|
    requires Drained(todo[..i], fetch, schedulers, revision, timestamp).error.None?
    ensures var prev := Drained(todo[..i], fetch, schedulers, revision, timestamp);
      var e := UnitEffect(todo[i], fetch, schedulers, revision, timestamp);
      Drained(todo[..i + 1], fetch, schedulers, revision, timestamp) == Run(prev.batches + Extended(e), prev.attempted + 1, e.error)
  {
    assert todo[..i + 1][..i] == todo[..i];
  }

  /** One pass of the driver loop: run unit `i`. The sink receives the
      unit's batch either way; without an error the run so far is extended,
      with one the run is over. */
  method DrainOne(todo: seq<WorkUnit>, i: nat, done: Watermark, store: RangeStore, sink: Sink<Record>,
                  fetch: Provider, schedulers: seq<string>, revision: string, timestamp: int,
                  ghost w0: (int, int), ghost rows0: seq<Row>, ghost sent: seq<seq<Record>>, batches: seq<seq<Record>>)
    returns (error: Option<string>, next: seq<seq<Record>>)
    requires i < |todo|
    requires Drained(todo[..i], fetch, schedulers, revision, timestamp) == Run(batches, i, None)
    requires sink.batches == sent + batches
    requires (done.min, done.max) == AdvancedAll(w0, todo[..i])
    requires store.rows == if i == 0 then rows0 else Overwritten(rows0, done.AsRow())
    modifies done, store, sink
    ensures sink.merges == old(sink.merges) && sink.batches == sent + next
    ensures (done.min, done.max) == AdvancedAll(w0, todo[..i + 1])
    ensures store.rows == Overwritten(rows0, done.AsRow())
    ensures error.None? ==> Drained(todo[..i + 1], fetch, schedulers, revision, timestamp) == Run(next, i + 1, None)
    ensures error.Some? ==> Drained(todo, fetch, schedulers, revision, timestamp) == Run(next, i + 1, error)
  {
    var u := todo[i];
    DrainedStep(todo, i, fetch, schedulers, revision, timestamp);
    AdvancedAllStep(w0, todo, i);
    ghost var before := done.AsRow();
    var e := UnitEffect(u, fetch, schedulers, revision, timestamp);
    error := ProcessOne(done, store, sink, u, fetch, schedulers, revision, timestamp);
    if i > 0 {
      OverwrittenTwice(rows0, before, done.AsRow());
    }
    next := batches + Extended(e);
    if error.Some? {
      DrainedStable(todo, fetch, schedulers, revision, timestamp, i + 1);
    }
  }

  /** The driver loop with its `try`/`except`/`else`: `merge_shards` runs
      only when every unit completed. */
  method Drain(todo: seq<WorkUnit>, done: Watermark, store: RangeStore, sink: Sink<Record>,
               fetch: Provider, schedulers: seq<string>, revision: string, timestamp: int) returns (run: Run)
    modifies done, store, sink
    ensures run == Drained(todo, fetch, schedulers, revision, timestamp)
    ensures sink.batches == old(sink.batches) + run.batches
    ensures sink.merges == old(sink.merges) + (if run.error.None? then 1 else 0)
    ensures (done.min, done.max) == AdvancedAll((old(done.min), old(done.max)), todo[..run.attempted])
    ensures store.rows == if run.attempted == 0 then old(store.rows) else Overwritten(old(store.rows), done.AsRow())
  {
    ghost var w0 := (done.min, done.max);
    var batches: seq<seq<Record>> := [];
    var i := 0;
    run := Run([], 0, None);
    while i < |todo|
      invariant 0 <= i <= |todo|
      invariant Drained(todo[..i], fetch, schedulers, revision, timestamp) == Run(batches, i, None)
      invariant sink.batches == old(sink.batches) + batches && sink.merges == old(sink.merges)
      invariant (done.min, done.max) == AdvancedAll(w0, todo[..i])
      invariant store.rows == if i == 0 then old(store.rows) else Overwritten(old(store.rows), done.AsRow())
    {
      var error, next := DrainOne(todo, i, done, store, sink, fetch, schedulers, revision, timestamp,
                                  w0, old(store.rows), old(sink.batches), batches);
      batches := next;
      if error.Some? {
        run := Run(batches, i + 1, error);
        break;
      }
      i := i + 1;
    }
    if run.error.None? {
      assert todo[..i] == todo;
      run := Run(batches, i, None);
      sink.MergeShards();
    }
  }

  /** The configuration `process` reads; `start` is None when unset. */
  datatype Config = Config(rangeMin: int, rangeMax: int, start: Option<int>, interval: int,
                           branches: seq<string>, schedulers: seq<string>)

  /** `process`: seed, plan one unit per slot and branch, run them. */
  method Process(c: Config, store: RangeStore, sink: Sink<Record>, fetch: Provider,
                 now: int, revision: string, timestamp: int) returns (run: Run)
    requires c.interval > 0
    modifies store, sink
    ensures var seed := Seed(old(store.rows), c.start, now);
      var todo := CrossBranches(CorrectedSlots(seed.0, seed.1, c.rangeMin, c.rangeMax, c.interval), c.branches);
      && run == Drained(todo, fetch, c.schedulers, revision, timestamp)
      && sink.batches == old(sink.batches) + run.batches
      && sink.merges == old(sink.merges) + (if run.error.None? then 1 else 0)
    ensures var seed := Seed(old(store.rows), c.start, now);
      var todo := CrossBranches(CorrectedSlots(seed.0, seed.1, c.rangeMin, c.rangeMax, c.interval), c.branches);
      var rows := Seeded(old(store.rows), c.start, now);
      && run.attempted <= |todo|
      && store.rows == if run.attempted == 0 then rows
                       else Overwritten(rows, RowOf(AdvancedAll(seed, todo[..run.attempted])))
  {
    var done := Load(store, c.start, now);
    var todo := PlanBranches(done.min, done.max, c.rangeMin, c.rangeMax, c.interval, c.branches);
    run := Drain(todo, done, store, sink, fetch, c.schedulers, revision, timestamp);
  }
}
