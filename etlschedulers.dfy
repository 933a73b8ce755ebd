/** The per-scheduler ETL driver (`etl-schedulers.py` `process`): seed the
    watermark, queue every slot crossed with branches and schedulers, then
    drain the queue, each unit advancing the watermark, fetching pushes and
    appending one record per push to the sink; shards are merged once at the
    end whatever happened. */
module EtlSchedulers {
  import opened Wrappers
  import opened Ordering
  import opened Planner
  import opened RangeState
  import opened Pushes
  import opened Runs

  /** One `candidate_regressions` entry of a record. */
  datatype CandidateRecord = CandidateRecord(name: string, childCount: int, status: string)

  /** One output record; `version` and `timestamp` are the `etl` block. */
  datatype Record = Record(
    pushId: int,
    date: int,
    changesets: seq<string>,
    tasks: seq<string>,
    likelyRegressions: seq<string>,
    candidateRegressions: seq<CandidateRecord>,
    scheduler: string,
    branch: string,
    backoutType: Option<string>,
    backoutBy: Option<string>,
    version: string,
    timestamp: int)

  /** The status table of `process_one`. */
  function StatusName(s: Status): string
  {
    match s
    case Pass => "pass"
    case Fail => "fail"
    case Intermittent => "intermittent"
  }

  /** The status names are distinct, so a record's status can be read back. */
  lemma StatusNameInjective(a: Status, b: Status)
    ensures StatusName(a) == StatusName(b) <==> a == b
  {
  }

  function ShapeCandidate(c: Candidate): CandidateRecord
  {
    CandidateRecord(c.name, c.childCount, StatusName(c.status))
  }

  function ShapeCandidates(cs: seq<Candidate>): (r: seq<CandidateRecord>)
    ensures |r| == |cs|
    ensures forall i :: 0 <= i < |cs| ==> r[i] == ShapeCandidate(cs[i])
  {
    if |cs| == 0 then [] else ShapeCandidates(cs[..|cs| - 1]) + [ShapeCandidate(cs[|cs| - 1])]
  }

  function CandidateName(c: CandidateRecord): string
  {
    c.name
  }

  /** `likely_regressions & tasks` is non-empty. */
  function Intersects(a: seq<string>, b: seq<string>): (r: bool)
    ensures r <==> exists l :: l in a && l in b
  {
    if |a| == 0 then false
    else
      assert forall l :: l in a <==> l in a[..|a| - 1] || l == a[|a| - 1] by {
        assert a == a[..|a| - 1] + [a[|a| - 1]];
      }
      a[|a| - 1] in b || Intersects(a[..|a| - 1], b)
  }

  /** `backout_type`: None without a backout, "primary" when a likely
      regression is among the selected tasks, otherwise "secondary". */
  function BackoutType(p: Push, tasks: seq<string>): (r: Option<string>)
    ensures r.None? <==> !BackedOut(p)
    ensures r == Some("primary") <==> BackedOut(p) && exists l :: l in p.likelyRegressions && l in tasks
    ensures r == Some("secondary") <==> BackedOut(p) && forall l :: l in p.likelyRegressions ==> l !in tasks
  {
    if !BackedOut(p) then None
    else if Intersects(p.likelyRegressions, tasks) then Some("primary")
    else Some("secondary")
  }

  /** The record of one push for one scheduler; asking the provider for a
      scheduler it does not know raises. */
  function MakeRecord(p: Push, scheduler: string, branch: string, version: string, timestamp: int): Result<Record>
  {
    if scheduler !in p.shadowTasks then Failure("unknown shadow scheduler")
    else Success(Shape(p, p.shadowTasks[scheduler], scheduler, branch, version, timestamp))
  }

  /** The record built from a push and the scheduler's selected tasks. */
  function Shape(p: Push, tasks: seq<string>, scheduler: string, branch: string, version: string, timestamp: int): Record
  {
    Record(
      p.id, p.date, p.revs,
      SortStrings(tasks),
      SortStrings(p.likelyRegressions),
      SortBy(ShapeCandidates(p.candidates), CandidateName),
      scheduler, branch,
      BackoutType(p, tasks),
      p.backoutBy,
      version, timestamp)
  }

  /** What a record promises: its lists are sorted permutations of the
      provider's answers, each candidate carries its mapped status, and the
      backout type follows the rule above. */
  lemma MakeRecordShape(p: Push, scheduler: string, branch: string, version: string, timestamp: int)
    ensures MakeRecord(p, scheduler, branch, version, timestamp).Success? <==> scheduler in p.shadowTasks
    ensures scheduler in p.shadowTasks ==>
      var r := MakeRecord(p, scheduler, branch, version, timestamp).value;
      && r.pushId == p.id && r.changesets == p.revs && r.scheduler == scheduler && r.branch == branch
      && multiset(r.tasks) == multiset(p.shadowTasks[scheduler]) && SortedBy(r.tasks, Identity)
      && multiset(r.likelyRegressions) == multiset(p.likelyRegressions) && SortedBy(r.likelyRegressions, Identity)
      && multiset(r.candidateRegressions) == multiset(ShapeCandidates(p.candidates))
      && SortedBy(r.candidateRegressions, CandidateName)
      && (forall c :: c in r.candidateRegressions ==> c.status in {"pass", "fail", "intermittent"})
      && r.backoutType == BackoutType(p, p.shadowTasks[scheduler])
  {
    if scheduler in p.shadowTasks {
      var r := MakeRecord(p, scheduler, branch, version, timestamp).value;
      forall c | c in r.candidateRegressions
        ensures c.status in {"pass", "fail", "intermittent"}
      {
        assert c in multiset(ShapeCandidates(p.candidates));
      }
    }
  }

  /** `MakeRecord` for one unit's scheduler and branch. */
  function RecordOf(scheduler: string, branch: string, version: string, timestamp: int): Push -> Result<Record>
  {
    p => MakeRecord(p, scheduler, branch, version, timestamp)
  }

  /** The records of the pushes of one unit; the first push whose record
      cannot be made raises before anything reaches the sink. */
  function Records(pushes: seq<Push>, scheduler: string, branch: string, version: string, timestamp: int): Result<seq<Record>>
  {
    var r := Collect(pushes, RecordOf(scheduler, branch, version, timestamp));
    if r.error.Some? then Failure(r.error.value) else Success(r.values)
  }

  /** One record per push, in push order, exactly when every push knows the
      scheduler. */
  lemma RecordsInOrder(pushes: seq<Push>, scheduler: string, branch: string, version: string, timestamp: int)
    ensures var r := Records(pushes, scheduler, branch, version, timestamp);
      && (r.Success? <==> forall k :: 0 <= k < |pushes| ==> scheduler in pushes[k].shadowTasks)
      && (r.Success? ==>
            && |r.value| == |pushes|
            && forall k :: 0 <= k < |pushes| ==>
                 r.value[k] == Shape(pushes[k], pushes[k].shadowTasks[scheduler], scheduler, branch, version, timestamp))
  {
    var f := RecordOf(scheduler, branch, version, timestamp);
    CollectValues(pushes, f);
    CollectSucceeds(pushes, f);
    assert forall k :: 0 <= k < |pushes| ==> (f(pushes[k]).Success? <==> scheduler in pushes[k].shadowTasks);
  }

  /** What one unit hands the sink: the records of the fetched pushes, no
      records on `MissingDataError`, and an error on any other fetch error. */
  function UnitOutcome(u: WorkUnit, fetch: Provider, version: string, timestamp: int): Result<seq<Record>>
    requires u.scheduler.Some?
  {
    match fetch(u.branch, u.start, u.end)
    case MissingData => Success([])
    case FetchError(_) => Failure("not expected")
    case Pushes(ps) => Records(ps, u.scheduler.value, u.branch, version, timestamp)
  }

  /** The `for push in pushes` loop of `process_one`. */
  method BuildRecords(pushes: seq<Push>, scheduler: string, branch: string, version: string, timestamp: int)
    returns (r: Result<seq<Record>>)
    ensures r == Records(pushes, scheduler, branch, version, timestamp)
  {
    ghost var f := RecordOf(scheduler, branch, version, timestamp);
    var data: seq<Record> := [];
    var i := 0;
    while i < |pushes|
      invariant 0 <= i <= |pushes|
      invariant Collect(pushes[..i], f) == Partial(data, None)
    {
      CollectSnoc(pushes[..i], pushes[i], f);
      assert pushes[..i + 1] == pushes[..i] + [pushes[i]];
      var rec := MakeRecord(pushes[i], scheduler, branch, version, timestamp);
      if rec.Failure? {
        CollectStable(pushes, f, i + 1);
        return Failure(rec.error);
      }
      data := data + [rec.value];
      i := i + 1;
    }
    assert pushes[..i] == pushes;
    r := Success(data);
  }

  /** `process_one`: advance the watermark and persist it, fetch, shape the
      records and extend the sink with them. An error returns before the
      sink is touched. */
  method ProcessOne(done: Watermark, store: RangeStore, sink: Sink<Record>, u: WorkUnit,
                    fetch: Provider, version: string, timestamp: int) returns (error: Option<string>)
    requires u.scheduler.Some?
    modifies done, store, sink
    ensures (done.min, done.max) == Advanced((old(done.min), old(done.max)), u.start, u.end)
    ensures store.rows == Overwritten(old(store.rows), done.AsRow())
    ensures sink.merges == old(sink.merges)
    ensures match UnitOutcome(u, fetch, version, timestamp)
      case Success(data) => error.None? && sink.batches == old(sink.batches) + [data]
      case Failure(e) => error == Some(e) && sink.batches == old(sink.batches)
  {
    done.Advance(u.start, u.end);
    store.Update(done.AsRow());
    var pushes: seq<Push>;
    match fetch(u.branch, u.start, u.end) {
      case MissingData =>
        pushes := [];
      case FetchError(_) =>
        return Some("not expected");
      case Pushes(ps) =>
        pushes := ps;
    }
    var data := BuildRecords(pushes, u.scheduler.value, u.branch, version, timestamp);
    if data.Failure? {
      return Some(data.error);
    }
    sink.Extend(data.value);
    error := None;
  }

  // ----- the drain loop -----

  /** The drain loop's result: the batches it appended, how many units it
      popped, and the error that stopped it. */
  datatype Run = Run(batches: seq<seq<Record>>, attempted: nat, error: Option<string>)

  /** The units of `todo` in queue order, stopping after the first that
      raises. */
  function Drained(todo: seq<WorkUnit>, fetch: Provider, version: string, timestamp: int): (r: Run)
    requires forall k :: 0 <= k < |todo| ==> todo[k].scheduler.Some?
    ensures r.attempted <= |todo|
  {
    if |todo| == 0 then Run([], 0, None)
    else
      var prev := Drained(todo[..|todo| - 1], fetch, version, timestamp);
      if prev.error.Some? then prev
      else
        match UnitOutcome(todo[|todo| - 1], fetch, version, timestamp)
        case Success(data) => Run(prev.batches + [data], prev.attempted + 1, None)
        case Failure(e) => Run(prev.batches, prev.attempted + 1, Some(e))
  }

  /** Without an error every unit ran and contributed its batch, in order. */
  lemma {:induction false} DrainedCompletes(todo: seq<WorkUnit>, fetch: Provider, version: string, timestamp: int)
    requires forall k :: 0 <= k < |todo| ==> todo[k].scheduler.Some?
    requires Drained(todo, fetch, version, timestamp).error.None?
    ensures var r := Drained(todo, fetch, version, timestamp);
      && r.attempted == |todo| && |r.batches| == |todo|
      && forall k :: 0 <= k < |todo| ==> Success(r.batches[k]) == UnitOutcome(todo[k], fetch, version, timestamp)
  {
    if |todo| > 0 {
      var init := todo[..|todo| - 1];
      assert Drained(init, fetch, version, timestamp).error.None?;
      DrainedCompletes(init, fetch, version, timestamp);
      assert forall k :: 0 <= k < |init| ==> init[k] == todo[k];
    }
  }

  /** With an error the loop stopped at the first unit that raised: that unit
      is the last one popped, every unit before it succeeded and contributed
      its batch, and nothing after it ran. */
  lemma {:induction false} DrainedStopsAtFirstError(todo: seq<WorkUnit>, fetch: Provider, version: string, timestamp: int)
    requires forall k :: 0 <= k < |todo| ==> todo[k].scheduler.Some?
    requires Drained(todo, fetch, version, timestamp).error.Some?
    ensures var r := Drained(todo, fetch, version, timestamp);
      && 1 <= r.attempted && |r.batches| == r.attempted - 1
      && UnitOutcome(todo[r.attempted - 1], fetch, version, timestamp) == Failure(r.error.value)
      && forall k :: 0 <= k < r.attempted - 1 ==> Success(r.batches[k]) == UnitOutcome(todo[k], fetch, version, timestamp)
  {
    var init := todo[..|todo| - 1];
    assert forall k :: 0 <= k < |init| ==> init[k] == todo[k];
    if Drained(init, fetch, version, timestamp).error.Some? {
      DrainedStopsAtFirstError(init, fetch, version, timestamp);
    } else {
      DrainedCompletes(init, fetch, version, timestamp);
    }
  }

  /** Once a prefix stops with an error, the rest of the queue is never
      popped. */
  lemma {:induction false} DrainedStable(todo: seq<WorkUnit>, fetch: Provider, version: string, timestamp: int, k: nat)
    requires forall j :: 0 <= j < |todo| ==> todo[j].scheduler.Some?
    requires k <= |todo|
    requires Drained(todo[..k], fetch, version, timestamp).error.Some?
    ensures Drained(todo, fetch, version, timestamp) == Drained(todo[..k], fetch, version, timestamp)
    decreases |todo|
  {
    if k < |todo| {
      assert todo[..|todo| - 1][..k] == todo[..k];
      DrainedStable(todo[..|todo| - 1], fetch, version, timestamp, k);
    } else {
      assert todo[..k] == todo;
    }
  }

  /** Popping unit `i` after a run that has not stopped. */
  lemma DrainedStep(todo: seq<WorkUnit>, i: nat, fetch: Provider, version: string, timestamp: int)
    requires forall k :: 0 <= k < |todo| ==> todo[k].scheduler.Some?
    requires i < |todo|
    requires Drained(todo[..i], fetch, version, timestamp).error.None?
    ensures var prev := Drained(todo[..i], fetch, version, timestamp);
      Drained(todo[..i + 1], fetch, version, timestamp) ==
        match UnitOutcome(todo[i], fetch, version, timestamp)
        case Success(data) => Run(prev.batches + [data], prev.attempted + 1, None)
        case Failure(e) => Run(prev.batches, prev.attempted + 1, Some(e))
  {
    assert todo[..i + 1][..i] == todo[..i];
  }

  /** One pass of the drain loop: pop unit `i` and process it. Without an
      error the run so far is extended by the unit's batch; with one, the
      run is over. */
  method DrainOne(todo: seq<WorkUnit>, i: nat, done: Watermark, store: RangeStore, sink: Sink<Record>,
                  fetch: Provider, version: string, timestamp: int,
                  ghost w0: (int, int), ghost rows0: seq<Row>, ghost sent: seq<seq<Record>>, batches: seq<seq<Record>>)
    returns (error: Option<string>, next: seq<seq<Record>>)
    requires forall k :: 0 <= k < |todo| ==> todo[k].scheduler.Some?
    requires i < |todo|
    requires Drained(todo[..i], fetch, version, timestamp) == Run(batches, i, None)
    requires sink.batches == sent + batches
    requires (done.min, done.max) == AdvancedAll(w0, todo[..i])
    requires store.rows == if i == 0 then rows0 else Overwritten(rows0, done.AsRow())
    modifies done, store, sink
    ensures sink.merges == old(sink.merges)
    ensures (done.min, done.max) == AdvancedAll(w0, todo[..i + 1])
    ensures store.rows == Overwritten(rows0, done.AsRow())
    ensures error.None? ==> Drained(todo[..i + 1], fetch, version, timestamp) == Run(next, i + 1, None)
    ensures error.None? ==> sink.batches == sent + next
    ensures error.Some? ==> Drained(todo, fetch, version, timestamp) == Run(batches, i + 1, error)
    ensures error.Some? ==> sink.batches == sent + batches
  {
    var u := todo[i];
    DrainedStep(todo, i, fetch, version, timestamp);
    AdvancedAllStep(w0, todo, i);
    ghost var before := done.AsRow();
    error := ProcessOne(done, store, sink, u, fetch, version, timestamp);
    if i > 0 {
      OverwrittenTwice(rows0, before, done.AsRow());
    }
    if error.Some? {
      DrainedStable(todo, fetch, version, timestamp, i + 1);
      next := batches;
    } else {
      next := batches + [UnitOutcome(u, fetch, version, timestamp).value];
    }
  }

  /** The `while not please_stop` loop and the `merge_shards` after it: pop
      units in order until the queue is empty or one raises; merge once. */
  method Drain(todo: seq<WorkUnit>, done: Watermark, store: RangeStore, sink: Sink<Record>,
               fetch: Provider, version: string, timestamp: int) returns (run: Run)
    requires forall k :: 0 <= k < |todo| ==> todo[k].scheduler.Some?
    modifies done, store, sink
    ensures run == Drained(todo, fetch, version, timestamp)
    ensures sink.batches == old(sink.batches) + run.batches
    ensures sink.merges == old(sink.merges) + 1
    ensures (done.min, done.max) == AdvancedAll((old(done.min), old(done.max)), todo[..run.attempted])
    ensures store.rows == if run.attempted == 0 then old(store.rows) else Overwritten(old(store.rows), done.AsRow())
  {
    ghost var w0 := (done.min, done.max);
    var batches: seq<seq<Record>> := [];
    var i := 0;
    run := Run([], 0, None);
    while i < |todo|
      invariant 0 <= i <= |todo|
      invariant Drained(todo[..i], fetch, version, timestamp) == Run(batches, i, None)
      invariant sink.batches == old(sink.batches) + batches && sink.merges == old(sink.merges)
      invariant (done.min, done.max) == AdvancedAll(w0, todo[..i])
      invariant store.rows == if i == 0 then old(store.rows) else Overwritten(old(store.rows), done.AsRow())
    {
      var error, next := DrainOne(todo, i, done, store, sink, fetch, version, timestamp,
                                  w0, old(store.rows), old(sink.batches), batches);
      if error.Some? {
        run := Run(batches, i + 1, error);
        break;
      }
      batches := next;
      i := i + 1;
    }
    if run.error.None? {
      assert todo[..i] == todo;
      run := Run(batches, i, None);
    }
    sink.MergeShards();
  }

  // ----- the whole driver -----

  /** The configuration `process` reads; `start` is None when unset. */
  datatype Config = Config(rangeMin: int, rangeMax: int, start: Option<int>, interval: int,
                           branches: seq<string>, schedulers: seq<string>)

  /** The units `process` queues for a given seed watermark. */
  function Planned(c: Config, seed: (int, int)): seq<WorkUnit>
    requires c.interval > 0
  {
    CrossUnits(CorrectedSlots(seed.0, seed.1, c.rangeMin, c.rangeMax, c.interval), c.branches, c.schedulers)
  }

  /** `process`: seed, plan, drain, merge. */
  method Process(c: Config, store: RangeStore, sink: Sink<Record>, fetch: Provider,
                 now: int, version: string, timestamp: int) returns (run: Run)
    requires c.interval > 0
    modifies store, sink
    ensures var todo := Planned(c, Seed(old(store.rows), c.start, now));
      && (forall k :: 0 <= k < |todo| ==> todo[k].scheduler.Some?)
      && run == Drained(todo, fetch, version, timestamp)
      && sink.batches == old(sink.batches) + run.batches
      && sink.merges == old(sink.merges) + 1
    ensures var seed := Seed(old(store.rows), c.start, now);
      var todo := Planned(c, seed);
      var rows := Seeded(old(store.rows), c.start, now);
      && run.attempted <= |todo|
      && store.rows == if run.attempted == 0 then rows
                       else Overwritten(rows, RowOf(AdvancedAll(seed, todo[..run.attempted])))
  {
    var done := Load(store, c.start, now);
    var todo := PlanWithSchedulers(done.min, done.max, c.rangeMin, c.rangeMax, c.interval, c.branches, c.schedulers);
    forall k | 0 <= k < |todo|
      ensures todo[k].scheduler.Some?
    {
      CrossUnitsMember(CorrectedSlots(done.min, done.max, c.rangeMin, c.rangeMax, c.interval), c.branches, c.schedulers, todo[k]);
    }
    run := Drain(todo, done, store, sink, fetch, version, timestamp);
  }

  /** A unit whose fetch reports missing data appends an empty batch: the
      watermark still advanced over it, yet none of its pushes is recorded. */
  lemma MissingDataIsEmpty(u: WorkUnit, fetch: Provider, version: string, timestamp: int)
    requires u.scheduler.Some?
    requires fetch(u.branch, u.start, u.end) == MissingData
    ensures UnitOutcome(u, fetch, version, timestamp) == Success([])
  {
  }
}
