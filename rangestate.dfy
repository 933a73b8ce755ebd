/** The persisted range watermark of both ETL drivers: the "etl-range" facts
    table, the in-memory `done` record seeded from it and advanced by every
    work unit, and the append-only sink the records go to. */
module RangeState {
  import opened Wrappers
  import opened Planner

  /** A row of the "etl-range" table; a column never written reads as None. */
  datatype Row = Row(min: Option<int>, max: Option<int>)

  /** The facts table: `add` appends a row, `update({"set": r})` with no
      `where` overwrites every row with `r`. */
  class RangeStore {
    var rows: seq<Row>

    constructor (rows: seq<Row>)
      ensures this.rows == rows
    {
      this.rows := rows;
    }

    method Add(row: Row)
      modifies this
      ensures rows == old(rows) + [row]
    {
      rows := rows + [row];
    }

    method Update(row: Row)
      modifies this
      ensures rows == Overwritten(old(rows), row)
    {
      var i := 0;
      var r: seq<Row> := [];
      while i < |rows|
        invariant 0 <= i <= |rows|
        invariant r == Overwritten(rows[..i], row)
      {
        assert rows[..i + 1][..i] == rows[..i];
        r := r + [row];
        i := i + 1;
      }
      assert rows[..i] == rows;
      rows := r;
    }
  }

  /** Every row of `rows` replaced by `row`. */
  function Overwritten(rows: seq<Row>, row: Row): (r: seq<Row>)
    ensures |r| == |rows|
    ensures forall i :: 0 <= i < |r| ==> r[i] == row
  {
    if |rows| == 0 then [] else Overwritten(rows[..|rows| - 1], row) + [row]
  }

  /** Overwriting twice leaves only the second row. */
  lemma OverwrittenTwice(rows: seq<Row>, a: Row, b: Row)
    ensures Overwritten(Overwritten(rows, a), b) == Overwritten(rows, b)
  {
  }

  /** The in-memory `done` record: the range already handed to workers. */
  class Watermark {
    var min: int
    var max: int

    constructor (min: int, max: int)
      ensures this.min == min && this.max == max
    {
      this.min := min;
      this.max := max;
    }

    /** The row `update({"set": done})` writes. */
    function AsRow(): Row
      reads this
    {
      Row(Some(min), Some(max))
    }

    /** `done.min = min(end, done.min); done.max = max(start, done.max)`. */
    method Advance(start: int, end: int)
      modifies this
      ensures (min, max) == Advanced((old(min), old(max)), start, end)
    {
      min := Min(end, min);
      max := Max(start, max);
    }
  }

  /** The watermark after one unit `[start, end)` was handed out. */
  function Advanced(w: (int, int), start: int, end: int): (int, int)
  {
    (Min(end, w.0), Max(start, w.1))
  }

  /** The watermark after the units `units`, in order. */
  function AdvancedAll(w: (int, int), units: seq<WorkUnit>): (int, int)
  {
    if |units| == 0 then w
    else
      var u := units[|units| - 1];
      Advanced(AdvancedAll(w, units[..|units| - 1]), u.start, u.end)
  }

  /** `min` never increases and `max` never decreases, and the new edges
      reach the unit's end and start. */
  lemma AdvanceMonotone(w: (int, int), start: int, end: int)
    ensures var r := Advanced(w, start, end);
      r.0 <= w.0 && r.1 >= w.1 && r.0 <= end && r.1 >= start
      && (r.0 == w.0 || r.0 == end) && (r.1 == w.1 || r.1 == start)
  {
  }

  /** Two advances commute, so the order units finish in does not matter. */
  lemma AdvanceCommutes(w: (int, int), s1: int, e1: int, s2: int, e2: int)
    ensures Advanced(Advanced(w, s1, e1), s2, e2) == Advanced(Advanced(w, s2, e2), s1, e1)
  {
  }

  /** Handing out the same unit twice changes nothing the second time. */
  lemma AdvanceIdempotent(w: (int, int), start: int, end: int)
    ensures Advanced(Advanced(w, start, end), start, end) == Advanced(w, start, end)
  {
  }

  /** After any run of units the watermark lies below every unit's end and
      above every unit's start, and inside the original one. */
  lemma {:induction false} AdvancedAllBounds(w: (int, int), units: seq<WorkUnit>)
    ensures var r := AdvancedAll(w, units);
      r.0 <= w.0 && r.1 >= w.1
      && forall k :: 0 <= k < |units| ==> r.0 <= units[k].end && r.1 >= units[k].start
  {
    if |units| > 0 {
      var init := units[..|units| - 1];
      AdvancedAllBounds(w, init);
      assert forall k :: 0 <= k < |init| ==> init[k] == units[k];
    }
  }

  /** Advancing by one more unit extends the run. */
  lemma AdvancedAllSnoc(w: (int, int), units: seq<WorkUnit>, u: WorkUnit)
    ensures AdvancedAll(w, units + [u]) == Advanced(AdvancedAll(w, units), u.start, u.end)
  {
    assert (units + [u])[..|units|] == units;
  }

  /** The run of the first `i + 1` units is the run of the first `i`, then
      unit `i`. */
  lemma AdvancedAllStep(w: (int, int), units: seq<WorkUnit>, i: nat)
    requires i < |units|
    ensures AdvancedAll(w, units[..i + 1]) == Advanced(AdvancedAll(w, units[..i]), units[i].start, units[i].end)
  {
    assert units[..i + 1][..i] == units[..i];
  }

  /** The watermark edges are always one of the original ones or one of the
      units' edges: the advance never invents a bound. */
  lemma {:induction false} AdvancedAllAttained(w: (int, int), units: seq<WorkUnit>)
    ensures var r := AdvancedAll(w, units);
      (r.0 == w.0 || exists k :: 0 <= k < |units| && r.0 == units[k].end)
      && (r.1 == w.1 || exists k :: 0 <= k < |units| && r.1 == units[k].start)
  {
    if |units| > 0 {
      var init := units[..|units| - 1];
      AdvancedAllAttained(w, init);
      assert forall k :: 0 <= k < |init| ==> init[k] == units[k];
    }
  }

  // ----- seeding -----

  /** "today-2day": two days before the start of the current day. */
  function DefaultStart(now: int): int
  {
    Floor(now, 86400) - 2 * 86400
  }

  /** `coalesce(stored, config.start, "today-2day")`. */
  function Coalesce(stored: Option<int>, configured: Option<int>, now: int): int
  {
    if stored.Some? then stored.value
    else if configured.Some? then configured.value
    else DefaultStart(now)
  }

  /** `data[0]` of the query result: a missing first row reads as Null, whose
      columns are all None. */
  function FirstRow(rows: seq<Row>): Row
  {
    if |rows| == 0 then Row(None, None) else rows[0]
  }

  /** The watermark `process` starts from. */
  function Seed(rows: seq<Row>, configured: Option<int>, now: int): (int, int)
  {
    var prev := FirstRow(rows);
    (Coalesce(prev.min, configured, now), Coalesce(prev.max, configured, now))
  }

  /** The row that records watermark `w`. */
  function RowOf(w: (int, int)): Row
  {
    Row(Some(w.0), Some(w.1))
  }

  /** The table once `Load` has run: an empty table gains the seeded row. */
  function Seeded(rows: seq<Row>, configured: Option<int>, now: int): seq<Row>
  {
    if |rows| == 0 then [RowOf(Seed(rows, configured, now))] else rows
  }

  /** `process`'s opening: query the table, seed `done` from its first row,
      and persist the seed when the table was empty. */
  method Load(store: RangeStore, configured: Option<int>, now: int) returns (done: Watermark)
    modifies store
    ensures fresh(done)
    ensures (done.min, done.max) == Seed(old(store.rows), configured, now)
    ensures store.rows == if |old(store.rows)| == 0 then [done.AsRow()] else old(store.rows)
  {
    var data := store.rows;
    var prev := FirstRow(data);
    done := new Watermark(Coalesce(prev.min, configured, now), Coalesce(prev.max, configured, now));
    if |data| == 0 {
      store.Add(done.AsRow());
    }
  }

  /** With an empty table the seed is a single instant (the configured start
      or the default), so `min == max`. */
  lemma SeedEmpty(configured: Option<int>, now: int)
    ensures var s := Seed([], configured, now);
      s.0 == s.1
      && s.0 == (if configured.Some? then configured.value else DefaultStart(now))
  {
  }

  /** Stored columns win over the configured start; each column falls back
      on its own. */
  lemma SeedStored(rows: seq<Row>, configured: Option<int>, now: int)
    requires |rows| > 0
    ensures rows[0].min.Some? ==> Seed(rows, configured, now).0 == rows[0].min.value
    ensures rows[0].max.Some? ==> Seed(rows, configured, now).1 == rows[0].max.value
    ensures rows[0].min.None? ==> Seed(rows, configured, now).0 == Seed([], configured, now).0
    ensures rows[0].max.None? ==> Seed(rows, configured, now).1 == Seed([], configured, now).1
  {
  }

  /** The default start is midnight-aligned and between two and three days
      before `now`. */
  lemma DefaultStartBounds(now: int)
    ensures DefaultStart(now) % 86400 == 0
    ensures now - 3 * 86400 < DefaultStart(now) <= now - 2 * 86400
  {
  }

  // ----- the sink -----

  /** The BigQuery destination: every `extend` is one batch; `merge_shards`
      is counted. */
  class Sink<T> {
    var batches: seq<seq<T>>
    var merges: nat

    constructor ()
      ensures batches == [] && merges == 0
    {
      batches := [];
      merges := 0;
    }

    method Extend(data: seq<T>)
      modifies this
      ensures batches == old(batches) + [data] && merges == old(merges)
    {
      batches := batches + [data];
    }

    method MergeShards()
      modifies this
      ensures batches == old(batches) && merges == old(merges) + 1
    {
      merges := merges + 1;
    }
  }
}
