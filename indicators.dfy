/** The regression-indicator detector of `etl-schedulers.py`: for a push
    `bad` backed out by push `backout`, the before/during/after windows of
    push ids, the per-status sums of each label over them, and the strict
    three-inequality rule. Push ids are consecutive: a push's parent is
    `id - 1` and its child `id + 1`. */
module Indicators {
  import opened Wrappers
  import opened Ordering
  import opened Pushes

  const LookBack: nat := 30
  const LookForward: nat := 30

  /** `state.results`: label to push id to status to count. */
  type Results = map<string, map<int, map<Status, nat>>>

  /** `state.results[label][id][status]`; any missing level reads as Null. */
  function Count(results: Results, name: string, id: int, s: Status): Option<nat>
  {
    if name in results && id in results[name] && s in results[name][id]
    then Some(results[name][id][s])
    else None
  }

  /** `sum(pushes[i][s.name] for i in ids)`: Null absorbs every addition, so
      one missing count makes the whole sum Null. */
  function WindowSum(results: Results, name: string, ids: seq<int>, s: Status): Option<nat>
  {
    if |ids| == 0 then Some(0)
    else
      var prev := WindowSum(results, name, ids[..|ids| - 1], s);
      var c := Count(results, name, ids[|ids| - 1], s);
      if prev.Some? && c.Some? then Some(prev.value + c.value) else None
  }

  /** `coalesce(x, 0)`. */
  function OrZero(x: Option<nat>): nat
  {
    if x.Some? then x.value else 0
  }

  /** The sum is an ordinary sum exactly when every id has a count. */
  lemma {:induction false} WindowSumDefined(results: Results, name: string, ids: seq<int>, s: Status)
    ensures WindowSum(results, name, ids, s).Some?
      <==> forall k :: 0 <= k < |ids| ==> Count(results, name, ids[k], s).Some?
  {
    if |ids| > 0 {
      var init := ids[..|ids| - 1];
      WindowSumDefined(results, name, init, s);
      assert forall k :: 0 <= k < |init| ==> init[k] == ids[k];
    }
  }

  /** A sum is at least each of its counts. */
  lemma {:induction false} WindowSumBound(results: Results, name: string, ids: seq<int>, s: Status, k: nat)
    requires k < |ids| && WindowSum(results, name, ids, s).Some?
    ensures Count(results, name, ids[k], s).Some?
    ensures Count(results, name, ids[k], s).value <= WindowSum(results, name, ids, s).value
  {
    var init := ids[..|ids| - 1];
    if k < |init| {
      WindowSumBound(results, name, init, s, k);
      assert init[k] == ids[k];
    }
  }

  // ----- windows -----

  /** `n` ids counting down from `from`. */
  function Descending(from: int, n: nat): (r: seq<int>)
    ensures |r| == n
  {
    if n == 0 then [] else Descending(from, n - 1) + [from - (n - 1)]
  }

  /** `n` ids counting up from `from`. */
  function Ascending(from: int, n: nat): (r: seq<int>)
    ensures |r| == n
  {
    if n == 0 then [] else Ascending(from, n - 1) + [from + (n - 1)]
  }

  lemma {:induction false} DescendingAt(from: int, n: nat, k: nat)
    requires k < n
    ensures Descending(from, n)[k] == from - k
  {
    if k < n - 1 {
      DescendingAt(from, n - 1, k);
    }
  }

  lemma {:induction false} AscendingAt(from: int, n: nat, k: nat)
    requires k < n
    ensures Ascending(from, n)[k] == from + k
  {
    if k < n - 1 {
      AscendingAt(from, n - 1, k);
    }
  }

  /** The windows around one backed-out push. */
  datatype Windows = Windows(before: seq<int>, during: seq<int>, after: seq<int>)

  /** `before`: the 30 parents of `bad`, nearest first; `during`: `bad` and
      its descendants while below `backout`; `after`: the next 30 ids. */
  function WindowsOf(bad: int, backout: int): Windows
  {
    var duringLength := if backout > bad then backout - bad else 0;
    Windows(Descending(bad - 1, LookBack), Ascending(bad, duringLength), Ascending(bad + duringLength, LookForward))
  }

  /** The windows as the detector promises them: exactly 30 parents, every
      push from `bad` up to but excluding `backout`, then exactly 30 pushes
      starting where `during` ended, which is `max(bad, backout)`. */
  lemma WindowsShape(bad: int, backout: int)
    ensures var w := WindowsOf(bad, backout);
      && |w.before| == LookBack && |w.after| == LookForward
      && (forall k :: 0 <= k < |w.before| ==> w.before[k] == bad - 1 - k)
      && (forall id :: id in w.during <==> bad <= id < backout)
      && (forall k :: 0 <= k < |w.during| ==> w.during[k] == bad + k)
      && (forall k :: 0 <= k < |w.after| ==> w.after[k] == (if backout > bad then backout else bad) + k)
  {
    var w := WindowsOf(bad, backout);
    forall k | 0 <= k < |w.before|
      ensures w.before[k] == bad - 1 - k
    {
      DescendingAt(bad - 1, LookBack, k);
    }
    forall k | 0 <= k < |w.during|
      ensures w.during[k] == bad + k
    {
      AscendingAt(bad, |w.during|, k);
    }
    forall id
      ensures id in w.during <==> bad <= id < backout
    {
      if bad <= id < backout {
        AscendingAt(bad, |w.during|, id - bad);
      }
    }
    forall k | 0 <= k < |w.after|
      ensures w.after[k] == (if backout > bad then backout else bad) + k
    {
      AscendingAt(bad + |w.during|, LookForward, k);
    }
  }

  /** The three window loops: walk `.parent` 30 times, walk `.child` while
      below the backout, then walk `.child` 30 more times. */
  method BuildWindows(bad: int, backout: int) returns (w: Windows)
    ensures w == WindowsOf(bad, backout)
  {
    var before: seq<int> := [];
    var start := bad;
    for i := 0 to LookBack
      invariant start == bad - i
      invariant before == Descending(bad - 1, i)
    {
      start := start - 1;
      before := before + [start];
    }
    var during: seq<int> := [];
    var end := bad;
    while end < backout
      invariant bad <= end && (end <= backout || end == bad)
      invariant during == Ascending(bad, end - bad)
      decreases backout - end
    {
      during := during + [end];
      end := end + 1;
    }
    assert end - bad == (if backout > bad then backout - bad else 0);
    var after: seq<int> := [];
    var finish := end;
    for i := 0 to LookForward
      invariant end == finish + i
      invariant after == Ascending(finish, i)
    {
      after := after + [end];
      end := end + 1;
    }
    w := Windows(before, during, after);
  }

  // ----- the rule -----

  /** Success before the bad push, failure during it, success after the
      backout; every comparison strict. */
  predicate Rule(beforePass: nat, beforeFail: nat, duringPass: nat, duringFail: nat, afterPass: nat, afterFail: nat)
  {
    beforePass > beforeFail && duringPass < duringFail && afterPass > afterFail
  }

  /** The rule applied to one label's sums, absent sums reading as 0. */
  predicate IsIndicator(results: Results, name: string, w: Windows)
  {
    Rule(OrZero(WindowSum(results, name, w.before, Pass)), OrZero(WindowSum(results, name, w.before, Fail)),
         OrZero(WindowSum(results, name, w.during, Pass)), OrZero(WindowSum(results, name, w.during, Fail)),
         OrZero(WindowSum(results, name, w.after, Pass)), OrZero(WindowSum(results, name, w.after, Fail)))
  }

  /** The worked examples: a clean pass/fail/pass pattern is an indicator, a
      tie before the push is not. */
  lemma RuleExamples()
    ensures Rule(28, 1, 0, 4, 27, 0)
    ensures !Rule(10, 10, 0, 4, 27, 0)
    ensures !Rule(28, 1, 4, 4, 27, 0)
  {
  }

  /** A label with no count at all in some window cannot be an indicator:
      the failing `during` needs a failure, and the passing windows a pass. */
  lemma UnrecordedIsNoIndicator(results: Results, name: string, w: Windows)
    requires name !in results
    ensures !IsIndicator(results, name, w)
  {
    NoCountsSum(results, name, w.before, Pass);
    NoCountsSum(results, name, w.before, Fail);
  }

  lemma {:induction false} NoCountsSum(results: Results, name: string, ids: seq<int>, s: Status)
    requires name !in results
    ensures OrZero(WindowSum(results, name, ids, s)) == 0
  {
    if |ids| > 0 {
      NoCountsSum(results, name, ids[..|ids| - 1], s);
    }
  }

  /** `sum(...)` as the loop the generator runs. */
  method SumCounts(results: Results, name: string, ids: seq<int>, s: Status) returns (total: Option<nat>)
    ensures total == WindowSum(results, name, ids, s)
  {
    total := Some(0);
    for i := 0 to |ids|
      invariant total == WindowSum(results, name, ids[..i], s)
    {
      assert ids[..i + 1][..i] == ids[..i];
      var c := Count(results, name, ids[i], s);
      if total.Some? && c.Some? {
        total := Some(total.value + c.value);
      } else {
        total := None;
      }
    }
    assert ids[..|ids|] == ids;
  }

  // ----- detection -----

  /** The labels of `labels` that are indicators, in the order given. */
  function Selected(results: Results, labels: seq<string>, w: Windows): seq<string>
  {
    if |labels| == 0 then []
    else
      var prev := Selected(results, labels[..|labels| - 1], w);
      if IsIndicator(results, labels[|labels| - 1], w) then prev + [labels[|labels| - 1]] else prev
  }

  /** What the loop over `jx.sort(labels)` would collect. */
  function Detected(results: Results, labels: seq<string>, w: Windows): seq<string>
  {
    Selected(results, SortStrings(labels), w)
  }

  lemma {:induction false} SelectedMembers(results: Results, labels: seq<string>, w: Windows)
    ensures forall l :: l in Selected(results, labels, w) <==> l in labels && IsIndicator(results, l, w)
  {
    if |labels| > 0 {
      var init := labels[..|labels| - 1];
      SelectedMembers(results, init, w);
      assert labels == init + [labels[|labels| - 1]];
    }
  }

  lemma SelectedStep(results: Results, labels: seq<string>, i: nat, w: Windows)
    requires i < |labels|
    ensures Selected(results, labels[..i + 1], w) ==
      if IsIndicator(results, labels[i], w) then Selected(results, labels[..i], w) + [labels[i]]
      else Selected(results, labels[..i], w)
  {
    assert labels[..i + 1][..i] == labels[..i];
  }

  /** Selection keeps a sorted list sorted. */
  lemma {:induction false} SelectedSorted(results: Results, labels: seq<string>, w: Windows)
    requires SortedBy(labels, Identity)
    ensures SortedBy(Selected(results, labels, w), Identity)
  {
    if |labels| > 0 {
      var n := |labels| - 1;
      var init := labels[..n];
      assert SortedBy(init, Identity) by {
        assert forall i :: 0 <= i < n ==> init[i] == labels[i];
      }
      SelectedSorted(results, init, w);
      SelectedMembers(results, init, w);
      var prev := Selected(results, init, w);
      if IsIndicator(results, labels[n], w) {
        forall i | 0 <= i < |prev|
          ensures StrLe(prev[i], labels[n])
        {
          assert prev[i] in init;
          var j :| 0 <= j < n && init[j] == prev[i];
          assert StrLe(Identity(labels[j]), Identity(labels[n]));
        }
      }
    }
  }

  /** The detector's output: exactly the indicator labels, sorted, and it
      does not depend on the order the labels were gathered in. */
  lemma DetectedSpec(results: Results, labels: seq<string>, w: Windows)
    ensures forall l :: l in Detected(results, labels, w) <==> l in labels && IsIndicator(results, l, w)
    ensures SortedBy(Detected(results, labels, w), Identity)
    ensures forall other :: multiset(other) == multiset(labels) ==> Detected(results, other, w) == Detected(results, labels, w)
  {
    var sorted := SortStrings(labels);
    SelectedMembers(results, sorted, w);
    forall l
      ensures l in sorted <==> l in labels
    {
      SortedMembers(labels, Identity, l);
    }
    SelectedSorted(results, sorted, w);
    forall other | multiset(other) == multiset(labels)
      ensures Detected(results, other, w) == Detected(results, labels, w)
    {
      SortStringsPermutation(other, labels);
    }
  }

  /** The `about` sums of one label and the rule on them. */
  method Classify(results: Results, name: string, w: Windows) returns (isIndicator: bool)
    ensures isIndicator == IsIndicator(results, name, w)
  {
    var bp := SumCounts(results, name, w.before, Pass);
    var bf := SumCounts(results, name, w.before, Fail);
    var dp := SumCounts(results, name, w.during, Pass);
    var df := SumCounts(results, name, w.during, Fail);
    var ap := SumCounts(results, name, w.after, Pass);
    var af := SumCounts(results, name, w.after, Fail);
    isIndicator := OrZero(bp) > OrZero(bf) && OrZero(dp) < OrZero(df) && OrZero(ap) > OrZero(af);
  }

  /** One pass of the detector for `bad`, with the corrected list building:
      the windows, then every label in sorted order, appending the
      indicators. */
  method Detect(results: Results, labels: seq<string>, bad: int, backout: int) returns (indicators: seq<string>)
    ensures indicators == Detected(results, labels, WindowsOf(bad, backout))
  {
    var w := BuildWindows(bad, backout);
    var sorted := SortStrings(labels);
    indicators := [];
    for i := 0 to |sorted|
      invariant indicators == Selected(results, sorted[..i], w)
    {
      SelectedStep(results, sorted, i, w);
      var isIndicator := Classify(results, sorted[i], w);
      if isIndicator {
        indicators := indicators + [sorted[i]];
      }
    }
    assert sorted[..|sorted|] == sorted;
  }

  // ----- as written -----

  /** The detector as written: `indicators` is a list, so `indicators.add`
      raises at the first indicator found. */
  function DetectedAsWritten(results: Results, labels: seq<string>, w: Windows): Result<seq<string>>
  {
    if |Detected(results, labels, w)| > 0 then Failure("'list' object has no attribute 'add'")
    else Success([])
  }

  /** As written, the detector never reports an indicator: it either finds
      none or raises, while the corrected one reports every indicator. */
  lemma AsWrittenLosesIndicators(results: Results, labels: seq<string>, w: Windows, l: string)
    requires l in labels && IsIndicator(results, l, w)
    ensures DetectedAsWritten(results, labels, w).Failure?
    ensures l in Detected(results, labels, w)
  {
    DetectedSpec(results, labels, w);
  }
}
