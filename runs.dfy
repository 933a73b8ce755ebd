/** A `for` loop over a sequence whose body may raise: the values produced
    before the first exception, and that exception. Both drivers build their
    record lists this way. */
module Runs {
  import opened Wrappers

  /** What such a loop leaves behind. */
  datatype Partial<B> = Partial(values: seq<B>, error: Option<string>)

  /** `f` applied to each element in order, stopping at the first failure. */
  function Collect<A, B>(xs: seq<A>, f: A -> Result<B>): Partial<B>
  {
    if |xs| == 0 then Partial([], None)
    else
      var prev := Collect(xs[..|xs| - 1], f);
      if prev.error.Some? then prev
      else
        match f(xs[|xs| - 1])
        case Success(v) => Partial(prev.values + [v], None)
        case Failure(e) => Partial(prev.values, Some(e))
  }

  /** The values are those of the elements before the first failure, in
      order; without a failure every element contributed, and with one the
      element right after the values is the one that failed. */
  lemma {:induction false} CollectValues<A, B>(xs: seq<A>, f: A -> Result<B>)
    ensures var r := Collect(xs, f);
      && |r.values| <= |xs|
      && (r.error.None? ==> |r.values| == |xs|)
      && (r.error.Some? ==> |r.values| < |xs| && f(xs[|r.values|]) == Failure(r.error.value))
      && forall k :: 0 <= k < |r.values| ==> f(xs[k]) == Success(r.values[k])
  {
    if |xs| > 0 {
      var init := xs[..|xs| - 1];
      CollectValues(init, f);
      assert forall k :: 0 <= k < |init| ==> init[k] == xs[k];
    }
  }

  /** The loop runs to the end exactly when no element fails. */
  lemma CollectSucceeds<A, B>(xs: seq<A>, f: A -> Result<B>)
    ensures Collect(xs, f).error.None? <==> forall k :: 0 <= k < |xs| ==> f(xs[k]).Success?
  {
    CollectValues(xs, f);
    var r := Collect(xs, f);
    if r.error.Some? {
      assert f(xs[|r.values|]).Failure?;
    }
  }

  /** Once a prefix stopped, the elements after it are never visited. */
  lemma {:induction false} CollectStable<A, B>(xs: seq<A>, f: A -> Result<B>, k: nat)
    requires k <= |xs|
    requires Collect(xs[..k], f).error.Some?
    ensures Collect(xs, f) == Collect(xs[..k], f)
    decreases |xs|
  {
    if k < |xs| {
      assert xs[..|xs| - 1][..k] == xs[..k];
      CollectStable(xs[..|xs| - 1], f, k);
    } else {
      assert xs[..k] == xs;
    }
  }

  /** One more element extends a run that has not stopped. */
  lemma CollectSnoc<A, B>(xs: seq<A>, x: A, f: A -> Result<B>)
    requires Collect(xs, f).error.None?
    ensures Collect(xs + [x], f) == match f(x)
      case Success(v) => Partial(Collect(xs, f).values + [v], None)
      case Failure(e) => Partial(Collect(xs, f).values, Some(e))
  {
    assert (xs + [x])[..|xs|] == xs;
  }
}
