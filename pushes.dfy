/** What the push-history provider hands the drivers, as plain values. The
    provider's methods (`get_shadow_scheduler_tasks`, `get_likely_regressions`,
    `backedoutby`, `get_candidate_regressions`, `get_regressions`) become
    fields holding their answers. */
module Pushes {
  import opened Wrappers

  /** `mozci.task.Status`. */
  datatype Status = Pass | Fail | Intermittent

  /** One entry of `get_candidate_regressions("label")`: label name, child
      count and status. */
  datatype Candidate = Candidate(name: string, childCount: int, status: Status)

  /** A push. `shadowTasks` maps each scheduler the provider can answer for
      to its selected labels (a scheduler missing from it makes the lookup
      raise); `regressions` is None when `get_regressions` raises. */
  datatype Push = Push(
    id: int,
    date: int,
    revs: seq<string>,
    shadowTasks: map<string, seq<string>>,
    likelyRegressions: seq<string>,
    backoutBy: Option<string>,
    candidates: seq<Candidate>,
    regressions: Option<seq<string>>)

  /** `make_push_objects(from_date, to_date, branch)`: the pushes, a
      `MissingDataError`, or any other exception. */
  datatype Fetch = Pushes(pushes: seq<Push>) | MissingData | FetchError(message: string)

  /** The provider, as a function of branch, start and end. */
  type Provider = (string, int, int) -> Fetch

  /** Python truth of `push.backedoutby()`: None and "" are false. */
  predicate BackedOut(p: Push)
  {
    p.backoutBy.Some? && p.backoutBy.value != ""
  }
}
