/** Small vocabulary shared by every component of the model. */
module Prelude {

  datatype Option<+T> = None | Some(value: T)

  /** A point in time in whole seconds, the resolution at which the API server stores times. */
  type Time = int

  function Max(a: int, b: int): int { if a < b then b else a }

  lemma SubsetSize<T>(a: set<T>, b: set<T>)
    requires a <= b
    ensures |a| <= |b|
  {
    assert b == a + (b - a);
  }

  /** The outcome of one API call, as its caller and the server see it. `Lost` is a write that
      the server applied although the caller was told that it failed. */
  datatype Outcome = Ok | Refused | Lost
}

/** A cron schedule, as far as the controller can observe it: the function that gives the next
    fire time. Parsing cron expressions is library code. */
module Schedules {
  import opened Prelude

  /** A later time has no earlier next fire time. This is all that most results need: it also holds
      of a schedule that fires a fixed interval after the last time, and of one that never fires,
      for which `next` is always the zero time. */
  ghost predicate IsMonotone(next: Time -> Time) {
    forall t, u :: t <= u ==> next(t) <= next(u)
  }

  type Schedule = next: Time -> Time | IsMonotone(next) witness (t: Time) => t + 1

  /** The schedule has fire times of its own: `next(t)` lies after `t`, and none lies between. */
  ghost predicate HasFireTimes(next: Time -> Time) {
    && (forall t :: t < next(t))
    && (forall t, u :: t <= u < next(t) ==> next(u) == next(t))
  }

  /** The fire times are the values of `next`; `next(t)` is the least of them after `t`. */
  lemma NextIsLeastFireTime(next: Schedule, t: Time, u: Time)
    requires HasFireTimes(next) && t < next(u)
    ensures t < next(t) <= next(u)
  {
    if u <= t { assert next(t) == next(u); }
  }
}

/** The phases of a compliance scan, and the way the scan's own controller moves through them. */
module Phases {

  datatype Phase = Unset | Pending | Running | Completed | Failed

  predicate Terminal(p: Phase) { p == Completed || p == Failed }

  /** The phase changes that the ComplianceScan controller can make on the server. A completed
      scan can still become failed, when the response to its last patch is lost. */
  predicate Advances(p: Phase, q: Phase) {
    match p
    case Unset => q == Running || q == Failed
    case Running => q == Completed || q == Failed
    case Completed => q == Failed
    case _ => false
  }
}

/** JSON merge patches, section 2 of RFC 7396, field by field: a field that the patch does not
    mention keeps the server's value, any other field is replaced as a whole. */
module MergePatch {

  datatype Change<+T> = Keep | Put(value: T)

  /** The entry for one field of the patch that leads from `base` to `modified`. */
  function Diff<T(==)>(base: T, modified: T): Change<T> {
    if base == modified then Keep else Put(modified)
  }

  function Apply<T>(change: Change<T>, target: T): T {
    match change
    case Keep => target
    case Put(v) => v
  }
}
