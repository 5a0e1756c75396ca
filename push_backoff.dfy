/**
 * The push back-off rule both git modules follow, per repository: a
 * failed push doubles the back-off (starting from the start value, capped
 * at the maximum) and forbids pushing until that long after the failure;
 * a successful push resets the back-off to the start value and lifts the
 * ban. Times are seconds, given as parameters.
 */
module PushBackoff {

  function Min(a: real, b: real): real { if a <= b then a else b }
  function Max(a: real, b: real): real { if a >= b then a else b }

  /** `m.get(k, d)`. */
  function Lookup(m: map<string, real>, k: string, d: real): real {
    if k in m then m[k] else d
  }

  /** The back-off after one more failure: `min(max(current, start) * 2, cap)`. */
  function NextBackoff(current: real, start: real, cap: real): (r: real)
    ensures r <= cap
    ensures r < cap ==> r == 2.0 * Max(current, start)
    ensures r >= 2.0 * start || r == cap
  {
    Min(Max(current, start) * 2.0, cap)
  }

  /** Whether the repository may push at time `now`: not before its next allowed time (0 when unset). */
  predicate MayPush(nextAllowed: map<string, real>, root: string, now: real) {
    !(now < Lookup(nextAllowed, root, 0.0))
  }

  /** `start * 2^n`. */
  function Doubled(start: real, n: nat): (r: real)
    ensures start >= 0.0 ==> r >= start
  {
    if n == 0 then start else 2.0 * Doubled(start, n - 1)
  }

  /** The back-off after `n` failures in a row, starting from a repository with none recorded. */
  function AfterFailures(start: real, cap: real, n: nat): real {
    if n == 0 then start else NextBackoff(AfterFailures(start, cap, n - 1), start, cap)
  }

  /** One more failure when the back-off so far is `min(p, cap)` with `p` at least the start value. */
  lemma DoubleStep(prev: real, p: real, start: real, cap: real)
    requires prev == Min(p, cap) && p >= start >= 0.0
    ensures NextBackoff(prev, start, cap) == Min(2.0 * p, cap)
  {
  }

  /** Consecutive failures double the back-off from the start value until it reaches the cap. */
  lemma {:induction false} FailuresDouble(start: real, cap: real, n: nat)
    requires start >= 0.0 && n >= 1
    ensures AfterFailures(start, cap, n) == Min(Doubled(start, n), cap)
  {
    if n == 1 {
      assert AfterFailures(start, cap, 0) == start && Doubled(start, 0) == start;
    } else {
      FailuresDouble(start, cap, n - 1);
      DoubleStep(AfterFailures(start, cap, n - 1), Doubled(start, n - 1), start, cap);
    }
  }

  /** With a non-negative start at most the cap, a failure never shortens the back-off. */
  lemma BackoffNeverShrinks(current: real, start: real, cap: real)
    requires 0.0 <= start && 0.0 <= current <= cap
    ensures current <= NextBackoff(current, start, cap)
  {
  }

  /** After a failure at `now` with back-off `b`, no push is allowed before `now + b`. */
  lemma BlockedDuringBackoff(nextAllowed: map<string, real>, root: string, now: real, b: real, t: real)
    requires t < now + b
    ensures !MayPush(nextAllowed[root := now + b], root, t)
  {
  }

  /** A failure of one repository leaves the other repositories' permission unchanged. */
  lemma OtherRepositoriesUnaffected(nextAllowed: map<string, real>, root: string, other: string, v: real, t: real)
    requires other != root
    ensures MayPush(nextAllowed[root := v], other, t) == MayPush(nextAllowed, other, t)
  {
  }

  /** After a success, pushing is allowed again at any non-negative time. */
  lemma SuccessReopens(nextAllowed: map<string, real>, root: string, t: real)
    requires t >= 0.0
    ensures MayPush(nextAllowed[root := 0.0], root, t)
  {
  }
}
