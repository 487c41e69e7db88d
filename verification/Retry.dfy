/** The resolver's two retry loops: which failures count, when they give up, and how long they wait. */
module Retry {
  const BACKOFF_CAP: nat := 30    // seconds
  const NOT_READY_WAIT: nat := 10 // seconds

  function Pow2(n: nat): (r: nat)
    ensures r >= 1
  {
    if n == 0 then 1 else 2 * Pow2(n - 1)
  }

  /** Seconds to wait behind the given number of counted failures in a row: powers of two up to the cap. */
  function ResolveFailureBackoff(errCount: int): (s: nat)
    ensures 1 <= s <= BACKOFF_CAP
  {
    if errCount < 1 then 1
    else if errCount > 5 then BACKOFF_CAP
    else if Pow2(errCount - 1) < BACKOFF_CAP then Pow2(errCount - 1) else BACKOFF_CAP
  }

  datatype Outcome = Ok | NotReady | Failed

  function BackoffSum(k: nat): nat { if k == 0 then 0 else BackoffSum(k - 1) + ResolveFailureBackoff(k) }

  /** The waits of k consecutive counted failures in closed form. */
  lemma {:induction false} BackoffTotal(k: nat)
    ensures BackoffSum(k) == if k <= 5 then Pow2(k) - 1 else 31 + 30 * (k - 5)
  {
    if k > 0 {
      BackoffTotal(k - 1);
      FirstPowers();
    }
  }

  lemma FirstPowers()
    ensures Pow2(0) == 1 && Pow2(1) == 2 && Pow2(2) == 4 && Pow2(3) == 8 && Pow2(4) == 16 && Pow2(5) == 32
  {
  }

  /** One turn of a loop: is cancellation seen before it, what does the resolve return, is it seen while waiting? */
  datatype Turn = Turn(cancelled: bool, outcome: Outcome, interrupted: bool)

  /** Counted failures since the last success in the first n turns; a not-ready result neither counts nor resets. */
  function Failures(turns: seq<Turn>, n: nat): nat
    requires n <= |turns|
  {
    if n == 0 then 0 else
      match turns[n - 1].outcome
      case Ok => 0
      case NotReady => Failures(turns, n - 1)
      case Failed => Failures(turns, n - 1) + 1
  }

  /** Not-ready results since the last success. */
  function NotReadies(turns: seq<Turn>, n: nat): nat
    requires n <= |turns|
  {
    if n == 0 then 0 else
      match turns[n - 1].outcome
      case Ok => 0
      case NotReady => NotReadies(turns, n - 1) + 1
      case Failed => NotReadies(turns, n - 1)
  }

  /** A not-ready result changes no count, wherever it falls: without it all later counts are the same. */
  lemma {:induction false} NotReadyTransparent(turns: seq<Turn>, i: nat, n: nat)
    requires i < n <= |turns| && turns[i].outcome == NotReady
    ensures Failures(turns, n) == Failures(turns[..i] + turns[i + 1..], n - 1)
  {
    var rest := turns[..i] + turns[i + 1..];
    if n == i + 1 {
      SameCounts(turns, rest, i);
    } else {
      NotReadyTransparent(turns, i, n - 1);
      assert rest[n - 2] == turns[n - 1];
    }
  }

  lemma {:induction false} SameCounts(p: seq<Turn>, q: seq<Turn>, n: nat)
    requires n <= |p| && n <= |q| && p[..n] == q[..n]
    ensures Failures(p, n) == Failures(q, n)
  {
    if n > 0 {
      assert p[n - 1] == p[..n][n - 1] == q[..n][n - 1] == q[n - 1];
      assert p[..n - 1] == p[..n][..n - 1] == q[..n][..n - 1] == q[..n - 1];
      SameCounts(p, q, n - 1);
    }
  }

  /** k counted failures behind a success, with any not-ready results among them removed, count k. */
  lemma {:induction false} FailuresInARow(turns: seq<Turn>, from: nat, n: nat)
    requires from <= n <= |turns| && (from == 0 || turns[from - 1].outcome == Ok)
    requires forall i :: from <= i < n ==> turns[i].outcome == Failed
    ensures Failures(turns, n) == n - from
  {
    if n > from {
      FailuresInARow(turns, from, n - 1);
    }
  }

  /** Still running at the end of the schedule, returned nil, or returned the last error. */
  datatype Exit = Running | ReturnedNil | ReturnedError

  ghost predicate Calm(turns: seq<Turn>, n: nat)
    requires n <= |turns|
  {
    forall i :: 0 <= i < n ==> !turns[i].cancelled && (turns[i].outcome != Ok ==> !turns[i].interrupted)
  }

  /** Every shorter run is within the budget. */
  ghost predicate Within(turns: seq<Turn>, n: nat, budget: int)
    requires n <= |turns|
  {
    forall m :: 0 <= m <= n ==> Failures(turns, m) <= budget
  }

  /**
   * UpdateMasterAddressLoop behind the initial resolve: it fails exactly when retries+1 counted failures have
   * accumulated since the last success, and by then has waited for all of them. `waited` starts anew at a success.
   */
  method UpdateLoop(retries: int, turns: seq<Turn>) returns (exit: Exit, used: nat, waited: nat)
    ensures used <= |turns|
    ensures retries < 0 ==> exit == ReturnedNil && used == 0
    ensures exit == Running ==> used == |turns| && Calm(turns, used) && Within(turns, used, retries)
    ensures exit == ReturnedError ==> used > 0 && Calm(turns, used) && Within(turns, used - 1, retries)
    ensures exit == ReturnedError ==> Failures(turns, used) == retries + 1
    ensures exit == ReturnedError ==>
              waited == (if retries + 1 <= 5 then Pow2(retries + 1) - 1 else 31 + 30 * (retries - 4)) +
                        10 * NotReadies(turns, used)
    ensures exit == ReturnedNil && retries >= 0 ==>
              used < |turns| && Calm(turns, used) && Within(turns, used, retries) &&
              (turns[used].cancelled || (turns[used].outcome != Ok && turns[used].interrupted))
  {
    hide Pow2, ResolveFailureBackoff;
    var errCount := 0;
    used, waited := 0, 0;
    while errCount <= retries
      invariant used <= |turns| && Calm(turns, used)
      invariant errCount == Failures(turns, used)
      invariant waited == BackoffSum(errCount) + NOT_READY_WAIT * NotReadies(turns, used)
      invariant retries >= 0 ==> errCount <= retries + 1
      invariant errCount <= retries ==> Within(turns, used, retries)
      invariant used > 0 ==> Within(turns, used - 1, retries) && retries >= 0
      invariant used == 0 ==> errCount == 0
      decreases |turns| - used
    {
      if used == |turns| {
        return Running, used, waited;
      }
      var turn := turns[used];
      if turn.cancelled {
        return ReturnedNil, used, waited;
      }
      var wait: nat;
      if turn.outcome == Ok {
        errCount, waited, used := 0, 0, used + 1;
        continue;
      } else if turn.outcome == NotReady {
        wait := NOT_READY_WAIT;
      } else {
        errCount := errCount + 1;
        wait := ResolveFailureBackoff(errCount);
      }
      if turn.interrupted {
        return ReturnedNil, used, waited;
      }
      waited, used := waited + wait, used + 1;
    }
    BackoffTotal(errCount);
    exit := if retries < 0 then ReturnedNil else ReturnedError;
  }

  /** Without interruption the loop's fate is a matter of the outcomes alone. */
  ghost predicate Undisturbed(turns: seq<Turn>, n: nat)
    requires n <= |turns|
  {
    forall i :: 0 <= i < n ==> turns[i].outcome != Ok && !turns[i].interrupted
  }

  /**
   * initialMasterAddressResolve: the first success ends it; otherwise it gives up at the same count as the update
   * loop, but without waiting for the last failure. A cancelled wait returns the error of the last attempt.
   */
  method InitialLoop(retries: int, turns: seq<Turn>) returns (exit: Exit, gaveUp: bool, used: nat, waited: nat)
    ensures used <= |turns|
    ensures exit == Running ==> used == |turns| && Undisturbed(turns, used) && Within(turns, used, Budget(retries))
    ensures exit == ReturnedNil ==>
              used > 0 && turns[used - 1].outcome == Ok && Undisturbed(turns, used - 1) &&
              Within(turns, used - 1, Budget(retries))
    ensures exit == ReturnedError ==>
              used > 0 && Undisturbed(turns, used - 1) && Within(turns, used - 1, Budget(retries))
    ensures exit == ReturnedError && gaveUp ==>
              turns[used - 1].outcome == Failed && Failures(turns, used) == Budget(retries) + 1
    ensures exit == ReturnedError && gaveUp ==>
              waited == BackoffSum(Budget(retries)) + 10 * NotReadies(turns, used)
    ensures exit == ReturnedError && !gaveUp ==>
              turns[used - 1].outcome != Ok && turns[used - 1].interrupted && Within(turns, used, Budget(retries))
  {
    hide Pow2, ResolveFailureBackoff;
    var errCount := 0;
    gaveUp, used, waited := false, 0, 0;
    while used < |turns|
      invariant used <= |turns| && Undisturbed(turns, used) && Within(turns, used, Budget(retries))
      invariant errCount == Failures(turns, used)
      invariant waited == BackoffSum(errCount) + NOT_READY_WAIT * NotReadies(turns, used)
    {
      var turn := turns[used];
      used := used + 1;
      if turn.outcome == Ok {
        return ReturnedNil, gaveUp, used, waited;
      }
      var wait := NOT_READY_WAIT;
      if turn.outcome == Failed {
        errCount := errCount + 1;
        if errCount > retries {
          return ReturnedError, true, used, waited;
        }
        wait := ResolveFailureBackoff(errCount);
      }
      if turn.interrupted {
        return ReturnedError, gaveUp, used, waited;
      }
      waited := waited + wait;
    }
    exit := Running;
  }

  /** A negative retry count still allows the first attempt. */
  function Budget(retries: int): nat { if retries < 0 then 0 else retries }
}
