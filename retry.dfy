/**
 * The two bounded-retry helpers of the form automation (index.js).
 *
 * The browser is an oracle: `retryStep` sees its step function as the
 * sequence of outcomes of its successive calls, and `waitForAnySelector`
 * sees the page as the answer a selector gets in a given round. Sleeps
 * between attempts and log lines are not modelled.
 */
module Retry {
  import opened Js

  /**
   * What one call of a step function does: it resolves, it rejects with a
   * value `error`, or it rejects with `null` or `undefined`.
   */
  datatype Attempt<T, E> = Resolved(value: T) | Rejected(error: E) | RejectedNullish

  /**
   * How `retryStep` itself settles. `ThrowsTypeError` is the TypeError
   * raised by reading `e.message` of a nullish rejection in the catch block.
   */
  datatype Settled<T, E> = Returns(value: T) | ReturnsUndefined | Throws(error: E) | ThrowsTypeError

  /**
   * Reference definition of `retryStep`: the outcome of attempts
   * `i`, `i + 1`, ... when attempt `retries - 1` is the last one allowed.
   */
  function RetryFrom<T, E>(fn: nat -> Attempt<T, E>, i: nat, retries: int): Settled<T, E>
    decreases retries - i
  {
    if i >= retries then ReturnsUndefined
    else match fn(i)
      case Resolved(v) => Returns(v)
      case Rejected(e) => if i == retries - 1 then Throws(e) else RetryFrom(fn, i + 1, retries)
      case RejectedNullish => ThrowsTypeError
  }

  /** The first attempt that resolves decides the outcome. */
  lemma {:induction false} RetryReturnsFirstSuccess<T, E>(fn: nat -> Attempt<T, E>, i: nat, k: nat, retries: int)
    requires i <= k < retries
    requires forall j :: i <= j < k ==> fn(j).Rejected?
    requires fn(k).Resolved?
    ensures RetryFrom(fn, i, retries) == Returns(fn(k).value)
    decreases k - i
  {
    if i < k {
      RetryReturnsFirstSuccess(fn, i + 1, k, retries);
    }
  }

  /** When every allowed attempt rejects, the error of the last one is thrown. */
  lemma {:induction false} RetryThrowsLastError<T, E>(fn: nat -> Attempt<T, E>, i: nat, retries: int)
    requires i < retries
    requires forall j :: i <= j < retries ==> fn(j).Rejected?
    ensures RetryFrom(fn, i, retries) == Throws(fn(retries - 1).error)
    decreases retries - i
  {
    if i < retries - 1 {
      RetryThrowsLastError(fn, i + 1, retries);
    }
  }

  /** A nullish rejection ends the retries at once with a TypeError, whatever attempts remain. */
  lemma {:induction false} RetryNullishRejectionThrowsTypeError<T, E>(fn: nat -> Attempt<T, E>, i: nat, k: nat, retries: int)
    requires i <= k < retries
    requires forall j :: i <= j < k ==> fn(j).Rejected?
    requires fn(k).RejectedNullish?
    ensures RetryFrom(fn, i, retries) == ThrowsTypeError
    decreases k - i
  {
    if i < k {
      RetryNullishRejectionThrowsTypeError(fn, i + 1, k, retries);
    }
  }

  /** Without any allowed attempt, nothing is called and nothing is thrown. */
  lemma NoAttemptsReturnsUndefined<T, E>(fn: nat -> Attempt<T, E>, retries: int)
    requires retries <= 0
    ensures RetryFrom(fn, 0, retries) == ReturnsUndefined
  {
  }

  /**
   * `retryStep(fn, retries)`: calls `fn` until a call resolves, at most
   * `retries` times, rethrowing the last error. `calls` is the number of
   * times `fn` was invoked; `fn(j)` is the outcome of the call numbered `j`.
   */
  method RetryStep<T, E>(fn: nat -> Attempt<T, E>, retries: int) returns (r: Settled<T, E>, calls: nat)
    ensures r == RetryFrom(fn, 0, retries)
    ensures retries <= 0 ==> calls == 0 && r == ReturnsUndefined
    ensures retries > 0 ==> 1 <= calls <= retries && !r.ReturnsUndefined?
    ensures forall j :: 0 <= j < calls - 1 ==> fn(j).Rejected?
    ensures r.Returns? ==> calls >= 1 && fn(calls - 1) == Resolved(r.value)
    ensures r.Throws? ==> calls == retries && fn(calls - 1) == Rejected(r.error)
    ensures r.ThrowsTypeError? ==> calls >= 1 && fn(calls - 1).RejectedNullish?
  {
    var i := 0;
    calls := 0;
    while i < retries
      invariant 0 <= i <= (if retries > 0 then retries - 1 else 0)
      invariant calls == i
      invariant forall j :: 0 <= j < i ==> fn(j).Rejected?
      invariant RetryFrom(fn, i, retries) == RetryFrom(fn, 0, retries)
      decreases retries - i
    {
      calls := calls + 1;
      match fn(i) {
      case Resolved(v) =>
        return Returns(v), calls;
      case Rejected(e) =>
        if i == retries - 1 {
          return Throws(e), calls;
        }
      case RejectedNullish =>
        return ThrowsTypeError, calls;
      }
      i := i + 1;
    }
    r := ReturnsUndefined;
  }

  /** A selector as passed to `page.waitForSelector`. */
  type Selector = string

  /** What one `page.waitForSelector` call does: an element, `null`, or a throw (a timeout). */
  datatype Probe<El> = Element(el: El) | NoElement | ProbeError

  /**
   * One `page.waitForSelector` call: the round, the position of the
   * selector in the list, and the selector. A selector listed twice is
   * probed twice per round, and the two probes may get different answers.
   */
  datatype ProbeAt = ProbeAt(round: nat, position: nat, selector: Selector)

  /** How `waitForAnySelector` settles: with the element found, or by throwing. */
  datatype Lookup<El> = Found(el: El) | NoneFound

  /** `options.retries || 3`: a missing or zero count means three rounds. */
  function Rounds(retries: Option<int>): (n: int)
    ensures n == 3 <==> retries == None || retries == Some(0) || retries == Some(3)
    ensures retries.Some? && retries.value != 0 ==> n == retries.value
    ensures n != 0
  {
    if retries == None || retries == Some(0) then 3 else retries.value
  }

  /** The number of rounds that actually run; a negative count runs none. */
  function RoundCount(retries: Option<int>): (n: nat)
    ensures Rounds(retries) < 0 <==> n == 0
    ensures Rounds(retries) > 0 ==> n == Rounds(retries)
  {
    if Rounds(retries) < 0 then 0 else Rounds(retries)
  }

  /** The probes of round `a`, one per selector, in list order. */
  function RoundProbes(a: nat, selectors: seq<Selector>): (ps: seq<ProbeAt>)
    ensures |ps| == |selectors|
    ensures forall k :: 0 <= k < |ps| ==> ps[k] == ProbeAt(a, k, selectors[k])
  {
    seq(|selectors|, k requires 0 <= k < |selectors| => ProbeAt(a, k, selectors[k]))
  }

  /** Every probe of the first `rounds` rounds, round by round. */
  function Schedule(selectors: seq<Selector>, rounds: nat): seq<ProbeAt>
  {
    if rounds == 0 then [] else Schedule(selectors, rounds - 1) + RoundProbes(rounds - 1, selectors)
  }

  /** The schedule holds `rounds * |selectors|` probes. */
  lemma {:induction false} ScheduleLength(selectors: seq<Selector>, rounds: nat)
    ensures |Schedule(selectors, rounds)| == rounds * |selectors|
  {
    if rounds > 0 {
      ScheduleLength(selectors, rounds - 1);
    }
  }

  /** Probe `a * |selectors| + k` of the schedule is selector `k` of round `a`. */
  lemma {:induction false} ScheduleAt(selectors: seq<Selector>, rounds: nat, a: nat, k: nat)
    requires a < rounds && k < |selectors|
    ensures a * |selectors| + k < |Schedule(selectors, rounds)|
    ensures Schedule(selectors, rounds)[a * |selectors| + k] == ProbeAt(a, k, selectors[k])
  {
    var n := |selectors|;
    ScheduleLength(selectors, rounds - 1);
    ScheduleLength(selectors, rounds);
    if a < rounds - 1 {
      EarlierRoundIndex(a, k, rounds - 1, n);
      ScheduleAt(selectors, rounds - 1, a, k);
    }
  }

  /** A probe of an earlier round sits before all probes of later rounds. */
  lemma EarlierRoundIndex(a: nat, k: nat, r: nat, n: nat)
    requires a < r && k < n
    ensures a * n + k < r * n
  {
    assert (a + 1) * n <= r * n by {
      assert r * n == (a + 1) * n + (r - a - 1) * n;
    }
  }

  /** A shorter schedule is a prefix of a longer one. */
  lemma {:induction false} SchedulePrefix(selectors: seq<Selector>, a: nat, b: nat)
    requires a <= b
    ensures Schedule(selectors, a) <= Schedule(selectors, b)
    decreases b - a
  {
    if a < b {
      SchedulePrefix(selectors, a, b - 1);
    }
  }

  predicate Missed<El>(page: ProbeAt -> Probe<El>, p: ProbeAt)
  {
    !page(p).Element?
  }

  /**
   * `waitForAnySelector(page, selectors, options)`: in each of
   * `options.retries || 3` rounds, probe the selectors in list order and
   * return the first element found; throw once every round found nothing.
   * `page(p)` is what the probe `p` yields and
   * `probes` lists the probes made, in order.
   */
  method WaitForAnySelector<El>(page: ProbeAt -> Probe<El>, selectors: seq<Selector>, retries: Option<int>)
    returns (r: Lookup<El>, probes: seq<ProbeAt>)
    ensures probes <= Schedule(selectors, RoundCount(retries))
    ensures |probes| <= RoundCount(retries) * |selectors|
    ensures forall j :: 0 <= j < |probes| - 1 ==> Missed(page, probes[j])
    ensures r.Found? ==> |probes| >= 1 && page(probes[|probes| - 1]) == Element(r.el)
    ensures r.NoneFound? ==> probes == Schedule(selectors, RoundCount(retries))
    ensures r.NoneFound? ==> forall j :: 0 <= j < |probes| ==> Missed(page, probes[j])
  {
    var n := RoundCount(retries);
    ScheduleLength(selectors, n);
    probes := [];
    var attempt := 0;
    while attempt < Rounds(retries)
      invariant 0 <= attempt <= n
      invariant probes == Schedule(selectors, attempt)
      invariant forall j :: 0 <= j < |probes| ==> Missed(page, probes[j])
    {
      var round := RoundProbes(attempt, selectors);
      var i := 0;
      while i < |selectors|
        invariant 0 <= i <= |selectors|
        invariant probes == Schedule(selectors, attempt) + round[..i]
        invariant forall j :: 0 <= j < |probes| ==> Missed(page, probes[j])
      {
        var probe := ProbeAt(attempt, i, selectors[i]);
        probes := probes + [probe];
        assert probes == Schedule(selectors, attempt) + round[..i + 1];
        match page(probe)
        case Element(el) =>
          assert probes[|probes| - 1] == probe;
          SchedulePrefix(selectors, attempt + 1, n);
          assert probes <= Schedule(selectors, attempt + 1);
          return Found(el), probes;
        case _ =>
        i := i + 1;
      }
      assert round[..i] == round;
      attempt := attempt + 1;
    }
    r := NoneFound;
  }
}
