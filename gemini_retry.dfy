/** `callGeminiWithRetry(prompt, maxRetries = 3, delay = 2000)`: call the
    text-generation service up to `maxRetries` times, retrying only on a
    503 "overloaded" error while attempts remain, sleeping `delay` ms and
    doubling it after each retry.

    The service is not modelled: `outcomes[i]` is what attempt `i` (from 0)
    would give, and the sleeps are recorded in `waits` instead of taken. */
module GeminiRetry {

  const DefaultMaxRetries: int := 3
  const DefaultDelay: int := 2000
  const Overloaded: int := 503

  /** What one `generateContent` call does: answer, or throw an error
      carrying an HTTP status (any status other than 503 also stands for
      an error without a status). */
  datatype Attempt = Responded(response: string) | Failed(status: int)

  /** How the helper ends: it returns the first response, rethrows the
      error that stopped it, or (only when `maxRetries <= 0`) falls out of
      the loop and resolves to `undefined`. */
  datatype Ending = Returned(response: string) | Rethrown(status: int) | FellThrough

  datatype Run = Run(ending: Ending, waits: seq<int>, attempts: nat)

  /** The helper from attempt `i` on, with `delay` the current sleep: it
      falls out of the loop, without an attempt, only when no attempt is
      left to make. */
  function RunFrom(outcomes: seq<Attempt>, maxRetries: int, delay: int, i: nat): (run: Run)
    requires maxRetries <= |outcomes|
    ensures run.ending.FellThrough? <==> i >= maxRetries
    ensures run.attempts == 0 <==> i >= maxRetries
    decreases if i < maxRetries then maxRetries - i else 0
  {
    if i >= maxRetries then Run(FellThrough, [], 0)
    else match outcomes[i]
      case Responded(r) => Run(Returned(r), [], 1)
      case Failed(st) =>
        if st == Overloaded && i < maxRetries - 1 then
          var rest := RunFrom(outcomes, maxRetries, delay * 2, i + 1);
          Run(rest.ending, [delay] + rest.waits, rest.attempts + 1)
        else Run(Rethrown(st), [], 1)
  }

  function Pow2(k: nat): (r: nat)
    ensures r >= 1
  {
    if k == 0 then 1 else 2 * Pow2(k - 1)
  }

  predicate IsOverloaded(a: Attempt)
  {
    a.Failed? && a.status == Overloaded
  }

  /** The loop of the helper. */
  method CallWithRetry(outcomes: seq<Attempt>, maxRetries: int, delay: int)
    returns (ending: Ending, waits: seq<int>, attempts: nat)
    requires maxRetries <= |outcomes|
    ensures Run(ending, waits, attempts) == RunFrom(outcomes, maxRetries, delay, 0)
  {
    waits := [];
    var d := delay;
    var i: nat := 0;
    while i < maxRetries
      invariant i <= maxRetries || i == 0
      invariant var rest := RunFrom(outcomes, maxRetries, d, i);
        RunFrom(outcomes, maxRetries, delay, 0) == Run(rest.ending, waits + rest.waits, i + rest.attempts)
      decreases maxRetries - i
    {
      match outcomes[i]
      case Responded(r) =>
        return Returned(r), waits, i + 1;
      case Failed(st) =>
        if st == Overloaded && i < maxRetries - 1 {
          waits := waits + [d];
          d := d * 2;
        } else {
          return Rethrown(st), waits, i + 1;
        }
      i := i + 1;
    }
    return FellThrough, waits, i;
  }

  /** Shape of every run from attempt `i` with at least one attempt left:
      attempts are made one after another, every attempt but the last was a
      503, the last decides the ending, the helper gives up early only on a
      response or a non-retryable error, and the k-th sleep is the current
      delay times 2^k. */
  lemma {:induction false} RunShape(outcomes: seq<Attempt>, maxRetries: int, delay: int, i: nat)
    requires maxRetries <= |outcomes|
    requires i < maxRetries
    ensures var run := RunFrom(outcomes, maxRetries, delay, i);
      && 1 <= run.attempts <= maxRetries - i
      && |run.waits| == run.attempts - 1
      && (forall j :: i <= j < i + run.attempts - 1 ==> IsOverloaded(outcomes[j]))
      && (forall k :: 0 <= k < |run.waits| ==> run.waits[k] == delay * Pow2(k))
      && (var last := outcomes[i + run.attempts - 1];
          && (last.Responded? ==> run.ending == Returned(last.response))
          && (last.Failed? ==> run.ending == Rethrown(last.status))
          && (i + run.attempts < maxRetries ==> !IsOverloaded(last)))
    decreases maxRetries - i
  {
    var run := RunFrom(outcomes, maxRetries, delay, i);
    if outcomes[i].Failed? && outcomes[i].status == Overloaded && i < maxRetries - 1 {
      RunShape(outcomes, maxRetries, delay * 2, i + 1);
      var rest := RunFrom(outcomes, maxRetries, delay * 2, i + 1);
      assert run.waits == [delay] + rest.waits;
      forall k | 0 <= k < |run.waits| ensures run.waits[k] == delay * Pow2(k) {
        if k > 0 {
          assert run.waits[k] == rest.waits[k - 1] == delay * 2 * Pow2(k - 1);
        }
      }
    }
  }

  /** A non-positive `maxRetries` makes no attempt and resolves to undefined. */
  lemma NoAttemptWithoutRetries(outcomes: seq<Attempt>, maxRetries: int, delay: int)
    requires maxRetries <= 0
    ensures RunFrom(outcomes, maxRetries, delay, 0) == Run(FellThrough, [], 0)
  {
  }

  /** With the defaults used by /geminiPrompt: at most three attempts, never
      an undefined result, the sleeps are a prefix of [2000, 4000], and a
      response is returned exactly when one comes before any error other
      than 503 within the three attempts. */
  lemma DefaultSchedule(outcomes: seq<Attempt>)
    requires |outcomes| >= DefaultMaxRetries
    ensures var run := RunFrom(outcomes, DefaultMaxRetries, DefaultDelay, 0);
      && 1 <= run.attempts <= 3
      && !run.ending.FellThrough?
      && run.waits == [2000, 4000][..run.attempts - 1]
      && (run.ending.Returned? <==>
            exists j :: 0 <= j < 3 && outcomes[j].Responded? &&
              forall m :: 0 <= m < j ==> IsOverloaded(outcomes[m]))
  {
  }
}
