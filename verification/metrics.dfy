/** `MetricsReporter` of `clog/metrics_reporter.py`: a sampling counter
    that reports every `sample_rate`-th request, and two monotone error
    counters. The metric sinks are recorded as what was sent to them;
    latency timing is not modelled. */
module Metrics {

  /** The reporter's state: `_sample_rate`, `_sample_counter`, the values
      sent to the `total.log_line.sent` counter in order, the totals of the
      Monk exception and timeout counters, and how many times wrapped work
      has run. */
  datatype Reporter = Reporter(
    rate: int,
    counter: int,
    sentCounts: seq<int>,
    monkExceptions: nat,
    monkTimeouts: nat,
    workRuns: nat)

  /** `MetricsReporter(backend, sample_rate)`. */
  function NewReporter(rate: int): (r: Reporter)
    ensures r.rate == rate
    // nothing counted, sent or run yet
    ensures r.counter == 0 && r.sentCounts == []
    ensures r.monkExceptions == 0 && r.monkTimeouts == 0 && r.workRuns == 0
  {
    Reporter(rate, 0, [], 0, 0, 0)
  }

  /** Whether the work wrapped by `with sampled_request():` returned or
      raised. */
  datatype Work = Completed | Raised

  /** The sampling decision for the counter value after the increment:
      `self._sample_rate and counter % self._sample_rate == 0`. Python's
      `%` and Dafny's agree on whether the remainder is zero. */
  predicate Sampled(rate: int, counter: int) {
    rate != 0 && counter % rate == 0
  }

  /** One `with sampled_request(): work`. The counter is incremented first;
      a sampled request whose work completes reports the counter and resets
      it, while one whose work raises skips the code after the `yield`. */
  function SampledRequest(m: Reporter, work: Work): (r: Reporter)
    ensures r.rate == m.rate && r.workRuns == m.workRuns + 1
    ensures r.monkExceptions == m.monkExceptions && r.monkTimeouts == m.monkTimeouts
    ensures Sampled(m.rate, m.counter + 1) && work == Completed ==>
      r.counter == 0 && r.sentCounts == m.sentCounts + [m.counter + 1]
    ensures !(Sampled(m.rate, m.counter + 1) && work == Completed) ==>
      r.counter == m.counter + 1 && r.sentCounts == m.sentCounts
  {
    var c := m.counter + 1;
    if Sampled(m.rate, c) && work == Completed then
      m.(counter := 0, sentCounts := m.sentCounts + [c], workRuns := m.workRuns + 1)
    else
      m.(counter := c, workRuns := m.workRuns + 1)
  }

  /** `monk_exception()`. */
  function MonkException(m: Reporter): (r: Reporter)
    ensures r.monkExceptions == m.monkExceptions + 1
    ensures r.(monkExceptions := m.monkExceptions) == m
  {
    m.(monkExceptions := m.monkExceptions + 1)
  }

  /** `monk_timeout()`. */
  function MonkTimeout(m: Reporter): (r: Reporter)
    ensures r.monkTimeouts == m.monkTimeouts + 1
    ensures r.(monkTimeouts := m.monkTimeouts) == m
  {
    m.(monkTimeouts := m.monkTimeouts + 1)
  }

  /** `n` requests in a row whose work completes. */
  function Requests(m: Reporter, n: nat): (r: Reporter)
    ensures r.rate == m.rate && r.workRuns == m.workRuns + n
    decreases n
  {
    if n == 0 then m else SampledRequest(Requests(m, n - 1), Completed)
  }

  /** With a positive rate the counter stays in `[0, rate)` between
      requests, and is reset exactly on the sampled ones. */
  lemma CounterStaysBelowRate(m: Reporter, work: Work)
    requires m.rate > 0 && 0 <= m.counter < m.rate
    ensures var r := SampledRequest(m, work);
      work == Completed ==> 0 <= r.counter < m.rate && (r.counter == 0 <==> m.counter + 1 == m.rate)
  {
    if m.counter + 1 == m.rate {
      assert (m.counter + 1) % m.rate == 0;
    } else {
      assert (m.counter + 1) % m.rate == m.counter + 1;
    }
  }

  lemma MulAtLeast(k: int, d: int)
    requires k >= 1 && d > 0
    ensures k * d >= d
  {
    assert k * d == (k - 1) * d + d;
  }

  lemma DivModUnique(n: int, d: int, q: int, r: int)
    requires d > 0 && 0 <= r < d && n == q * d + r
    ensures n / d == q && n % d == r
  {
    var q', r' := n / d, n % d;
    assert q * d + r == q' * d + r';
    assert (q - q') * d == r' - r;
    if q > q' {
      MulAtLeast(q - q', d);
    } else if q < q' {
      MulAtLeast(q' - q, d);
    }
  }

  /** How `n / rate` and `n % rate` move from `n - 1` to `n`. */
  lemma NextDivMod(n: int, rate: int)
    requires rate > 0 && n > 0
    ensures (n - 1) % rate + 1 == rate ==> n / rate == (n - 1) / rate + 1 && n % rate == 0
    ensures (n - 1) % rate + 1 != rate ==> n / rate == (n - 1) / rate && n % rate == (n - 1) % rate + 1
  {
    var q, m := (n - 1) / rate, (n - 1) % rate;
    assert n - 1 == q * rate + m;
    if m + 1 == rate {
      assert n == (q + 1) * rate + 0;
      DivModUnique(n, rate, q + 1, 0);
    } else {
      DivModUnique(n, rate, q, m + 1);
    }
  }

  /** Starting from zero with a positive rate, after `n` completed
      requests the counter is `n % rate`, and one report of exactly `rate`
      was sent per `rate` requests. */
  lemma {:induction false} RequestsWithRate(rate: int, n: nat)
    requires rate > 0
    ensures var r := Requests(NewReporter(rate), n);
      && r.counter == n % rate
      && r.sentCounts == seq(n / rate, _ => rate)
      && r.workRuns == n
    decreases n
  {
    if n > 0 {
      RequestsWithRate(rate, n - 1);
      var p := Requests(NewReporter(rate), n - 1);
      CounterStaysBelowRate(p, Completed);
      NextDivMod(n, rate);
      var q := (n - 1) / rate;
      if (n - 1) % rate + 1 == rate {
        assert seq(q + 1, _ => rate) == seq(q, _ => rate) + [rate];
      }
    }
  }

  /** With rate zero nothing is ever sampled and the counter keeps
      growing. */
  lemma {:induction false} RequestsWithRateZero(m: Reporter, n: nat)
    requires m.rate == 0
    ensures Requests(m, n).counter == m.counter + n
    ensures Requests(m, n).sentCounts == m.sentCounts
    decreases n
  {
    if n > 0 {
      RequestsWithRateZero(m, n - 1);
    }
  }

  /** The sequence the sampling test walks through with rate 3: counters 1
      and 2 without a report, then a report of 3 and a reset. */
  lemma SamplingExample()
    ensures var m1 := SampledRequest(NewReporter(3), Completed);
      var m2 := SampledRequest(m1, Completed);
      var m3 := SampledRequest(m2, Completed);
      && m1.counter == 1 && m1.sentCounts == []
      && m2.counter == 2 && m2.sentCounts == []
      && m3.counter == 0 && m3.sentCounts == [3]
  {
  }
}
