// The benchmark loops of the senders and receivers: send or receive a chunk, sleep, report about once a
// second. Clock readings are reals; the run of a loop is given by what each iteration meets.
module RateLimiter {
  import opened Chunks

  const CHUNK_SIZE: nat := 8192

  /**
   * `Moved`: a chunk of that many bytes was sent, or received and passed on. `Idle`: `select` timed
   * out. `Retry`: a socket error (sender) or `SSLWantReadError` (receiver), which goes on with the
   * next iteration at once. `Stop`: empty read, or an exception that leaves the loop.
   */
  datatype Io = Moved(n: nat) | Idle | Retry | Stop

  /** `check`: clock at the loop test. `now`: the reading taken for the report, after any sleep. */
  datatype Iteration = Iteration(check: real, io: Io, now: real)

  /** Bytes per second for a target in megabytes per second. */
  function BytesPerSecond(target: real): real
  {
    target * 1048576.0
  }

  /** The sleep after a chunk; no target and the target 0 mean no limit. */
  function Delay(target: Option<real>): real
  {
    match target
    case Some(t) => if t != 0.0 then CHUNK_SIZE as real / BytesPerSecond(t) else 0.0
    case None => 0.0
  }

  /** The clock never goes back, chunks fit the buffer, and a sleep takes at least its time. */
  ghost predicate Timed(env: seq<Iteration>, start: real, delay: real)
  {
    forall i :: 0 <= i < |env| ==> InTime(env, start, delay, i)
  }

  ghost predicate InTime(env: seq<Iteration>, start: real, delay: real, i: nat)
    requires i < |env|
  {
    && env[i].check >= (if i == 0 then start else env[i - 1].now)
    && env[i].now >= env[i].check
    && (env[i].io.Moved? ==> 1 <= env[i].io.n <= CHUNK_SIZE && env[i].now >= env[i].check + delay)
  }

  function BytesOf(it: Iteration): nat
  {
    if it.io.Moved? then it.io.n else 0
  }

  /** Bytes counted by the first `k` iterations. */
  function BytesAfter(env: seq<Iteration>, k: nat): nat
    requires k <= |env|
  {
    if k == 0 then 0 else BytesAfter(env, k - 1) + BytesOf(env[k - 1])
  }

  function ChunksAfter(env: seq<Iteration>, k: nat): nat
    requires k <= |env|
  {
    if k == 0 then 0 else ChunksAfter(env, k - 1) + (if env[k - 1].io.Moved? then 1 else 0)
  }

  /** How many iterations from `i` on are completed before the loop ends. */
  function Completed(env: seq<Iteration>, start: real, duration: Option<real>, i: nat): (k: nat)
    requires i <= |env|
    ensures i <= k <= |env|
    ensures forall j :: i <= j < k ==> Goes(env[j], start, duration) && !env[j].io.Stop?
    ensures k < |env| ==> !Goes(env[k], start, duration) || env[k].io.Stop?
    decreases |env| - i
  {
    if i == |env| || !Goes(env[i], start, duration) || env[i].io.Stop? then i
    else Completed(env, start, duration, i + 1)
  }

  /** The loop test; receivers loop without one. */
  predicate Goes(it: Iteration, start: real, duration: Option<real>)
  {
    match duration
    case Some(d) => it.check - start < d
    case None => true
  }

  lemma {:induction false} CompletedIs(env: seq<Iteration>, start: real, duration: Option<real>, i: nat, n: nat)
    requires i <= n <= |env| && (forall j :: i <= j < n ==> Goes(env[j], start, duration) && !env[j].io.Stop?)
    requires n < |env| ==> !Goes(env[n], start, duration) || env[n].io.Stop?
    ensures Completed(env, start, duration, i) == n
    decreases n - i
  {
    if i == n {
    } else {
      CompletedIs(env, start, duration, i + 1, n);
    }
  }

  // Reports.

  datatype Report = Report(time: real, interval: int)

  datatype Meter = Meter(lastTime: real, lastBytes: int, reports: seq<Report>)

  /** The report block at the end of an iteration. */
  function Tick(m: Meter, now: real, bytes: int): Meter
  {
    if now - m.lastTime >= 1.0 then Meter(now, bytes, m.reports + [Report(now, bytes - m.lastBytes)]) else m
  }

  function MeterAfter(env: seq<Iteration>, start: real, k: nat): Meter
    requires k <= |env|
  {
    if k == 0 then Meter(start, 0, [])
    else
      var m := MeterAfter(env, start, k - 1);
      if env[k - 1].io.Retry? then m else Tick(m, env[k - 1].now, BytesAfter(env, k))
  }

  function Intervals(reports: seq<Report>): int
  {
    if reports == [] then 0 else Intervals(reports[..|reports| - 1]) + reports[|reports| - 1].interval
  }

  predicate Apart(reports: seq<Report>, i: nat)
    requires 0 < i < |reports|
  {
    reports[i].time - reports[i - 1].time >= 1.0
  }

  /**
   * The interval byte counts add up to the bytes at the last report, reports are at least a second
   * apart, and there are no more of them than seconds have passed until the last one.
   */
  ghost predicate Telescopes(m: Meter, start: real, bytes: nat)
  {
    && Intervals(m.reports) == m.lastBytes <= bytes
    && (forall i :: 0 <= i < |m.reports| ==> m.reports[i].interval >= 0)
    && (forall i :: 0 < i < |m.reports| ==> Apart(m.reports, i))
    && (m.reports != [] ==> m.reports[0].time - start >= 1.0)
    && m.lastTime == (if m.reports == [] then start else m.reports[|m.reports| - 1].time)
    && |m.reports| as real <= m.lastTime - start
  }

  lemma TickTelescopes(m: Meter, start: real, before: nat, now: real, bytes: nat)
    requires Telescopes(m, start, before) && before <= bytes
    ensures Telescopes(Tick(m, now, bytes), start, bytes)
  {
    var reports := Tick(m, now, bytes).reports;
    forall i | 0 < i < |reports|
      ensures Apart(reports, i)
    {
      if i < |m.reports| { assert Apart(m.reports, i); }
    }
    if now - m.lastTime >= 1.0 { assert reports[..|reports| - 1] == m.reports; }
  }

  lemma {:induction false} ReportsTelescope(env: seq<Iteration>, start: real, k: nat)
    requires k <= |env|
    ensures Telescopes(MeterAfter(env, start, k), start, BytesAfter(env, k))
  {
    if k == 0 {
    } else {
      ReportsTelescope(env, start, k - 1);
      TickTelescopes(MeterAfter(env, start, k - 1), start, BytesAfter(env, k - 1), env[k - 1].now, BytesAfter(env, k));
    }
  }

  /** No iteration from `i` on and before `k` is due: none that reaches the report block comes a second after `since`. */
  ghost predicate NoneDue(env: seq<Iteration>, i: nat, k: nat, since: real)
    requires k <= |env|
  {
    forall q {:trigger env[q]} :: i <= q < k && !env[q].io.Retry? ==> env[q].now - since < 1.0
  }

  /** Iteration `p` is the first one from `i` on that is due. */
  ghost predicate FirstDue(env: seq<Iteration>, i: nat, p: nat, since: real)
    requires p < |env|
  {
    i <= p && NoneDue(env, i, p, since) && !env[p].io.Retry? && env[p].now - since >= 1.0
  }

  /** Where the reports stand: the last one's time and the bytes that all so far cover. */
  datatype Mark = Mark(time: real, bytes: int)

  /** A report made at the end of iteration `p`. */
  function MarkAt(env: seq<Iteration>, p: nat): Mark
    requires p < |env|
  {
    Mark(env[p].now, BytesAfter(env, p + 1))
  }

  /**
   * The reports from number `j` on are exactly the due ones of the iterations `i..k`, counted from mark
   * `m` and leading to mark `end`: the first iteration that is due makes the next report, with its time
   * and the bytes since then, and so on from there.
   */
  ghost predicate Due(env: seq<Iteration>, i: nat, k: nat, m: Mark, reports: seq<Report>, j: nat, end: Mark)
    requires k <= |env| && j <= |reports|
    decreases |reports| - j
  {
    if j == |reports| then
      NoneDue(env, i, k, m.time) && end == m
    else
      exists p: nat :: p < k && Makes(env, i, p, m, reports[j]) && Due(env, p + 1, k, MarkAt(env, p), reports, j + 1, end)
  }

  ghost predicate Makes(env: seq<Iteration>, i: nat, p: nat, m: Mark, r: Report)
    requires p < |env|
  {
    FirstDue(env, i, p, m.time) && r == Report(env[p].now, BytesAfter(env, p + 1) - m.bytes)
  }

  lemma {:induction false} NotDue(env: seq<Iteration>, i: nat, k: nat, m: Mark, reports: seq<Report>, j: nat, end: Mark)
    requires k < |env| && j <= |reports| && Due(env, i, k, m, reports, j, end)
    requires env[k].io.Retry? || env[k].now - end.time < 1.0
    ensures Due(env, i, k + 1, m, reports, j, end)
    decreases |reports| - j
  {
    if j == |reports| {
    } else {
      var p: nat :| p < k && Makes(env, i, p, m, reports[j]) && Due(env, p + 1, k, MarkAt(env, p), reports, j + 1, end);
      NotDue(env, p + 1, k, MarkAt(env, p), reports, j + 1, end);
    }
  }

  lemma {:induction false} IsDue(env: seq<Iteration>, i: nat, k: nat, m: Mark, reports: seq<Report>, j: nat, end: Mark,
                                 r: Report)
    requires i <= k < |env| && j <= |reports| && Due(env, i, k, m, reports, j, end)
    requires !env[k].io.Retry? && env[k].now - end.time >= 1.0
    requires r == Report(env[k].now, BytesAfter(env, k + 1) - end.bytes)
    ensures Due(env, i, k + 1, m, reports + [r], j, MarkAt(env, k))
    decreases |reports| - j
  {
    if j == |reports| {
      assert Makes(env, i, k, m, r);
      assert Due(env, k + 1, k + 1, MarkAt(env, k), reports + [r], j + 1, MarkAt(env, k));
    } else {
      var p: nat :| p < k && Makes(env, i, p, m, reports[j]) && Due(env, p + 1, k, MarkAt(env, p), reports, j + 1, end);
      IsDue(env, p + 1, k, MarkAt(env, p), reports, j + 1, end, r);
    }
  }

  /** The reports of `k` iterations, and the time and bytes kept for the next one, are exactly the due ones. */
  ghost predicate ReportsDue(env: seq<Iteration>, start: real, k: nat, m: Meter)
    requires k <= |env|
  {
    Due(env, 0, k, Mark(start, 0), m.reports, 0, Mark(m.lastTime, m.lastBytes))
  }

  lemma NextIsDue(env: seq<Iteration>, start: real, k: nat, m: Meter)
    requires k < |env| && ReportsDue(env, start, k, m)
    ensures ReportsDue(env, start, k + 1, if env[k].io.Retry? then m else Tick(m, env[k].now, BytesAfter(env, k + 1)))
  {
    var from, end, bytes := Mark(start, 0), Mark(m.lastTime, m.lastBytes), BytesAfter(env, k + 1);
    if !env[k].io.Retry? && env[k].now - m.lastTime >= 1.0 {
      IsDue(env, 0, k, from, m.reports, 0, end, Report(env[k].now, bytes - m.lastBytes));
    } else {
      NotDue(env, 0, k, from, m.reports, 0, end);
    }
  }

  lemma {:induction false} ReportsWhenDue(env: seq<Iteration>, start: real, k: nat)
    requires k <= |env|
    ensures ReportsDue(env, start, k, MeterAfter(env, start, k))
  {
    if k == 0 {
    } else {
      ReportsWhenDue(env, start, k - 1);
      NextIsDue(env, start, k - 1, MeterAfter(env, start, k - 1));
    }
  }

  lemma {:induction false} LastReportIsPast(env: seq<Iteration>, start: real, delay: real, k: nat)
    requires k <= |env| && Timed(env, start, delay)
    ensures MeterAfter(env, start, k).lastTime <= ClockAfter(env, start, k)
  {
    if k == 0 {
    } else {
      LastReportIsPast(env, start, delay, k - 1);
      assert InTime(env, start, delay, k - 1);
    }
  }

  // The rate bound.

  lemma DelayIsOneChunk(t: real)
    requires t > 0.0
    ensures (t * 1048576.0) * Delay(Some(t)) == 8192.0 && Delay(Some(t)) > 0.0
  {
  }

  /** No target, and the targets 0 and below, never make the sender sleep. */
  lemma SleepsIffTarget(target: Option<real>)
    ensures Delay(target) > 0.0 <==> target.Some? && target.value > 0.0
  {
    if target.Some? && target.value > 0.0 {
      DelayIsOneChunk(target.value);
    } else if target.Some? && target.value < 0.0 {
      NegativeDelay(target.value);
    }
  }

  lemma NegativeDelay(t: real)
    requires t < 0.0
    ensures Delay(Some(t)) < 0.0
  {
  }

  /** The end of iteration `k - 1`, or the start. */
  function ClockAfter(env: seq<Iteration>, start: real, k: nat): real
    requires k <= |env|
  {
    if k == 0 then start else env[k - 1].now
  }

  /** The time the first `k` iterations have spent in the limiter's sleeps, at least. */
  function SleptAfter(env: seq<Iteration>, delay: real, k: nat): real
    requires k <= |env|
  {
    if k == 0 then 0.0 else SleptAfter(env, delay, k - 1) + (if env[k - 1].io.Moved? then delay else 0.0)
  }

  lemma {:induction false} SleepsFitTheClock(env: seq<Iteration>, start: real, delay: real, k: nat)
    requires k <= |env| && Timed(env, start, delay)
    ensures SleptAfter(env, delay, k) <= ClockAfter(env, start, k) - start
  {
    if k == 0 {
    } else {
      SleepsFitTheClock(env, start, delay, k - 1);
      assert InTime(env, start, delay, k - 1);
    }
  }

  lemma OneMoreChunk(rate: real, delay: real, bytes: real, n: real, slept: real)
    requires bytes <= rate * slept && n <= rate * delay
    ensures bytes + n <= rate * (slept + delay)
  {
  }

  /** The bytes sent are at most `rate` times the time. */
  ghost predicate WithinRate(rate: real, bytes: nat, elapsed: real)
  {
    bytes as real <= rate * elapsed
  }

  lemma WithinLonger(rate: real, bytes: nat, slept: real, elapsed: real)
    requires rate > 0.0 && WithinRate(rate, bytes, slept) && slept <= elapsed
    ensures WithinRate(rate, bytes, elapsed)
  {
  }

  lemma {:induction false} SleepsCoverTheBytes(env: seq<Iteration>, rate: real, delay: real, k: nat)
    requires rate * delay == CHUNK_SIZE as real && k <= |env|
    requires forall i :: 0 <= i < |env| ==> BytesOf(env[i]) <= CHUNK_SIZE
    ensures WithinRate(rate, BytesAfter(env, k), SleptAfter(env, delay, k))
  {
    if k == 0 {
    } else {
      SleepsCoverTheBytes(env, rate, delay, k - 1);
      var n := BytesOf(env[k - 1]);
      if env[k - 1].io.Moved? {
        OneMoreChunk(rate, delay, BytesAfter(env, k - 1) as real, n as real, SleptAfter(env, delay, k - 1));
      }
    }
  }

  lemma TimedStep(env: seq<Iteration>, start: real, delay: real, k: nat)
    requires Timed(env, start, delay) && 0 < k <= |env|
    ensures ClockAfter(env, start, k - 1) <= env[k - 1].check
    ensures BytesOf(env[k - 1]) <= CHUNK_SIZE
  {
    assert InTime(env, start, delay, k - 1);
  }

  /** After every iteration the bytes sent are within the target rate, when a sleep is one chunk's time. */
  lemma RateBound(env: seq<Iteration>, start: real, rate: real, delay: real, k: nat)
    requires rate > 0.0 && rate * delay == CHUNK_SIZE as real && k <= |env| && Timed(env, start, delay)
    ensures WithinRate(rate, BytesAfter(env, k), ClockAfter(env, start, k) - start)
  {
    SleepsFitTheClock(env, start, delay, k);
    forall i | 0 <= i < |env|
      ensures BytesOf(env[i]) <= CHUNK_SIZE
    {
      TimedStep(env, start, delay, i + 1);
    }
    SleepsCoverTheBytes(env, rate, delay, k);
    WithinLonger(rate, BytesAfter(env, k), SleptAfter(env, delay, k), ClockAfter(env, start, k) - start);
  }

  lemma LastChunk(rate: real, bytes: nat, n: nat, before: real, check: real, d: real)
    requires rate > 0.0 && WithinRate(rate, bytes, before) && before <= check < d && n <= CHUNK_SIZE
    ensures (bytes + n) as real < rate * d + CHUNK_SIZE as real
  {
  }

  /** In a loop limited to `d` seconds the total stays below the target rate times `d` plus one chunk. */
  lemma TotalBound(env: seq<Iteration>, start: real, rate: real, delay: real, d: real, k: nat)
    requires rate > 0.0 && rate * delay == CHUNK_SIZE as real && Timed(env, start, delay)
    requires 0 < k <= |env| && Goes(env[k - 1], start, Some(d))
    ensures BytesAfter(env, k) as real < rate * d + CHUNK_SIZE as real
  {
    var it := env[k - 1];
    RateBound(env, start, rate, delay, k - 1);
    TimedStep(env, start, delay, k);
    LastChunk(rate, BytesAfter(env, k - 1), BytesOf(it), ClockAfter(env, start, k - 1) - start, it.check - start, d);
  }

  // The loops. `env` covers the run: the loop ends within it, or it ends with a `Stop`.

  /** What a sender promises for a positive target: the rate so far, at every iteration and in total. */
  ghost predicate Limited(env: seq<Iteration>, start: real, rate: real, d: real, bytes: nat, n: nat)
    requires n <= |env|
  {
    && (forall k :: 0 <= k <= n ==> WithinRate(rate, BytesAfter(env, k), ClockAfter(env, start, k) - start))
    && (bytes == 0 || bytes as real < rate * d + CHUNK_SIZE as real)
  }

  /** `rate` and `delay` belong to a positive target. */
  ghost predicate Paces(target: Option<real>, rate: real)
  {
    target.Some? && target.value > 0.0 && rate == target.value * 1048576.0
  }

  lemma SenderIsLimited(env: seq<Iteration>, start: real, target: Option<real>, rate: real, d: real, n: nat)
    requires Paces(target, rate) && Timed(env, start, Delay(target))
    requires n <= |env| && (forall j :: 0 <= j < n ==> Goes(env[j], start, Some(d)))
    ensures Limited(env, start, rate, d, BytesAfter(env, n), n)
  {
    DelayIsOneChunk(target.value);
    LimitedAt(env, start, rate, Delay(target), d, n);
  }

  lemma LimitedAt(env: seq<Iteration>, start: real, rate: real, delay: real, d: real, n: nat)
    requires rate > 0.0 && rate * delay == CHUNK_SIZE as real && Timed(env, start, delay)
    requires n <= |env| && (forall j :: 0 <= j < n ==> Goes(env[j], start, Some(d)))
    ensures Limited(env, start, rate, d, BytesAfter(env, n), n)
  {
    forall k | 0 <= k <= n
      ensures WithinRate(rate, BytesAfter(env, k), ClockAfter(env, start, k) - start)
    {
      RateBound(env, start, rate, delay, k);
    }
    if n > 0 { TotalBound(env, start, rate, delay, d, n); }
  }

  lemma SenderEnds(env: seq<Iteration>, start: real, target: Option<real>, d: real, n: nat)
    requires Timed(env, start, Delay(target)) && n == Completed(env, start, Some(d), 0)
    ensures Telescopes(MeterAfter(env, start, n), start, BytesAfter(env, n))
    ensures |MeterAfter(env, start, n).reports| as real <= ClockAfter(env, start, n) - start
    ensures ReportsDue(env, start, n, MeterAfter(env, start, n))
    ensures forall rate :: Paces(target, rate) ==> Limited(env, start, rate, d, BytesAfter(env, n), n)
  {
    ReportsTelescope(env, start, n);
    ReportsWhenDue(env, start, n);
    LastReportIsPast(env, start, Delay(target), n);
    forall rate | Paces(target, rate)
      ensures Limited(env, start, rate, d, BytesAfter(env, n), n)
    {
      SenderIsLimited(env, start, target, rate, d, n);
    }
  }

  /** `benchmark_send`: every iteration sends a full chunk, unless sending raises. */
  method BenchmarkSend(start: real, duration: real, target: Option<real>, env: seq<Iteration>)
    returns (bytes_sent: nat, chunks_sent: nat, sleeps: nat, meter: Meter, n: nat)
    requires Timed(env, start, Delay(target))
    requires forall i :: 0 <= i < |env| ==> env[i].io == Moved(CHUNK_SIZE) || env[i].io == Stop
    ensures n == Completed(env, start, Some(duration), 0)
    ensures forall j :: 0 <= j < n ==> env[j].check - start < duration && !env[j].io.Stop?
    ensures n < |env| ==> env[n].check - start >= duration || env[n].io.Stop?
    ensures sleeps == (if target.Some? && target.value > 0.0 then chunks_sent else 0)
    ensures bytes_sent == BytesAfter(env, n) == chunks_sent * CHUNK_SIZE && chunks_sent == n
    ensures meter == MeterAfter(env, start, n) && Telescopes(meter, start, bytes_sent)
    ensures |meter.reports| as real <= ClockAfter(env, start, n) - start
    ensures ReportsDue(env, start, n, meter)
    ensures forall rate :: Paces(target, rate) ==> Limited(env, start, rate, duration, bytes_sent, n)
  {
    bytes_sent, chunks_sent, sleeps, n := 0, 0, 0, 0;
    var send_delay := Delay(target);
    SleepsIffTarget(target);
    meter := Meter(start, 0, []);
    while n < |env| && env[n].check - start < duration
      invariant 0 <= n <= |env|
      invariant forall j :: 0 <= j < n ==> env[j].check - start < duration && !env[j].io.Stop?
      invariant bytes_sent == BytesAfter(env, n) == chunks_sent * CHUNK_SIZE && chunks_sent == n
      invariant sleeps == (if send_delay > 0.0 then chunks_sent else 0)
      invariant meter == MeterAfter(env, start, n)
    {
      if env[n].io.Stop? {
        break;
      }
      bytes_sent := bytes_sent + CHUNK_SIZE;
      chunks_sent := chunks_sent + 1;
      if send_delay > 0.0 {
        sleeps := sleeps + 1;
      }
      meter := Tick(meter, env[n].now, bytes_sent);
      n := n + 1;
    }
    CompletedIs(env, start, Some(duration), 0, n);
    SenderEnds(env, start, target, duration, n);
  }

  /** `benchmark_send_unix`: short reads, `select` timeouts and socket errors are possible. */
  method BenchmarkSendUnix(start: real, duration: real, target: Option<real>, env: seq<Iteration>)
    returns (bytes_sent: nat, chunks_sent: nat, sleeps: nat, meter: Meter, n: nat)
    requires Timed(env, start, Delay(target))
    ensures n == Completed(env, start, Some(duration), 0)
    ensures forall j :: 0 <= j < n ==> env[j].check - start < duration && !env[j].io.Stop?
    ensures n < |env| ==> env[n].check - start >= duration || env[n].io.Stop?
    ensures sleeps == (if target.Some? && target.value > 0.0 then chunks_sent else 0)
    ensures bytes_sent == BytesAfter(env, n) && chunks_sent == ChunksAfter(env, n)
    ensures meter == MeterAfter(env, start, n) && Telescopes(meter, start, bytes_sent)
    ensures |meter.reports| as real <= ClockAfter(env, start, n) - start
    ensures ReportsDue(env, start, n, meter)
    ensures forall rate :: Paces(target, rate) ==> Limited(env, start, rate, duration, bytes_sent, n)
  {
    bytes_sent, chunks_sent, sleeps, n := 0, 0, 0, 0;
    var send_delay := Delay(target);
    SleepsIffTarget(target);
    meter := Meter(start, 0, []);
    while n < |env| && env[n].check - start < duration
      invariant 0 <= n <= |env|
      invariant forall j :: 0 <= j < n ==> env[j].check - start < duration && !env[j].io.Stop?
      invariant bytes_sent == BytesAfter(env, n) && chunks_sent == ChunksAfter(env, n)
      invariant sleeps == (if send_delay > 0.0 then chunks_sent else 0)
      invariant meter == MeterAfter(env, start, n)
    {
      match env[n].io {
        case Stop =>
          break;
        case Moved(k) =>
          bytes_sent := bytes_sent + k;
          chunks_sent := chunks_sent + 1;
          if send_delay > 0.0 {
            sleeps := sleeps + 1;
          }
          meter := Tick(meter, env[n].now, bytes_sent);
        case Idle =>
          meter := Tick(meter, env[n].now, bytes_sent);
        case Retry =>
      }
      n := n + 1;
    }
    CompletedIs(env, start, Some(duration), 0, n);
    SenderEnds(env, start, target, duration, n);
  }

  /** `handle_client` and `handle_client_unix`: no duration and no sleep. */
  method HandleClient(start: real, env: seq<Iteration>)
    returns (bytes_received: nat, chunks_received: nat, meter: Meter, n: nat)
    requires Timed(env, start, 0.0) && forall i :: 0 <= i < |env| ==> !env[i].io.Idle?
    ensures n == Completed(env, start, None, 0)
    ensures (forall j :: 0 <= j < n ==> !env[j].io.Stop?) && (n < |env| ==> env[n].io.Stop?)
    ensures bytes_received == BytesAfter(env, n) && chunks_received == ChunksAfter(env, n)
    ensures meter == MeterAfter(env, start, n) && Telescopes(meter, start, bytes_received)
    ensures |meter.reports| as real <= ClockAfter(env, start, n) - start
    ensures ReportsDue(env, start, n, meter)
  {
    bytes_received, chunks_received, n := 0, 0, 0;
    meter := Meter(start, 0, []);
    while n < |env| && !env[n].io.Stop?
      invariant 0 <= n <= |env|
      invariant forall j :: 0 <= j < n ==> !env[j].io.Stop?
      invariant bytes_received == BytesAfter(env, n) && chunks_received == ChunksAfter(env, n)
      invariant meter == MeterAfter(env, start, n)
    {
      if env[n].io.Moved? {
        bytes_received := bytes_received + env[n].io.n;
        chunks_received := chunks_received + 1;
        meter := Tick(meter, env[n].now, bytes_received);
      }
      n := n + 1;
    }
    CompletedIs(env, start, None, 0, n);
    ReportsTelescope(env, start, n);
    ReportsWhenDue(env, start, n);
    LastReportIsPast(env, start, 0.0, n);
  }
}
