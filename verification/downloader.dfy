/** The retrying, resuming file download. The network is abstracted into a
    function from the attempt number to what that attempt does: whether the
    response declares a content length, the sizes of the chunks read (each
    appended to the file), and how the attempt ends. The download itself is
    the trace of requests, progress reports and delays it produces and the
    way it ends. */
module Downloader {
  import opened Common

  /** How an attempt can fail: the two exception types that are retried, and
      everything else. */
  datatype Failure = HttpRequestFailure | Canceled | OtherFailure

  /** A read returns a positive number of bytes; a read of zero ends the
      attempt successfully. */
  type Chunk = n: nat | n > 0 witness 1

  datatype Attempt = Attempt(contentLength: Option<nat>, chunks: seq<Chunk>, failure: Option<Failure>)

  /** A request (with the byte offset of its Range header, if it has one), a
      progress report `read` bytes out of `total`, or a delay in seconds. */
  datatype Event = Request(range: Option<nat>) | Progress(read: nat, total: nat) | Delay(seconds: nat)

  datatype Outcome = Completed | NotAttempted | Rethrown(failure: Failure) | Wrapped(message: string)

  const CanceledMessage := "The download was canceled or timed out."

  /** Which total a progress report is measured against: the response's
      content length alone, or that length plus the bytes already on disk. */
  datatype Totals = AsWritten | ResumeAware

  datatype Download = Download(events: seq<Event>, outcome: Outcome, totalRead: nat)

  function Sum(chunks: seq<Chunk>): (r: nat)
    ensures chunks != [] ==> r > 0
  {
    if chunks == [] then 0 else chunks[0] + Sum(chunks[1..])
  }

  /** The Range header: sent, from `read`, only once some bytes are on disk. */
  function RangeFrom(read: nat): (r: Option<nat>)
    ensures r.Some? <==> read > 0
    ensures r.Some? ==> r.value == read
  {
    if read > 0 then Some(read) else None
  }

  /** One progress report per chunk when a content length is declared, none
      otherwise. */
  function ProgressEvents(chunks: seq<Chunk>, read: nat, total: Option<nat>): seq<Event>
    decreases |chunks|
  {
    if chunks == [] then []
    else
      var now := read + chunks[0];
      (if total.Some? then [Progress(now, total.value)] else []) + ProgressEvents(chunks[1..], now, total)
  }

  function AttemptEvents(a: Attempt, before: nat, mode: Totals): seq<Event>
  {
    var total := match a.contentLength
      case None => None
      case Some(n) => Some(if mode == ResumeAware then before + n else n);
    [Request(RangeFrom(before))] + ProgressEvents(a.chunks, before, total)
  }

  predicate Retryable(a: Attempt) {
    a.failure.Some? && a.failure.value != OtherFailure
  }

  /** How the download ends when attempt `a` is the last one made. */
  function Final(a: Attempt): Outcome
  {
    match a.failure
    case None => Completed
    case Some(Canceled) => Wrapped(CanceledMessage)
    case Some(f) => Rethrown(f)
  }

  /** The loop from its `retryCount`-th attempt, with `totalRead` bytes on
      disk. */
  function Loop(attempt: nat -> Attempt, maxRetries: int, retryCount: nat, totalRead: nat, mode: Totals): (d: Download)
    ensures d.totalRead >= totalRead
    decreases maxRetries - retryCount
  {
    if retryCount >= maxRetries then Download([], NotAttempted, totalRead)
    else
      var a := attempt(retryCount);
      var events := AttemptEvents(a, totalRead, mode);
      var read := totalRead + Sum(a.chunks);
      if !Retryable(a) then Download(events, Final(a), read)
      else
        var k := retryCount + 1;
        if k >= maxRetries then Download(events, Final(a), read)
        else
          var rest := Loop(attempt, maxRetries, k, read, mode);
          Download(events + [Delay(2 * k)] + rest.events, rest.outcome, rest.totalRead)
  }

  /** DownloadFileAsync: the counters start at zero on every call. */
  function DownloadFile(attempt: nat -> Attempt, maxRetries: int, mode: Totals): Download
  {
    Loop(attempt, maxRetries, 0, 0, mode)
  }

  // ---------------------------------------------------------------------
  // Views of a trace

  function Requests(events: seq<Event>): (r: seq<Option<nat>>)
    ensures |r| <= |events|
  {
    if events == [] then []
    else (if events[0].Request? then [events[0].range] else []) + Requests(events[1..])
  }

  function Delays(events: seq<Event>): (r: seq<nat>)
    ensures |r| <= |events|
  {
    if events == [] then []
    else (if events[0].Delay? then [events[0].seconds] else []) + Delays(events[1..])
  }

  lemma {:induction false} RequestsAppend(a: seq<Event>, b: seq<Event>)
    ensures Requests(a + b) == Requests(a) + Requests(b)
    decreases |a|
  {
    if a == [] {
      assert a + b == b;
    } else {
      assert (a + b)[0] == a[0];
      assert (a + b)[1..] == a[1..] + b;
      RequestsAppend(a[1..], b);
    }
  }

  lemma {:induction false} DelaysAppend(a: seq<Event>, b: seq<Event>)
    ensures Delays(a + b) == Delays(a) + Delays(b)
    decreases |a|
  {
    if a == [] {
      assert a + b == b;
    } else {
      assert (a + b)[0] == a[0];
      assert (a + b)[1..] == a[1..] + b;
      DelaysAppend(a[1..], b);
    }
  }

  /** The views of one attempt's events, a delay, and the rest of the loop. */
  lemma ViewsOfRetry(events: seq<Event>, seconds: nat, rest: seq<Event>)
    ensures Requests(events + [Delay(seconds)] + rest) == Requests(events) + Requests(rest)
    ensures Delays(events + [Delay(seconds)] + rest) == Delays(events) + [seconds] + Delays(rest)
  {
    RequestsAppend(events, [Delay(seconds)]);
    RequestsAppend(events + [Delay(seconds)], rest);
    DelaysAppend(events, [Delay(seconds)]);
    DelaysAppend(events + [Delay(seconds)], rest);
  }

  lemma {:induction false} ProgressEventsOnly(chunks: seq<Chunk>, read: nat, total: Option<nat>)
    ensures Requests(ProgressEvents(chunks, read, total)) == []
    ensures Delays(ProgressEvents(chunks, read, total)) == []
    ensures total.None? ==> ProgressEvents(chunks, read, total) == []
    ensures forall e :: e in ProgressEvents(chunks, read, total) ==> e.Progress? && total.Some? && e.total == total.value
    decreases |chunks|
  {
    if chunks != [] {
      var now := read + chunks[0];
      var head: seq<Event> := if total.Some? then [Progress(now, total.value)] else [];
      ProgressEventsOnly(chunks[1..], now, total);
      RequestsAppend(head, ProgressEvents(chunks[1..], now, total));
      DelaysAppend(head, ProgressEvents(chunks[1..], now, total));
    }
  }

  /** An attempt's trace is its request, then its progress reports. */
  lemma AttemptEventsViews(a: Attempt, before: nat, mode: Totals)
    ensures Requests(AttemptEvents(a, before, mode)) == [RangeFrom(before)]
    ensures Delays(AttemptEvents(a, before, mode)) == []
  {
    var total := match a.contentLength
      case None => None
      case Some(n) => Some(if mode == ResumeAware then before + n else n);
    ProgressEventsOnly(a.chunks, before, total);
    RequestsAppend([Request(RangeFrom(before))], ProgressEvents(a.chunks, before, total));
    DelaysAppend([Request(RangeFrom(before))], ProgressEvents(a.chunks, before, total));
  }

  /** Progress is reported only for responses that declare a content length,
      and then once per chunk read. */
  lemma {:induction false} ProgressNeedsLength(a: Attempt, before: nat, mode: Totals)
    ensures a.contentLength.None? ==> AttemptEvents(a, before, mode) == [Request(RangeFrom(before))]
    ensures a.contentLength.Some? ==> |AttemptEvents(a, before, mode)| == 1 + |a.chunks|
  {
    var total := match a.contentLength
      case None => None
      case Some(n) => Some(if mode == ResumeAware then before + n else n);
    ProgressEventsOnly(a.chunks, before, total);
    if a.contentLength.Some? {
      ProgressEventsCount(a.chunks, before, total.value);
    }
  }

  lemma {:induction false} ProgressEventsCount(chunks: seq<Chunk>, read: nat, total: nat)
    ensures |ProgressEvents(chunks, read, Some(total))| == |chunks|
    decreases |chunks|
  {
    if chunks != [] {
      ProgressEventsCount(chunks[1..], read + chunks[0], Some(total).value);
    }
  }

  // ---------------------------------------------------------------------
  // The retry loop

  /** The bytes on disk before attempt `i`: everything the earlier attempts
      read, failed ones included. */
  function ReadBefore(attempt: nat -> Attempt, i: nat): nat
  {
    if i == 0 then 0 else ReadBefore(attempt, i - 1) + Sum(attempt(i - 1).chunks)
  }

  /** Every attempt from `from` up to (not including) `to` failed in a way
      that is retried. */
  predicate RetriedBefore(attempt: nat -> Attempt, from: nat, to: int) {
    forall i: nat :: from <= i < to ==> Retryable(attempt(i))
  }

  /** `n` attempts are made from attempt `from` on: none when the budget is
      spent; otherwise all but the last failed in a retryable way, and the
      last either did not or used up the budget. */
  predicate AttemptsMade(attempt: nat -> Attempt, maxRetries: int, from: nat, n: nat) {
    && (from >= maxRetries ==> n == 0)
    && (from < maxRetries ==> 1 <= n <= maxRetries - from)
    && RetriedBefore(attempt, from, from + n - 1)
    && (from < maxRetries ==> n == maxRetries - from || !Retryable(attempt(from + n - 1)))
  }

  /** The delays, in order, are 2·(k) seconds after the k-th failure. */
  predicate Backoff(delays: seq<nat>, from: nat) {
    forall i :: 0 <= i < |delays| ==> delays[i] == 2 * (from + i + 1)
  }

  /** Each request resumes from the bytes read before it. */
  predicate ResumesFrom(attempt: nat -> Attempt, ranges: seq<Option<nat>>, from: nat) {
    forall i :: 0 <= i < |ranges| ==> ranges[i] == RangeFrom(ReadBefore(attempt, from + i))
  }

  lemma BackoffCons(delays: seq<nat>, from: nat)
    requires Backoff(delays, from + 1)
    ensures Backoff([2 * (from + 1)] + delays, from)
  {
    var ds := [2 * (from + 1)] + delays;
    assert forall i :: 1 <= i < |ds| ==> ds[i] == delays[i - 1];
  }

  lemma ResumesCons(attempt: nat -> Attempt, ranges: seq<Option<nat>>, from: nat)
    requires ResumesFrom(attempt, ranges, from + 1)
    ensures ResumesFrom(attempt, [RangeFrom(ReadBefore(attempt, from))] + ranges, from)
  {
    var rs := [RangeFrom(ReadBefore(attempt, from))] + ranges;
    assert forall i :: 1 <= i < |rs| ==> rs[i] == ranges[i - 1];
  }

  lemma AttemptsCons(attempt: nat -> Attempt, maxRetries: int, from: nat, m: nat)
    requires Retryable(attempt(from)) && from + 1 < maxRetries
    requires AttemptsMade(attempt, maxRetries, from + 1, m)
    ensures AttemptsMade(attempt, maxRetries, from, 1 + m)
  {
  }

  /** A retried attempt's trace, then its delay, then the rest of the loop,
      which decides the outcome. */
  lemma LoopRetryEvents(attempt: nat -> Attempt, maxRetries: int, retryCount: nat, totalRead: nat, mode: Totals)
    requires retryCount + 1 < maxRetries && Retryable(attempt(retryCount))
    ensures var rest := Loop(attempt, maxRetries, retryCount + 1, totalRead + Sum(attempt(retryCount).chunks), mode);
            var d := Loop(attempt, maxRetries, retryCount, totalRead, mode);
            && d.events == AttemptEvents(attempt(retryCount), totalRead, mode) + [Delay(2 * (retryCount + 1))] + rest.events
            && d.outcome == rest.outcome
  {
  }

  /** A retried attempt puts its request, resuming from the bytes read so
      far, and then its delay in front of the rest of the loop. */
  lemma LoopRetryStep(attempt: nat -> Attempt, maxRetries: int, retryCount: nat, totalRead: nat, mode: Totals)
    requires retryCount + 1 < maxRetries && Retryable(attempt(retryCount))
    ensures var rest := Loop(attempt, maxRetries, retryCount + 1, totalRead + Sum(attempt(retryCount).chunks), mode);
            var d := Loop(attempt, maxRetries, retryCount, totalRead, mode);
            && Requests(d.events) == [RangeFrom(totalRead)] + Requests(rest.events)
            && Delays(d.events) == [2 * (retryCount + 1)] + Delays(rest.events)
            && d.outcome == rest.outcome
  {
    var a := attempt(retryCount);
    var rest := Loop(attempt, maxRetries, retryCount + 1, totalRead + Sum(a.chunks), mode);
    var events := AttemptEvents(a, totalRead, mode);
    LoopRetryEvents(attempt, maxRetries, retryCount, totalRead, mode);
    AttemptEventsViews(a, totalRead, mode);
    ViewsOfRetry(events, 2 * (retryCount + 1), rest.events);
    assert Delays(events) + [2 * (retryCount + 1)] == [2 * (retryCount + 1)];
  }

  /** An attempt that is not retried, or that used up the budget, ends the
      loop with its own trace and outcome. */
  lemma LoopStopEvents(attempt: nat -> Attempt, maxRetries: int, retryCount: nat, totalRead: nat, mode: Totals)
    requires retryCount < maxRetries && !(Retryable(attempt(retryCount)) && retryCount + 1 < maxRetries)
    ensures var d := Loop(attempt, maxRetries, retryCount, totalRead, mode);
            d.events == AttemptEvents(attempt(retryCount), totalRead, mode) && d.outcome == Final(attempt(retryCount))
  {
  }

  lemma LoopStopStep(attempt: nat -> Attempt, maxRetries: int, retryCount: nat, totalRead: nat, mode: Totals)
    requires retryCount < maxRetries && !(Retryable(attempt(retryCount)) && retryCount + 1 < maxRetries)
    ensures var d := Loop(attempt, maxRetries, retryCount, totalRead, mode);
            && Requests(d.events) == [RangeFrom(totalRead)] && Delays(d.events) == []
            && d.outcome == Final(attempt(retryCount))
  {
    LoopStopEvents(attempt, maxRetries, retryCount, totalRead, mode);
    AttemptEventsViews(attempt(retryCount), totalRead, mode);
  }

  /** The loop's outcome is that of its last attempt. */
  lemma {:induction false} LoopOutcome(attempt: nat -> Attempt, maxRetries: int, retryCount: nat, totalRead: nat, mode: Totals)
    requires retryCount < maxRetries
    ensures var d := Loop(attempt, maxRetries, retryCount, totalRead, mode);
            && |Requests(d.events)| >= 1
            && d.outcome == Final(attempt(retryCount + |Requests(d.events)| - 1))
    decreases maxRetries - retryCount
  {
    var a := attempt(retryCount);
    if Retryable(a) && retryCount + 1 < maxRetries {
      var d := Loop(attempt, maxRetries, retryCount, totalRead, mode);
      var rest := Loop(attempt, maxRetries, retryCount + 1, totalRead + Sum(a.chunks), mode);
      LoopRetryStep(attempt, maxRetries, retryCount, totalRead, mode);
      assert |Requests(d.events)| == 1 + |Requests(rest.events)|;
      LoopOutcome(attempt, maxRetries, retryCount + 1, totalRead + Sum(a.chunks), mode);
      assert retryCount + |Requests(d.events)| - 1 == retryCount + 1 + |Requests(rest.events)| - 1;
    } else {
      LoopStopStep(attempt, maxRetries, retryCount, totalRead, mode);
    }
  }

  lemma AttemptsNone(attempt: nat -> Attempt, maxRetries: int, from: nat)
    requires from >= maxRetries
    ensures AttemptsMade(attempt, maxRetries, from, 0)
  {
  }

  lemma AttemptsOne(attempt: nat -> Attempt, maxRetries: int, from: nat)
    requires from < maxRetries && !(Retryable(attempt(from)) && from + 1 < maxRetries)
    ensures AttemptsMade(attempt, maxRetries, from, 1)
  {
  }

  lemma {:induction false} LoopAttempts(attempt: nat -> Attempt, maxRetries: int, retryCount: nat, totalRead: nat, mode: Totals)
    ensures AttemptsMade(attempt, maxRetries, retryCount, |Requests(Loop(attempt, maxRetries, retryCount, totalRead, mode).events)|)
    ensures retryCount < maxRetries ==>
              Loop(attempt, maxRetries, retryCount, totalRead, mode).outcome
              == Final(attempt(retryCount + |Requests(Loop(attempt, maxRetries, retryCount, totalRead, mode).events)| - 1))
    decreases maxRetries - retryCount
  {
    var n := |Requests(Loop(attempt, maxRetries, retryCount, totalRead, mode).events)|;
    if retryCount >= maxRetries {
      assert n == 0;
      AttemptsNone(attempt, maxRetries, retryCount);
    } else {
      LoopOutcome(attempt, maxRetries, retryCount, totalRead, mode);
      var a := attempt(retryCount);
      var k := retryCount + 1;
      if Retryable(a) && k < maxRetries {
        var read := totalRead + Sum(a.chunks);
        var m := |Requests(Loop(attempt, maxRetries, k, read, mode).events)|;
        LoopRetryStep(attempt, maxRetries, retryCount, totalRead, mode);
        assert n == 1 + m;
        LoopAttempts(attempt, maxRetries, k, read, mode);
        AttemptsCons(attempt, maxRetries, retryCount, m);
      } else {
        LoopStopStep(attempt, maxRetries, retryCount, totalRead, mode);
        AttemptsOne(attempt, maxRetries, retryCount);
        assert n == 1;
      }
    }
  }

  /** After the k-th failure that is retried the loop waits 2·k seconds, and
      there is one delay fewer than there are attempts. */
  lemma {:induction false} LoopDelays(attempt: nat -> Attempt, maxRetries: int, retryCount: nat, totalRead: nat, mode: Totals)
    ensures var d := Loop(attempt, maxRetries, retryCount, totalRead, mode);
            && |Delays(d.events)| == (if retryCount < maxRetries then |Requests(d.events)| - 1 else 0)
            && Backoff(Delays(d.events), retryCount)
    decreases maxRetries - retryCount
  {
    if retryCount < maxRetries {
      var a := attempt(retryCount);
      var k := retryCount + 1;
      if Retryable(a) && k < maxRetries {
        var read := totalRead + Sum(a.chunks);
        var ds := Delays(Loop(attempt, maxRetries, k, read, mode).events);
        LoopRetryStep(attempt, maxRetries, retryCount, totalRead, mode);
        LoopDelays(attempt, maxRetries, k, read, mode);
        BackoffCons(ds, retryCount);
      } else {
        LoopStopStep(attempt, maxRetries, retryCount, totalRead, mode);
      }
    }
  }

  lemma ResumesOne(attempt: nat -> Attempt, from: nat)
    ensures ResumesFrom(attempt, [RangeFrom(ReadBefore(attempt, from))], from)
  {
    assert from + 0 == from;
  }

  /** The i-th request resumes from exactly the bytes read before it, so the
      Range header is present exactly when that count is positive. */
  lemma {:induction false} LoopRanges(attempt: nat -> Attempt, maxRetries: int, retryCount: nat, totalRead: nat, mode: Totals)
    requires totalRead == ReadBefore(attempt, retryCount)
    ensures ResumesFrom(attempt, Requests(Loop(attempt, maxRetries, retryCount, totalRead, mode).events), retryCount)
    decreases maxRetries - retryCount
  {
    if retryCount < maxRetries {
      var a := attempt(retryCount);
      var k := retryCount + 1;
      if Retryable(a) && k < maxRetries {
        var read := totalRead + Sum(a.chunks);
        var rs := Requests(Loop(attempt, maxRetries, k, read, mode).events);
        LoopRetryStep(attempt, maxRetries, retryCount, totalRead, mode);
        assert read == ReadBefore(attempt, k);
        LoopRanges(attempt, maxRetries, k, read, mode);
        ResumesCons(attempt, rs, retryCount);
        assert Requests(Loop(attempt, maxRetries, retryCount, totalRead, mode).events)
            == [RangeFrom(ReadBefore(attempt, retryCount))] + rs;
      } else {
        LoopStopStep(attempt, maxRetries, retryCount, totalRead, mode);
        ResumesOne(attempt, retryCount);
        assert Requests(Loop(attempt, maxRetries, retryCount, totalRead, mode).events)
            == [RangeFrom(ReadBefore(attempt, retryCount))];
      }
    } else {
      assert Requests(Loop(attempt, maxRetries, retryCount, totalRead, mode).events) == [];
    }
  }

  /** The whole download: how many attempts are made and how it ends, the
      backoff schedule, and the resume offsets. With a budget that is not
      positive nothing happens and the call returns normally. */
  lemma DownloadFileShape(attempt: nat -> Attempt, maxRetries: int, mode: Totals)
    ensures var d := DownloadFile(attempt, maxRetries, mode);
            && (maxRetries <= 0 ==> d.events == [] && d.outcome == NotAttempted)
            && AttemptsMade(attempt, maxRetries, 0, |Requests(d.events)|)
            && (maxRetries > 0 ==> d.outcome == Final(attempt(|Requests(d.events)| - 1)))
            && (maxRetries > 0 ==> |Delays(d.events)| == |Requests(d.events)| - 1)
            && Backoff(Delays(d.events), 0)
            && ResumesFrom(attempt, Requests(d.events), 0)
  {
    LoopAttempts(attempt, maxRetries, 0, 0, mode);
    LoopDelays(attempt, maxRetries, 0, 0, mode);
    LoopRanges(attempt, maxRetries, 0, 0, mode);
  }

  /** The first request never carries a Range header. */
  lemma FirstRequestFromStart(attempt: nat -> Attempt, maxRetries: int, mode: Totals)
    requires maxRetries > 0
    ensures Requests(DownloadFile(attempt, maxRetries, mode).events)[0] == None
  {
    DownloadFileShape(attempt, maxRetries, mode);
  }

  // ---------------------------------------------------------------------
  // Progress totals after a resume

  /** Every progress report of the trace stays within its total. */
  predicate ProgressWithinTotal(events: seq<Event>)
    decreases |events|
  {
    events != [] ==> (events[0].Progress? ==> events[0].read <= events[0].total) && ProgressWithinTotal(events[1..])
  }

  lemma {:induction false} WithinTotalAppend(a: seq<Event>, b: seq<Event>)
    requires ProgressWithinTotal(a) && ProgressWithinTotal(b)
    ensures ProgressWithinTotal(a + b)
    decreases |a|
  {
    if a == [] {
      assert a + b == b;
    } else {
      assert (a + b)[0] == a[0];
      assert (a + b)[1..] == a[1..] + b;
      WithinTotalAppend(a[1..], b);
    }
  }

  /** Every progress report of a trace within totals is within its total. */
  lemma {:induction false} WithinTotalMembers(events: seq<Event>, e: Event)
    requires ProgressWithinTotal(events) && e in events && e.Progress?
    ensures e.read <= e.total
    decreases |events|
  {
    if events[0] != e {
      WithinTotalMembers(events[1..], e);
    }
  }

  /** A server that honours the Range header sends no more than the length it
      declares for the part it sends. */
  predicate Honest(attempt: nat -> Attempt, n: nat) {
    forall i :: 0 <= i < n && attempt(i).contentLength.Some? ==> Sum(attempt(i).chunks) <= attempt(i).contentLength.value
  }

  lemma {:induction false} ProgressEventsWithin(chunks: seq<Chunk>, read: nat, start: nat, total: nat)
    requires start <= read && read - start + Sum(chunks) <= total - start && start <= total
    ensures ProgressWithinTotal(ProgressEvents(chunks, read, Some(total)))
    decreases |chunks|
  {
    if chunks != [] {
      var tail := ProgressEvents(chunks[1..], read + chunks[0], Some(total));
      ProgressEventsWithin(chunks[1..], read + chunks[0], start, total);
      var evs := [Progress(read + chunks[0], total)] + tail;
      assert ProgressEvents(chunks, read, Some(total)) == evs;
      assert evs[1..] == tail;
      assert read + chunks[0] <= total;
      assert evs[0].read <= evs[0].total;
    }
  }

  /** With the total measured from the bytes already on disk, no progress
      report of an honest server's download exceeds its total. */
  lemma {:induction false} ResumeAwareWithinTotal(attempt: nat -> Attempt, maxRetries: int, retryCount: nat, totalRead: nat)
    requires Honest(attempt, if maxRetries > 0 then maxRetries else 0)
    ensures ProgressWithinTotal(Loop(attempt, maxRetries, retryCount, totalRead, ResumeAware).events)
    decreases maxRetries - retryCount
  {
    if retryCount < maxRetries {
      var a := attempt(retryCount);
      AttemptWithinTotal(a, totalRead);
      var k := retryCount + 1;
      if Retryable(a) && k < maxRetries {
        var rest := Loop(attempt, maxRetries, k, totalRead + Sum(a.chunks), ResumeAware);
        LoopRetryEvents(attempt, maxRetries, retryCount, totalRead, ResumeAware);
        ResumeAwareWithinTotal(attempt, maxRetries, k, totalRead + Sum(a.chunks));
        WithinTotalAroundDelay(AttemptEvents(a, totalRead, ResumeAware), 2 * k, rest.events);
      } else {
        LoopStopEvents(attempt, maxRetries, retryCount, totalRead, ResumeAware);
      }
    }
  }

  lemma WithinTotalAroundDelay(a: seq<Event>, seconds: nat, b: seq<Event>)
    requires ProgressWithinTotal(a) && ProgressWithinTotal(b)
    ensures ProgressWithinTotal(a + [Delay(seconds)] + b)
  {
    WithinTotalAppend([Delay(seconds)], b);
    WithinTotalAppend(a, [Delay(seconds)] + b);
    assert a + [Delay(seconds)] + b == a + ([Delay(seconds)] + b);
  }

  lemma AttemptWithinTotal(a: Attempt, before: nat)
    requires a.contentLength.Some? ==> Sum(a.chunks) <= a.contentLength.value
    ensures ProgressWithinTotal(AttemptEvents(a, before, ResumeAware))
  {
    if a.contentLength.Some? {
      ProgressEventsWithin(a.chunks, before, before, before + a.contentLength.value);
    } else {
      ProgressEventsOnly(a.chunks, before, None);
    }
  }

  /** A first attempt that declares 100 bytes and fails with an HTTP error
      after 50, then a resumed attempt whose partial response declares the
      remaining 50 and delivers them. */
  function ResumedDownload(i: nat): Attempt
  {
    if i == 0 then Attempt(Some(100), [50], Some(HttpRequestFailure))
    else Attempt(Some(50), [50], None)
  }

  /** As written, the resumed attempt reports 100 bytes out of 50: a
      progress of 200 percent. */
  lemma ResumeOvershoots()
    ensures var d := DownloadFile(ResumedDownload, 10, AsWritten);
            Progress(100, 50) in d.events && d.outcome == Completed
  {
    var e0 := AttemptEvents(ResumedDownload(0), 0, AsWritten);
    var e1 := AttemptEvents(ResumedDownload(1), 50, AsWritten);
    assert e1 == [Request(Some(50)), Progress(100, 50)];
    var d := DownloadFile(ResumedDownload, 10, AsWritten);
    assert d.events == e0 + [Delay(2)] + e1;
  }

  /** Measured from the bytes on disk, the same download ends at 100 out of
      100. */
  lemma ResumeAwareReachesTotal()
    ensures var d := DownloadFile(ResumedDownload, 10, ResumeAware);
            Progress(100, 100) in d.events && ProgressWithinTotal(d.events)
  {
    var e0 := AttemptEvents(ResumedDownload(0), 0, ResumeAware);
    var e1 := AttemptEvents(ResumedDownload(1), 50, ResumeAware);
    assert e1 == [Request(Some(50)), Progress(100, 100)];
    var d := DownloadFile(ResumedDownload, 10, ResumeAware);
    assert d.events == e0 + [Delay(2)] + e1;
    ResumeAwareWithinTotal(ResumedDownload, 10, 0, 0);
  }
}
