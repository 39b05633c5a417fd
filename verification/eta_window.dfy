/** The rolling-average ETA estimator: a queue of (ticks, progress) samples,
    the latest sample `current`, and `oldest`, the sample the estimate is
    measured from. The stopwatch is a tick counter that `Tick` advances and
    `Reset` sets back to zero; progress values are compared only for
    equality, so they are kept as exact reals. */
module EtaWindow {
  import opened Common

  datatype Item = Item(ticks: int, progress: real)

  /** The value both `current` and `oldest` hold before any update. */
  const Unset := Item(0, 0.0)

  datatype Eta = Eta(minimumData: int, maximumTicks: int, elapsed: int,
                     queue: seq<Item>, current: Item, oldest: Item)

  /** Peeking at an empty queue throws; it can only happen when the minimum
      amount of data is negative. A queue created with a negative capacity
      throws too. */
  datatype EtaError = PeekOnEmptyQueue | NegativeCapacity

  predicate IsInt32(x: int) {
    -0x8000_0000 <= x < 0x8000_0000
  }

  /** C#'s unchecked 32-bit arithmetic: `x` wrapped into the int range. */
  function Wrap32(x: int): (r: int)
    ensures IsInt32(r) && (x - r) % 0x1_0000_0000 == 0
    ensures IsInt32(x) ==> r == x
  {
    (x + 0x8000_0000) % 0x1_0000_0000 - 0x8000_0000
  }

  /** The constructor: the queue is created with capacity `minimumData * 2`
      in 32-bit arithmetic, which throws when that product wraps to a
      negative number. The stopwatch starts at zero. */
  function Create(minimumData: int, maximumTicks: int): (r: Result<Eta, EtaError>)
    requires IsInt32(minimumData)
    ensures r.Err? <==> Wrap32(minimumData * 2) < 0
    ensures r.Err? ==> r.error == NegativeCapacity
    ensures 0 <= minimumData < 0x4000_0000 ==> r.Ok?
    ensures -0x4000_0000 <= minimumData < 0 ==> r.Err?
    ensures r.Ok? ==> r.value.queue == [] && r.value.elapsed == 0
    ensures r.Ok? ==> r.value.current == Unset && r.value.oldest == Unset
    ensures r.Ok? ==> r.value.minimumData == minimumData && r.value.maximumTicks == maximumTicks
  {
    if Wrap32(minimumData * 2) < 0 then Err(NegativeCapacity)
    else Ok(Eta(minimumData, maximumTicks, 0, [], Unset, Unset))
  }

  /** The capacity wraps back to a positive number below -2^30, so such a
      negative minimum is accepted, and the first update peeks at the empty
      queue. */
  lemma WrappedCapacityReachesPeek(maximumTicks: int)
    ensures Create(-0x4000_0001, maximumTicks).Ok?
    ensures Update(Create(-0x4000_0001, maximumTicks).value, 0.5, 0) == Err(PeekOnEmptyQueue)
  {
    assert Wrap32(-0x8000_0002) == 0x7FFF_FFFE;
  }

  /** `d` ticks pass on the stopwatch. */
  function Tick(s: Eta, d: nat): Eta
  {
    s.(elapsed := s.elapsed + d)
  }

  /** The queue empties and the stopwatch restarts; `current` and `oldest`
      keep their values. */
  function Reset(s: Eta): (r: Eta)
    ensures r.queue == [] && r.elapsed == 0
    ensures r.current == s.current && r.oldest == s.oldest
    ensures r.minimumData == s.minimumData && r.maximumTicks == s.maximumTicks
  {
    s.(queue := [], elapsed := 0)
  }

  predicate IsSuffix(q: seq<Item>, of: seq<Item>) {
    |q| <= |of| && q == of[|of| - |q|..]
  }

  predicate AllExpired(q: seq<Item>, expired: int) {
    forall i :: 0 <= i < |q| ==> q[i].ticks < expired
  }

  datatype Cleared = Cleared(queue: seq<Item>, oldest: Item)

  /** What clearing the expired front of `queue` leaves: a suffix, with
      every dropped item older than `expired`, stopping at the minimum count
      or at the first unexpired item, and `oldest` the last item dropped. */
  predicate ClearedWell(queue: seq<Item>, oldest: Item, minimumData: int, expired: int, c: Cleared) {
    && IsSuffix(c.queue, queue)
    && AllExpired(queue[..|queue| - |c.queue|], expired)
    && (|c.queue| <= minimumData || (c.queue != [] && c.queue[0].ticks >= expired))
    && (|c.queue| >= minimumData || c.queue == queue)
    && c.oldest == (if |c.queue| == |queue| then oldest else queue[|queue| - |c.queue| - 1])
  }

  /** Dequeue from the front while the count exceeds `minimumData` and the
      front item is older than `expired`. */
  function ClearExpired(queue: seq<Item>, oldest: Item, minimumData: int, expired: int): (r: Result<Cleared, EtaError>)
    ensures r.Err? <==> minimumData < 0 && AllExpired(queue, expired)
    ensures r.Ok? ==> |r.value.queue| <= |queue|
    decreases |queue|
  {
    if |queue| > minimumData then
      if queue == [] then Err(PeekOnEmptyQueue)
      else if queue[0].ticks < expired then
        var r := ClearExpired(queue[1..], queue[0], minimumData, expired);
        assert AllExpired(queue, expired) <==> AllExpired(queue[1..], expired);
        r
      else Ok(Cleared(queue, oldest))
    else Ok(Cleared(queue, oldest))
  }

  lemma {:induction false} ClearExpiredShape(queue: seq<Item>, oldest: Item, minimumData: int, expired: int)
    requires ClearExpired(queue, oldest, minimumData, expired).Ok?
    ensures ClearedWell(queue, oldest, minimumData, expired, ClearExpired(queue, oldest, minimumData, expired).value)
    decreases |queue|
  {
    if |queue| > minimumData && queue[0].ticks < expired {
      var rest := queue[1..];
      ClearExpiredShape(rest, queue[0], minimumData, expired);
      var c := ClearExpired(rest, queue[0], minimumData, expired).value;
      assert ClearExpired(queue, oldest, minimumData, expired).value == c;
      DropFrontWell(queue, oldest, minimumData, expired, c);
    }
  }

  /** Dropping one expired front item keeps the clearing well-formed. */
  lemma DropFrontWell(queue: seq<Item>, oldest: Item, minimumData: int, expired: int, c: Cleared)
    requires queue != [] && |queue| > minimumData && queue[0].ticks < expired
    requires ClearedWell(queue[1..], queue[0], minimumData, expired, c)
    ensures ClearedWell(queue, oldest, minimumData, expired, c)
  {
    var rest := queue[1..];
    var k := |queue| - |c.queue|;
    assert c.queue == rest[|rest| - |c.queue|..] == queue[k..];
    assert queue[..k] == [queue[0]] + rest[..k - 1];
    assert c.oldest == queue[k - 1];
  }

  /** Add a sample unless the progress equals the latest one. The stopwatch
      is read twice: expiry is measured at the call's reading `s.elapsed`,
      and the new sample takes a second reading `later` ticks on. The new
      sample becomes `current` and, when it is alone in the queue, also
      `oldest`. */
  function Update(s: Eta, progress: real, later: nat): (r: Result<Eta, EtaError>)
    ensures s.current.progress == progress ==> r == Ok(s)
    ensures r.Err? <==> s.current.progress != progress && s.minimumData < 0 && AllExpired(s.queue, s.elapsed - s.maximumTicks)
    ensures r.Ok? && s.current.progress != progress ==> (
      var t := r.value;
      && t.current == Item(s.elapsed + later, progress)
      && |t.queue| >= 1 && t.queue[|t.queue| - 1] == t.current
      && IsSuffix(t.queue[..|t.queue| - 1], s.queue)
      && (|t.queue| == 1 ==> t.oldest == t.current)
      && t.elapsed == s.elapsed + later && t.minimumData == s.minimumData)
    ensures r.Ok? && s.current.progress != progress ==> (
      var c := ClearExpired(s.queue, s.oldest, s.minimumData, s.elapsed - s.maximumTicks);
      && c.Ok?
      && r.value.queue == c.value.queue + [Item(s.elapsed + later, progress)]
      && r.value.oldest == (if c.value.queue == [] then Item(s.elapsed + later, progress) else c.value.oldest))
  {
    if s.current.progress == progress then Ok(s)
    else
      match ClearExpired(s.queue, s.oldest, s.minimumData, s.elapsed - s.maximumTicks)
      case Err(e) => Err(e)
      case Ok(c) =>
        ClearExpiredShape(s.queue, s.oldest, s.minimumData, s.elapsed - s.maximumTicks);
        assert Enqueued(s, c, progress, later).queue[..|c.queue|] == c.queue;
        Ok(Enqueued(s, c, progress, later))
  }

  /** The state after the cleared queue `c` receives a sample taken `later`
      ticks after the call's first reading. */
  function Enqueued(s: Eta, c: Cleared, progress: real, later: nat): Eta
  {
    var item := Item(s.elapsed + later, progress);
    var q := c.queue + [item];
    s.(elapsed := s.elapsed + later, queue := q, current := item, oldest := if |q| == 1 then item else c.oldest)
  }

  predicate ETAIsAvailable(s: Eta) {
    |s.queue| >= s.minimumData && s.oldest.progress != s.current.progress
  }

  /** The estimated remaining time: unbounded (TimeSpan.MaxValue) or a number
      of ticks. */
  datatype Remaining = Unbounded | Ticks(ticks: real)

  function ETR(s: Eta): (r: Remaining)
    ensures r.Unbounded? <==> !ETAIsAvailable(s)
    ensures r.Ticks? ==> r.ticks * (s.current.progress - s.oldest.progress)
                         == (1.0 - s.current.progress) * (s.current.ticks - s.oldest.ticks) as real
  {
    if |s.queue| < s.minimumData || s.oldest.progress == s.current.progress then Unbounded
    else
      Ticks((1.0 - s.current.progress) * (s.current.ticks - s.oldest.ticks) as real
            / (s.current.progress - s.oldest.progress))
  }

  predicate InTickOrder(q: seq<Item>) {
    forall i, j :: 0 <= i < j < |q| ==> q[i].ticks <= q[j].ticks
  }

  predicate NoLaterThan(q: seq<Item>, t: int) {
    forall i :: 0 <= i < |q| ==> q[i].ticks <= t
  }

  /** The state the operations keep: a minimum count that is not negative,
      samples in tick order, none later than the stopwatch, the last one `current`, and `oldest` no later than the
      front. */
  predicate Valid(s: Eta) {
    && s.minimumData >= 0
    && s.elapsed >= 0
    && InTickOrder(s.queue)
    && NoLaterThan(s.queue, s.elapsed)
    && (s.queue != [] ==> s.queue[|s.queue| - 1] == s.current && s.oldest.ticks <= s.queue[0].ticks)
  }

  lemma SuffixInOrder(q: seq<Item>, k: nat, t: int)
    requires k <= |q| && InTickOrder(q) && NoLaterThan(q, t)
    ensures InTickOrder(q[k..]) && NoLaterThan(q[k..], t)
  {
    assert forall i :: 0 <= i < |q| - k ==> q[k..][i] == q[k + i];
  }

  lemma AppendInOrder(q: seq<Item>, item: Item)
    requires InTickOrder(q) && NoLaterThan(q, item.ticks)
    ensures InTickOrder(q + [item]) && NoLaterThan(q + [item], item.ticks)
  {
    var r := q + [item];
    assert forall i :: 0 <= i < |q| ==> r[i] == q[i];
  }

  /** A created estimator is valid exactly when its minimum is not
      negative. */
  lemma CreateValid(minimumData: int, maximumTicks: int)
    requires IsInt32(minimumData)
    ensures Create(minimumData, maximumTicks).Ok? ==>
      (Valid(Create(minimumData, maximumTicks).value) <==> minimumData >= 0)
  {
  }

  lemma TickKeepsValid(s: Eta, d: nat)
    requires Valid(s)
    ensures Valid(Tick(s, d))
  {
  }

  lemma ResetKeepsValid(s: Eta)
    requires Valid(s)
    ensures Valid(Reset(s))
  {
  }

  /** On a valid estimator an update never throws, and it keeps the state
      valid. */
  lemma UpdateKeepsValid(s: Eta, progress: real, later: nat)
    requires Valid(s)
    ensures Update(s, progress, later).Ok?
    ensures Valid(Update(s, progress, later).value)
  {
    if s.current.progress != progress {
      var c := ClearExpired(s.queue, s.oldest, s.minimumData, s.elapsed - s.maximumTicks).value;
      ClearExpiredShape(s.queue, s.oldest, s.minimumData, s.elapsed - s.maximumTicks);
      assert Update(s, progress, later).value == Enqueued(s, c, progress, later);
      EnqueuedValid(s, c, progress, later);
    }
  }

  lemma NoLaterThanLater(q: seq<Item>, t: int, u: int)
    requires NoLaterThan(q, t) && t <= u
    ensures NoLaterThan(q, u)
  {
  }

  lemma EnqueuedValid(s: Eta, c: Cleared, progress: real, later: nat)
    requires Valid(s)
    requires ClearedWell(s.queue, s.oldest, s.minimumData, s.elapsed - s.maximumTicks, c)
    ensures Valid(Enqueued(s, c, progress, later))
  {
    var k := |s.queue| - |c.queue|;
    var item := Item(s.elapsed + later, progress);
    SuffixInOrder(s.queue, k, s.elapsed);
    NoLaterThanLater(c.queue, s.elapsed, s.elapsed + later);
    AppendInOrder(c.queue, item);
    var t := Enqueued(s, c, progress, later);
    if |c.queue| > 0 {
      assert t.queue[0] == s.queue[k];
      if k > 0 {
        assert c.oldest == s.queue[k - 1];
      }
    }
  }

  /** Once the queue holds at least `minimumData` samples it never holds fewer
      after an update: expiry stops at that count and the update adds one. */
  lemma UpdateKeepsMinimum(s: Eta, progress: real, later: nat)
    requires |s.queue| >= s.minimumData
    requires Update(s, progress, later).Ok?
    ensures |Update(s, progress, later).value.queue| >= s.minimumData
  {
    if s.current.progress != progress {
      ClearExpiredShape(s.queue, s.oldest, s.minimumData, s.elapsed - s.maximumTicks);
    }
  }

  /** In a valid state where the estimate is available and the queue holds a
      sample, the estimate runs forward in time from `oldest` to `current`,
      and with progress rising towards 1 it is never negative. */
  lemma EtrNonNegative(s: Eta)
    requires Valid(s) && ETAIsAvailable(s) && s.queue != []
    requires s.oldest.progress < s.current.progress <= 1.0
    ensures s.oldest.ticks <= s.current.ticks
    ensures ETR(s).Ticks? && ETR(s).ticks >= 0.0
  {
    var dt := (s.current.ticks - s.oldest.ticks) as real;
    var dp := s.current.progress - s.oldest.progress;
    assert s.oldest.ticks <= s.queue[0].ticks <= s.queue[|s.queue| - 1].ticks;
    assert (1.0 - s.current.progress) * dt >= 0.0;
    assert ETR(s).ticks == (1.0 - s.current.progress) * dt / dp;
  }

  /** Clearing twice with the same threshold removes nothing more. */
  lemma ClearExpiredIdempotent(queue: seq<Item>, oldest: Item, minimumData: int, expired: int)
    requires ClearExpired(queue, oldest, minimumData, expired).Ok?
    ensures var c := ClearExpired(queue, oldest, minimumData, expired).value;
            ClearExpired(c.queue, c.oldest, minimumData, expired) == Ok(c)
  {
    ClearExpiredShape(queue, oldest, minimumData, expired);
  }
}
