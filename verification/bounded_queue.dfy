/** The two bounded log queues of the main window: the console (capacity
    1000) and the back-end setup sub-status (capacity 50). Enqueueing first
    dequeues from the front while the count EXCEEDS the capacity, then
    appends, so a queue can hold capacity + 1 lines. */
module BoundedQueue {
  import Common

  const ConsoleCapacity: nat := 1000
  const SetupSubStatusCapacity: nat := 50

  /** Enqueue `v`: the oldest lines beyond `cap` go, then `v` joins at the back. */
  function Enqueue(q: seq<string>, cap: nat, v: string): (r: seq<string>)
    ensures |r| == (if |q| > cap then cap else |q|) + 1
    ensures r[|r| - 1] == v
    ensures r == (q + [v])[|q| + 1 - |r|..]
  {
    var kept := if |q| > cap then q[|q| - cap..] else q;
    assert kept + [v] == (q + [v])[|q| - |kept|..];
    kept + [v]
  }

  /** The queue as the source drives it: TryDequeue one line at a time
      while the count exceeds the capacity, then Enqueue. */
  method EnqueueByDequeue(q: seq<string>, cap: nat, v: string) returns (r: seq<string>)
    ensures r == Enqueue(q, cap, v)
  {
    var cur := q;
    while |cur| > cap
      invariant cur == q[|q| - |cur|..]
      invariant |q| > cap ==> |cur| >= cap
      invariant |q| <= cap ==> cur == q
      decreases |cur|
    {
      cur := cur[1..];
    }
    r := cur + [v];
  }

  function Clear(): (r: seq<string>)
    ensures |r| == 0
  {
    []
  }

  /** The text bound to the view: the lines joined by "\n". */
  function Text(q: seq<string>): string {
    Common.Join("\n", q)
  }

  function EnqueueAll(q: seq<string>, cap: nat, vs: seq<string>): seq<string>
    decreases |vs|
  {
    if vs == [] then q else EnqueueAll(Enqueue(q, cap, vs[0]), cap, vs[1..])
  }

  function Min(a: nat, b: nat): nat { if a < b then a else b }

  /** Starting from any queue the source can reach (at most cap + 1 lines),
      a run of enqueues leaves exactly the newest cap + 1 lines of the
      whole history, in emission order. */
  lemma {:induction false} EnqueueAllKeepsNewest(q: seq<string>, cap: nat, vs: seq<string>)
    requires |q| <= cap + 1
    ensures var h := q + vs;
      EnqueueAll(q, cap, vs) == h[|h| - Min(|h|, cap + 1)..]
    decreases |vs|
  {
    var h := q + vs;
    if vs == [] {
      assert h == q;
    } else {
      var q1 := Enqueue(q, cap, vs[0]);
      EnqueueAllKeepsNewest(q1, cap, vs[1..]);
      var h1 := q1 + vs[1..];
      var n := Min(|h1|, cap + 1);
      assert |h1| - n >= 0;
      // q1 is a suffix of q + [vs[0]], so h1 is a suffix of h.
      var drop := |q| + 1 - |q1|;
      assert q1 == (q + [vs[0]])[drop..];
      assert h1 == h[drop..];
      assert |h| - Min(|h|, cap + 1) == drop + (|h1| - n);
      assert h1[|h1| - n..] == h[|h| - Min(|h|, cap + 1)..];
    }
  }

  /** After Clear, the console never holds more than 1001 lines, and the
      last line is the latest one emitted. */
  lemma ConsoleBound(vs: seq<string>)
    requires |vs| > 0
    ensures var r := EnqueueAll(Clear(), ConsoleCapacity, vs);
      0 < |r| <= ConsoleCapacity + 1 && r[|r| - 1] == vs[|vs| - 1]
  {
    EnqueueAllKeepsNewest([], ConsoleCapacity, vs);
    assert [] + vs == vs;
  }
}
