/** The sliding-window rate limiter that guards the lookup endpoints of the
    HTTP API (app.py, the `rate_limit` decorator over `request_tracker`).

    Timestamps are whole seconds; the server's floating-point clock is
    abstracted to `int`. Nothing here assumes the clock only moves forward,
    except the lemmas that say so in their `requires`.
 */
module RateLimiter {

  /** Most requests a client may have admitted inside one window. */
  const RateLimit: nat := 30

  /** Length of the trailing window, in seconds. */
  const RateWindow: int := 60

  /** A client is told apart by its network address. */
  type ClientId = string

  datatype Decision = Admitted | Denied

  /** A timestamp `t` still counts at time `now`: it is strictly younger
      than the window, so one exactly `RateWindow` old has expired. */
  predicate Recent(t: int, now: int) {
    now - t < RateWindow
  }

  predicate Sorted(s: seq<int>) {
    forall i, j :: 0 <= i < j < |s| ==> s[i] <= s[j]
  }

  predicate AtMost(s: seq<int>, now: int) {
    forall i :: 0 <= i < |s| ==> s[i] <= now
  }

  predicate AllRecent(s: seq<int>, now: int) {
    forall i :: 0 <= i < |s| ==> Recent(s[i], now)
  }

  /** The list comprehension that drops the expired timestamps of a client. */
  function Prune(ts: seq<int>, now: int): (r: seq<int>)
    ensures |r| <= |ts|
    ensures forall t :: t in r <==> t in ts && Recent(t, now)
  {
    if ts == [] then []
    else if Recent(ts[0], now) then [ts[0]] + Prune(ts[1..], now)
    else Prune(ts[1..], now)
  }

  /** Pruning is a filter: it distributes over concatenation, so it keeps
      the relative order and the multiplicity of what it keeps. */
  lemma {:induction false} PruneConcat(a: seq<int>, b: seq<int>, now: int)
    ensures Prune(a + b, now) == Prune(a, now) + Prune(b, now)
  {
    if a == [] {
      assert a + b == b;
    } else {
      assert (a + b)[1..] == a[1..] + b;
      PruneConcat(a[1..], b, now);
    }
  }

  /** A list whose timestamps are all recent is kept whole. */
  lemma {:induction false} PruneAllRecent(ts: seq<int>, now: int)
    requires AllRecent(ts, now)
    ensures Prune(ts, now) == ts
  {
    if ts != [] {
      PruneAllRecent(ts[1..], now);
    }
  }

  /** Pruning keeps a sorted list sorted. */
  lemma {:induction false} PruneSorted(ts: seq<int>, now: int)
    requires Sorted(ts)
    ensures Sorted(Prune(ts, now))
  {
    if ts != [] {
      PruneSorted(ts[1..], now);
      var rest := Prune(ts[1..], now);
      forall t | t in rest ensures ts[0] <= t {
        var k :| 0 <= k < |ts[1..]| && ts[1..][k] == t;
        assert ts[k + 1] == t;
      }
      if Recent(ts[0], now) {
        var r := [ts[0]] + rest;
        forall i, j | 0 <= i < j < |r| ensures r[i] <= r[j] {
          if i == 0 {
            assert r[j] == rest[j - 1] && rest[j - 1] in rest;
          } else {
            assert r[i] == rest[i - 1] && r[j] == rest[j - 1];
          }
        }
      }
    }
  }

  /** Pruning again at a later time is the same as pruning once at that
      time: a timestamp expired at `a` is still expired at `b`. */
  lemma {:induction false} PruneLater(ts: seq<int>, a: int, b: int)
    requires a <= b
    ensures Prune(Prune(ts, a), b) == Prune(ts, b)
  {
    if ts != [] {
      PruneLater(ts[1..], a, b);
    }
  }

  /** What one request does to the window of its client. */
  datatype Outcome = Outcome(decision: Decision, window: seq<int>)

  /** One request at `now` against the stored window `ts`: prune, then
      deny when the pruned window is full, else append `now`. */
  function Record(ts: seq<int>, now: int): (o: Outcome)
    ensures o.decision == Admitted <==> |Prune(ts, now)| < RateLimit
    ensures o.decision == Admitted ==> o.window == Prune(ts, now) + [now]
    ensures o.decision == Denied ==> o.window == Prune(ts, now)
    ensures AllRecent(o.window, now)
    ensures |ts| <= RateLimit ==> |o.window| <= RateLimit
    ensures |o.window| <= |ts| + 1
    ensures ts == [] ==> o == Outcome(Admitted, [now])
  {
    var kept := Prune(ts, now);
    if |kept| >= RateLimit then Outcome(Denied, kept)
    else Outcome(Admitted, kept + [now])
  }

  /** Sorted windows stay sorted when requests arrive no earlier than
      every stored timestamp. */
  lemma RecordSorted(ts: seq<int>, now: int)
    requires Sorted(ts) && AtMost(ts, now)
    ensures Sorted(Record(ts, now).window) && AtMost(Record(ts, now).window, now)
  {
    PruneSorted(ts, now);
    var kept := Prune(ts, now);
    forall i | 0 <= i < |kept| ensures kept[i] <= now {
      assert kept[i] in kept;
    }
  }

  /** Once the oldest stored timestamp is a full window old, a full window
      has room for one more request. */
  lemma ExpiryFreesSlot(ts: seq<int>, now: int)
    requires ts != [] && |ts| <= RateLimit
    requires !Recent(ts[0], now)
    ensures Record(ts, now).decision == Admitted
  {
    assert Prune(ts, now) == Prune(ts[1..], now);
  }

  predicate Bounded(m: map<ClientId, seq<int>>) {
    forall c :: c in m ==> |m[c]| <= RateLimit
  }

  predicate Ordered(m: map<ClientId, seq<int>>, now: int) {
    forall c :: c in m ==> Sorted(m[c]) && AtMost(m[c], now)
  }

  /** Replacing one client's list keeps both map invariants when the new
      list has them. */
  lemma UpdateKeeps(m: map<ClientId, seq<int>>, client: ClientId, w: seq<int>, now: int)
    ensures Bounded(m) && |w| <= RateLimit ==> Bounded(m[client := w])
    ensures Ordered(m, now) && Sorted(w) && AtMost(w, now) ==> Ordered(m[client := w], now)
  {
  }

  /** The process-wide map from client address to its arrival timestamps. */
  class Limiter {
    var tracker: map<ClientId, seq<int>>

    /** No stored list ever holds more than `RateLimit` timestamps. */
    ghost predicate Valid()
      reads this
    {
      Bounded(tracker)
    }

    /** Every stored list is sorted and no later than `now`. Holds along
        any run whose request times never decrease. */
    ghost predicate OrderedUpTo(now: int)
      reads this
    {
      Ordered(tracker, now)
    }

    /** The stored list of `client`, empty when it has none. */
    function Window(client: ClientId): seq<int>
      reads this
    {
      if client in tracker then tracker[client] else []
    }

    constructor ()
      ensures Valid() && tracker == map[]
    {
      tracker := map[];
    }

    /** The body of `decorated_function` up to the call of the endpoint. */
    method CheckAndRecord(client: ClientId, now: int) returns (d: Decision)
      requires Valid()
      modifies this
      ensures Valid()
      ensures d == Record(old(Window(client)), now).decision
      ensures tracker == old(tracker)[client := Record(old(Window(client)), now).window]
      ensures forall t :: t in tracker[client] ==> Recent(t, now)
      ensures client !in old(tracker) ==> d == Admitted && tracker[client] == [now]
      ensures forall c :: c != client ==> (c in tracker <==> c in old(tracker))
      ensures forall c :: c != client && c in tracker ==> tracker[c] == old(tracker)[c]
      ensures old(OrderedUpTo(now)) ==> OrderedUpTo(now)
    {
      ghost var before := Window(client);
      ghost var o := Record(before, now);
      UpdateKeeps(tracker, client, o.window, now);
      if Ordered(tracker, now) {
        RecordSorted(before, now);
      }
      if client in tracker {
        tracker := tracker[client := Prune(tracker[client], now)];
      }
      if |Window(client)| >= RateLimit {
        d := Denied;
        return;
      }
      if client !in tracker {
        tracker := tracker[client := []];
      }
      tracker := tracker[client := tracker[client] + [now]];
      d := Admitted;
    }
  }

  /** Everything one client's requests at `times` produce, starting from no
      stored list: the decision of each request, the stored list at the end,
      and the times of the admitted requests. */
  datatype Trace = Trace(decisions: seq<Decision>, window: seq<int>, admitted: seq<int>)

  function Replay(times: seq<int>): (tr: Trace)
    ensures |tr.decisions| == |times|
    ensures |tr.window| <= RateLimit && |tr.window| <= |times|
    ensures |tr.admitted| <= |times|
  {
    if times == [] then Trace([], [], [])
    else
      var prev := Replay(times[..|times| - 1]);
      var now := times[|times| - 1];
      var o := Record(prev.window, now);
      Trace(prev.decisions + [o.decision], o.window,
            if o.decision == Admitted then prev.admitted + [now] else prev.admitted)
  }

  /** With request times that never decrease, the stored list is exactly the
      admitted requests that are still recent at the last request. */
  lemma {:induction false} ReplayWindow(times: seq<int>)
    requires times != [] && Sorted(times)
    ensures Replay(times).window == Prune(Replay(times).admitted, times[|times| - 1])
  {
    var p := times[..|times| - 1];
    var now := times[|times| - 1];
    var prev := Replay(p);
    var o := Record(prev.window, now);
    if p == [] {
      assert Prune([now], now) == [now];
    } else {
      assert Sorted(p);
      ReplayWindow(p);
      var last := p[|p| - 1];
      assert last <= now;
      PruneLater(prev.admitted, last, now);
      assert Prune(prev.window, now) == Prune(prev.admitted, now);
      if o.decision == Admitted {
        PruneConcat(prev.admitted, [now], now);
        assert Prune([now], now) == [now];
      }
    }
  }

  /** The limiter's guarantee: at the time of any request, at most
      `RateLimit` admitted requests of that client lie in the trailing
      window. Applied to each prefix of a run, this bounds every instant. */
  lemma SlidingWindowBound(times: seq<int>)
    requires times != [] && Sorted(times)
    ensures |Prune(Replay(times).admitted, times[|times| - 1])| <= RateLimit
  {
    ReplayWindow(times);
  }

  /** Fewer than `RateLimit + 1` requests are all admitted. */
  lemma {:induction false} ShortRunAdmitted(times: seq<int>)
    requires |times| <= RateLimit
    ensures forall i :: 0 <= i < |times| ==> Replay(times).decisions[i] == Admitted
    ensures Replay(times).admitted == times
  {
    if times != [] {
      var p := times[..|times| - 1];
      ShortRunAdmitted(p);
      assert p + [times[|times| - 1]] == times;
    }
  }

  /** In a sorted list whose first timestamp is recent, all are recent. */
  lemma SpanRecent(s: seq<int>, now: int)
    requires s != [] && Sorted(s) && Recent(s[0], now)
    ensures AllRecent(s, now)
  {
    forall i | 0 <= i < |s| ensures Recent(s[i], now) {
      assert s[0] <= s[i];
    }
  }

  lemma SortedPrefix(s: seq<int>, k: nat)
    requires Sorted(s) && k <= |s|
    ensures Sorted(s[..k])
  {
    forall i, j | 0 <= i < j < k ensures s[..k][i] <= s[..k][j] {
      assert s[..k][i] == s[i] && s[..k][j] == s[j];
    }
  }

  /** A fresh client's `RateLimit` requests inside one window fill it, so
      the next request inside that window is denied. */
  lemma FullWindow(p: seq<int>, now: int)
    requires |p| == RateLimit && Sorted(p)
    requires Recent(p[0], now) && p[RateLimit - 1] <= now
    ensures Replay(p).window == p
    ensures Record(p, now).decision == Denied
  {
    ShortRunAdmitted(p);
    ReplayWindow(p);
    SpanRecent(p, p[RateLimit - 1]);
    PruneAllRecent(p, p[RateLimit - 1]);
    SpanRecent(p, now);
    PruneAllRecent(p, now);
  }

  /** `RateLimit` requests inside a window shorter than `RateWindow` are
      all admitted, and one more inside that window is denied. */
  lemma Burst(times: seq<int>)
    requires |times| == RateLimit + 1 && Sorted(times)
    requires Recent(times[0], times[RateLimit])
    ensures forall i :: 0 <= i < RateLimit ==> Replay(times).decisions[i] == Admitted
    ensures Replay(times).decisions[RateLimit] == Denied
  {
    var p := times[..RateLimit];
    var now := times[RateLimit];
    assert times[..|times| - 1] == p;
    SortedPrefix(times, RateLimit);
    assert p[RateLimit - 1] <= now;
    var prev := Replay(p);
    assert Replay(times).decisions == prev.decisions + [Record(prev.window, now).decision];
    ShortRunAdmitted(p);
    FullWindow(p, now);
    forall i | 0 <= i < RateLimit ensures Replay(times).decisions[i] == Admitted {
      assert Replay(times).decisions[i] == prev.decisions[i];
    }
  }
}
