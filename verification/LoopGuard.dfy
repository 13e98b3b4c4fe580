/** The per-thread loop guard: a sliding window over the allowed replies of each thread.

    Normalization, hashing, the alphanumeric count and the similarity ratio are functions of the
    configuration; times are reals. */
module LoopGuard {
  import opened Common

  const MAX_REPLIES: nat := 5
  const WINDOW_SECONDS: real := 60.0
  const MAX_LOW_VALUE: nat := 2

  datatype Config = Config(
    protocol: string -> bool,              // parses as an envelope or a report
    normalize: string -> string,
    hash: string -> nat,
    low: string -> bool,                   // at most four alphanumeric characters
    alike: (string, string) -> bool)       // ratio at least 0.85

  datatype Reason = DuplicateBody | LowValueChatter | NearDuplicateBody | RateLimit

  /** The two deques and the hash set of one thread. */
  datatype Window = Window(times: seq<real>, hashes: set<nat>, bodies: seq<string>)

  const EMPTY := Window([], {}, [])

  predicate Similar(c: Config, current: string, prior: string) {
    !c.low(current) && c.alike(current, prior)
  }

  function LowCount(c: Config, bodies: seq<string>): nat {
    if |bodies| == 0 then 0 else LowCount(c, bodies[..|bodies| - 1]) + (if c.low(bodies[|bodies| - 1]) then 1 else 0)
  }

  /** How many leading timestamps have left the window. */
  function Expired(times: seq<real>, cutoff: real): (n: nat)
    ensures n <= |times| && (forall i :: 0 <= i < n ==> times[i] <= cutoff) && (n < |times| ==> times[n] > cutoff)
  {
    if |times| > 0 && times[0] <= cutoff then 1 + Expired(times[1..], cutoff) else 0
  }

  predicate Aligned(w: Window) {
    |w.times| == |w.bodies|
  }

  function Purged(w: Window, now: real): (p: Window)
    requires Aligned(w)
    ensures Aligned(p)
  {
    var n := Expired(w.times, now - WINDOW_SECONDS);
    Window(w.times[n..], if n == |w.times| then {} else w.hashes, w.bodies[n..])
  }

  /** Why a normalized body is suppressed in a purged window, in the source's order. */
  function Refusal(c: Config, p: Window, body: string): Option<Reason> {
    if c.hash(body) in p.hashes then Some(DuplicateBody)
    else if c.low(body) && LowCount(c, p.bodies) >= MAX_LOW_VALUE then Some(LowValueChatter)
    else if exists i :: 0 <= i < |p.bodies| && Similar(c, body, p.bodies[i]) then Some(NearDuplicateBody)
    else if |p.times| >= MAX_REPLIES then Some(RateLimit)
    else None
  }

  function Evaluated(c: Config, w: Window, body: string, now: real): (v: Window)
    requires Aligned(w)
    ensures Aligned(v)
  {
    if c.protocol(body) then w
    else
      var p := Purged(w, now);
      var n := c.normalize(body);
      if Refusal(c, p, n).Some? then p else Window(p.times + [now], p.hashes + {c.hash(n)}, p.bodies + [n])
  }

  datatype GuardDecision = GuardDecision(suppressed: bool, reason: Option<Reason>)

  function DecisionOf(c: Config, w: Window, body: string, now: real): GuardDecision
    requires Aligned(w)
  {
    if c.protocol(body) then GuardDecision(false, None)
    else
      var reason := Refusal(c, Purged(w, now), c.normalize(body));
      GuardDecision(reason.Some?, reason)
  }

  /** The popping loop of `evaluate`. */
  method PurgeExpired(w: Window, now: real) returns (p: Window)
    requires Aligned(w)
    ensures p == Purged(w, now)
  {
    var cutoff := now - WINDOW_SECONDS;
    var times, bodies := w.times, w.bodies;
    ghost var n := 0;
    while |times| > 0 && times[0] <= cutoff
      invariant n + |times| == |w.times| && times == w.times[n..] && bodies == w.bodies[n..]
      invariant Expired(w.times, cutoff) == n + Expired(times, cutoff)
    {
      times, bodies := times[1..], bodies[1..];
      n := n + 1;
    }
    p := Window(times, if |times| == 0 then {} else w.hashes, bodies);
  }

  class LoopGuard {
    const config: Config
    var threads: map<string, Window>

    constructor (config: Config)
      ensures this.config == config && threads == map[] && Valid()
    {
      this.config := config;
      threads := map[];
    }

    predicate Valid()
      reads this
    {
      forall t :: t in threads ==> Aligned(threads[t])
    }

    function Of(thread: string): Window
      reads this
    {
      if thread in threads then threads[thread] else EMPTY
    }

    /** `evaluate`. */
    method Evaluate(thread: string, body: string, now: real) returns (decision: GuardDecision)
      requires Valid()
      modifies this
      ensures Valid()
      ensures decision == DecisionOf(config, old(Of(thread)), body, now)
      ensures Of(thread) == Evaluated(config, old(Of(thread)), body, now)
      ensures forall t :: t != thread ==> Of(t) == old(Of(t))
    {
      if config.protocol(body) { return GuardDecision(false, None); }
      hide Purged, Refusal;
      var purged := PurgeExpired(Of(thread), now);
      threads := threads[thread := purged];
      var normalized := config.normalize(body);
      var reason := Refusal(config, purged, normalized);
      if reason.Some? { return GuardDecision(true, reason); }
      threads := threads[thread := Window(purged.times + [now], purged.hashes + {config.hash(normalized)},
                                          purged.bodies + [normalized])];
      return GuardDecision(false, None);
    }
  }

  // ----- Histories of one thread -----

  datatype Message = Message(body: string, now: real)

  /** An allowed reply that is not a protocol message. */
  datatype Allowed = Allowed(time: real, body: string)

  datatype History = History(window: Window, log: seq<Allowed>)

  function Observe(c: Config, h: History, m: Message): History
    requires Aligned(h.window)
  {
    History(Evaluated(c, h.window, m.body, m.now),
            if c.protocol(m.body) || DecisionOf(c, h.window, m.body, m.now).suppressed then h.log
            else h.log + [Allowed(m.now, c.normalize(m.body))])
  }

  function ObserveAll(c: Config, ms: seq<Message>): (h: History)
    ensures Aligned(h.window)
    decreases |ms|
  {
    if |ms| == 0 then History(EMPTY, [])
    else Observe(c, ObserveAll(c, ms[..|ms| - 1]), ms[|ms| - 1])
  }

  predicate NonDecreasing(ms: seq<Message>) {
    forall i, j :: 0 <= i < j < |ms| ==> ms[i].now <= ms[j].now
  }

  predicate Apart(a: Allowed, b: Allowed) {
    b.time - a.time >= WINDOW_SECONDS
  }

  /** Any six replies span a whole window. */
  predicate RateHolds(log: seq<Allowed>) {
    forall i, j :: 0 <= i && i + MAX_REPLIES <= j < |log| ==> Apart(log[i], log[j])
  }

  /** Any three low-information replies span a whole window. */
  predicate LowValueHolds(c: Config, log: seq<Allowed>) {
    forall i, j, k :: 0 <= i < j < k < |log| && c.low(log[i].body) && c.low(log[j].body) && c.low(log[k].body) ==>
        Apart(log[i], log[k])
  }

  /** Equal and similar replies are a whole window apart. */
  predicate NoEcho(c: Config, log: seq<Allowed>) {
    forall i, j :: 0 <= i < j < |log| && (log[i].body == log[j].body || Similar(c, log[j].body, log[i].body)) ==>
        Apart(log[i], log[j])
  }

  /** What the guard promises about a log. */
  predicate Holds(c: Config, log: seq<Allowed>) {
    RateHolds(log) && LowValueHolds(c, log) && NoEcho(c, log)
  }

  /** The window holds the replies of the log from position `cut` on. */
  predicate Matches(log: seq<Allowed>, cut: nat, w: Window) {
    && Aligned(w) && cut + |w.times| == |log|
    && forall i :: cut <= i < |log| ==> log[i].time == w.times[i - cut] && log[i].body == w.bodies[i - cut]
  }

  function Cut(h: History): int {
    |h.log| - |h.window.times|
  }

  predicate Ordered(log: seq<Allowed>, last: real) {
    && (forall i, j :: 0 <= i < j < |log| ==> log[i].time <= log[j].time)
    && (forall i :: 0 <= i < |log| ==> log[i].time <= last)
  }

  /** The window is the end of the log, and what fell out of it is old. */
  predicate Tracks(c: Config, h: History, last: real) {
    && Cut(h) >= 0 && Matches(h.log, Cut(h), h.window) && Ordered(h.log, last)
    && (forall i :: 0 <= i < Cut(h) ==> h.log[i].time <= last - WINDOW_SECONDS)
    && (forall i :: 0 <= i < |h.window.bodies| ==> c.hash(h.window.bodies[i]) in h.window.hashes)
  }

  /** Purging keeps track. */
  lemma PurgeTracks(c: Config, h: History, last: real, now: real)
    requires Tracks(c, h, last) && last <= now
    ensures Tracks(c, h.(window := Purged(h.window, now)), now)
  {
    assert Ordered(h.log, now);
    hide Ordered;
    var w, log, cut := h.window, h.log, Cut(h);
    var p, n := Purged(w, now), Expired(w.times, now - WINDOW_SECONDS);
    assert Matches(log, cut + n, p) by {
      forall i | cut + n <= i < |log|
        ensures log[i].time == p.times[i - (cut + n)] && log[i].body == p.bodies[i - (cut + n)]
      {
        assert p.times[i - (cut + n)] == w.times[i - cut] && p.bodies[i - (cut + n)] == w.bodies[i - cut];
      }
    }
    forall i | 0 <= i < cut + n
      ensures log[i].time <= now - WINDOW_SECONDS
    {
      if i >= cut { assert log[i].time == w.times[i - cut]; }
    }
  }

  lemma {:induction false} LowCountSnoc(c: Config, bodies: seq<string>, a: nat, b: nat)
    requires a < b < |bodies| && c.low(bodies[a]) && c.low(bodies[b])
    ensures LowCount(c, bodies) >= 2
  {
    var n := |bodies| - 1;
    if b < n {
      LowCountSnoc(c, bodies[..n], a, b);
    } else {
      LowCountPositive(c, bodies[..n], a);
    }
  }

  lemma {:induction false} LowCountPositive(c: Config, bodies: seq<string>, a: nat)
    requires a < |bodies| && c.low(bodies[a])
    ensures LowCount(c, bodies) >= 1
  {
    var n := |bodies| - 1;
    if a < n { LowCountPositive(c, bodies[..n], a); }
  }

  /** The reply at position `i` of the log has left the window, or its body stands in it. */
  lemma InWindow(c: Config, h: History, now: real, i: nat)
    requires Tracks(c, h, now) && i < |h.log|
    ensures i < Cut(h) ==> h.log[i].time <= now - WINDOW_SECONDS
    ensures i >= Cut(h) ==> i - Cut(h) < |h.window.bodies| && h.window.bodies[i - Cut(h)] == h.log[i].body
                            && c.hash(h.log[i].body) in h.window.hashes
  {
  }

  /** A reply that is not refused keeps all three promises. */
  lemma AllowedHolds(c: Config, h: History, now: real, body: string)
    requires Tracks(c, h, now) && Holds(c, h.log) && Refusal(c, h.window, body).None?
    ensures Holds(c, h.log + [Allowed(now, body)])
  {
    assert Aligned(h.window) && Cut(h) >= 0;
    hide Tracks, LowCount;
    var n, cut := |h.log|, Cut(h);
    var log, reply := h.log + [Allowed(now, body)], Allowed(now, body);
    forall i | 0 <= i && i + MAX_REPLIES <= n
      ensures Apart(log[i], reply)
    {
      InWindow(c, h, now, i);
    }
    forall i, j | 0 <= i < j < n && c.low(log[i].body) && c.low(log[j].body) && c.low(body)
      ensures Apart(log[i], reply)
    {
      InWindow(c, h, now, i);
      InWindow(c, h, now, j);
      if i >= cut { LowCountSnoc(c, h.window.bodies, i - cut, j - cut); }
    }
    forall i | 0 <= i < n && (log[i].body == body || Similar(c, body, log[i].body))
      ensures Apart(log[i], reply)
    {
      InWindow(c, h, now, i);
    }
  }

  lemma AllowedTracks(c: Config, h: History, now: real, body: string)
    requires Tracks(c, h, now)
    ensures var w := h.window;
            Tracks(c, History(Window(w.times + [now], w.hashes + {c.hash(body)}, w.bodies + [body]),
                              h.log + [Allowed(now, body)]), now)
  {
  }

  lemma ObservingNothing(c: Config, last: real)
    ensures Tracks(c, History(EMPTY, []), last) && Holds(c, [])
  {
  }

  lemma {:induction false} Observing(c: Config, ms: seq<Message>, last: real)
    requires NonDecreasing(ms) && forall m :: m in ms ==> m.now <= last
    ensures Tracks(c, ObserveAll(c, ms), last) && Holds(c, ObserveAll(c, ms).log)
    decreases |ms|
  {
    hide Tracks, Holds, Purged, Refusal;
    if |ms| == 0 {
      ObservingNothing(c, last);
    } else {
      var n := |ms| - 1;
      var m, before := ms[n], ObserveAll(c, ms[..n]);
      forall k | k in ms[..n]
        ensures k.now <= m.now
      {
        var i :| 0 <= i < n && ms[i] == k;
      }
      Observing(c, ms[..n], m.now);
      TracksLater(c, before, m.now, last);
      if !c.protocol(m.body) {
        PurgeTracks(c, before, m.now, m.now);
        var p := before.(window := Purged(before.window, m.now));
        TracksLater(c, p, m.now, last);
        var body := c.normalize(m.body);
        if Refusal(c, p.window, body).None? {
          AllowedHolds(c, p, m.now, body);
          AllowedTracks(c, p, m.now, body);
          TracksLater(c, ObserveAll(c, ms), m.now, last);
        }
      }
    }
  }

  lemma TracksLater(c: Config, h: History, now: real, last: real)
    requires Tracks(c, h, now) && now <= last
    ensures Tracks(c, h, last)
  {
  }

  /** For every history whose clock never goes back, each window of sixty seconds holds at most five
      allowed replies and two low-information ones, and no echo. */
  lemma GuardHolds(c: Config, ms: seq<Message>)
    requires NonDecreasing(ms)
    ensures Holds(c, ObserveAll(c, ms).log)
  {
    hide Holds, Tracks;
    if |ms| == 0 {
      ObservingNothing(c, 0.0);
    } else {
      forall m | m in ms
        ensures m.now <= ms[|ms| - 1].now
      {
        var i :| 0 <= i < |ms| && ms[i] == m;
      }
      Observing(c, ms, ms[|ms| - 1].now);
    }
  }

  // ----- What the promise needs, and what it costs -----

  /** Seven bodies that nothing but the rate limit would refuse. */
  predicate Quiet(c: Config, b: nat -> string) {
    forall i, j :: 0 <= i < 7 && 0 <= j < 7 ==>
      && !c.protocol(b(i)) && !c.low(c.normalize(b(i)))
      && (i != j ==>
          c.hash(c.normalize(b(i))) != c.hash(c.normalize(b(j)))
          && !c.alike(c.normalize(b(i)), c.normalize(b(j))))
  }

  /** A configuration in which a body is only like itself, and bodies of growing length. */
  function PlainConfig(): Config {
    Config((body: string) => false, (body: string) => body, (body: string) => |body|, (body: string) => false,
           (a: string, b: string) => a == b)
  }

  function Repeated(n: nat): (body: string)
    ensures |body| == n
  {
    seq(n, (i: nat) => 'a')
  }

  /** There are such bodies. */
  lemma PlainConfigIsQuiet()
    ensures Quiet(PlainConfig(), Repeated)
  {
  }

  /** The window after the first `k` bodies, of which the last `size` are still in it. */
  predicate Holding(c: Config, b: nat -> string, w: Window, k: nat, size: nat) {
    && size <= k && Aligned(w) && |w.times| == size
    && (forall i :: 0 <= i < size ==> w.bodies[i] == c.normalize(b(k - size + i)))
    && (forall x :: x in w.hashes ==> exists j: nat :: j < k && x == c.hash(c.normalize(b(j))))
  }

  lemma QuietAllowed(c: Config, b: nat -> string, w: Window, k: nat, size: nat)
    requires Quiet(c, b) && Holding(c, b, w, k, size) && k < 7 && size < MAX_REPLIES
    ensures Refusal(c, w, c.normalize(b(k))).None?
  {
    forall i | 0 <= i < size
      ensures !Similar(c, c.normalize(b(k)), w.bodies[i])
    {
      assert !c.alike(c.normalize(b(k)), c.normalize(b(k - size + i)));
    }
  }

  lemma PurgeNothing(w: Window, now: real)
    requires Aligned(w) && |w.times| > 0 && w.times[0] > now - WINDOW_SECONDS
    ensures Purged(w, now) == w
  {
  }

  lemma PurgeAll(w: Window, now: real)
    requires Aligned(w) && forall i :: 0 <= i < |w.times| ==> w.times[i] <= now - WINDOW_SECONDS
    ensures Purged(w, now) == EMPTY
  {
  }

  /** A quiet body is allowed whenever fewer than five replies are left in the window. */
  lemma QuietStep(c: Config, b: nat -> string, h: History, k: nat, size: nat, now: real)
    requires Aligned(h.window) && Quiet(c, b) && Holding(c, b, Purged(h.window, now), k, size) && k < 7
             && size < MAX_REPLIES
    ensures var p, next := Purged(h.window, now), Observe(c, h, Message(b(k), now));
            && next.log == h.log + [Allowed(now, c.normalize(b(k)))]
            && next.window.times == p.times + [now] && Holding(c, b, next.window, k + 1, size + 1)
  {
    hide Purged, Refusal;
    QuietAllowed(c, b, Purged(h.window, now), k, size);
    assert !c.protocol(b(k));
  }

  /** Message `k` of seven: five at time zero, one a window later, and one `step` before that. */
  function Backward(b: nat -> string, step: real, k: nat): Message {
    Message(b(k), if k < 5 then 0.0 else if k == 5 then WINDOW_SECONDS else WINDOW_SECONDS - step)
  }

  function BackwardRun(b: nat -> string, step: real, k: nat): (ms: seq<Message>)
    ensures |ms| == k
  {
    if k == 0 then [] else BackwardRun(b, step, k - 1) + [Backward(b, step, k - 1)]
  }

  lemma BackwardSnoc(c: Config, b: nat -> string, step: real, k: nat)
    ensures ObserveAll(c, BackwardRun(b, step, k + 1))
            == Observe(c, ObserveAll(c, BackwardRun(b, step, k)), Backward(b, step, k))
  {
    var ms := BackwardRun(b, step, k + 1);
    assert ms[..|ms| - 1] == BackwardRun(b, step, k);
  }

  lemma BackwardStart(c: Config, b: nat -> string, step: real)
    ensures Holding(c, b, EMPTY, 0, 0) && ObserveAll(c, BackwardRun(b, step, 0)) == History(EMPTY, [])
  {
  }

  lemma {:induction false} BackwardLog(c: Config, b: nat -> string, step: real, k: nat)
    requires Quiet(c, b) && k <= 5
    ensures var h := ObserveAll(c, BackwardRun(b, step, k));
            && |h.log| == k && Holding(c, b, h.window, k, k) && |h.window.times| == k
            && (forall i :: 0 <= i < k ==> h.log[i].time == 0.0)
            && (forall i :: 0 <= i < k ==> h.window.times[i] == 0.0)
  {
    BackwardStart(c, b, step);
    hide Quiet, Purged, ObserveAll, Observe, Holding;
    if k > 0 {
      BackwardLog(c, b, step, k - 1);
      var h := ObserveAll(c, BackwardRun(b, step, k - 1));
      BackwardSnoc(c, b, step, k - 1);
      if k == 1 {
        PurgeAll(h.window, 0.0);
      } else {
        PurgeNothing(h.window, 0.0);
      }
      QuietStep(c, b, h, k - 1, k - 1, 0.0);
    }
  }

  /** No step back of the clock is harmless: however small it is, there is a history with this one
      step back in which six replies fall into less than a window. */
  lemma ClockMustNotGoBack(c: Config, b: nat -> string, step: real)
    requires Quiet(c, b) && step > 0.0
    ensures NonDecreasing(BackwardRun(b, step, 6))
    ensures BackwardRun(b, step, 7)[..6] == BackwardRun(b, step, 6)
    ensures BackwardRun(b, step, 7)[6].now == BackwardRun(b, step, 7)[5].now - step
    ensures !RateHolds(ObserveAll(c, BackwardRun(b, step, 7)).log)
  {
    BackwardTimes(b, step);
    hide Quiet, Purged, ObserveAll, Observe, NonDecreasing, BackwardRun;
    BackwardLog(c, b, step, 5);
    var h5 := ObserveAll(c, BackwardRun(b, step, 5));
    BackwardSnoc(c, b, step, 5);
    PurgeAll(h5.window, WINDOW_SECONDS);
    assert Holding(c, b, EMPTY, 5, 0);
    QuietStep(c, b, h5, 5, 0, WINDOW_SECONDS);
    var h6 := ObserveAll(c, BackwardRun(b, step, 6));
    BackwardSnoc(c, b, step, 6);
    PurgeNothing(h6.window, WINDOW_SECONDS - step);
    QuietStep(c, b, h6, 6, 1, WINDOW_SECONDS - step);
    var log := ObserveAll(c, BackwardRun(b, step, 7)).log;
    assert log[0].time == 0.0 && log[6].time == WINDOW_SECONDS - step && !Apart(log[0], log[6]);
  }

  lemma BackwardTimes(b: nat -> string, step: real)
    ensures NonDecreasing(BackwardRun(b, step, 6))
    ensures BackwardRun(b, step, 7)[..6] == BackwardRun(b, step, 6)
    ensures BackwardRun(b, step, 7)[6].now == BackwardRun(b, step, 7)[5].now - step
  {
    BackwardAt(b, step, 6);
    BackwardAt(b, step, 7);
  }

  lemma {:induction false} BackwardAt(b: nat -> string, step: real, k: nat)
    ensures forall i :: 0 <= i < k ==> BackwardRun(b, step, k)[i] == Backward(b, step, i)
  {
    if k > 0 { BackwardAt(b, step, k - 1); }
  }

  // ----- Exactly what is refused -----

  lemma {:induction false} TwoLow(c: Config, bodies: seq<string>)
    ensures LowCount(c, bodies) >= 1 <==> exists a :: 0 <= a < |bodies| && c.low(bodies[a])
    ensures LowCount(c, bodies) >= 2 <==> exists a, b :: 0 <= a < b < |bodies| && c.low(bodies[a]) && c.low(bodies[b])
  {
    if |bodies| > 0 {
      var n := |bodies| - 1;
      TwoLow(c, bodies[..n]);
      forall a | 0 <= a < |bodies| && c.low(bodies[a]) ensures LowCount(c, bodies) >= 1 {
        LowCountPositive(c, bodies, a);
      }
      forall a, b | 0 <= a < b < |bodies| && c.low(bodies[a]) && c.low(bodies[b]) ensures LowCount(c, bodies) >= 2 {
        LowCountSnoc(c, bodies, a, b);
      }
      if LowCount(c, bodies[..n]) >= 1 {
        var a :| 0 <= a < n && c.low(bodies[..n][a]);
        assert c.low(bodies[a]);
        if LowCount(c, bodies[..n]) >= 2 {
          var x, y :| 0 <= x < y < n && c.low(bodies[..n][x]) && c.low(bodies[..n][y]);
          assert c.low(bodies[x]) && c.low(bodies[y]);
        }
      }
    }
  }

  /** A body is let through a window exactly when its hash is unknown, it is no third
      low-information body, nothing in the window is similar, and fewer than five replies are left. */
  lemma RefusedExactly(c: Config, w: Window, body: string)
    requires Aligned(w)
    ensures Refusal(c, w, body).None? <==>
              && c.hash(body) !in w.hashes
              && !(c.low(body) && exists i, j :: 0 <= i < j < |w.bodies| && c.low(w.bodies[i]) && c.low(w.bodies[j]))
              && (forall i :: 0 <= i < |w.bodies| ==> !Similar(c, body, w.bodies[i]))
              && |w.times| < MAX_REPLIES
  {
    TwoLow(c, w.bodies);
  }

  /** The message at position `i` of a history goes to the window. */
  predicate Guarded(c: Config, ms: seq<Message>, i: nat)
    requires i < |ms|
  {
    !c.protocol(ms[i].body)
  }

  /** The message at position `i` was let through. */
  predicate Passed(c: Config, ms: seq<Message>, i: nat)
    requires i < |ms|
  {
    Guarded(c, ms, i) && !DecisionOf(c, ObserveAll(c, ms[..i]).window, ms[i].body, ms[i].now).suppressed
  }

  /** When message `i` arrives, every reply so far is at least a window old. */
  predicate RunsEmpty(c: Config, ms: seq<Message>, i: nat)
    requires i < |ms|
  {
    forall r :: r in ObserveAll(c, ms[..i]).log ==> r.time <= ms[i].now - WINDOW_SECONDS
  }

  /** The thread has not run empty from after message `k` to before message `n`. */
  predicate StaysFilled(c: Config, ms: seq<Message>, k: nat, n: nat)
    requires n <= |ms|
  {
    forall i :: k < i < n && Guarded(c, ms, i) ==> !RunsEmpty(c, ms, i)
  }

  /** Some reply with this hash was let through before message `n`, and the thread has not run
      empty since. */
  predicate Remembered(c: Config, ms: seq<Message>, n: nat, hash: nat)
    requires n <= |ms|
  {
    exists k :: 0 <= k < n && Passed(c, ms, k) && c.hash(c.normalize(ms[k].body)) == hash && StaysFilled(c, ms, k, n)
  }

  /** The purge empties the window exactly when every reply so far is old. */
  lemma EmptiesExactly(c: Config, h: History, now: real)
    requires Tracks(c, h, now)
    ensures |Purged(h.window, now).times| == 0 <==> forall r :: r in h.log ==> r.time <= now - WINDOW_SECONDS
  {
    PurgeTracks(c, h, now, now);
    var p := h.(window := Purged(h.window, now));
    if |p.window.times| > 0 {
      var last := h.log[|h.log| - 1];
      assert last.time == p.window.times[|p.window.times| - 1];
      assert p.window.times[0] > now - WINDOW_SECONDS;
      assert h.log[Cut(p)].time == p.window.times[0] && h.log[Cut(p)] in h.log;
    }
  }

  lemma TracksBefore(c: Config, ms: seq<Message>, i: nat)
    requires NonDecreasing(ms) && i < |ms|
    ensures Tracks(c, ObserveAll(c, ms[..i]), ms[i].now)
  {
    hide Tracks, Holds;
    forall m | m in ms[..i] ensures m.now <= ms[i].now {
      var j :| 0 <= j < i && ms[j] == m;
    }
    Observing(c, ms[..i], ms[i].now);
  }

  /** What one message does to the remembered hashes. */
  lemma HashesStep(c: Config, w: Window, body: string, now: real, hash: nat)
    requires Aligned(w) && !c.protocol(body)
    ensures hash in Evaluated(c, w, body, now).hashes <==>
              || (hash in w.hashes && |Purged(w, now).times| > 0)
              || (!DecisionOf(c, w, body, now).suppressed && hash == c.hash(c.normalize(body)))
  {
    hide Refusal;
  }

  lemma ObserveSnoc(c: Config, ms: seq<Message>, n: nat)
    requires n < |ms|
    ensures ObserveAll(c, ms[..n + 1]) == Observe(c, ObserveAll(c, ms[..n]), ms[n])
  {
    assert ms[..n + 1][..n] == ms[..n];
  }

  lemma RememberedStep(c: Config, ms: seq<Message>, n: nat, hash: nat)
    requires n < |ms|
    ensures Remembered(c, ms, n + 1, hash) <==>
              || (Passed(c, ms, n) && c.hash(c.normalize(ms[n].body)) == hash)
              || (Remembered(c, ms, n, hash) && (Guarded(c, ms, n) ==> !RunsEmpty(c, ms, n)))
  {
    hide Passed, Guarded, RunsEmpty;
    if Passed(c, ms, n) && c.hash(c.normalize(ms[n].body)) == hash {
      assert StaysFilled(c, ms, n, n + 1);
    }
    if Remembered(c, ms, n, hash) && (Guarded(c, ms, n) ==> !RunsEmpty(c, ms, n)) {
      var k :| 0 <= k < n && Passed(c, ms, k) && c.hash(c.normalize(ms[k].body)) == hash && StaysFilled(c, ms, k, n);
      assert StaysFilled(c, ms, k, n + 1);
    }
    if Remembered(c, ms, n + 1, hash) {
      var k :| 0 <= k < n + 1 && Passed(c, ms, k) && c.hash(c.normalize(ms[k].body)) == hash
               && StaysFilled(c, ms, k, n + 1);
      assert k < n ==> StaysFilled(c, ms, k, n);
    }
  }

  /** The guard knows exactly the hashes of the replies since the thread last ran empty. */
  lemma {:induction false} HashesExactly(c: Config, ms: seq<Message>, n: nat, hash: nat)
    requires NonDecreasing(ms) && n <= |ms|
    ensures hash in ObserveAll(c, ms[..n]).window.hashes <==> Remembered(c, ms, n, hash)
  {
    hide NonDecreasing, Remembered, Purged, Tracks, Evaluated, DecisionOf;
    if n == 0 {
      NothingRemembered(c, ms, hash);
    } else {
      var i := n - 1;
      HashesExactly(c, ms, i, hash);
      RememberedStep(c, ms, i, hash);
      ObserveSnoc(c, ms, i);
      if Guarded(c, ms, i) {
        TracksBefore(c, ms, i);
        EmptiesExactly(c, ObserveAll(c, ms[..i]), ms[i].now);
        HashesStep(c, ObserveAll(c, ms[..i]).window, ms[i].body, ms[i].now, hash);
      } else {
        ProtocolKeepsWindow(c, ObserveAll(c, ms[..i]), ms[i]);
      }
    }
  }

  lemma ProtocolKeepsWindow(c: Config, h: History, m: Message)
    requires Aligned(h.window) && c.protocol(m.body)
    ensures Observe(c, h, m) == h
  {
  }

  lemma NothingRemembered(c: Config, ms: seq<Message>, hash: nat)
    ensures !Remembered(c, ms, 0, hash) && hash !in ObserveAll(c, ms[..0]).window.hashes
  {
  }

  lemma PurgedHashes(w: Window, now: real, hash: nat)
    requires Aligned(w)
    ensures hash in Purged(w, now).hashes <==> hash in w.hashes && |Purged(w, now).times| > 0
  {
  }

  /** A body is refused as a duplicate if and only if a reply with its hash was let through and the
      thread has not run empty since, however long ago that reply was. */
  lemma DuplicateExactly(c: Config, ms: seq<Message>, n: nat)
    requires NonDecreasing(ms) && n < |ms| && Guarded(c, ms, n)
    ensures DecisionOf(c, ObserveAll(c, ms[..n]).window, ms[n].body, ms[n].now).reason == Some(DuplicateBody)
            <==> Remembered(c, ms, n, c.hash(c.normalize(ms[n].body))) && !RunsEmpty(c, ms, n)
  {
    hide NonDecreasing, Remembered, Purged, Tracks;
    var h, hash := ObserveAll(c, ms[..n]), c.hash(c.normalize(ms[n].body));
    HashesExactly(c, ms, n, hash);
    TracksBefore(c, ms, n);
    EmptiesExactly(c, h, ms[n].now);
    PurgedHashes(h.window, ms[n].now, hash);
  }

  /** Each refusal that is not for a duplicate prevents a broken promise. */
  lemma RefusalPrevents(c: Config, h: History, now: real, body: string)
    requires Tracks(c, h, now) && Tight(h, now)
    requires Refusal(c, h.window, body).Some? && c.hash(body) !in h.window.hashes
    ensures !Holds(c, h.log + [Allowed(now, body)])
  {
    assert Aligned(h.window) && Cut(h) >= 0 && |h.window.times| == |h.log| - Cut(h);
    RefusedExactly(c, h.window, body);
    hide Tracks, Refusal, Tight;
    var n, cut := |h.log|, Cut(h);
    var log, reply := h.log + [Allowed(now, body)], Allowed(now, body);
    assert log[n] == reply;
    forall i | cut <= i < n ensures !Apart(log[i], reply) && h.window.bodies[i - cut] == log[i].body {
      Recent(c, h, now, i);
      assert log[i] == h.log[i];
    }
    if |h.window.times| >= MAX_REPLIES {
      assert !Apart(log[n - MAX_REPLIES], log[n]);
    } else if i, j :| 0 <= i < j < |h.window.bodies| && c.low(h.window.bodies[i]) && c.low(h.window.bodies[j])
                      && c.low(body) {
      assert !Apart(log[cut + i], reply) && h.window.bodies[cut + i - cut] == log[cut + i].body;
      assert h.window.bodies[cut + j - cut] == log[cut + j].body;
      assert !LowValueHolds(c, log);
    } else {
      var i :| 0 <= i < |h.window.bodies| && Similar(c, body, h.window.bodies[i]);
      assert !Apart(log[cut + i], reply) && h.window.bodies[cut + i - cut] == log[cut + i].body;
      assert !NoEcho(c, log);
    }
  }

  /** Whatever is left in the window is less than a window old. */
  predicate Tight(h: History, now: real) {
    forall i :: 0 <= i < |h.window.times| ==> h.window.times[i] > now - WINDOW_SECONDS
  }

  lemma Recent(c: Config, h: History, now: real, i: nat)
    requires Tracks(c, h, now) && Tight(h, now) && Cut(h) <= i < |h.log|
    ensures !Apart(h.log[i], Allowed(now, "")) && i - Cut(h) < |h.window.bodies|
    ensures h.window.bodies[i - Cut(h)] == h.log[i].body
  {
    assert h.log[i].time == h.window.times[i - Cut(h)];
  }

  lemma PurgeTight(c: Config, h: History, now: real)
    requires Tracks(c, h, now)
    ensures Tight(h.(window := Purged(h.window, now)), now)
  {
    PurgeTracks(c, h, now, now);
    var p := h.(window := Purged(h.window, now));
    forall i | 0 <= i < |p.window.times| ensures p.window.times[i] > now - WINDOW_SECONDS {
      assert p.window.times[0] > now - WINDOW_SECONDS;
      assert h.log[Cut(p)].time == p.window.times[0] && h.log[Cut(p) + i].time == p.window.times[i];
    }
  }

  /** The guard refuses nothing else: for every history whose clock never goes back, a message is let
      through if and only if the replies with it added keep every promise and its body is not
      remembered. */
  lemma PassedExactly(c: Config, ms: seq<Message>, n: nat)
    requires NonDecreasing(ms) && n < |ms| && Guarded(c, ms, n)
    ensures var body := c.normalize(ms[n].body);
            Passed(c, ms, n) <==>
              && Holds(c, ObserveAll(c, ms[..n]).log + [Allowed(ms[n].now, body)])
              && !(Remembered(c, ms, n, c.hash(body)) && !RunsEmpty(c, ms, n))
  {
    var h, now, body := ObserveAll(c, ms[..n]), ms[n].now, c.normalize(ms[n].body);
    var p := h.(window := Purged(h.window, now));
    assert Passed(c, ms, n) <==> Refusal(c, p.window, body).None?;
    assert DecisionOf(c, h.window, ms[n].body, now).reason == Refusal(c, p.window, body);
    hide NonDecreasing, Remembered, RunsEmpty, Purged, Tracks, Holds, Tight, Passed, DecisionOf;
    DuplicateExactly(c, ms, n);
    TracksBefore(c, ms, n);
    HoldsBefore(c, ms, n);
    PurgeTracks(c, h, now, now);
    PurgeTight(c, h, now);
    if Refusal(c, p.window, body).None? {
      AllowedHolds(c, p, now, body);
    } else if c.hash(body) !in p.window.hashes {
      RefusalPrevents(c, p, now, body);
    }
  }

  lemma HoldsBefore(c: Config, ms: seq<Message>, n: nat)
    requires NonDecreasing(ms) && n <= |ms|
    ensures Holds(c, ObserveAll(c, ms[..n]).log)
  {
    hide Holds;
    GuardHolds(c, ms[..n]);
  }

  /** A reply, another one forty seconds later, and the first body again after seventy seconds. */
  function EchoRun(b: nat -> string): seq<Message> {
    [Message(b(0), 0.0), Message(b(1), 40.0), Message(b(0), 70.0)]
  }

  lemma EchoFirst(c: Config, b: nat -> string)
    requires Quiet(c, b)
    ensures var h, body := ObserveAll(c, EchoRun(b)[..1]), c.normalize(b(0));
            && h == History(Window([0.0], {c.hash(body)}, [body]), [Allowed(0.0, body)])
            && Holding(c, b, h.window, 1, 1)
  {
    assert EchoRun(b)[..0] == [];
    assert Holding(c, b, EMPTY, 0, 0);
    ObserveSnoc(c, EchoRun(b), 0);
    PurgeAll(EMPTY, 0.0);
    QuietStep(c, b, History(EMPTY, []), 0, 0, 0.0);
  }

  lemma EchoStart(c: Config, b: nat -> string)
    requires Quiet(c, b)
    ensures var h := ObserveAll(c, EchoRun(b)[..2]);
            && h.log == [Allowed(0.0, c.normalize(b(0))), Allowed(40.0, c.normalize(b(1)))]
            && h.window.times == [0.0, 40.0] && c.hash(c.normalize(b(0))) in h.window.hashes
            && |h.window.bodies| == 2
  {
    EchoFirst(c, b);
    ObserveSnoc(c, EchoRun(b), 1);
    var h := ObserveAll(c, EchoRun(b)[..1]);
    PurgeNothing(h.window, 40.0);
    QuietStep(c, b, h, 1, 1, 40.0);
    HashesStep(c, h.window, b(1), 40.0, c.hash(c.normalize(b(0))));
    hide Quiet, Holding, Purged, Refusal;
  }

  /** A duplicate outlives the window: this reply is refused although the only earlier use of its
      body is seventy seconds old and letting it through would break no promise. */
  lemma DuplicateOutlivesWindow(c: Config, b: nat -> string)
    requires Quiet(c, b)
    ensures var ms := EchoRun(b);
            var h, third := ObserveAll(c, ms[..2]), Allowed(70.0, c.normalize(b(0)));
            && (forall r :: r in h.log && r.body == third.body ==> Apart(r, third))
            && Holds(c, h.log + [third])
            && DecisionOf(c, h.window, ms[2].body, ms[2].now).reason == Some(DuplicateBody)
  {
    EchoStart(c, b);
    var ms := EchoRun(b);
    var h := ObserveAll(c, ms[..2]);
    assert Expired(h.window.times, 10.0) == 1 by {
      assert h.window.times[1..] == [40.0];
    }
    assert c.normalize(b(0)) != c.normalize(b(1));
  }
}
