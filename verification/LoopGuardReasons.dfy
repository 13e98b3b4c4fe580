/** Why the loop guard refuses a message: each reason stands for the promise that the reply would break. */
module LoopGuardReasons {
  import opened Common
  import opened LoopGuard

  /** The reply is similar to none of less than a window ago. */
  predicate NothingAlike(c: Config, log: seq<Allowed>, reply: Allowed) {
    forall i :: 0 <= i < |log| && Similar(c, reply.body, log[i].body) ==> Apart(log[i], reply)
  }

  /** With the reply, no three low-information replies fall into one window. */
  predicate LowValueKept(c: Config, log: seq<Allowed>, reply: Allowed) {
    forall i, j :: 0 <= i < j < |log| && c.low(log[i].body) && c.low(log[j].body) && c.low(reply.body) ==>
        Apart(log[i], reply)
  }

  /** With the reply, no six replies fall into one window. */
  predicate RateKept(log: seq<Allowed>, reply: Allowed) {
    forall i :: 0 <= i <= |log| - MAX_REPLIES ==> Apart(log[i], reply)
  }

  lemma RateExactly(c: Config, h: History, now: real, body: string)
    requires Tracks(c, h, now) && Tight(h, now)
    ensures RateKept(h.log, Allowed(now, body)) <==> |h.window.times| < MAX_REPLIES
  {
    assert Cut(h) >= 0 && Aligned(h.window);
    var n := |h.log|;
    if |h.window.times| >= MAX_REPLIES {
      Recent(c, h, now, n - MAX_REPLIES);
      assert !Apart(h.log[n - MAX_REPLIES], Allowed(now, body));
    } else {
      hide Tracks;
      forall i | 0 <= i <= n - MAX_REPLIES ensures Apart(h.log[i], Allowed(now, body)) {
        InWindow(c, h, now, i);
      }
    }
  }

  lemma AlikeExactly(c: Config, h: History, now: real, body: string)
    requires Tracks(c, h, now) && Tight(h, now)
    ensures NothingAlike(c, h.log, Allowed(now, body)) <==>
              forall i :: 0 <= i < |h.window.bodies| ==> !Similar(c, body, h.window.bodies[i])
  {
    assert Cut(h) >= 0 && Aligned(h.window);
    var cut := Cut(h);
    forall i | 0 <= i < |h.log|
      ensures if i < cut then Apart(h.log[i], Allowed(now, body))
              else i - cut < |h.window.bodies| && h.window.bodies[i - cut] == h.log[i].body
                   && !Apart(h.log[i], Allowed(now, body))
    {
      InWindow(c, h, now, i);
      if i >= cut { Recent(c, h, now, i); }
    }
    hide Tracks, Tight, Similar;
    if i :| 0 <= i < |h.window.bodies| && Similar(c, body, h.window.bodies[i]) {
      assert !Apart(h.log[cut + i], Allowed(now, body)) && h.window.bodies[cut + i - cut] == h.log[cut + i].body;
    }
  }

  lemma LowExactly(c: Config, h: History, now: real, body: string)
    requires Tracks(c, h, now) && Tight(h, now)
    ensures LowValueKept(c, h.log, Allowed(now, body)) <==>
              !(c.low(body) && LowCount(c, h.window.bodies) >= MAX_LOW_VALUE)
  {
    assert Cut(h) >= 0 && Aligned(h.window);
    TwoLow(c, h.window.bodies);
    var cut, bodies := Cut(h), h.window.bodies;
    forall i | 0 <= i < |h.log|
      ensures if i < cut then Apart(h.log[i], Allowed(now, body))
              else i - cut < |bodies| && bodies[i - cut] == h.log[i].body && !Apart(h.log[i], Allowed(now, body))
    {
      InWindow(c, h, now, i);
      if i >= cut { Recent(c, h, now, i); }
    }
    assert |h.log| == cut + |bodies|;
    hide Tracks, Tight, LowCount;
    if i, j :| 0 <= i < j < |bodies| && c.low(bodies[i]) && c.low(bodies[j]) && c.low(body) {
      assert bodies[cut + i - cut] == h.log[cut + i].body && bodies[cut + j - cut] == h.log[cut + j].body;
      assert !Apart(h.log[cut + i], Allowed(now, body));
    }
  }

  /** The guard names the first promise that the reply would break: after duplicates, which are remembered
      until the thread runs empty, the limit of low-information replies, then similarity, then the rate.
      For every history whose clock never goes back. */
  lemma ReasonsExactly(c: Config, ms: seq<Message>, n: nat)
    requires NonDecreasing(ms) && n < |ms| && Guarded(c, ms, n)
    ensures var h, reply := ObserveAll(c, ms[..n]), Allowed(ms[n].now, c.normalize(ms[n].body));
            var d := DecisionOf(c, h.window, ms[n].body, ms[n].now);
            && (d.suppressed <==> d.reason.Some?)
            && d.reason == if Remembered(c, ms, n, c.hash(reply.body)) && !RunsEmpty(c, ms, n) then Some(DuplicateBody)
                           else if !LowValueKept(c, h.log, reply) then Some(LowValueChatter)
                           else if !NothingAlike(c, h.log, reply) then Some(NearDuplicateBody)
                           else if !RateKept(h.log, reply) then Some(RateLimit)
                           else None
  {
    var h, now, body := ObserveAll(c, ms[..n]), ms[n].now, c.normalize(ms[n].body);
    var p := h.(window := Purged(h.window, now));
    assert DecisionOf(c, h.window, ms[n].body, now).reason == Refusal(c, p.window, body);
    DuplicateExactly(c, ms, n);
    TracksBefore(c, ms, n);
    PurgeTracks(c, h, now, now);
    PurgeTight(c, h, now);
    LowExactly(c, p, now, body);
    AlikeExactly(c, p, now, body);
    RateExactly(c, p, now, body);
    hide NonDecreasing, Remembered, RunsEmpty, Purged, Tracks, Tight, LowValueKept, NothingAlike, RateKept, LowCount;
  }

  /** A protocol message is let through and leaves the thread as it was. */
  lemma ProtocolPasses(c: Config, ms: seq<Message>, n: nat)
    requires n < |ms| && c.protocol(ms[n].body)
    ensures DecisionOf(c, ObserveAll(c, ms[..n]).window, ms[n].body, ms[n].now) == GuardDecision(false, None)
    ensures ObserveAll(c, ms[..n + 1]) == ObserveAll(c, ms[..n])
  {
    ObserveSnoc(c, ms, n);
    ProtocolKeepsWindow(c, ObserveAll(c, ms[..n]), ms[n]);
  }
}
