/** What the verdict of one producer call says about the effects it performed. */
module ApprovalVerdicts {
  import opened Common
  import opened ApprovalProtocol

  // ----- Reading a trace -----

  /** The probes of a trace, in order. */
  function ProbesOf(trace: seq<Effect>): seq<Seen> {
    if trace == [] then []
    else
      var e := trace[|trace| - 1];
      ProbesOf(trace[..|trace| - 1]) + (if e.Probed? then [Seen(e.request, e.probe)] else [])
  }

  /** The requests whose records were dropped, in order. */
  function DropsOf(trace: seq<Effect>): seq<Request> {
    if trace == [] then []
    else
      var e := trace[|trace| - 1];
      DropsOf(trace[..|trace| - 1]) + (if e.Dropped? then [e.request] else [])
  }

  lemma Snoc(trace: seq<Effect>, e: Effect)
    ensures ProbesOf(trace + [e])
            == if e.Probed? then ProbesOf(trace) + [Seen(e.request, e.probe)] else ProbesOf(trace)
    ensures DropsOf(trace + [e]) == if e.Dropped? then DropsOf(trace) + [e.request] else DropsOf(trace)
  {
    assert (trace + [e])[..|trace|] == trace;
    assert ProbesOf(trace) + [] == ProbesOf(trace) && DropsOf(trace) + [] == DropsOf(trace);
  }

  function RequestsOf(cleared: seq<Cleared>): (rs: seq<Request>)
    ensures |rs| == |cleared| && forall i :: 0 <= i < |rs| ==> rs[i] == cleared[i].request
  {
    if cleared == [] then [] else RequestsOf(cleared[..|cleared| - 1]) + [cleared[|cleared| - 1].request]
  }

  predicate Decides(ps: seq<Seen>) {
    exists i :: 0 <= i < |ps| && OwnerHasDecided(ps[i].probe)
  }

  predicate Sees(ps: seq<Seen>, p: Probe) {
    exists i :: 0 <= i < |ps| && ps[i].probe == p
  }

  predicate Free(ps: seq<Seen>) {
    forall i :: 0 <= i < |ps| ==> !HoldsBack(ps[i].probe)
  }

  /** The probe found this very content outstanding. */
  predicate BoundSame(s: Seen, hash: nat) {
    s.probe == BoundPending && s.request.actionHash == hash
  }

  predicate SomeSame(ps: seq<Seen>, hash: nat) {
    exists i :: 0 <= i < |ps| && BoundSame(ps[i], hash)
  }

  predicate TwoSame(ps: seq<Seen>, hash: nat) {
    exists i, j :: 0 <= i < j < |ps| && BoundSame(ps[i], hash) && BoundSame(ps[j], hash)
  }

  /** `live` was found with this content, and is the earliest one found so. */
  predicate Earliest(ps: seq<Seen>, hash: nat, live: Request) {
    && live.actionHash == hash && Seen(live, BoundPending) in ps
    && forall i :: 0 <= i < |ps| && BoundSame(ps[i], hash) ==> Earlier(live, ps[i].request)
  }

  /** Effects after which a producer call can only end. */
  predicate Closing(e: Effect) {
    e == Held(false) || e == JournalRead(true) || e.ListFailed? || e.DeleteFailed? || e.PostFailed? || e.JournalCleared?
  }

  predicate Open(trace: seq<Effect>) {
    forall k :: 0 <= k < |trace| ==> !Closing(trace[k])
  }

  // ----- What a verdict means -----

  /** The outcome that goes with a reason. */
  predicate OutcomeFits(v: Verdict) {
    match v.reason
    case Some(reason) => (
      match reason
      case LeaseHeld | OwnerDecided | NotVerifiable => v.outcome == OutDeferred
      case PostingJournalStale | StoreUnreadable | Mismatched | SupersedeFailed => v.outcome == OutRefused
      case DuplicateCollapsed => v.outcome == OutPending
      case _ => false)
    case None => v.outcome == OutPending || v.outcome == OutPosted
  }

  ghost predicate Blocks(v: Verdict, ps: seq<Seen>, p: Probe) {
    forall r :: r in v.blocked <==> Seen(r, p) in ps
  }

  /** The verdict follows from the effects: the lock, the journal and the store by their one refusal; the
      probes by the strongest one seen, the owner's decision before doubt before a mismatch, naming
      exactly the requests so found; a failed deletion; otherwise pending exactly if this content was
      found outstanding, and then the earliest such request is live; otherwise posted. */
  ghost predicate Explains(intent: Intent, trace: seq<Effect>, v: Verdict) {
    var ps, hash := ProbesOf(trace), intent.actionHash;
    && OutcomeFits(v) && RequestsOf(v.cleared) == DropsOf(trace)
    && (v.reason == Some(LeaseHeld) <==> Held(false) in trace)
    && (v.reason == Some(PostingJournalStale) <==> JournalRead(true) in trace)
    && (v.reason == Some(StoreUnreadable) <==> ListFailed in trace)
    && (v.reason == Some(OwnerDecided) <==> Decides(ps))
    && (v.reason == Some(NotVerifiable) <==> !Decides(ps) && Sees(ps, Unverifiable))
    && (v.reason == Some(Mismatched) <==> !Decides(ps) && !Sees(ps, Unverifiable) && Sees(ps, BindingMismatch))
    && (v.reason == Some(SupersedeFailed) <==> exists k :: 0 <= k < |trace| && trace[k].DeleteFailed?)
    && (v.reason == Some(OwnerDecided) ==>
          forall r :: r in v.blocked <==> Seen(r, Approved) in ps || Seen(r, Cancelled) in ps)
    && (v.reason == Some(NotVerifiable) ==> Blocks(v, ps, Unverifiable))
    && (v.reason == Some(Mismatched) ==> Blocks(v, ps, BindingMismatch))
    && (v.outcome == OutPending ==>
          && v.live.Some? && Earliest(ps, hash, v.live.value) && v.posted == None && v.blocked == []
          && (v.reason == Some(DuplicateCollapsed) <==> TwoSame(ps, hash)))
    && (v.outcome == OutPosted <==> JournalCleared in trace)
    && (v.outcome == OutPosted ==>
          && !SomeSame(ps, hash) && v.posted.Some? && Posted(v.posted.value) in trace && v.live == None
          && v.blocked == [])
  }

  // ----- The call on its way -----

  /** What the groups of a snapshot say about its probes. */
  ghost predicate Grouped(ps: seq<Seen>, hash: nat, same: seq<Request>, others: seq<Request>) {
    && (same != [] <==> SomeSame(ps, hash)) && (|same| > 1 <==> TwoSame(ps, hash))
    && (same != [] ==> Earliest(ps, hash, same[0]))
    && (forall r :: r in same ==> r.actionHash == hash && Earlier(same[0], r))
    && (forall r :: r in others ==> r.actionHash != hash)
  }

  /** The same for what is left to destroy. */
  ghost predicate Doomed(ps: seq<Seen>, hash: nat, doomed: seq<Request>, canonical: Option<Request>) {
    match canonical
    case None => !SomeSame(ps, hash) && forall r :: r in doomed ==> r.actionHash != hash
    case Some(live) =>
      && Earliest(ps, hash, live) && TwoSame(ps, hash)
      && forall r :: r in doomed ==> r.actionHash == hash && Earlier(live, r)
  }

  ghost predicate Underway(q: ProducerPc, trace: seq<Effect>) {
    var ps, drops, hash := ProbesOf(trace), DropsOf(trace), q.intent.actionHash;
    && Open(trace)
    && match q
       case Waiting(_) => ps == [] && drops == []
       case Checking(_) => ps == [] && drops == []
       case Listing(_) => ps == [] && drops == []
       case Probing(_, _, seen) => ps == seen && drops == []
       case Discarding(_, _, same, others, cleared) =>
         Free(ps) && RequestsOf(cleared) == drops && Grouped(ps, hash, same, others)
       case Destroying(_, doomed, canonical, cleared) =>
         Free(ps) && RequestsOf(cleared) == drops && Doomed(ps, hash, doomed, canonical)
       case Deleting(_, doomed, canonical, cleared) =>
         Free(ps) && RequestsOf(cleared) == drops && Doomed(ps, hash, doomed, canonical)
       case Removing(_, doomed, canonical, cleared, _) =>
         Free(ps) && RequestsOf(cleared) == drops && Doomed(ps, hash, doomed, canonical)
       case Reserving(_, cleared) => Free(ps) && RequestsOf(cleared) == drops && !SomeSame(ps, hash)
       case Posting(_, _, cleared) => Free(ps) && RequestsOf(cleared) == drops && !SomeSame(ps, hash)
       case Committing(_, _, m, cleared) =>
         Free(ps) && RequestsOf(cleared) == drops && !SomeSame(ps, hash) && Posted(m) in trace
       case Clearing(_, _, m, cleared) =>
         Free(ps) && RequestsOf(cleared) == drops && !SomeSame(ps, hash) && Posted(m) in trace
  }

  /** Where a call goes on it is underway, and where it ends its verdict is explained. */
  ghost predicate Accounted(intent: Intent, trace: seq<Effect>, pc: Pc) {
    && (pc.Producer? ==> pc.producer.intent == intent && Underway(pc.producer, trace))
    && (pc.Done? && pc.result.Decided? ==> Explains(intent, trace, pc.result.verdict))
  }

  lemma {:induction false} SameCount(seen: seq<Seen>, hash: nat)
    ensures var same := SameHash(WithProbe(seen, BoundPending), hash);
            && (|same| > 0 <==> SomeSame(seen, hash)) && (|same| > 1 <==> TwoSame(seen, hash))
  {
    if seen != [] {
      var rest, t := seen[1..], WithProbe(seen[1..], BoundPending);
      SameCount(rest, hash);
      SomeTail(seen, hash);
      var w := WithProbe(seen, BoundPending);
      if seen[0].probe == BoundPending {
        assert w == [seen[0].request] + t;
        assert w[1..] == t;
        assert SameHash(w, hash) == (if w[0].actionHash == hash then [w[0]] else []) + SameHash(t, hash);
      } else {
        assert w == t;
      }
    }
  }

  lemma SomeTail(seen: seq<Seen>, hash: nat)
    requires seen != []
    ensures SomeSame(seen, hash) <==> BoundSame(seen[0], hash) || SomeSame(seen[1..], hash)
    ensures TwoSame(seen, hash) <==>
              (BoundSame(seen[0], hash) && SomeSame(seen[1..], hash)) || TwoSame(seen[1..], hash)
  {
    var rest := seen[1..];
    if SomeSame(rest, hash) {
      var i :| 0 <= i < |rest| && BoundSame(rest[i], hash);
      assert BoundSame(seen[i + 1], hash);
    }
    if TwoSame(rest, hash) {
      var i, j :| 0 <= i < j < |rest| && BoundSame(rest[i], hash) && BoundSame(rest[j], hash);
      assert BoundSame(seen[i + 1], hash) && BoundSame(seen[j + 1], hash);
    }
    if i :| 0 < i < |seen| && BoundSame(seen[i], hash) {
      assert BoundSame(rest[i - 1], hash);
    }
    if i, j :| 0 < i < j < |seen| && BoundSame(seen[i], hash) && BoundSame(seen[j], hash) {
      assert BoundSame(rest[i - 1], hash) && BoundSame(rest[j - 1], hash);
    }
  }

  lemma EarlierIsReflexive(r: Request)
    ensures Earlier(r, r)
  {
  }

  lemma SnapshotGroups(seen: seq<Seen>, hash: nat)
    ensures var bound := WithProbe(seen, BoundPending);
            Grouped(seen, hash, Sorted(SameHash(bound, hash)), OtherHash(bound, hash))
  {
    var bound := WithProbe(seen, BoundPending);
    var same, others := Sorted(SameHash(bound, hash)), OtherHash(bound, hash);
    SameCount(seen, hash);
    SortedIsSorted(SameHash(bound, hash));
    hide Sorted, SameHash, OtherHash, WithProbe, SomeSame, TwoSame, Earlier;
    forall r ensures r in same <==> Seen(r, BoundPending) in seen && r.actionHash == hash {
      SortedMembers(SameHash(bound, hash), r);
      HashExactly(bound, hash, r);
      WithProbeExactly(seen, BoundPending, r);
    }
    forall r | r in others ensures r.actionHash != hash {
      HashExactly(bound, hash, r);
    }
    forall r | r in same ensures Earlier(same[0], r) {
      EarlierIsReflexive(r);
      var k :| 0 <= k < |same| && same[k] == r;
    }
    forall i | 0 <= i < |seen| && BoundSame(seen[i], hash)
      ensures same != [] && Earlier(same[0], seen[i].request)
    {
      assert Seen(seen[i].request, BoundPending) in seen;
      assert seen[i].request in same;
    }
  }

  // ----- Every step -----

  lemma DestroyAccounted(intent: Intent, trace: seq<Effect>, doomed: seq<Request>, canonical: Option<Request>,
                         cleared: seq<Cleared>, collapsed: bool)
    requires Open(trace) && Free(ProbesOf(trace)) && RequestsOf(cleared) == DropsOf(trace)
    requires doomed != [] ==> Doomed(ProbesOf(trace), intent.actionHash, doomed, canonical)
    requires match canonical
             case None => !SomeSame(ProbesOf(trace), intent.actionHash)
             case Some(live) => Earliest(ProbesOf(trace), intent.actionHash, live)
                                && (doomed == [] ==> (collapsed <==> TwoSame(ProbesOf(trace), intent.actionHash)))
    ensures Accounted(intent, trace, AfterDestroy(intent, doomed, canonical, cleared, collapsed))
  {
    hide Earlier, RequestsOf, ProbesOf, DropsOf, SomeSame, TwoSame, Earliest;
  }

  lemma DiscardAccounted(intent: Intent, trace: seq<Effect>, gone: seq<Request>, same: seq<Request>,
                         others: seq<Request>, cleared: seq<Cleared>)
    requires Open(trace) && Free(ProbesOf(trace)) && RequestsOf(cleared) == DropsOf(trace)
    requires Grouped(ProbesOf(trace), intent.actionHash, same, others)
    ensures Accounted(intent, trace, AfterDiscard(intent, gone, same, others, cleared))
  {
    hide Open, Free, RequestsOf, ProbesOf, DropsOf, SomeSame, TwoSame, Earliest, AfterDestroy;
    if |gone| == 0 {
      if |same| > 0 {
        DestroyAccounted(intent, trace, same[1..], Some(same[0]), cleared, |same| > 1);
      } else {
        DestroyAccounted(intent, trace, others, None, cleared, false);
      }
    }
  }

  lemma UnheldIsFree(seen: seq<Seen>)
    requires DecidedOf(seen) == [] && WithProbe(seen, Unverifiable) == [] && WithProbe(seen, BindingMismatch) == []
    ensures Free(seen)
  {
    hide DecidedOf, WithProbe;
    forall i | 0 <= i < |seen| ensures !HoldsBack(seen[i].probe) {
      WithProbeHas(seen, i);
    }
  }

  /** The groups of a snapshot are empty exactly when no probe fell into them. */
  lemma GroupsMeet(seen: seq<Seen>)
    ensures DecidedOf(seen) != [] <==> Decides(seen)
    ensures forall p :: WithProbe(seen, p) != [] <==> Sees(seen, p)
    ensures Free(seen) <==> !Decides(seen) && !Sees(seen, Unverifiable) && !Sees(seen, BindingMismatch)
  {
    hide DecidedOf, WithProbe;
    forall i | 0 <= i < |seen|
      ensures WithProbe(seen, seen[i].probe) != [] && (OwnerHasDecided(seen[i].probe) ==> DecidedOf(seen) != [])
    {
      WithProbeHas(seen, i);
    }
    if DecidedOf(seen) != [] {
      DecidedExactly(seen, DecidedOf(seen)[0]);
    }
    forall p | WithProbe(seen, p) != [] ensures Sees(seen, p) {
      WithProbeExactly(seen, p, WithProbe(seen, p)[0]);
    }
  }

  lemma SnapshotAccounted(intent: Intent, trace: seq<Effect>, seen: seq<Seen>)
    requires Open(trace) && ProbesOf(trace) == seen && DropsOf(trace) == []
    ensures Accounted(intent, trace, AfterSnapshot(intent, seen))
  {
    hide DecidedOf, WithProbe, SameHash, OtherHash, Sorted, AfterDiscard, AfterDestroy, Grouped, ProbesOf, DropsOf;
    forall r ensures r in DecidedOf(seen) <==> Seen(r, Approved) in seen || Seen(r, Cancelled) in seen {
      DecidedExactly(seen, r);
    }
    forall r, p ensures r in WithProbe(seen, p) <==> Seen(r, p) in seen {
      WithProbeExactly(seen, p, r);
    }
    if DecidedOf(seen) == [] && WithProbe(seen, Unverifiable) == [] && WithProbe(seen, BindingMismatch) == [] {
      UnheldIsFree(seen);
      SnapshotGroups(seen, intent.actionHash);
      var bound := WithProbe(seen, BoundPending);
      DiscardAccounted(intent, trace, WithProbe(seen, Missing), Sorted(SameHash(bound, intent.actionHash)),
                       OtherHash(bound, intent.actionHash), []);
    } else {
      HeldIsExplained(intent, trace, seen);
    }
  }

  lemma HeldIsExplained(intent: Intent, trace: seq<Effect>, seen: seq<Seen>)
    requires Open(trace) && ProbesOf(trace) == seen && DropsOf(trace) == []
    requires DecidedOf(seen) != [] || WithProbe(seen, Unverifiable) != [] || WithProbe(seen, BindingMismatch) != []
    requires forall r :: r in DecidedOf(seen) <==> Seen(r, Approved) in seen || Seen(r, Cancelled) in seen
    requires forall r, p :: r in WithProbe(seen, p) <==> Seen(r, p) in seen
    ensures Accounted(intent, trace, AfterSnapshot(intent, seen))
  {
    hide DecidedOf, WithProbe, SameHash, OtherHash, Sorted, AfterDiscard, AfterDestroy, ProbesOf, DropsOf;
    forall i | 0 <= i < |seen|
      ensures seen[i].request in WithProbe(seen, seen[i].probe)
      ensures OwnerHasDecided(seen[i].probe) ==> seen[i].request in DecidedOf(seen)
    {
      WithProbeHas(seen, i);
    }
    if DecidedOf(seen) != [] {
      assert DecidedOf(seen)[0] in DecidedOf(seen);
    } else if WithProbe(seen, Unverifiable) != [] {
      assert WithProbe(seen, Unverifiable)[0] in WithProbe(seen, Unverifiable);
    } else {
      assert WithProbe(seen, BindingMismatch)[0] in WithProbe(seen, BindingMismatch);
    }
  }

  /** One more probe. */
  lemma ProbeAdds(ps: seq<Seen>, s: Seen, hash: nat)
    ensures Free(ps + [s]) <==> Free(ps) && !HoldsBack(s.probe)
    ensures SomeSame(ps + [s], hash) <==> SomeSame(ps, hash) || BoundSame(s, hash)
    ensures TwoSame(ps, hash) ==> TwoSame(ps + [s], hash)
    ensures Decides(ps + [s]) <==> Decides(ps) || OwnerHasDecided(s.probe)
    ensures forall p :: Sees(ps + [s], p) <==> Sees(ps, p) || s.probe == p
    ensures forall live :: Earliest(ps, hash, live) && (BoundSame(s, hash) ==> Earlier(live, s.request)) ==>
              Earliest(ps + [s], hash, live)
  {
    hide Earlier;
    var more := ps + [s];
    assert forall i :: 0 <= i < |ps| ==> more[i] == ps[i];
    assert more[|ps|] == s;
    if TwoSame(ps, hash) {
      var i, j :| 0 <= i < j < |ps| && BoundSame(ps[i], hash) && BoundSame(ps[j], hash);
      assert BoundSame(more[i], hash) && BoundSame(more[j], hash);
    }
  }

  lemma FreeSeesNothing(ps: seq<Seen>)
    requires Free(ps)
    ensures !Decides(ps) && !Sees(ps, Unverifiable) && !Sees(ps, BindingMismatch)
    ensures forall r, p :: HoldsBack(p) ==> Seen(r, p) !in ps
  {
  }

  lemma OpeningAccounted(q: ProducerPc, trace: seq<Effect>, e: Effect)
    requires Underway(q, trace) && NextProducer(q, e).Some? && (q.Waiting? || q.Checking? || q.Listing?)
    ensures Accounted(q.intent, trace + [e], NextProducer(q, e).value)
  {
    hide AfterSnapshot, ProbesOf, DropsOf;
    Snoc(trace, e);
    if e.Listed? && |e.requests| == 0 {
      SnapshotAccounted(q.intent, trace + [e], []);
    }
  }

  lemma ProbingAccounted(q: ProducerPc, trace: seq<Effect>, e: Effect)
    requires Underway(q, trace) && NextProducer(q, e).Some? && q.Probing?
    ensures Accounted(q.intent, trace + [e], NextProducer(q, e).value)
  {
    hide AfterSnapshot, ProbesOf, DropsOf;
    Snoc(trace, e);
    if |q.todo| == 1 {
      SnapshotAccounted(q.intent, trace + [e], q.seen + [Seen(q.todo[0], e.probe)]);
    }
  }

  lemma DiscardingAccounted(q: ProducerPc, trace: seq<Effect>, e: Effect)
    requires Underway(q, trace) && NextProducer(q, e).Some? && q.Discarding?
    ensures Accounted(q.intent, trace + [e], NextProducer(q, e).value)
  {
    hide AfterDiscard, ProbesOf, DropsOf, Grouped, Free;
    Snoc(trace, e);
    RequestsSnoc(q.cleared, Cleared(q.gone[0], MessageMissing));
    DiscardAccounted(q.intent, trace + [e], q.gone[1..], q.same, q.others,
                     q.cleared + [Cleared(q.gone[0], MessageMissing)]);
  }

  lemma RequestsSnoc(cleared: seq<Cleared>, c: Cleared)
    ensures RequestsOf(cleared + [c]) == RequestsOf(cleared) + [c.request]
  {
    assert (cleared + [c])[..|cleared|] == cleared;
  }

  lemma DestroyingAccounted(q: ProducerPc, trace: seq<Effect>, e: Effect)
    requires Underway(q, trace) && NextProducer(q, e).Some? && q.Destroying?
    ensures Accounted(q.intent, trace + [e], NextProducer(q, e).value)
  {
    hide ProbesOf, DropsOf, Free, SomeSame, TwoSame, Earliest, Sees, Decides, Earlier, RequestsOf;
    var ps, hash := ProbesOf(trace), q.intent.actionHash;
    Snoc(trace, e);
    ProbeAdds(ps, Seen(e.request, e.probe), hash);
    FreeSeesNothing(ps);
  }

  lemma DeletingAccounted(q: ProducerPc, trace: seq<Effect>, e: Effect)
    requires Underway(q, trace) && NextProducer(q, e).Some? && q.Deleting?
    ensures Accounted(q.intent, trace + [e], NextProducer(q, e).value)
  {
    hide ProbesOf, DropsOf, Free, SomeSame, TwoSame, Earliest, Sees, Decides, Earlier, RequestsOf;
    Snoc(trace, e);
    FreeSeesNothing(ProbesOf(trace));
    assert (trace + [e])[|trace|] == e;
  }

  lemma RemovingAccounted(q: ProducerPc, trace: seq<Effect>, e: Effect)
    requires Underway(q, trace) && NextProducer(q, e).Some? && q.Removing?
    ensures Accounted(q.intent, trace + [e], NextProducer(q, e).value)
  {
    hide ProbesOf, DropsOf, Free, SomeSame, TwoSame, Earliest, Earlier, AfterDestroy;
    Snoc(trace, e);
    RequestsSnoc(q.cleared, Cleared(q.doomed[0], q.why));
    DestroyAccounted(q.intent, trace + [e], q.doomed[1..], q.canonical, q.cleared + [Cleared(q.doomed[0], q.why)],
                     true);
  }

  lemma PostingAccounted(q: ProducerPc, trace: seq<Effect>, e: Effect)
    requires Underway(q, trace) && NextProducer(q, e).Some?
    requires q.Reserving? || q.Posting? || q.Committing? || q.Clearing?
    ensures Accounted(q.intent, trace + [e], NextProducer(q, e).value)
  {
    hide ProbesOf, DropsOf, Free, SomeSame, TwoSame, Earliest, Sees, Decides, RequestsOf;
    Snoc(trace, e);
    FreeSeesNothing(ProbesOf(trace));
    assert (trace + [e])[|trace|] == e;
  }

  lemma StepAccounted(q: ProducerPc, trace: seq<Effect>, e: Effect)
    requires Underway(q, trace) && NextProducer(q, e).Some?
    ensures Accounted(q.intent, trace + [e], NextProducer(q, e).value)
  {
    hide *;
    if q.Waiting? || q.Checking? || q.Listing? { OpeningAccounted(q, trace, e); }
    else if q.Probing? { ProbingAccounted(q, trace, e); }
    else if q.Discarding? { DiscardingAccounted(q, trace, e); }
    else if q.Destroying? { DestroyingAccounted(q, trace, e); }
    else if q.Deleting? { DeletingAccounted(q, trace, e); }
    else if q.Removing? { RemovingAccounted(q, trace, e); }
    else { PostingAccounted(q, trace, e); }
  }

  lemma {:induction false} CallAccounted(intent: Intent, trace: seq<Effect>)
    requires Follow(Producer(Waiting(intent)), trace).Some?
    ensures Accounted(intent, trace, Follow(Producer(Waiting(intent)), trace).value)
  {
    hide Next, Accounted, Underway;
    var start := Producer(Waiting(intent));
    if trace == [] {
      StartAccounted(intent);
    } else {
      var front, e := trace[..|trace| - 1], trace[|trace| - 1];
      assert front + [e] == trace;
      CallAccounted(intent, front);
      ProducerGoesOn(intent, front, Follow(start, front).value, e);
    }
  }

  lemma StartAccounted(intent: Intent)
    ensures Accounted(intent, [], Producer(Waiting(intent)))
  {
  }

  lemma {:induction false} StaysProducer(intent: Intent, trace: seq<Effect>)
    requires Follow(Producer(Waiting(intent)), trace).Some?
    ensures var pc := Follow(Producer(Waiting(intent)), trace).value; pc.Producer? || pc.Done?
  {
    hide NextProducer;
    if trace != [] { StaysProducer(intent, trace[..|trace| - 1]); }
  }

  lemma ProducerGoesOn(intent: Intent, trace: seq<Effect>, pc: Pc, e: Effect)
    requires Follow(Producer(Waiting(intent)), trace) == Some(pc) && Accounted(intent, trace, pc) && Next(pc, e).Some?
    ensures Accounted(intent, trace + [e], Next(pc, e).value)
  {
    hide Underway, NextProducer, Explains;
    StaysProducer(intent, trace);
    StepAccounted(pc.producer, trace, e);
  }

  /** Over every word of a producer call that ends with a verdict, the verdict is the one its effects
      explain. */
  lemma VerdictIsExplained(intent: Intent, trace: seq<Effect>, v: Verdict)
    requires Follow(Producer(Waiting(intent)), trace) == Some(Done(Decided(v)))
    ensures Explains(intent, trace, v)
  {
    hide Follow, Explains, Underway;
    CallAccounted(intent, trace);
  }

  // ----- Why each request was cleared -----

  /** A cleared request was seen missing, or its message was deleted: as a duplicate when it has this
      content, and as outdated when it has another. */
  predicate Justified(c: Cleared, trace: seq<Effect>, hash: nat) {
    match c.reason
    case MessageMissing => Probed(c.request, Missing) in trace
    case DuplicateCollapsed => Deleted(c.request) in trace && c.request.actionHash == hash
    case ContentChanged => Deleted(c.request) in trace && c.request.actionHash != hash
    case _ => false
  }

  predicate AllJustified(cleared: seq<Cleared>, trace: seq<Effect>, hash: nat) {
    forall c :: c in cleared ==> Justified(c, trace, hash)
  }

  predicate AllMissing(rs: seq<Request>, trace: seq<Effect>) {
    forall r :: r in rs ==> Probed(r, Missing) in trace
  }

  predicate AllSeen(seen: seq<Seen>, trace: seq<Effect>) {
    forall s :: s in seen ==> Probed(s.request, s.probe) in trace
  }

  predicate SameKind(rs: seq<Request>, hash: nat, canonical: Option<Request>) {
    forall r :: r in rs ==> (r.actionHash == hash <==> canonical.Some?)
  }

  ghost predicate Clearings(pc: Pc, trace: seq<Effect>, hash: nat) {
    match pc
    case Done(Decided(v)) => AllJustified(v.cleared, trace, hash)
    case Producer(q) => q.intent.actionHash == hash && (
      match q
      case Probing(_, _, seen) => AllSeen(seen, trace)
      case Discarding(_, gone, same, others, cleared) =>
        && AllMissing(gone, trace) && AllJustified(cleared, trace, hash)
        && (same != [] ==> SameKind(same[1..], hash, Some(same[0]))) && SameKind(others, hash, None)
      case Destroying(_, doomed, canonical, cleared) =>
        AllJustified(cleared, trace, hash) && SameKind(doomed, hash, canonical)
      case Deleting(_, doomed, canonical, cleared) =>
        AllJustified(cleared, trace, hash) && SameKind(doomed, hash, canonical)
      case Removing(_, doomed, canonical, cleared, why) =>
        && AllJustified(cleared, trace, hash) && SameKind(doomed, hash, canonical)
        && (doomed != [] ==> Justified(Cleared(doomed[0], why), trace, hash))
      case Reserving(_, cleared) => AllJustified(cleared, trace, hash)
      case Posting(_, _, cleared) => AllJustified(cleared, trace, hash)
      case Committing(_, _, _, cleared) => AllJustified(cleared, trace, hash)
      case Clearing(_, _, _, cleared) => AllJustified(cleared, trace, hash)
      case _ => true)
    case _ => true
  }

  lemma JustifiedLater(trace: seq<Effect>, e: Effect, hash: nat)
    ensures forall cleared :: AllJustified(cleared, trace, hash) ==> AllJustified(cleared, trace + [e], hash)
    ensures forall rs :: AllMissing(rs, trace) ==> AllMissing(rs, trace + [e])
    ensures forall seen :: AllSeen(seen, trace) ==> AllSeen(seen, trace + [e])
    ensures forall c :: Justified(c, trace, hash) ==> Justified(c, trace + [e], hash)
  {
    assert forall x :: x in trace ==> x in trace + [e];
  }

  lemma DestroyClearings(intent: Intent, trace: seq<Effect>, doomed: seq<Request>, canonical: Option<Request>,
                         cleared: seq<Cleared>, collapsed: bool)
    requires AllJustified(cleared, trace, intent.actionHash) && SameKind(doomed, intent.actionHash, canonical)
    ensures Clearings(AfterDestroy(intent, doomed, canonical, cleared, collapsed), trace, intent.actionHash)
  {
  }

  lemma DiscardClearings(intent: Intent, trace: seq<Effect>, gone: seq<Request>, same: seq<Request>,
                         others: seq<Request>, cleared: seq<Cleared>)
    requires AllJustified(cleared, trace, intent.actionHash) && AllMissing(gone, trace)
    requires (same != [] ==> SameKind(same[1..], intent.actionHash, Some(same[0])))
             && SameKind(others, intent.actionHash, None)
    ensures Clearings(AfterDiscard(intent, gone, same, others, cleared), trace, intent.actionHash)
  {
    hide AfterDestroy, AllJustified, AllMissing, SameKind;
    if |gone| == 0 {
      if |same| > 0 {
        DestroyClearings(intent, trace, same[1..], Some(same[0]), cleared, |same| > 1);
      } else {
        DestroyClearings(intent, trace, others, None, cleared, false);
      }
    }
  }

  lemma SnapshotClearings(intent: Intent, trace: seq<Effect>, seen: seq<Seen>)
    requires AllSeen(seen, trace)
    ensures Clearings(AfterSnapshot(intent, seen), trace, intent.actionHash)
  {
    hide DecidedOf, WithProbe, SameHash, OtherHash, Sorted, AfterDiscard, AfterDestroy, Grouped;
    var bound, gone, hash := WithProbe(seen, BoundPending), WithProbe(seen, Missing), intent.actionHash;
    forall r | r in gone ensures Probed(r, Missing) in trace {
      WithProbeExactly(seen, Missing, r);
    }
    var same, others := Sorted(SameHash(bound, hash)), OtherHash(bound, hash);
    forall r | r in same ensures r.actionHash == hash {
      SortedMembers(SameHash(bound, hash), r);
      HashExactly(bound, hash, r);
    }
    forall r | r in others ensures r.actionHash != hash {
      HashExactly(bound, hash, r);
    }
    DiscardClearings(intent, trace, gone, same, others, []);
  }

  lemma StepClearings(q: ProducerPc, trace: seq<Effect>, e: Effect)
    requires Clearings(Producer(q), trace, q.intent.actionHash) && NextProducer(q, e).Some?
    ensures Clearings(NextProducer(q, e).value, trace + [e], q.intent.actionHash)
  {
    var hash := q.intent.actionHash;
    JustifiedLater(trace, e, hash);
    assert e in trace + [e];
    if q.Listing? && e.Listed? && |e.requests| == 0 {
      hide AfterSnapshot;
      SnapshotClearings(q.intent, trace + [e], []);
    } else if q.Probing? {
      hide AfterSnapshot, AllJustified;
      var seen' := q.seen + [Seen(q.todo[0], e.probe)];
      assert AllSeen(seen', trace + [e]);
      if |q.todo| == 1 { SnapshotClearings(q.intent, trace + [e], seen'); }
    } else if q.Discarding? {
      hide AfterDiscard, SameKind;
      DiscardClearings(q.intent, trace + [e], q.gone[1..], q.same, q.others,
                       q.cleared + [Cleared(q.gone[0], MessageMissing)]);
    } else if q.Removing? {
      hide AfterDestroy;
      DestroyClearings(q.intent, trace + [e], q.doomed[1..], q.canonical, q.cleared + [Cleared(q.doomed[0], q.why)],
                       true);
    } else {
      hide AllJustified, AfterSnapshot, AfterDiscard, AfterDestroy;
    }
  }

  lemma {:induction false} ClearingsAreJustified(intent: Intent, trace: seq<Effect>)
    requires Follow(Producer(Waiting(intent)), trace).Some?
    ensures Clearings(Follow(Producer(Waiting(intent)), trace).value, trace, intent.actionHash)
  {
    hide NextProducer, NextWatcher, NextSupersede, NextRetire, AllJustified;
    var start := Producer(Waiting(intent));
    if trace != [] {
      var front, e := trace[..|trace| - 1], trace[|trace| - 1];
      assert front + [e] == trace;
      ClearingsAreJustified(intent, front);
      StaysProducer(intent, front);
      StepClearings(Follow(start, front).value.producer, front, e);
    }
  }

  lemma ClearedIsJustified(intent: Intent, trace: seq<Effect>, v: Verdict)
    requires Follow(Producer(Waiting(intent)), trace) == Some(Done(Decided(v)))
    ensures AllJustified(v.cleared, trace, intent.actionHash)
  {
    hide Follow, AllJustified;
    ClearingsAreJustified(intent, trace);
  }

  // ----- The refusal of a `--fresh` call -----

  /** The refusal follows from the effects, and there is none exactly when nothing had to survive. */
  ghost predicate ExplainsFresh(trace: seq<Effect>, refusal: Option<Reason>) {
    var ps := ProbesOf(trace);
    && (refusal == Some(LeaseHeld) <==> Held(false) in trace)
    && (refusal == Some(StoreUnreadable) <==> ListFailed in trace)
    && (refusal == Some(OwnerDecided) <==> Decides(ps))
    && (refusal == Some(NotVerifiable) <==> Sees(ps, Unverifiable))
    && (refusal == Some(Mismatched) <==> Sees(ps, BindingMismatch))
    && (refusal == Some(SupersedeFailed) <==> exists k :: 0 <= k < |trace| && trace[k].DeleteFailed?)
    && (refusal == None <==> Open(trace) && Free(ps))
  }

  ghost predicate FreshAccounted(trace: seq<Effect>, pc: Pc) {
    && (pc.Supersede? || (pc.Done? && pc.result.Superseded?))
    && (pc.Supersede? ==> Open(trace) && Free(ProbesOf(trace)))
    && (pc.Done? && pc.result.Superseded? ==> ExplainsFresh(trace, pc.result.refusal))
  }

  lemma FreshStep(q: FreshPc, trace: seq<Effect>, e: Effect)
    requires FreshAccounted(trace, Supersede(q)) && NextSupersede(q, e).Some?
    ensures FreshAccounted(trace + [e], NextSupersede(q, e).value)
  {
    hide ProbesOf, Free, Sees, Decides;
    Snoc(trace, e);
    if e.Probed? {
      ProbeAdds(ProbesOf(trace), Seen(e.request, e.probe), 0);
    }
    FreeSeesNothing(ProbesOf(trace));
    if Free(ProbesOf(trace + [e])) { FreeSeesNothing(ProbesOf(trace + [e])); }
    assert (trace + [e])[|trace|] == e;
  }

  lemma {:induction false} FreshIsAccounted(key: Key, trace: seq<Effect>)
    requires Follow(Supersede(FreshWaiting(key)), trace).Some?
    ensures FreshAccounted(trace, Follow(Supersede(FreshWaiting(key)), trace).value)
  {
    hide NextSupersede, ExplainsFresh;
    if trace != [] {
      var front, e := trace[..|trace| - 1], trace[|trace| - 1];
      assert front + [e] == trace;
      FreshIsAccounted(key, front);
      FreshStep(Follow(Supersede(FreshWaiting(key)), front).value.renew, front, e);
    }
  }

  /** Over every word of a `--fresh` call, the refusal is the one its effects explain. */
  lemma RefusalIsExplained(key: Key, trace: seq<Effect>, refusal: Option<Reason>)
    requires Follow(Supersede(FreshWaiting(key)), trace) == Some(Done(Superseded(refusal)))
    ensures ExplainsFresh(trace, refusal)
  {
    hide Follow, ExplainsFresh;
    FreshIsAccounted(key, trace);
  }
}
