/** The programs of the owner-approval lifecycle, run against one gate.

    A `Gate` keeps the stored requests and records every effect in `trace`.  The message surface,
    the lock and the posting journal answer through `world`, an arbitrary function of the number
    of effects so far, so each method is verified against every behaviour of its environment.
    Each method is proved to emit exactly a word of the automaton in `ApprovalProtocol` and to
    return the result that the automaton reaches. */
module ApprovalGate {
  import opened Common
  import opened ApprovalProtocol
  import opened ApprovalVerdicts

  /** One environment answer; each effect reads only the part it asks for. */
  datatype Answer = Answer(granted: bool, stale: bool, readable: bool, probe: Probe, fails: bool, gone: bool,
                           messageId: nat, leaked: Option<nat>, at: nat)

  /** The effect carries what the environment answered. */
  predicate Gives(a: Answer, e: Effect) {
    match e
    case Held(owned) => owned == a.granted
    case JournalRead(outstanding) => outstanding == a.stale
    case ListFailed => !a.readable
    case Listed(_) => a.readable
    case Probed(_, p) => p == a.probe
    case DeleteFailed(_, gone) => a.fails && gone == a.gone
    case Deleted(_) => !a.fails
    case Reserved(reservation) => reservation.at == a.at
    case PostFailed(leaked) => a.fails && leaked == a.leaked
    case Posted(messageId) => !a.fails && messageId == a.messageId
    case StoreMatched(read) => read.Unreadable? <==> !a.readable
    case Audited(ok) => ok == !a.fails
    case Unlinked(ok) => ok == !a.fails
    case _ => true
  }

  ghost predicate AllGiven(world: nat -> Answer, trace: seq<Effect>) {
    forall k :: 0 <= k < |trace| ==> Gives(world(k), trace[k])
  }

  lemma NothingGiven(world: nat -> Answer)
    ensures AllGiven(world, [])
  {
  }

  lemma GivenOn(world: nat -> Answer, trace: seq<Effect>, e: Effect)
    requires Gives(world(|trace|), e)
    ensures AllGiven(world, trace) ==> AllGiven(world, trace + [e])
  {
    hide Gives;
  }

  /** What the surface answers to probing the requests one after the other. */
  function SeenBy(world: nat -> Answer, requests: seq<Request>, start: nat): (seen: seq<Seen>)
    ensures |seen| == |requests|
    ensures forall i :: 0 <= i < |seen| ==> seen[i] == Seen(requests[i], world(start + i).probe)
  {
    if requests == [] then []
    else
      var n := |requests| - 1;
      SeenBy(world, requests[..n], start) + [Seen(requests[n], world(start + n).probe)]
  }

  /** The lease is granted, no reservation is outstanding and the store can be read. */
  predicate Opens(world: nat -> Answer) {
    world(0).granted && !world(1).stale && world(2).readable
  }

  /** The verdict when the lock, the journal or the store stops the call at once. */
  function ClosedVerdict(world: nat -> Answer): Verdict {
    if !world(0).granted then Verdict(OutDeferred, Some(LeaseHeld), None, None, [], [])
    else if world(1).stale then Verdict(OutRefused, Some(PostingJournalStale), None, None, [], [])
    else Verdict(OutRefused, Some(StoreUnreadable), None, None, [], [])
  }

  lemma ClosedIs(world: nat -> Answer)
    ensures !world(0).granted ==>
              !Opens(world) && ClosedVerdict(world) == Verdict(OutDeferred, Some(LeaseHeld), None, None, [], [])
    ensures world(0).granted && world(1).stale ==>
              !Opens(world) && ClosedVerdict(world) == Verdict(OutRefused, Some(PostingJournalStale), None, None, [],
                                                               [])
    ensures world(0).granted && !world(1).stale && !world(2).readable ==>
              !Opens(world) && ClosedVerdict(world) == Verdict(OutRefused, Some(StoreUnreadable), None, None, [], [])
    ensures world(0).granted && !world(1).stale && world(2).readable ==> Opens(world)
  {
  }

  /** The verdict when some listed request must be held back: it clears nothing and names exactly the requests
      with the strongest reason. */
  function HeldVerdict(seen: seq<Seen>): Verdict {
    if Decides(seen) then Verdict(OutDeferred, Some(OwnerDecided), None, None, [], DecidedOf(seen))
    else if Sees(seen, Unverifiable) then
      Verdict(OutDeferred, Some(NotVerifiable), None, None, [], WithProbe(seen, Unverifiable))
    else Verdict(OutRefused, Some(Mismatched), None, None, [], WithProbe(seen, BindingMismatch))
  }

  /** `drop` compares the key, the action hash and the message id. */
  predicate SameBinding(a: Request, b: Request) {
    a.key == b.key && a.actionHash == b.actionHash && a.messageId == b.messageId
  }

  function OfKey(rs: seq<Request>, key: Key): seq<Request> {
    if rs == [] then []
    else (if rs[0].key == key then [rs[0]] else []) + OfKey(rs[1..], key)
  }

  /** Compare-and-swap removal: what `drop(r)` leaves. */
  function Without(rs: seq<Request>, r: Request): seq<Request> {
    if rs == [] then []
    else (if SameBinding(rs[0], r) then [] else [rs[0]]) + Without(rs[1..], r)
  }

  function WithoutAll(rs: seq<Request>, cleared: seq<Cleared>): seq<Request> {
    if cleared == [] then rs
    else Without(WithoutAll(rs, cleared[..|cleared| - 1]), cleared[|cleared| - 1].request)
  }

  lemma WithoutAllSnoc(rs: seq<Request>, cleared: seq<Cleared>, c: Cleared)
    ensures WithoutAll(rs, cleared + [c]) == Without(WithoutAll(rs, cleared), c.request)
  {
    assert (cleared + [c])[..|cleared|] == cleared;
  }

  lemma {:induction false} WithoutContains(rs: seq<Request>, r: Request, x: Request)
    ensures x in Without(rs, r) <==> x in rs && !SameBinding(x, r)
  {
    if rs != [] {
      WithoutContains(rs[1..], r, x);
      assert rs == [rs[0]] + rs[1..];
    }
  }

  /** Records after clearing: exactly the old ones whose binding was not cleared. */
  lemma {:induction false} WithoutAllContains(rs: seq<Request>, cleared: seq<Cleared>, x: Request)
    ensures x in WithoutAll(rs, cleared) <==> x in rs && forall c :: c in cleared ==> !SameBinding(x, c.request)
  {
    if cleared != [] {
      var front, last := cleared[..|cleared| - 1], cleared[|cleared| - 1];
      WithoutAllContains(rs, front, x);
      WithoutContains(WithoutAll(rs, front), last.request, x);
      assert cleared == front + [last];
    }
  }

  lemma {:induction false} OfKeyContains(rs: seq<Request>, key: Key, x: Request)
    ensures x in OfKey(rs, key) <==> x in rs && x.key == key
  {
    if rs != [] {
      OfKeyContains(rs[1..], key, x);
      assert rs == [rs[0]] + rs[1..];
    }
  }

  /** Message ids identify stored records. */
  ghost predicate DistinctIds(rs: seq<Request>) {
    forall i, j :: 0 <= i < j < |rs| ==> rs[i].messageId != rs[j].messageId
  }

  lemma {:induction false} OfKeyNone(rs: seq<Request>, key: Key)
    requires forall x :: x in rs ==> x.key != key
    ensures OfKey(rs, key) == []
  {
    if rs != [] {
      assert rs[0] in rs;
      OfKeyNone(rs[1..], key);
    }
  }

  lemma {:induction false} OfKeySnoc(rs: seq<Request>, r: Request)
    ensures OfKey(rs + [r], r.key) == OfKey(rs, r.key) + [r]
  {
    if rs != [] {
      OfKeySnoc(rs[1..], r);
      assert (rs + [r])[1..] == rs[1..] + [r];
    } else {
      assert rs + [r] == [r];
    }
  }

  lemma {:induction false} GroupsAreDisjoint(seen: seq<Seen>)
    ensures multiset(WithProbe(seen, Missing)) + multiset(WithProbe(seen, BoundPending)) <= multiset(Requests(seen))
  {
    if seen != [] {
      GroupsAreDisjoint(seen[1..]);
      assert seen == [seen[0]] + seen[1..];
    }
  }

  lemma {:induction false} SameHashWithin(rs: seq<Request>, hash: nat)
    ensures multiset(SameHash(rs, hash)) <= multiset(rs)
  {
    if rs != [] {
      SameHashWithin(rs[1..], hash);
      assert rs == [rs[0]] + rs[1..];
    }
  }

  lemma {:induction false} DistinctOnce(rs: seq<Request>, x: Request)
    requires DistinctIds(rs)
    ensures multiset(rs)[x] <= 1
  {
    if rs != [] {
      DistinctOnce(rs[1..], x);
      assert rs == [rs[0]] + rs[1..];
      forall j | 0 <= j < |rs[1..]| ensures rs[1..][j] != rs[0] {
        assert rs[1..][j] == rs[j + 1];
      }
    }
  }

  lemma {:induction false} OfKeyDistinct(rs: seq<Request>, key: Key)
    requires DistinctIds(rs)
    ensures DistinctIds(OfKey(rs, key))
  {
    if rs != [] {
      OfKeyDistinct(rs[1..], key);
      var rest := OfKey(rs[1..], key);
      forall j | 0 <= j < |rest| ensures rest[j].messageId != rs[0].messageId {
        OfKeyContains(rs[1..], key, rest[j]);
        var k :| 0 <= k < |rs[1..]| && rs[1..][k] == rest[j];
        assert rs[k + 1] == rest[j];
      }
    }
  }

  /** Every cleared request is one of the given ones, and each of those is cleared. */
  ghost predicate ClearedAre(cleared: seq<Cleared>, gone: seq<Request>, doomed: seq<Request>) {
    && (forall c :: c in cleared ==> c.request in gone || c.request in doomed)
    && (forall r :: r in gone || r in doomed ==> exists c :: c in cleared && c.request == r)
  }

  /** A snapshot of the key's records in which nothing must be held back. */
  ghost predicate FreeSnapshot(before: seq<Request>, key: Key, seen: seq<Seen>) {
    && Requests(seen) == OfKey(before, key)
    && DecidedOf(seen) == [] && WithProbe(seen, Unverifiable) == [] && WithProbe(seen, BindingMismatch) == []
  }

  lemma FreeSnapshotCovers(before: seq<Request>, key: Key, seen: seq<Seen>, hash: nat, r: Request)
    requires FreeSnapshot(before, key, seen)
    requires r in before && r.key == key
    ensures || r in WithProbe(seen, Missing)
            || r in Sorted(SameHash(WithProbe(seen, BoundPending), hash))
            || r in OtherHash(WithProbe(seen, BoundPending), hash)
  {
    OfKeyContains(before, key, r);
    RequestsAt(seen);
    var k :| 0 <= k < |Requests(seen)| && Requests(seen)[k] == r;
    SnapshotCovers(seen, hash, seen[k]);
  }

  lemma GroupsWithin(before: seq<Request>, key: Key, seen: seq<Seen>, hash: nat, r: Request)
    requires FreeSnapshot(before, key, seen)
    requires || r in WithProbe(seen, Missing)
             || r in Sorted(SameHash(WithProbe(seen, BoundPending), hash))
             || r in OtherHash(WithProbe(seen, BoundPending), hash)
    ensures r in OfKey(before, key)
  {
    var bound := WithProbe(seen, BoundPending);
    SortedMembers(SameHash(bound, hash), r);
    HashExactly(bound, hash, r);
    WithProbeExactly(seen, Missing, r);
    WithProbeExactly(seen, BoundPending, r);
    RequestsAt(seen);
    var p := if Seen(r, Missing) in seen then Missing else BoundPending;
    var k :| 0 <= k < |seen| && seen[k] == Seen(r, p);
    assert Requests(seen)[k] == r;
  }

  /** When every bound request had other content, clearing all of them and the gone ones empties
      the key's slot. */
  lemma SlotEmptied(before: seq<Request>, key: Key, seen: seq<Seen>, hash: nat, cleared: seq<Cleared>)
    requires FreeSnapshot(before, key, seen)
    requires Sorted(SameHash(WithProbe(seen, BoundPending), hash)) == []
    requires ClearedAre(cleared, WithProbe(seen, Missing), OtherHash(WithProbe(seen, BoundPending), hash))
    ensures OfKey(WithoutAll(before, cleared), key) == []
  {
    forall x | x in WithoutAll(before, cleared) ensures x.key != key {
      WithoutAllContains(before, cleared, x);
      if x.key == key {
        FreeSnapshotCovers(before, key, seen, hash, x);
        assert SameBinding(x, x);
      }
    }
    OfKeyNone(WithoutAll(before, cleared), key);
  }

  /** The canonical request occurs in no group that gets cleared. */
  lemma CanonicalOnce(before: seq<Request>, key: Key, seen: seq<Seen>, hash: nat)
    requires FreeSnapshot(before, key, seen) && DistinctIds(before)
    requires |Sorted(SameHash(WithProbe(seen, BoundPending), hash))| > 0
    ensures var same := Sorted(SameHash(WithProbe(seen, BoundPending), hash));
            && same[0] in OfKey(before, key) && same[0].actionHash == hash
            && same[0] !in WithProbe(seen, Missing) && same[0] !in same[1..]
  {
    hide FreeSnapshot, DistinctIds, WithProbe, SameHash, OtherHash, Sorted, OfKey, Requests;
    var bound, gone := WithProbe(seen, BoundPending), WithProbe(seen, Missing);
    var same := Sorted(SameHash(bound, hash));
    var live := same[0];
    GroupsWithin(before, key, seen, hash, live);
    SortedMembers(SameHash(bound, hash), live);
    HashExactly(bound, hash, live);
    OfKeyDistinct(before, key);
    DistinctOnce(OfKey(before, key), live);
    assert Requests(seen) == OfKey(before, key) by { SnapshotRequests(before, key, seen); }
    GroupsAreDisjoint(seen);
    SameHashWithin(bound, hash);
    assert same == [live] + same[1..];
    assert multiset(same)[live] == 1 + multiset(same[1..])[live];
  }

  lemma SnapshotRequests(before: seq<Request>, key: Key, seen: seq<Seen>)
    requires FreeSnapshot(before, key, seen)
    ensures Requests(seen) == OfKey(before, key)
  {
  }

  lemma SameBindingIsSame(rs: seq<Request>, a: Request, b: Request)
    requires DistinctIds(rs) && a in rs && b in rs && SameBinding(a, b)
    ensures a == b
  {
  }

  /** Collapsing duplicates keeps exactly the canonical request among those with this content. */
  lemma CanonicalKept(before: seq<Request>, key: Key, seen: seq<Seen>, hash: nat, cleared: seq<Cleared>)
    requires FreeSnapshot(before, key, seen) && DistinctIds(before)
    requires |Sorted(SameHash(WithProbe(seen, BoundPending), hash))| > 0
    requires ClearedAre(cleared, WithProbe(seen, Missing), Sorted(SameHash(WithProbe(seen, BoundPending), hash))[1..])
    ensures KeptOnly(OfKey(WithoutAll(before, cleared), key), hash,
                     Some(Sorted(SameHash(WithProbe(seen, BoundPending), hash))[0]))
  {
    hide FreeSnapshot, DistinctIds, WithProbe, SameHash, OtherHash, Sorted, OfKey, WithoutAll;
    var bound := WithProbe(seen, BoundPending);
    var same := Sorted(SameHash(bound, hash));
    var live := same[0];
    CanonicalOnce(before, key, seen, hash);
    OfKeyContains(before, key, live);
    forall c | c in cleared ensures !SameBinding(live, c.request) {
      assert c.request in same[1..] ==> c.request in same;
      GroupsWithin(before, key, seen, hash, c.request);
      OfKeyContains(before, key, c.request);
      if SameBinding(live, c.request) {
        SameBindingIsSame(before, live, c.request);
      }
    }
    WithoutAllContains(before, cleared, live);
    OfKeyContains(WithoutAll(before, cleared), key, live);
    forall r | r in OfKey(WithoutAll(before, cleared), key) && r.actionHash == hash ensures r == live {
      OfKeyContains(WithoutAll(before, cleared), key, r);
      WithoutAllContains(before, cleared, r);
      FreeSnapshotCovers(before, key, seen, hash, r);
      HashExactly(bound, hash, r);
      assert SameBinding(r, r);
    }
  }

  /** What a clean-up that started with the gone requests and went through `doomed` cleared. */
  lemma ClearedByBoth(cleared: seq<Cleared>, prior: seq<Cleared>, gone: seq<Request>, doomed: seq<Request>)
    requires Dropping(prior, gone)
    requires |prior| <= |cleared| <= |prior| + |doomed| && cleared[..|prior|] == prior
    requires forall k :: 0 <= k < |cleared| - |prior| ==> cleared[|prior| + k].request == doomed[k]
    ensures forall c :: c in cleared ==> c.request in gone || c.request in doomed
    ensures |cleared| == |prior| + |doomed| ==> ClearedAre(cleared, gone, doomed)
  {
    forall c | c in cleared ensures c.request in gone || c.request in doomed {
      var k :| 0 <= k < |cleared| && cleared[k] == c;
      if k < |prior| {
        assert cleared[..|prior|][k] == c;
      } else {
        assert cleared[|prior| + (k - |prior|)].request == doomed[k - |prior|];
      }
    }
    if |cleared| == |prior| + |doomed| {
      forall r | r in gone || r in doomed ensures exists c :: c in cleared && c.request == r {
        if r in gone {
          var k :| 0 <= k < |gone| && gone[k] == r;
          assert cleared[k] == cleared[..|prior|][k];
          assert cleared[k] in cleared;
        } else {
          var k :| 0 <= k < |doomed| && doomed[k] == r;
          assert cleared[|prior| + k] in cleared;
        }
      }
    }
  }

  /** Both clean-ups only ever clear requests that were listed for the key. */
  lemma ClearedWasListed(before: seq<Request>, key: Key, seen: seq<Seen>, hash: nat, cleared: seq<Cleared>,
                         doomed: seq<Request>)
    requires FreeSnapshot(before, key, seen)
    requires forall c :: c in cleared ==> c.request in WithProbe(seen, Missing) || c.request in doomed
    requires forall r :: r in doomed ==> r in Sorted(SameHash(WithProbe(seen, BoundPending), hash))
                                         || r in OtherHash(WithProbe(seen, BoundPending), hash)
    ensures forall c :: c in cleared ==> c.request in OfKey(before, key)
  {
    hide FreeSnapshot, WithProbe, SameHash, OtherHash, Sorted, OfKey;
    forall c | c in cleared ensures c.request in OfKey(before, key) {
      GroupsWithin(before, key, seen, hash, c.request);
    }
  }

  lemma PostSteps(intent: Intent, cleared: seq<Cleared>, at: nat, messageId: nat, leaked: Option<nat>)
    ensures var reservation := Reservation(intent.key, intent.actionHash, at);
            && Next(Producer(Reserving(intent, cleared)), Reserved(reservation))
                == Some(Producer(Posting(intent, reservation, cleared)))
            && Next(Producer(Posting(intent, reservation, cleared)), PostFailed(leaked)) == Some(Done(Raised))
            && Next(Producer(Posting(intent, reservation, cleared)), Posted(messageId))
                == Some(Producer(Committing(intent, reservation, messageId, cleared)))
            && Next(Producer(Committing(intent, reservation, messageId, cleared)),
                    Committed(Bound(intent, reservation, messageId)))
               == Some(Producer(Clearing(intent, reservation, messageId, cleared)))
            && Next(Producer(Clearing(intent, reservation, messageId, cleared)), JournalCleared)
               == Some(Done(Decided(Verdict(OutPosted, None, None, Some(messageId), cleared, []))))
  {
  }

  lemma UnheldSnapshot(intent: Intent, seen: seq<Seen>)
    requires DecidedOf(seen) == [] && WithProbe(seen, Unverifiable) == [] && WithProbe(seen, BindingMismatch) == []
    ensures AfterSnapshot(intent, seen) ==
            AfterDiscard(intent, WithProbe(seen, Missing),
                         Sorted(SameHash(WithProbe(seen, BoundPending), intent.actionHash)),
                         OtherHash(WithProbe(seen, BoundPending), intent.actionHash), [])
  {
  }

  lemma DiscardedAll(intent: Intent, same: seq<Request>, others: seq<Request>, cleared: seq<Cleared>)
    ensures AfterDiscard(intent, [], same, others, cleared) ==
            if |same| > 0 then AfterDestroy(intent, same[1..], Some(same[0]), cleared, |same[1..]| > 0)
            else AfterDestroy(intent, others, None, cleared, |others| > 0)
  {
  }

  lemma DestroyedAll(intent: Intent, canonical: Option<Request>, cleared: seq<Cleared>, collapsed: bool)
    ensures AfterDestroy(intent, [], canonical, cleared, collapsed) ==
            match canonical
            case Some(live) =>
              Done(Decided(Verdict(OutPending, if collapsed then Some(DuplicateCollapsed) else None, Some(live),
                                   None, cleared, [])))
            case None => Producer(Reserving(intent, cleared))
  {
  }

  lemma OpeningSteps(intent: Intent, listed: seq<Request>)
    ensures Next(Producer(Waiting(intent)), Held(true)) == Some(Producer(Checking(intent)))
    ensures Next(Producer(Waiting(intent)), Held(false))
            == Some(Done(Decided(Verdict(OutDeferred, Some(LeaseHeld), None, None, [], []))))
    ensures Next(Producer(Checking(intent)), JournalRead(false)) == Some(Producer(Listing(intent)))
    ensures Next(Producer(Checking(intent)), JournalRead(true))
            == Some(Done(Decided(Verdict(OutRefused, Some(PostingJournalStale), None, None, [], []))))
    ensures Next(Producer(Listing(intent)), ListFailed)
            == Some(Done(Decided(Verdict(OutRefused, Some(StoreUnreadable), None, None, [], []))))
    ensures Next(Producer(Listing(intent)), Listed(listed)) ==
            Some(if |listed| == 0 then AfterSnapshot(intent, []) else Producer(Probing(intent, listed, [])))
  {
  }

  lemma HeldSnapshot(intent: Intent, seen: seq<Seen>)
    ensures DecidedOf(seen) != [] ==>
              AfterSnapshot(intent, seen)
                  == Done(Decided(Verdict(OutDeferred, Some(OwnerDecided), None, None, [], DecidedOf(seen))))
    ensures DecidedOf(seen) == [] && WithProbe(seen, Unverifiable) != [] ==>
              AfterSnapshot(intent, seen)
                  == Done(Decided(Verdict(OutDeferred, Some(NotVerifiable), None, None, [],
                                          WithProbe(seen, Unverifiable))))
    ensures DecidedOf(seen) == [] && WithProbe(seen, Unverifiable) == [] && WithProbe(seen, BindingMismatch) != [] ==>
              AfterSnapshot(intent, seen)
                  == Done(Decided(Verdict(OutRefused, Some(Mismatched), None, None, [],
                                          WithProbe(seen, BindingMismatch))))
  {
  }

  lemma FollowNothing(start: Pc)
    ensures Follow(start, []) == Some(start)
  {
  }

  /** A refusal that cleared nothing leaves the records alone. */
  lemma NothingCleared(before: seq<Request>, intent: Intent)
    ensures forall outcome: Outcome, reason: Reason, blocked: seq<Request>
              | outcome.OutDeferred? || outcome.OutRefused? ::
              Accounts(before, before, intent, Decided(Verdict(outcome, Some(reason), None, None, [], blocked)), [])
  {
    assert before == WithoutAll(before, []) + [];
  }

  lemma SnapshotIs(seen: seq<Seen>, requests: seq<Request>)
    requires |seen| == |requests| && forall k :: 0 <= k < |seen| ==> seen[k].request == requests[k]
    ensures Requests(seen) == requests
  {
    RequestsAt(seen);
  }

  lemma FreshContinues(key: Key, todo: seq<Request>)
    ensures AfterFresh(key, todo) == if |todo| == 0 then Done(Superseded(None)) else Supersede(FreshProbing(key, todo))
  {
  }

  lemma ProbeSteps(intent: Intent, todo: seq<Request>, seen: seq<Seen>, p: Probe)
    requires |todo| > 0
    ensures Next(Producer(Probing(intent, todo, seen)), Probed(todo[0], p))
            == Some(if |todo| == 1 then AfterSnapshot(intent, seen + [Seen(todo[0], p)])
                    else Producer(Probing(intent, todo[1..], seen + [Seen(todo[0], p)])))
  {
    hide AfterSnapshot;
  }

  /** The effects of posting carry the answers of their two positions. */
  lemma PostGives(a: Answer, b: Answer, c: Answer, d: Answer, reservation: Reservation, record: Request)
    requires reservation.at == a.at
    ensures Gives(a, Reserved(reservation))
    ensures b.fails ==> Gives(b, PostFailed(b.leaked))
    ensures !b.fails ==> Gives(b, Posted(b.messageId))
    ensures Gives(c, Committed(record)) && Gives(d, JournalCleared)
  {
  }

  lemma RetireGives(a: Answer, read: StoreRead)
    ensures (read.Unreadable? <==> !a.readable) ==> Gives(a, StoreMatched(read))
    ensures Gives(a, Audited(!a.fails)) && Gives(a, Unlinked(!a.fails))
  {
  }

  /** How consume and abandon begin, up to the reading of the record. */
  lemma RetireOpens(key: Key, audit: bool)
    ensures Next(Retire(RetireWaiting(key, audit)), Held(true)) == Some(Retire(RetireReading(key, audit)))
    ensures Next(Retire(RetireWaiting(key, audit)), Held(false)) == Some(Done(Retired(RetireLeaseHeld)))
    ensures var reading := Retire(RetireReading(key, audit));
            && Next(reading, StoreMatched(Unreadable)) == Some(Done(Retired(RetireUnreadable)))
            && Next(reading, StoreMatched(Absent)) == Some(Done(Retired(RecordAbsent)))
            && Next(reading, StoreMatched(Other))
               == Some(Done(Retired(if audit then RetireMismatch else RecordSuperseded)))
  {
  }

  /** How they go on with the record they found. */
  lemma RetireCloses(key: Key, r: Request, audit: bool)
    requires r.key == key
    ensures Next(Retire(RetireReading(key, audit)), StoreMatched(Match(r)))
            == Some(Retire(if audit then RetireAuditing(key, r) else RetireUnlinking(key, r, false)))
    ensures Next(Retire(RetireAuditing(key, r)), Audited(true)) == Some(Retire(RetireUnlinking(key, r, true)))
    ensures Next(Retire(RetireAuditing(key, r)), Audited(false)) == Some(Done(Retired(AuditFailed)))
    ensures Next(Retire(RetireUnlinking(key, r, audit)), Unlinked(true))
            == Some(Done(Retired(if audit then Abandoned else Consumed)))
    ensures Next(Retire(RetireUnlinking(key, r, audit)), Unlinked(false)) == Some(Done(Retired(DropFailed)))
  {
  }

  class Gate {
    var records: seq<Request>
    var trace: seq<Effect>
    const world: nat -> Answer

    constructor (records: seq<Request>, world: nat -> Answer)
      ensures this.records == records && trace == [] && this.world == world
    {
      this.records := records;
      this.trace := [];
      this.world := world;
    }

    /** Every effect carries the answer that the environment gave at its position. */
    ghost predicate Faithful()
      reads this
    {
      AllGiven(world, trace)
    }

    method Hold() returns (owned: bool)
      modifies this`trace
      ensures old(Faithful()) ==> Faithful()
      ensures trace == old(trace) + [Held(owned)] && owned == world(|old(trace)|).granted
    {
      owned := world(|trace|).granted;
      trace := trace + [Held(owned)];
    }

    method JournalOutstanding() returns (stale: bool)
      modifies this`trace
      ensures old(Faithful()) ==> Faithful()
      ensures trace == old(trace) + [JournalRead(stale)] && stale == world(|old(trace)|).stale
    {
      stale := world(|trace|).stale;
      trace := trace + [JournalRead(stale)];
    }

    method Outstanding(key: Key) returns (found: Option<seq<Request>>)
      modifies this`trace
      ensures old(Faithful()) ==> Faithful()
      ensures trace == old(trace) + [if found.Some? then Listed(found.value) else ListFailed]
      ensures found.Some? ==> found.value == OfKey(records, key)
      ensures found.Some? <==> world(|old(trace)|).readable
    {
      if world(|trace|).readable {
        found := Some(OfKey(records, key));
        trace := trace + [Listed(found.value)];
      } else {
        found := None;
        trace := trace + [ListFailed];
      }
    }

    /** Transport errors read as `Unverifiable`. */
    method DoProbe(r: Request) returns (p: Probe)
      modifies this`trace
      ensures old(Faithful()) ==> Faithful()
      ensures trace == old(trace) + [Probed(r, p)] && p == world(|old(trace)|).probe
    {
      p := world(|trace|).probe;
      trace := trace + [Probed(r, p)];
    }

    method Delete(r: Request) returns (ok: bool)
      modifies this`trace
      ensures old(Faithful()) ==> Faithful()
      ensures ok ==> trace == old(trace) + [Deleted(r)]
      ensures !ok ==> |trace| == |old(trace)| + 1 && trace[..|old(trace)|] == old(trace)
                      && trace[|old(trace)|].DeleteFailed? && trace[|old(trace)|].request == r
    {
      var answer := world(|trace|);
      ok := !answer.fails;
      trace := trace + [if ok then Deleted(r) else DeleteFailed(r, answer.gone)];
    }

    method Drop(r: Request)
      modifies this
      ensures old(Faithful()) ==> Faithful()
      ensures trace == old(trace) + [Dropped(r)]
      ensures records == Without(old(records), r)
    {
      records := Without(records, r);
      trace := trace + [Dropped(r)];
    }

    /** One iteration of `_destroy`. */
    method DestroyOne(ghost start: Pc, intent: Intent, doomed: seq<Request>, canonical: Option<Request>,
                      cleared: seq<Cleared>)
      returns (halted: Option<Verdict>, step: Cleared)
      requires |doomed| > 0
      requires Follow(start, trace) == Some(Producer(Destroying(intent, doomed, canonical, cleared)))
      modifies this
      ensures old(Faithful()) ==> Faithful()
      ensures step.request == doomed[0]
      ensures halted.Some? ==> Follow(start, trace) == Some(Done(Decided(halted.value))) && records == old(records)
      ensures halted.Some? ==> halted.value.cleared == cleared && !halted.value.outcome.OutPosted?
                               && !halted.value.outcome.OutPending? && halted.value.posted == None
      ensures halted.None? ==>
                Follow(start, trace)
                == Some(AfterDestroy(intent, doomed[1..], canonical, cleared + [step], true))
      ensures halted.None? ==> records == Without(old(records), doomed[0])
    {
      hide AfterSnapshot, AfterDiscard, AfterDestroy, Without, NextWatcher, NextSupersede, NextRetire, Follow, AllGiven;
      var request := doomed[0];
      step := Cleared(request, MessageMissing);
      var probe := DoProbe(request);
      FollowSnoc(start, old(trace), Probed(request, probe));
      ghost var probed := trace;
      match probe {
        case Approved | Cancelled =>
          halted := Some(Verdict(OutDeferred, Some(OwnerDecided), None, None, cleared, [request]));
        case Unverifiable =>
          halted := Some(Verdict(OutDeferred, Some(NotVerifiable), None, None, cleared, [request]));
        case BindingMismatch =>
          halted := Some(Verdict(OutRefused, Some(Mismatched), None, None, cleared, [request]));
        case Missing =>
          Drop(request);
          FollowSnoc(start, probed, Dropped(request));
          halted := None;
        case BoundPending =>
          var ok := Delete(request);
          ghost var e := trace[|probed|];
          assert trace == probed + [e];
          FollowSnoc(start, probed, e);
          if ok {
            ghost var deleted := trace;
            Drop(request);
            FollowSnoc(start, deleted, Dropped(request));
            halted, step := None, Cleared(request, DestroyReason(canonical));
          } else {
            halted := Some(Verdict(OutRefused, Some(SupersedeFailed), None, None, cleared, [request]));
          }
      }
    }

    /** `_destroy`: probe each doomed request once more, delete the bound and pending ones, and
        drop what is gone.  Any other probe, or a failed deletion, halts with a verdict. */
    method Destroy(ghost start: Pc, intent: Intent, doomed: seq<Request>, canonical: Option<Request>,
                   prior: seq<Cleared>, ghost before: seq<Request>)
      returns (halted: Option<Verdict>, cleared: seq<Cleared>)
      requires Follow(start, trace) == Some(AfterDestroy(intent, doomed, canonical, prior, |doomed| > 0))
      requires records == WithoutAll(before, prior)
      modifies this
      ensures old(Faithful()) ==> Faithful()
      ensures halted.Some? ==>
                Follow(start, trace) == Some(Done(Decided(halted.value)))
                && halted.value.cleared == cleared
                && !halted.value.outcome.OutPosted? && !halted.value.outcome.OutPending?
                && halted.value.posted == None
      ensures halted.None? ==> Follow(start, trace) == Some(AfterDestroy(intent, [], canonical, cleared, |doomed| > 0))
      ensures records == WithoutAll(before, cleared)
      ensures |prior| <= |cleared| <= |prior| + |doomed| && cleared[..|prior|] == prior
      ensures forall k :: 0 <= k < |cleared| - |prior| ==> cleared[|prior| + k].request == doomed[k]
      ensures halted.None? ==> |cleared| == |prior| + |doomed|
    {
      hide AfterSnapshot, AfterDiscard, Next, Without, WithoutAll, Follow, AllGiven;
      cleared := prior;
      var i := 0;
      while i < |doomed|
        invariant 0 <= i <= |doomed| && (old(Faithful()) ==> Faithful())
        invariant Follow(start, trace) == Some(AfterDestroy(intent, doomed[i..], canonical, cleared, |doomed| > 0))
        invariant records == WithoutAll(before, cleared)
        invariant |cleared| == |prior| + i && cleared[..|prior|] == prior
        invariant forall k :: 0 <= k < i ==> cleared[|prior| + k].request == doomed[k]
      {
        var step: Cleared;
        halted, step := DestroyOne(start, intent, doomed[i..], canonical, cleared);
        if halted.Some? { return; }
        assert doomed[i..][1..] == doomed[i + 1..];
        WithoutAllSnoc(before, cleared, step);
        cleared := cleared + [step];
        i := i + 1;
      }
      halted := None;
      assert doomed[i..] == [];
    }

    /** Probe every outstanding request once, in order. */
    method Snapshot(ghost start: Pc, intent: Intent, requests: seq<Request>) returns (seen: seq<Seen>)
      requires Follow(start, trace) == Some(if |requests| == 0 then AfterSnapshot(intent, [])
                                            else Producer(Probing(intent, requests, [])))
      modifies this`trace
      ensures old(Faithful()) ==> Faithful()
      ensures Follow(start, trace) == Some(AfterSnapshot(intent, seen))
      ensures seen == SeenBy(world, requests, |old(trace)|)
    {
      hide AfterSnapshot, AfterDiscard, Follow, Next, AllGiven, AfterDestroy;
      seen := [];
      var i := 0;
      while i < |requests|
        invariant 0 <= i <= |requests| && (old(Faithful()) ==> Faithful())
        invariant |trace| == |old(trace)| + i && seen == SeenBy(world, requests[..i], |old(trace)|)
        invariant Follow(start, trace) ==
                  Some(if i == |requests| then AfterSnapshot(intent, seen)
                       else Producer(Probing(intent, requests[i..], seen)))
        invariant |seen| == i && forall k :: 0 <= k < i ==> seen[k].request == requests[k]
      {
        ghost var before := trace;
        ProbeSteps(intent, requests[i..], seen, world(|trace|).probe);
        var probe := DoProbe(requests[i]);
        FollowSnoc(start, before, Probed(requests[i], probe));
        assert requests[i..][1..] == requests[i + 1..];
        assert requests[..i + 1][..i] == requests[..i];
        seen := seen + [Seen(requests[i], probe)];
        i := i + 1;
      }
      assert requests[..i] == requests;
    }

    /** Drop the records whose message the snapshot found missing. */
    method Discard(ghost start: Pc, intent: Intent, gone: seq<Request>, same: seq<Request>, others: seq<Request>)
      returns (cleared: seq<Cleared>)
      requires Follow(start, trace) == Some(AfterDiscard(intent, gone, same, others, []))
      modifies this
      ensures old(Faithful()) ==> Faithful()
      ensures Follow(start, trace) == Some(AfterDiscard(intent, [], same, others, cleared))
      ensures records == WithoutAll(old(records), cleared)
      ensures Dropping(cleared, gone)
    {
      hide AfterSnapshot, Follow, NextWatcher, NextSupersede, NextRetire, Without, AfterDestroy, AllGiven;
      cleared := [];
      var i := 0;
      while i < |gone|
        invariant 0 <= i <= |gone| && (old(Faithful()) ==> Faithful())
        invariant Follow(start, trace) == Some(AfterDiscard(intent, gone[i..], same, others, cleared))
        invariant records == WithoutAll(old(records), cleared)
        invariant |cleared| == i && forall k :: 0 <= k < i ==> cleared[k] == Cleared(gone[k], MessageMissing)
      {
        ghost var before := trace;
        Drop(gone[i]);
        FollowSnoc(start, before, Dropped(gone[i]));
        assert gone[i..][1..] == gone[i + 1..];
        WithoutAllSnoc(old(records), cleared, Cleared(gone[i], MessageMissing));
        cleared := cleared + [Cleared(gone[i], MessageMissing)];
        i := i + 1;
      }
      assert gone[i..] == [];
    }

    /** Reserve, post, commit, clear the reservation.  A failed post raises and leaves the
        reservation outstanding. */
    method Post(ghost start: Pc, intent: Intent, cleared: seq<Cleared>)
        returns (result: Result, ghost committed: seq<Request>)
      requires Follow(start, trace) == Some(Producer(Reserving(intent, cleared)))
      modifies this
      ensures old(Faithful()) ==> Faithful()
      ensures Follow(start, trace) == Some(Done(result))
      ensures records == old(records) + committed
      ensures result == Raised ==> committed == [] && ReservationLeft(trace)
      ensures result != Raised ==>
                && |committed| == 1
                && result == Decided(Verdict(OutPosted, None, None, Some(committed[0].messageId), cleared, []))
                && committed[0].key == intent.key && committed[0].actionHash == intent.actionHash
                && committed[0].channelId == intent.channelId
    {
      hide Follow, Next, AllGiven, Gives;
      var reservation := Reservation(intent.key, intent.actionHash, world(|trace|).at);
      var answer := world(|trace| + 1);
      var record := Bound(intent, reservation, answer.messageId);
      PostGives(world(|trace|), answer, world(|trace| + 2), world(|trace| + 3), reservation, record);
      PostSteps(intent, cleared, reservation.at, answer.messageId, answer.leaked);
      ghost var t0 := trace;
      trace := trace + [Reserved(reservation)];
      FollowSnoc(start, t0, Reserved(reservation));
      GivenOn(world, t0, Reserved(reservation));
      ghost var t1 := trace;
      if answer.fails {
        trace := trace + [PostFailed(answer.leaked)];
        FollowSnoc(start, t1, PostFailed(answer.leaked));
        GivenOn(world, t1, PostFailed(answer.leaked));
        return Raised, [];
      }
      trace := trace + [Posted(answer.messageId)];
      FollowSnoc(start, t1, Posted(answer.messageId));
      GivenOn(world, t1, Posted(answer.messageId));
      ghost var t2 := trace;
      records, committed := records + [record], [record];
      trace := trace + [Committed(record)];
      FollowSnoc(start, t2, Committed(record));
      GivenOn(world, t2, Committed(record));
      ghost var t3 := trace;
      trace := trace + [JournalCleared];
      FollowSnoc(start, t3, JournalCleared);
      GivenOn(world, t3, JournalCleared);
      result := Decided(Verdict(OutPosted, None, None, Some(answer.messageId), cleared, []));
    }

    /** A bound request already carries this content: keep the earliest, collapse the others. */
    method Collapse(ghost start: Pc, intent: Intent, seen: seq<Seen>, same: seq<Request>, dropped: seq<Cleared>,
                    ghost before: seq<Request>)
      returns (result: Result, ghost committed: seq<Request>)
      requires FreeSnapshot(before, intent.key, seen)
      requires same == Sorted(SameHash(WithProbe(seen, BoundPending), intent.actionHash)) && |same| > 0
      requires Dropping(dropped, WithProbe(seen, Missing)) && records == WithoutAll(before, dropped)
      requires Follow(start, trace) == Some(AfterDestroy(intent, same[1..], Some(same[0]), dropped, |same[1..]| > 0))
      modifies this
      ensures old(Faithful()) ==> Faithful()
      ensures Follow(start, trace) == Some(Done(result))
      ensures Accounts(before, records, intent, result, committed)
      ensures result != Raised
    {
      hide Follow, AfterSnapshot, AfterDiscard, AfterDestroy, WithoutAll, OfKey, KeptOnly, DistinctIds, FreeSnapshot,
          SameHash, WithProbe, Sorted, AllGiven;
      var halted, cleared := Destroy(start, intent, same[1..], Some(same[0]), dropped, before);
      ClearedByBoth(cleared, dropped, WithProbe(seen, Missing), same[1..]);
      ClearedWasListed(before, intent.key, seen, intent.actionHash, cleared, same[1..]);
      committed := [];
      assert records == WithoutAll(before, cleared) + committed;
      if halted.Some? {
        result := Decided(halted.value);
      } else {
        DestroyedAll(intent, Some(same[0]), cleared, |same[1..]| > 0);
        result := Decided(Verdict(OutPending, if |same| > 1 then Some(DuplicateCollapsed) else None, Some(same[0]),
                                  None, cleared, []));
        if DistinctIds(before) {
          CanonicalKept(before, intent.key, seen, intent.actionHash, cleared);
        }
      }
    }

    /** No bound request carries this content: destroy the others, then post. */
    method Replace(ghost start: Pc, intent: Intent, seen: seq<Seen>, others: seq<Request>, dropped: seq<Cleared>,
                   ghost before: seq<Request>)
      returns (result: Result, ghost committed: seq<Request>)
      requires FreeSnapshot(before, intent.key, seen)
      requires Sorted(SameHash(WithProbe(seen, BoundPending), intent.actionHash)) == []
      requires others == OtherHash(WithProbe(seen, BoundPending), intent.actionHash)
      requires Dropping(dropped, WithProbe(seen, Missing)) && records == WithoutAll(before, dropped)
      requires Follow(start, trace) == Some(AfterDestroy(intent, others, None, dropped, |others| > 0))
      modifies this
      ensures old(Faithful()) ==> Faithful()
      ensures Follow(start, trace) == Some(Done(result))
      ensures Accounts(before, records, intent, result, committed)
      ensures result == Raised ==> ReservationLeft(trace)
    {
      hide Follow, AfterSnapshot, AfterDiscard, AfterDestroy, WithoutAll, OfKey, KeptOnly, DistinctIds, FreeSnapshot,
          SameHash, WithProbe, Sorted, OtherHash, AllGiven;
      var halted, cleared := Destroy(start, intent, others, None, dropped, before);
      ClearedByBoth(cleared, dropped, WithProbe(seen, Missing), others);
      ClearedWasListed(before, intent.key, seen, intent.actionHash, cleared, others);
      if halted.Some? {
        result, committed := Decided(halted.value), [];
        assert records == WithoutAll(before, cleared) + committed;
      } else {
        DestroyedAll(intent, None, cleared, |others| > 0);
        SlotEmptied(before, intent.key, seen, intent.actionHash, cleared);
        result, committed := Post(start, intent, cleared);
        if result == Raised {
          assert records == WithoutAll(before, cleared);
        } else {
          OfKeySnoc(WithoutAll(before, cleared), committed[0]);
          assert committed == [committed[0]];
          assert OfKey(records, intent.key) == committed;
        }
      }
    }

    /** The part of `request_owner_approval` after the probes. */
    method Settle(ghost start: Pc, intent: Intent, seen: seq<Seen>)
      returns (result: Result, ghost committed: seq<Request>)
      requires Follow(start, trace) == Some(AfterSnapshot(intent, seen))
      requires Requests(seen) == OfKey(records, intent.key)
      modifies this
      ensures old(Faithful()) ==> Faithful()
      ensures Follow(start, trace) == Some(Done(result))
      ensures Accounts(old(records), records, intent, result, committed)
      ensures result == Raised ==> ReservationLeft(trace)
      ensures !Free(seen) ==> result == Decided(HeldVerdict(seen)) && records == old(records)
    {
      hide Follow, AfterSnapshot, AfterDiscard, AfterDestroy, WithoutAll, OfKey, KeptOnly, DistinctIds, SameHash,
          WithProbe, Sorted, OtherHash, DecidedOf, Next, Accounts, AllGiven, Free, Decides, Sees;
      GroupsMeet(seen);
      HeldSnapshot(intent, seen);
      NothingCleared(records, intent);
      committed := [];
      if DecidedOf(seen) != [] {
        return Decided(Verdict(OutDeferred, Some(OwnerDecided), None, None, [], DecidedOf(seen))), [];
      }
      if WithProbe(seen, Unverifiable) != [] {
        return Decided(Verdict(OutDeferred, Some(NotVerifiable), None, None, [], WithProbe(seen, Unverifiable))), [];
      }
      if WithProbe(seen, BindingMismatch) != [] {
        return Decided(Verdict(OutRefused, Some(Mismatched), None, None, [], WithProbe(seen, BindingMismatch))), [];
      }
      ghost var before := records;
      var bound, gone := WithProbe(seen, BoundPending), WithProbe(seen, Missing);
      var same, others := Sorted(SameHash(bound, intent.actionHash)), OtherHash(bound, intent.actionHash);
      UnheldSnapshot(intent, seen);
      var dropped := Discard(start, intent, gone, same, others);
      DiscardedAll(intent, same, others, dropped);
      if |same| > 0 {
        result, committed := Collapse(start, intent, seen, same, dropped, before);
      } else {
        result, committed := Replace(start, intent, seen, others, dropped, before);
      }
    }

    /** `request_owner_approval`. */
    method RequestOwnerApproval(intent: Intent) returns (result: Result, ghost committed: seq<Request>)
      requires trace == []
      modifies this
      ensures Faithful()
      // the effects and the result are exactly those of the lifecycle automaton
      ensures Follow(Producer(Waiting(intent)), trace) == Some(Done(result))
      ensures Accounts(old(records), records, intent, result, committed)
      ensures result == Raised ==> ReservationLeft(trace)
      // the effects explain the verdict and justify what was cleared
      ensures result.Decided? ==> Explains(intent, trace, result.verdict)
      ensures result.Decided? ==> AllJustified(result.verdict.cleared, trace, intent.actionHash)
      // the answers of the environment decide it
      ensures !Opens(world) ==> result == Decided(ClosedVerdict(world)) && records == old(records)
      ensures Opens(world) ==>
                var seen := SeenBy(world, OfKey(old(records), intent.key), 3);
                !Free(seen) ==> result == Decided(HeldVerdict(seen)) && records == old(records)
    {
      hide Follow, AfterSnapshot, OfKey, Next, Accounts, AllGiven, Gives, Free, HeldVerdict, Explains, AllJustified,
          Opens, ClosedVerdict, ReservationLeft, Requests, SeenBy;
      NothingGiven(world);
      ClosedIs(world);
      ghost var start := Producer(Waiting(intent));
      committed := [];
      OpeningSteps(intent, OfKey(records, intent.key));
      NothingCleared(records, intent);
      FollowNothing(start);
      label call: {
        var owned := Hold();
        FollowSnoc(start, [], Held(owned));
        assert [] + [Held(owned)] == trace;
        if !owned {
          result := Decided(Verdict(OutDeferred, Some(LeaseHeld), None, None, [], []));
          break call;
        }
        ghost var t1 := trace;
        var stale := JournalOutstanding();
        FollowSnoc(start, t1, JournalRead(stale));
        if stale {
          result := Decided(Verdict(OutRefused, Some(PostingJournalStale), None, None, [], []));
          break call;
        }
        ghost var t2 := trace;
        var found := Outstanding(intent.key);
        FollowSnoc(start, t2, trace[|t2|]);
        if found.None? {
          result := Decided(Verdict(OutRefused, Some(StoreUnreadable), None, None, [], []));
          break call;
        }
        var seen := Snapshot(start, intent, found.value);
        SnapshotIs(seen, found.value);
        result, committed := Settle(start, intent, seen);
      }
      if result.Decided? {
        VerdictIsExplained(intent, trace, result.verdict);
        ClearedIsJustified(intent, trace, result.verdict);
      }
    }

    /** `resolve_owner_decision`: apply and retire a decided request, touch nothing otherwise. */
    method ResolveOwnerDecision(request: Request) returns (consumed: bool, skipped: bool)
      requires trace == []
      modifies this
      ensures Faithful()
      ensures Follow(Watcher(WatchWaiting(request)), trace) == Some(Done(Watched(consumed, skipped)))
      ensures records == if consumed then Without(old(records), request) else old(records)
      ensures skipped <==> !world(0).granted
      ensures consumed <==> world(0).granted && OwnerHasDecided(world(1).probe)
      ensures consumed <==> Applied(request, world(1).probe) in trace
      ensures forall d :: Applied(request, d) in trace ==> OwnerHasDecided(d) && d == world(1).probe
    {
      hide Follow, Without, AllGiven;
      NothingGiven(world);
      ghost var start := Watcher(WatchWaiting(request));
      FollowNothing(start);
      var owned := Hold();
      FollowSnoc(start, [], Held(owned));
      assert [] + [Held(owned)] == trace;
      if !owned { return false, true; }
      ghost var t1 := trace;
      var decision := DoProbe(request);
      FollowSnoc(start, t1, Probed(request, decision));
      if !OwnerHasDecided(decision) { return false, false; }
      ghost var t2 := trace;
      trace := trace + [Applied(request, decision)];
      assert trace[2] == Applied(request, decision);
      FollowSnoc(start, t2, Applied(request, decision));
      GivenOn(world, t2, Applied(request, decision));
      ghost var t3 := trace;
      Drop(request);
      FollowSnoc(start, t3, Dropped(request));
      assert trace[2] == Applied(request, decision);
      return true, false;
    }

    /** `_clear`: destroy one request, or name why it survives untouched. */
    method ClearOne(ghost start: Pc, key: Key, todo: seq<Request>) returns (refusal: Option<Reason>)
      requires |todo| > 0 && Follow(start, trace) == Some(Supersede(FreshProbing(key, todo)))
      modifies this
      ensures old(Faithful()) ==> Faithful()
      ensures refusal.Some? ==> Follow(start, trace) == Some(Done(Superseded(refusal))) && records == old(records)
      ensures refusal.None? ==>
                Follow(start, trace) == Some(AfterFresh(key, todo[1..]))
                && records == Without(old(records), todo[0])
    {
      hide Follow, Without, AfterFresh, NextProducer, NextWatcher, NextRetire, AllGiven;
      var request := todo[0];
      ghost var t0 := trace;
      var probe := DoProbe(request);
      FollowSnoc(start, t0, Probed(request, probe));
      ghost var t1 := trace;
      match probe {
        case Approved | Cancelled => refusal := Some(OwnerDecided);
        case Unverifiable => refusal := Some(NotVerifiable);
        case BindingMismatch => refusal := Some(Mismatched);
        case Missing =>
          Drop(request);
          FollowSnoc(start, t1, Dropped(request));
          refusal := None;
        case BoundPending =>
          var ok := Delete(request);
          ghost var e := trace[|t1|];
          assert trace == t1 + [e];
          FollowSnoc(start, t1, e);
          if ok {
            ghost var t2 := trace;
            Drop(request);
            FollowSnoc(start, t2, Dropped(request));
            refusal := None;
          } else {
            refusal := Some(SupersedeFailed);
          }
      }
    }

    /** `supersede` (`--fresh`): clear every outstanding request of the key, stopping at the first
        one that must survive. */
    method SupersedeOutstanding(key: Key) returns (refusal: Option<Reason>)
      requires trace == []
      modifies this
      ensures Faithful()
      ensures Follow(Supersede(FreshWaiting(key)), trace) == Some(Done(Superseded(refusal)))
      ensures ExplainsFresh(trace, refusal)
      ensures refusal.None? ==> OfKey(records, key) == []
      ensures forall x: Request :: x.key != key ==> (x in records <==> x in old(records))
      ensures forall x: Request :: x in records ==> x in old(records)
    {
      hide Follow, OfKey, Without, AfterFresh, AllGiven, ExplainsFresh;
      NothingGiven(world);
      ghost var start := Supersede(FreshWaiting(key));
      FollowNothing(start);
      var owned := Hold();
      FollowSnoc(start, [], Held(owned));
      assert [] + [Held(owned)] == trace;
      if !owned {
        RefusalIsExplained(key, trace, Some(LeaseHeld));
        return Some(LeaseHeld);
      }
      ghost var t1 := trace;
      var found := Outstanding(key);
      FollowSnoc(start, t1, trace[|t1|]);
      if found.None? {
        RefusalIsExplained(key, trace, Some(StoreUnreadable));
        return Some(StoreUnreadable);
      }
      var todo := found.value;
      ghost var before := records;
      var i := 0;
      while i < |todo|
        invariant 0 <= i <= |todo| && Faithful()
        invariant Follow(start, trace) == Some(AfterFresh(key, todo[i..]))
        invariant forall x :: x in records <==> x in before && forall k :: 0 <= k < i ==> !SameBinding(x, todo[k])
      {
        FreshContinues(key, todo[i..]);
        ghost var earlier := records;
        refusal := ClearOne(start, key, todo[i..]);
        assert todo[i..][1..] == todo[i + 1..];
        forall x ensures x in Without(earlier, todo[i]) <==> x in earlier && !SameBinding(x, todo[i]) {
          WithoutContains(earlier, todo[i], x);
        }
        forall k | 0 <= k < |todo| ensures todo[k].key == key {
          OfKeyContains(before, key, todo[k]);
        }
        if refusal.Some? {
          RefusalIsExplained(key, trace, refusal);
          return;
        }
        i := i + 1;
      }
      refusal := None;
      FreshContinues(key, todo[i..]);
      RefusalIsExplained(key, trace, None);
      forall k | 0 <= k < |todo| ensures todo[k].key == key {
        OfKeyContains(before, key, todo[k]);
      }
      forall x | x in before && x.key == key ensures exists k :: 0 <= k < |todo| && SameBinding(x, todo[k]) {
        OfKeyContains(before, key, x);
        var k :| 0 <= k < |todo| && todo[k] == x;
        assert SameBinding(x, todo[k]);
      }
      OfKeyNone(records, key);
    }

    /** `consume` (audit = false) and `abandon` (audit = true).  `digestOf` reads the raw stored
        hash field of a record. */
    method RetireRecord(key: Key, digestOf: Request -> nat, digest: nat, messageId: nat, audit: bool)
        returns (outcome: Retirement)
      requires trace == []
      requires |OfKey(records, key)| <= 1
      modifies this
      ensures Faithful()
      ensures Follow(Retire(RetireWaiting(key, audit)), trace) == Some(Done(Retired(outcome)))
      // retired exactly when the lease, the store, the record, the audit line and the unlink allow it
      ensures var stored := OfKey(old(records), key);
              outcome == Consumed || outcome == Abandoned <==>
                && world(0).granted && world(1).readable && |stored| == 1
                && digestOf(stored[0]) == digest && stored[0].messageId == messageId
                && (audit ==> !world(2).fails) && !world(if audit then 3 else 2).fails
      ensures outcome == RetireLeaseHeld <==> !world(0).granted
      ensures outcome == RetireUnreadable <==> world(0).granted && !world(1).readable
      ensures outcome == RecordAbsent <==> world(0).granted && world(1).readable && OfKey(old(records), key) == []
      ensures outcome == AuditFailed || outcome == RetireMismatch ==> audit
      ensures outcome == RecordSuperseded ==> !audit
      ensures outcome == RetireMismatch || outcome == RecordSuperseded <==>
                && world(0).granted && world(1).readable && OfKey(old(records), key) != []
                && (digestOf(OfKey(old(records), key)[0]) != digest
                    || OfKey(old(records), key)[0].messageId != messageId)
      ensures outcome == Consumed || outcome == Abandoned ==>
                && audit == outcome.Abandoned?
                && |OfKey(old(records), key)| == 1
                && (var r := OfKey(old(records), key)[0];
                    && r.messageId == messageId && digestOf(r) == digest
                    && records == Without(old(records), r))
      ensures outcome != Consumed && outcome != Abandoned ==> records == old(records)
      ensures outcome == Abandoned ==> |trace| >= 2 && trace[|trace| - 2] == Audited(true)
    {
      hide Follow, OfKey, Without, Next, AllGiven, Gives;
      NothingGiven(world);
      RetireOpens(key, audit);
      ghost var start := Retire(RetireWaiting(key, audit));
      FollowNothing(start);
      var owned := Hold();
      FollowSnoc(start, [], Held(owned));
      assert [] + [Held(owned)] == trace;
      if !owned { return RetireLeaseHeld; }
      ghost var t1 := trace;
      var stored := OfKey(records, key);
      var read: StoreRead;
      if !world(|trace|).readable {
        read := Unreadable;
      } else if |stored| == 0 {
        read := Absent;
      } else if digestOf(stored[0]) != digest || stored[0].messageId != messageId {
        read := Other;
      } else {
        read := Match(stored[0]);
        OfKeyContains(records, key, stored[0]);
      }
      trace := trace + [StoreMatched(read)];
      FollowSnoc(start, t1, StoreMatched(read));
      RetireGives(world(|t1|), read);
      GivenOn(world, t1, StoreMatched(read));
      match read {
        case Unreadable => return RetireUnreadable;
        case Absent => return RecordAbsent;
        case Other => return if audit then RetireMismatch else RecordSuperseded;
        case Match(_) =>
      }
      RetireCloses(key, stored[0], audit);
      if audit {
        ghost var t2 := trace;
        var ok := !world(|trace|).fails;
        trace := trace + [Audited(ok)];
        FollowSnoc(start, t2, Audited(ok));
        RetireGives(world(|t2|), read);
        GivenOn(world, t2, Audited(ok));
        if !ok { return AuditFailed; }
      }
      ghost var t3 := trace;
      var ok := !world(|trace|).fails;
      trace := trace + [Unlinked(ok)];
      FollowSnoc(start, t3, Unlinked(ok));
      RetireGives(world(|t3|), read);
      GivenOn(world, t3, Unlinked(ok));
      if !ok { return DropFailed; }
      records := Without(records, stored[0]);
      return if audit then Abandoned else Consumed;
    }
  }

  ghost predicate Dropping(dropped: seq<Cleared>, gone: seq<Request>) {
    |dropped| == |gone| && forall k :: 0 <= k < |gone| ==> dropped[k] == Cleared(gone[k], MessageMissing)
  }

  /** A reservation was written and not cleared. */
  ghost predicate ReservationLeft(trace: seq<Effect>) {
    |trace| >= 2 && trace[|trace| - 2].Reserved? && trace[|trace| - 1].PostFailed?
  }

  /** The record accounting of one producer call.  `committed` is what it bound, if anything. */
  ghost predicate Accounts(before: seq<Request>, after: seq<Request>, intent: Intent, result: Result,
                           committed: seq<Request>) {
    match result
    case Decided(v) =>
      // after = before - exactly the cleared + the posted one
      && after == WithoutAll(before, v.cleared) + committed
      && (forall c :: c in v.cleared ==> c.request in OfKey(before, intent.key))
      && (v.outcome.OutPosted? <==> committed != [])
      && (match v.outcome
          // posting needs an empty slot, and leaves the new binding as the key's only record
          case OutPosted => OfKey(after, intent.key) == committed && |committed| == 1
              && v.posted == Some(committed[0].messageId)
                            && committed[0].actionHash == intent.actionHash
                            && committed[0].channelId == intent.channelId
          // a live request with this content stays, and is the only one with this content
          case OutPending => DistinctIds(before) ==> KeptOnly(OfKey(after, intent.key), intent.actionHash, v.live)
          case OutDeferred => true
          case OutRefused => true)
    case _ => result == Raised && committed == [] && (exists cleared :: after == WithoutAll(before, cleared))
  }

  ghost predicate KeptOnly(rs: seq<Request>, hash: nat, live: Option<Request>) {
    && live.Some? && live.value in rs && live.value.actionHash == hash
    && forall r :: r in rs && r.actionHash == hash ==> r == live.value
  }
}
