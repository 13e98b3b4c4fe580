/** The owner-approval lifecycle as a deterministic automaton over observed effects.

    Every program that touches one approval key (the producer, the decision watcher, the
    `--fresh` supersede, consume and abandon) is a sequence of effects on the lease, the posting
    journal, the record store and the message surface.  `Next` says which effect a program at
    a given program counter may perform, and where it continues. */
module ApprovalProtocol {
  import opened Common

  type Key = string

  /** Message ids, hashes, channels and timestamps are only compared, so they are naturals
      standing for the source's strings in the source's order. */
  datatype Request = Request(key: Key, actionHash: nat, messageId: nat, channelId: nat, createdAt: nat)

  datatype Intent = Intent(key: Key, actionHash: nat, channelId: nat)

  datatype Reservation = Reservation(key: Key, actionHash: nat, at: nat)

  datatype Probe = BoundPending | Approved | Cancelled | Missing | BindingMismatch | Unverifiable

  datatype Reason =
    | LeaseHeld | OwnerDecided | NotVerifiable | Mismatched | StoreUnreadable | SupersedeFailed
    | PostingJournalStale | ContentChanged | MessageMissing | DuplicateCollapsed

  datatype Cleared = Cleared(request: Request, reason: Reason)

  datatype Outcome = OutPosted | OutPending | OutDeferred | OutRefused

  datatype Verdict = Verdict(
    outcome: Outcome,
    reason: Option<Reason>,
    live: Option<Request>,
    posted: Option<nat>,
    cleared: seq<Cleared>,
    blocked: seq<Request>)

  datatype Retirement = Consumed | Abandoned | RecordAbsent | RecordSuperseded | RetireMismatch | RetireUnreadable
      | RetireLeaseHeld | DropFailed | AuditFailed

  /** How a program ended: with a verdict, or by an exception that left the lease block. */
  datatype Result =
    | Decided(verdict: Verdict)
    | Watched(consumed: bool, skipped: bool)
    | Superseded(refusal: Option<Reason>)
    | Retired(outcome: Retirement)
    | Raised

  datatype StoreRead = Unreadable | Absent | Other | Match(request: Request)

  /** One observable effect, with the answer the environment gave. */
  datatype Effect =
    | Held(owned: bool)
    | JournalRead(outstanding: bool)
    | ListFailed
    | Listed(requests: seq<Request>)
    | Probed(request: Request, probe: Probe)
    | DeleteFailed(request: Request, gone: bool)   // the call failed; the message may be gone anyway
    | Deleted(request: Request)
    | Dropped(request: Request)
    | Reserved(reservation: Reservation)
    | PostFailed(leaked: Option<nat>)              // the call failed; a message may exist anyway
    | Posted(messageId: nat)
    | Committed(request: Request)
    | JournalCleared
    | Applied(request: Request, decision: Probe)
    | StoreMatched(read: StoreRead)
    | Audited(ok: bool)
    | Unlinked(ok: bool)

  datatype Seen = Seen(request: Request, probe: Probe)

  /** request_owner_approval */
  datatype ProducerPc =
    | Waiting(intent: Intent)
    | Checking(intent: Intent)
    | Listing(intent: Intent)
    | Probing(intent: Intent, todo: seq<Request>, seen: seq<Seen>)
    | Discarding(intent: Intent, gone: seq<Request>, same: seq<Request>, others: seq<Request>, cleared: seq<Cleared>)
    | Destroying(intent: Intent, doomed: seq<Request>, canonical: Option<Request>, cleared: seq<Cleared>)
    | Deleting(intent: Intent, doomed: seq<Request>, canonical: Option<Request>, cleared: seq<Cleared>)
    | Removing(intent: Intent, doomed: seq<Request>, canonical: Option<Request>, cleared: seq<Cleared>, why: Reason)
    | Reserving(intent: Intent, cleared: seq<Cleared>)
    | Posting(intent: Intent, reservation: Reservation, cleared: seq<Cleared>)
    | Committing(intent: Intent, reservation: Reservation, messageId: nat, cleared: seq<Cleared>)
    | Clearing(intent: Intent, reservation: Reservation, messageId: nat, cleared: seq<Cleared>)

  /** resolve_owner_decision */
  datatype WatchPc =
    | WatchWaiting(request: Request)
    | WatchProbing(request: Request)
    | WatchApplying(request: Request, decision: Probe)
    | WatchDropping(request: Request)

  /** supersede */
  datatype FreshPc =
    | FreshWaiting(key: Key)
    | FreshListing(key: Key)
    | FreshProbing(key: Key, todo: seq<Request>)
    | FreshDeleting(key: Key, todo: seq<Request>)
    | FreshDropping(key: Key, todo: seq<Request>)

  /** consume (audit = false) and abandon (audit = true) */
  datatype RetirePc =
    | RetireWaiting(key: Key, audit: bool)
    | RetireReading(key: Key, audit: bool)
    | RetireAuditing(key: Key, found: Request)
    | RetireUnlinking(key: Key, found: Request, audit: bool)

  datatype Pc =
    | Producer(producer: ProducerPc)
    | Watcher(watch: WatchPc)
    | Supersede(renew: FreshPc)
    | Retire(retire: RetirePc)
    | Done(result: Result)

  predicate OwnerHasDecided(p: Probe) {
    p == Approved || p == Cancelled
  }

  /** L3 and L4: a request whose probe says anything but "bound and pending" or "missing" must
      survive untouched. */
  predicate HoldsBack(p: Probe) {
    p != BoundPending && p != Missing
  }

  /** The requests of a snapshot with a given probe, in order. */
  function WithProbe(seen: seq<Seen>, p: Probe): seq<Request> {
    if seen == [] then []
    else (if seen[0].probe == p then [seen[0].request] else []) + WithProbe(seen[1..], p)
  }

  function DecidedOf(seen: seq<Seen>): seq<Request> {
    if seen == [] then []
    else (if OwnerHasDecided(seen[0].probe) then [seen[0].request] else []) + DecidedOf(seen[1..])
  }

  function SameHash(rs: seq<Request>, hash: nat): seq<Request> {
    if rs == [] then []
    else (if rs[0].actionHash == hash then [rs[0]] else []) + SameHash(rs[1..], hash)
  }

  function OtherHash(rs: seq<Request>, hash: nat): seq<Request> {
    if rs == [] then []
    else (if rs[0].actionHash != hash then [rs[0]] else []) + OtherHash(rs[1..], hash)
  }

  /** The sort key (created_at, message_id). */
  predicate Earlier(a: Request, b: Request) {
    a.createdAt < b.createdAt || (a.createdAt == b.createdAt && a.messageId <= b.messageId)
  }

  function Insert(r: Request, rs: seq<Request>): (out: seq<Request>)
    ensures multiset(out) == multiset(rs) + multiset{r}
  {
    if rs == [] then [r]
    else if Earlier(r, rs[0]) then [r] + rs
    else
      assert rs == [rs[0]] + rs[1..];
      [rs[0]] + Insert(r, rs[1..])
  }

  function Sorted(rs: seq<Request>): (out: seq<Request>)
    ensures multiset(out) == multiset(rs)
    ensures |out| == |rs|
  {
    if rs == [] then []
    else
      assert rs == [rs[0]] + rs[1..];
      var out := Insert(rs[0], Sorted(rs[1..]));
      assert multiset(out) == multiset(rs);
      assert |multiset(out)| == |multiset(rs)|;
      out
  }

  function Refuse(outcome: Outcome, reason: Reason, cleared: seq<Cleared>, blocked: seq<Request>): Pc {
    Done(Decided(Verdict(outcome, Some(reason), None, None, cleared, blocked)))
  }

  /** The counters that a decision point can lead to. */
  predicate Settled(pc: ProducerPc) {
    pc.Discarding? || pc.Destroying? || pc.Reserving?
  }

  /** The decision taken once every outstanding request has been probed. */
  function AfterSnapshot(intent: Intent, seen: seq<Seen>): (pc: Pc)
    ensures pc.Done? || (pc.Producer? && Settled(pc.producer))
  {
    var decided := DecidedOf(seen);
    var unverifiable := WithProbe(seen, Unverifiable);
    var mismatched := WithProbe(seen, BindingMismatch);
    var bound := WithProbe(seen, BoundPending);
    if decided != [] then Refuse(OutDeferred, OwnerDecided, [], decided)
    else if unverifiable != [] then Refuse(OutDeferred, NotVerifiable, [], unverifiable)
    else if mismatched != [] then Refuse(OutRefused, Mismatched, [], mismatched)
    else AfterDiscard(intent, WithProbe(seen, Missing), Sorted(SameHash(bound, intent.actionHash)),
                      OtherHash(bound, intent.actionHash), [])
  }

  function AfterDiscard(intent: Intent, gone: seq<Request>, same: seq<Request>, others: seq<Request>,
                        cleared: seq<Cleared>): (pc: Pc)
    ensures pc.Done? || (pc.Producer? && Settled(pc.producer))
  {
    if |gone| > 0 then Producer(Discarding(intent, gone, same, others, cleared))
    else if |same| > 0 then AfterDestroy(intent, same[1..], Some(same[0]), cleared, |same| > 1)
    else AfterDestroy(intent, others, None, cleared, false)
  }

  /** `collapsed` is only read when a canonical request stays. */
  function AfterDestroy(intent: Intent, doomed: seq<Request>, canonical: Option<Request>, cleared: seq<Cleared>,
                        collapsed: bool): (pc: Pc)
    ensures pc.Done? || (pc.Producer? && Settled(pc.producer))
  {
    if |doomed| > 0 then Producer(Destroying(intent, doomed, canonical, cleared))
    else match canonical
      case Some(live) =>
        Done(Decided(Verdict(OutPending, if collapsed then Some(DuplicateCollapsed) else None, Some(live), None,
                             cleared, [])))
      case None => Producer(Reserving(intent, cleared))
  }

  function DestroyReason(canonical: Option<Request>): Reason {
    if canonical.Some? then DuplicateCollapsed else ContentChanged
  }

  function NextProducer(pc: ProducerPc, e: Effect): (next: Option<Pc>)
    ensures next.Some? ==> next.value.Producer? || next.value.Done?
  {
    match pc
    case Waiting(intent) =>
      if e == Held(true) then Some(Producer(Checking(intent)))
      else if e == Held(false) then Some(Refuse(OutDeferred, LeaseHeld, [], []))
      else None
    case Checking(intent) =>
      if e == JournalRead(true) then Some(Refuse(OutRefused, PostingJournalStale, [], []))
      else if e == JournalRead(false) then Some(Producer(Listing(intent)))
      else None
    case Listing(intent) =>
      if e == ListFailed then Some(Refuse(OutRefused, StoreUnreadable, [], []))
      else if e.Listed? then
        if |e.requests| == 0 then Some(AfterSnapshot(intent, [])) else Some(Producer(Probing(intent, e.requests, [])))
      else None
    case Probing(intent, todo, seen) =>
      if |todo| > 0 && e.Probed? && e.request == todo[0] then
        var seen' := seen + [Seen(todo[0], e.probe)];
        if |todo| == 1 then Some(AfterSnapshot(intent, seen'))
        else Some(Producer(Probing(intent, todo[1..], seen')))
      else None
    case Discarding(intent, gone, same, others, cleared) =>
      if |gone| > 0 && e == Dropped(gone[0]) then
        Some(AfterDiscard(intent, gone[1..], same, others, cleared + [Cleared(gone[0], MessageMissing)]))
      else None
    case Destroying(intent, doomed, canonical, cleared) =>
      if |doomed| > 0 && e.Probed? && e.request == doomed[0] then
        match e.probe
        case Approved => Some(Refuse(OutDeferred, OwnerDecided, cleared, [doomed[0]]))
        case Cancelled => Some(Refuse(OutDeferred, OwnerDecided, cleared, [doomed[0]]))
        case Unverifiable => Some(Refuse(OutDeferred, NotVerifiable, cleared, [doomed[0]]))
        case BindingMismatch => Some(Refuse(OutRefused, Mismatched, cleared, [doomed[0]]))
        case Missing => Some(Producer(Removing(intent, doomed, canonical, cleared, MessageMissing)))
        case BoundPending => Some(Producer(Deleting(intent, doomed, canonical, cleared)))
      else None
    case Deleting(intent, doomed, canonical, cleared) =>
      if |doomed| > 0 && e == Deleted(doomed[0]) then
        Some(Producer(Removing(intent, doomed, canonical, cleared, DestroyReason(canonical))))
      else if |doomed| > 0 && e.DeleteFailed? && e.request == doomed[0] then
        Some(Refuse(OutRefused, SupersedeFailed, cleared, [doomed[0]]))
      else None
    case Removing(intent, doomed, canonical, cleared, why) =>
      if |doomed| > 0 && e == Dropped(doomed[0]) then
        Some(AfterDestroy(intent, doomed[1..], canonical, cleared + [Cleared(doomed[0], why)], true))
      else None
    case Reserving(intent, cleared) =>
      if e.Reserved? && e.reservation.key == intent.key && e.reservation.actionHash == intent.actionHash then
        Some(Producer(Posting(intent, e.reservation, cleared)))
      else None
    case Posting(intent, reservation, cleared) =>
      if e.Posted? then Some(Producer(Committing(intent, reservation, e.messageId, cleared)))
      else if e.PostFailed? then Some(Done(Raised))
      else None
    case Committing(intent, reservation, messageId, cleared) =>
      if e == Committed(Bound(intent, reservation, messageId)) then
        Some(Producer(Clearing(intent, reservation, messageId, cleared)))
      else None
    case Clearing(intent, reservation, messageId, cleared) =>
      if e == JournalCleared then
        Some(Done(Decided(Verdict(OutPosted, None, None, Some(messageId), cleared, []))))
      else None
  }

  /** The record that a successful post binds. */
  function Bound(intent: Intent, reservation: Reservation, messageId: nat): Request {
    Request(intent.key, intent.actionHash, messageId, intent.channelId, reservation.at)
  }

  function NextWatcher(pc: WatchPc, e: Effect): (next: Option<Pc>)
    ensures next.Some? ==> next.value.Watcher? || next.value.Done?
  {
    match pc
    case WatchWaiting(r) =>
      if e == Held(true) then Some(Watcher(WatchProbing(r)))
      else if e == Held(false) then Some(Done(Watched(false, true)))
      else None
    case WatchProbing(r) =>
      if e.Probed? && e.request == r then
        if OwnerHasDecided(e.probe) then Some(Watcher(WatchApplying(r, e.probe)))
        else Some(Done(Watched(false, false)))
      else None
    case WatchApplying(r, decision) =>
      if e == Applied(r, decision) then Some(Watcher(WatchDropping(r))) else None
    case WatchDropping(r) =>
      if e == Dropped(r) then Some(Done(Watched(true, false))) else None
  }

  function AfterFresh(key: Key, todo: seq<Request>): Pc {
    if |todo| == 0 then Done(Superseded(None)) else Supersede(FreshProbing(key, todo))
  }

  function NextSupersede(pc: FreshPc, e: Effect): (next: Option<Pc>)
    ensures next.Some? ==> next.value.Supersede? || next.value.Done?
  {
    match pc
    case FreshWaiting(key) =>
      if e == Held(true) then Some(Supersede(FreshListing(key)))
      else if e == Held(false) then Some(Done(Superseded(Some(LeaseHeld))))
      else None
    case FreshListing(key) =>
      if e == ListFailed then Some(Done(Superseded(Some(StoreUnreadable))))
      else if e.Listed? then Some(AfterFresh(key, e.requests))
      else None
    case FreshProbing(key, todo) =>
      if |todo| > 0 && e.Probed? && e.request == todo[0] then
        match e.probe
        case Approved => Some(Done(Superseded(Some(OwnerDecided))))
        case Cancelled => Some(Done(Superseded(Some(OwnerDecided))))
        case Unverifiable => Some(Done(Superseded(Some(NotVerifiable))))
        case BindingMismatch => Some(Done(Superseded(Some(Mismatched))))
        case Missing => Some(Supersede(FreshDropping(key, todo)))
        case BoundPending => Some(Supersede(FreshDeleting(key, todo)))
      else None
    case FreshDeleting(key, todo) =>
      if |todo| > 0 && e == Deleted(todo[0]) then Some(Supersede(FreshDropping(key, todo)))
      else if |todo| > 0 && e.DeleteFailed? && e.request == todo[0] then Some(Done(Superseded(Some(SupersedeFailed))))
      else None
    case FreshDropping(key, todo) =>
      if |todo| > 0 && e == Dropped(todo[0]) then Some(AfterFresh(key, todo[1..])) else None
  }

  function NextRetire(pc: RetirePc, e: Effect): (next: Option<Pc>)
    ensures next.Some? ==> next.value.Retire? || next.value.Done?
  {
    match pc
    case RetireWaiting(key, audit) =>
      if e == Held(true) then Some(Retire(RetireReading(key, audit)))
      else if e == Held(false) then Some(Done(Retired(RetireLeaseHeld)))
      else None
    case RetireReading(key, audit) =>
      if e.StoreMatched? then
        match e.read
        case Unreadable => Some(Done(Retired(RetireUnreadable)))
        case Absent => Some(Done(Retired(RecordAbsent)))
        case Other => Some(Done(Retired(if audit then RetireMismatch else RecordSuperseded)))
        case Match(r) =>
          if r.key != key then None
          else if audit then Some(Retire(RetireAuditing(key, r)))
          else Some(Retire(RetireUnlinking(key, r, false)))
      else None
    case RetireAuditing(key, r) =>
      if e == Audited(true) then Some(Retire(RetireUnlinking(key, r, true)))
      else if e == Audited(false) then Some(Done(Retired(AuditFailed)))
      else None
    case RetireUnlinking(key, r, audit) =>
      if e == Unlinked(true) then Some(Done(Retired(if audit then Abandoned else Consumed)))
      else if e == Unlinked(false) then Some(Done(Retired(DropFailed)))
      else None
  }

  function Next(pc: Pc, e: Effect): Option<Pc> {
    match pc
    case Producer(q) => NextProducer(q, e)
    case Watcher(q) => NextWatcher(q, e)
    case Supersede(q) => NextSupersede(q, e)
    case Retire(q) => NextRetire(q, e)
    case Done(_) => None
  }

  /** The program counter reached after a whole trace of effects, if the program allows it. */
  function Follow(pc: Pc, trace: seq<Effect>): Option<Pc> {
    if trace == [] then Some(pc)
    else
      match Follow(pc, trace[..|trace| - 1])
      case None => None
      case Some(q) => Next(q, trace[|trace| - 1])
  }

  lemma FollowSnoc(pc: Pc, trace: seq<Effect>, e: Effect)
    ensures Follow(pc, trace + [e]) ==
            match Follow(pc, trace) { case None => None case Some(q) => Next(q, e) }
  {
    assert (trace + [e])[..|trace|] == trace;
  }

  /** Any prefix of an accepted trace is accepted, and its last effect is a step of `Next`. */
  lemma {:induction false} FollowPrefix(pc: Pc, trace: seq<Effect>, i: nat)
    requires i < |trace| && Follow(pc, trace).Some?
    ensures Follow(pc, trace[..i]).Some?
    ensures Follow(pc, trace[..i + 1]) == Next(Follow(pc, trace[..i]).value, trace[i])
    ensures Follow(pc, trace[..i + 1]).Some?
    decreases |trace|
  {
    hide Next;
    var n := |trace| - 1;
    if i < n {
      FollowPrefix(pc, trace[..n], i);
      assert trace[..n][..i] == trace[..i] && trace[..n][..i + 1] == trace[..i + 1];
    } else {
      assert trace[..n + 1] == trace;
    }
  }

  // ----- What the automaton guarantees about every trace -----

  predicate IsStart(pc: Pc) {
    || (pc.Producer? && pc.producer.Waiting?)
    || (pc.Watcher? && pc.watch.WatchWaiting?)
    || (pc.Supersede? && pc.renew.FreshWaiting?)
    || (pc.Retire? && pc.retire.RetireWaiting?)
  }

  /** A program counter from which nothing but the remaining snapshot probes can happen. */
  ghost predicate Sealed(pc: Pc) {
    pc.Done? || (pc.Producer? && pc.producer.Probing? && SeenHoldBack(pc.producer.seen))
  }

  ghost predicate SeenHoldBack(seen: seq<Seen>) {
    exists i :: 0 <= i < |seen| && HoldsBack(seen[i].probe)
  }

  lemma {:induction false} WithProbeHas(seen: seq<Seen>, i: nat)
    requires i < |seen|
    ensures seen[i].request in WithProbe(seen, seen[i].probe)
    ensures OwnerHasDecided(seen[i].probe) ==> seen[i].request in DecidedOf(seen)
  {
    if i > 0 {
      WithProbeHas(seen[1..], i - 1);
    }
  }

  lemma HeldBackEndsSnapshot(intent: Intent, seen: seq<Seen>)
    requires SeenHoldBack(seen)
    ensures AfterSnapshot(intent, seen).Done?
  {
    var i: nat :| i < |seen| && HoldsBack(seen[i].probe);
    WithProbeHas(seen, i);
  }

  lemma SealedStep(pc: Pc, e: Effect)
    requires Sealed(pc) && Next(pc, e).Some?
    ensures e.Probed? && Sealed(Next(pc, e).value)
  {
    var q := pc.producer;
    var i :| 0 <= i < |q.seen| && HoldsBack(q.seen[i].probe);
    var seen' := q.seen + [Seen(q.todo[0], e.probe)];
    assert seen'[i] == q.seen[i];
    HeldBackEndsSnapshot(q.intent, seen');
  }

  lemma HoldBackSeals(pc: Pc, e: Effect)
    requires e.Probed? && HoldsBack(e.probe) && Next(pc, e).Some? && !pc.Watcher?
    ensures Sealed(Next(pc, e).value)
  {
    if pc.Producer? && pc.producer.Probing? {
      var q := pc.producer;
      var seen' := q.seen + [Seen(q.todo[0], e.probe)];
      assert HoldsBack(seen'[|q.seen|].probe);
      HeldBackEndsSnapshot(q.intent, seen');
    }
  }

  lemma {:induction false} SealedRun(pc: Pc, trace: seq<Effect>, i: nat, j: nat)
    requires i <= j < |trace| && Follow(pc, trace).Some?
    requires Follow(pc, trace[..i]).Some? && Sealed(Follow(pc, trace[..i]).value)
    ensures trace[j].Probed?
    ensures Follow(pc, trace[..j + 1]).Some? && Sealed(Follow(pc, trace[..j + 1]).value)
    decreases j
  {
    hide Next, Sealed;
    FollowPrefix(pc, trace, j);
    if i < j {
      SealedRun(pc, trace, i, j - 1);
    }
    SealedStep(Follow(pc, trace[..j]).value, trace[j]);
  }

  lemma StaysInFamily(pc: Pc, e: Effect)
    requires !pc.Watcher? && Next(pc, e).Some?
    ensures !Next(pc, e).value.Watcher?
  {
    hide NextProducer, NextWatcher, NextSupersede, NextRetire;
  }

  lemma {:induction false} NotWatcher(start: Pc, trace: seq<Effect>)
    requires !start.Watcher? && Follow(start, trace).Some?
    ensures !Follow(start, trace).value.Watcher?
  {
    hide Next;
    if trace != [] {
      NotWatcher(start, trace[..|trace| - 1]);
      StaysInFamily(Follow(start, trace[..|trace| - 1]).value, trace[|trace| - 1]);
    }
  }

  /** L3 and L4 for the producer and for `--fresh`: once a probe says that the owner decided, or
      that liveness cannot be proven, or that the binding differs, the rest of that run only
      probes: it deletes nothing, drops nothing and posts nothing. */
  lemma NothingAfterHoldBack(start: Pc, trace: seq<Effect>, i: nat, j: nat)
    requires IsStart(start) && !start.Watcher? && Follow(start, trace).Some?
    requires i < j < |trace|
    requires trace[i].Probed? && HoldsBack(trace[i].probe)
    ensures trace[j].Probed?
  {
    hide Next, Sealed;
    FollowPrefix(start, trace, i);
    NotWatcher(start, trace[..i]);
    HoldBackSeals(Follow(start, trace[..i]).value, trace[i]);
    SealedRun(start, trace, i + 1, j);
  }

  /** The request whose deletion the program counter is about to attempt. */
  function ToDelete(pc: Pc): Option<Request> {
    if pc.Producer? && pc.producer.Deleting? && |pc.producer.doomed| > 0 then Some(pc.producer.doomed[0])
    else if pc.Supersede? && pc.renew.FreshDeleting? && |pc.renew.todo| > 0 then Some(pc.renew.todo[0])
    else None
  }

  /** The request whose record the program counter is about to drop after clearing its message. */
  function ToDrop(pc: Pc): Option<Request> {
    if pc.Producer? && pc.producer.Removing? && |pc.producer.doomed| > 0 then Some(pc.producer.doomed[0])
    else if pc.Supersede? && pc.renew.FreshDropping? && |pc.renew.todo| > 0 then Some(pc.renew.todo[0])
    else if pc.Watcher? && pc.watch.WatchDropping? then Some(pc.watch.request)
    else None
  }

  predicate IsDiscarding(pc: Pc) {
    pc.Producer? && pc.producer.Discarding?
  }

  lemma DeleteNeedsPc(pc: Pc, e: Effect)
    requires (e.Deleted? || e.DeleteFailed?) && Next(pc, e).Some?
    ensures ToDelete(pc) == Some(e.request)
  {
  }

  lemma DropNeedsPc(pc: Pc, e: Effect)
    requires e.Dropped? && Next(pc, e).Some?
    ensures ToDrop(pc) == Some(e.request) || (IsDiscarding(pc) && pc.producer.gone[..1] == [e.request])
  {
  }

  lemma ProducerToDelete(q: ProducerPc, e: Effect)
    requires NextProducer(q, e).Some? && ToDelete(NextProducer(q, e).value).Some?
    ensures e == Probed(ToDelete(NextProducer(q, e).value).value, BoundPending)
  {
    hide AfterSnapshot, AfterDiscard, AfterDestroy;
  }

  lemma ToDeleteEntered(pc: Pc, e: Effect)
    requires Next(pc, e).Some? && ToDelete(Next(pc, e).value).Some?
    ensures e == Probed(ToDelete(Next(pc, e).value).value, BoundPending)
  {
    hide NextProducer, NextWatcher, NextRetire;
    if pc.Producer? {
      ProducerToDelete(pc.producer, e);
    }
  }

  lemma ProducerToDrop(q: ProducerPc, e: Effect)
    requires NextProducer(q, e).Some? && ToDrop(NextProducer(q, e).value).Some?
    ensures var r := ToDrop(NextProducer(q, e).value).value; e == Probed(r, Missing) || e == Deleted(r)
  {
    hide AfterSnapshot, AfterDiscard, AfterDestroy;
  }

  lemma ToDropEntered(pc: Pc, e: Effect)
    requires Next(pc, e).Some? && ToDrop(Next(pc, e).value).Some?
    ensures var r := ToDrop(Next(pc, e).value).value;
            || e == Probed(r, Missing)
            || e == Deleted(r)
            || (e.Applied? && e.request == r)
  {
    hide NextProducer, NextRetire;
    if pc.Producer? {
      ProducerToDrop(pc.producer, e);
    }
  }

  /** Every message deletion directly follows, in the same lease hold, a probe of the same
      request that found it bound and undecided. */
  lemma DeleteFollowsPendingProbe(start: Pc, trace: seq<Effect>, i: nat)
    requires IsStart(start) && Follow(start, trace).Some?
    requires i < |trace| && (trace[i].Deleted? || trace[i].DeleteFailed?)
    ensures i > 0 && trace[i - 1] == Probed(trace[i].request, BoundPending)
  {
    hide Next;
    FollowPrefix(start, trace, i);
    DeleteNeedsPc(Follow(start, trace[..i]).value, trace[i]);
    assert trace[..0] == [];
    if i == 0 {
      assert false;
    } else {
      FollowPrefix(start, trace, i - 1);
      ToDeleteEntered(Follow(start, trace[..i - 1]).value, trace[i - 1]);
    }
  }

  /** Outside the discarding of the requests that the snapshot found missing, every record drop
      directly follows its justification: the message was found missing, or was deleted, or (in
      the watcher) the owner's decision on it was applied. */
  lemma DropIsJustified(start: Pc, trace: seq<Effect>, i: nat)
    requires IsStart(start) && Follow(start, trace).Some?
    requires i < |trace| && trace[i].Dropped?
    ensures
      || (Follow(start, trace[..i]).Some? && IsDiscarding(Follow(start, trace[..i]).value))
      || (i > 0 && trace[i - 1] == Probed(trace[i].request, Missing))
      || (i > 0 && trace[i - 1] == Deleted(trace[i].request))
      || (i > 0 && trace[i - 1].Applied? && trace[i - 1].request == trace[i].request)
  {
    hide Next;
    FollowPrefix(start, trace, i);
    DropNeedsPc(Follow(start, trace[..i]).value, trace[i]);
    if i == 0 {
      assert trace[..0] == [];
    } else {
      FollowPrefix(start, trace, i - 1);
      if ToDrop(Follow(start, trace[..i]).value).Some? {
        ToDropEntered(Follow(start, trace[..i - 1]).value, trace[i - 1]);
      }
    }
  }

  lemma ApplyNeedsPc(pc: Pc, e: Effect)
    requires e.Applied? && Next(pc, e).Some?
    ensures pc == Watcher(WatchApplying(e.request, e.decision))
  {
  }

  lemma WatchApplyingEntered(pc: Pc, e: Effect)
    requires Next(pc, e).Some? && Next(pc, e).value.Watcher? && Next(pc, e).value.watch.WatchApplying?
    ensures e == Probed(Next(pc, e).value.watch.request, Next(pc, e).value.watch.decision)
    ensures OwnerHasDecided(Next(pc, e).value.watch.decision)
  {
    hide NextProducer, NextSupersede, NextRetire;
  }

  /** The watcher applies a decision only right after reading it off the same message. */
  lemma ApplyFollowsDecision(start: Pc, trace: seq<Effect>, i: nat)
    requires IsStart(start) && Follow(start, trace).Some?
    requires i < |trace| && trace[i].Applied?
    ensures i > 0 && trace[i - 1] == Probed(trace[i].request, trace[i].decision)
    ensures OwnerHasDecided(trace[i].decision)
  {
    hide Next;
    FollowPrefix(start, trace, i);
    ApplyNeedsPc(Follow(start, trace[..i]).value, trace[i]);
    assert trace[..0] == [];
    if i == 0 {
      assert false;
    } else {
      FollowPrefix(start, trace, i - 1);
      WatchApplyingEntered(Follow(start, trace[..i - 1]).value, trace[i - 1]);
    }
  }

  lemma {:induction false} InsertSorted(r: Request, rs: seq<Request>)
    requires forall i, j :: 0 <= i < j < |rs| ==> Earlier(rs[i], rs[j])
    ensures forall i, j :: 0 <= i < j < |Insert(r, rs)| ==> Earlier(Insert(r, rs)[i], Insert(r, rs)[j])
  {
    if rs != [] && !Earlier(r, rs[0]) {
      InsertSorted(r, rs[1..]);
      var tail := Insert(r, rs[1..]);
      forall j | 0 <= j < |tail| ensures Earlier(rs[0], tail[j]) {
        assert tail[j] in multiset(tail);
        assert tail[j] == r || tail[j] in rs[1..];
      }
    }
  }

  /** The canonical request kept by a collapse is the earliest by (created_at, message_id). */
  lemma {:induction false} SortedIsSorted(rs: seq<Request>)
    ensures forall i, j :: 0 <= i < j < |Sorted(rs)| ==> Earlier(Sorted(rs)[i], Sorted(rs)[j])
  {
    if rs != [] {
      SortedIsSorted(rs[1..]);
      InsertSorted(rs[0], Sorted(rs[1..]));
    }
  }

  function Requests(seen: seq<Seen>): seq<Request> {
    if seen == [] then [] else [seen[0].request] + Requests(seen[1..])
  }

  lemma {:induction false} RequestsAt(seen: seq<Seen>)
    ensures |Requests(seen)| == |seen|
    ensures forall k :: 0 <= k < |seen| ==> Requests(seen)[k] == seen[k].request
  {
    if seen != [] {
      RequestsAt(seen[1..]);
    }
  }

  lemma {:induction false} WithProbeExactly(seen: seq<Seen>, p: Probe, x: Request)
    ensures x in WithProbe(seen, p) <==> Seen(x, p) in seen
  {
    if seen != [] {
      WithProbeExactly(seen[1..], p, x);
      assert seen == [seen[0]] + seen[1..];
    }
  }

  lemma {:induction false} DecidedExactly(seen: seq<Seen>, x: Request)
    ensures x in DecidedOf(seen) <==> Seen(x, Approved) in seen || Seen(x, Cancelled) in seen
  {
    if seen != [] {
      DecidedExactly(seen[1..], x);
      assert seen == [seen[0]] + seen[1..];
    }
  }

  lemma {:induction false} HashExactly(rs: seq<Request>, hash: nat, x: Request)
    ensures x in SameHash(rs, hash) <==> x in rs && x.actionHash == hash
    ensures x in OtherHash(rs, hash) <==> x in rs && x.actionHash != hash
  {
    if rs != [] {
      HashExactly(rs[1..], hash, x);
      assert rs == [rs[0]] + rs[1..];
    }
  }

  lemma SortedMembers(rs: seq<Request>, x: Request)
    ensures x in Sorted(rs) <==> x in rs
  {
    assert x in multiset(Sorted(rs)) <==> x in multiset(rs);
  }

  /** When nothing holds the snapshot back, every listed request falls into one of the three
      groups: gone, bound with this content, bound with other content. */
  lemma SnapshotCovers(seen: seq<Seen>, hash: nat, x: Seen)
    requires x in seen
    requires DecidedOf(seen) == [] && WithProbe(seen, Unverifiable) == [] && WithProbe(seen, BindingMismatch) == []
    ensures || x.request in WithProbe(seen, Missing)
            || x.request in Sorted(SameHash(WithProbe(seen, BoundPending), hash))
            || x.request in OtherHash(WithProbe(seen, BoundPending), hash)
  {
    var r := x.request;
    DecidedExactly(seen, r);
    WithProbeExactly(seen, x.probe, r);
    SortedMembers(SameHash(WithProbe(seen, BoundPending), hash), r);
    HashExactly(WithProbe(seen, BoundPending), hash, r);
  }
}
