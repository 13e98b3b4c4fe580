/** All interleavings of the approval programs.

    A `World` holds the lease files, the posting journal, the stored records, the messages and
    one program counter per process.  Processes take the steps of the automaton in
    `ApprovalProtocol`, crash anywhere (which releases their lease), and share the world with an
    owner who reacts to and deletes messages at any time, and with operators who clean up
    reservations, step by step and without a lease. */
module ApprovalWorld {
  import opened Common
  import opened ApprovalProtocol
  import Slug

  type Pid = nat

  /** An operator inside the journal clean-up: the reservation has been read, or its audit line
      has been written. */
  datatype Operator = Auditing(key: Key, found: Option<Reservation>) | Unlinking(key: Key)

  datatype World = World(
    leases: map<string, Pid>,             // locked lease files
    journal: map<string, Reservation>,    // outstanding reservations, by file
    records: set<Request>,                // stored requests
    posts: map<nat, Reservation>,         // every message ever posted, with its reservation
    gone: set<nat>,                       // messages no longer on the surface
    decided: set<nat>,                    // messages that carry an owner reaction
    consumed: set<nat>,                   // messages whose decision was consumed
    abandoned: set<nat>,                  // messages named by a retirement audit line
    audit: set<Reservation>,              // reservations named by a journal audit line
    operators: map<nat, Operator>,        // journal clean-ups under way; they take no lease
    careless: bool,                       // history: some clean-up unlinked an uncovered reservation
    procs: map<Pid, Pc>)

  const EMPTY := World(map[], map[], {}, map[], {}, {}, {}, {}, {}, map[], false, map[])

  datatype Label =
    | Spawn(pid: Pid, start: Pc)
    | Act(pid: Pid, effect: Effect)
    | Crash(pid: Pid)
    | React(messageId: nat)
    | Unreact(messageId: nat)
    | OwnerDelete(messageId: nat)
    | ReadJournal(op: nat, key: Key)      // the operator's journal clean-up, step by step
    | AuditJournal(op: nat)
    | UnlinkJournal(op: nat)
    | OperatorCrash(op: nat)

  function KeyOf(pc: Pc): Key
    requires !pc.Done?
  {
    match pc
    case Producer(q) => q.intent.key
    case Watcher(q) => (match q
      case WatchWaiting(r) => r.key
      case WatchProbing(r) => r.key
      case WatchApplying(r, _) => r.key
      case WatchDropping(r) => r.key)
    case Supersede(q) => q.key
    case Retire(q) => q.key
  }

  predicate Holds(pc: Pc) {
    !pc.Done? && !IsStart(pc)
  }

  ghost function RecordsOf(w: World, key: Key): set<Request> {
    set r | r in w.records && r.key == key
  }

  function DropBinding(records: set<Request>, r: Request): set<Request> {
    set x | x in records && !(x.key == r.key && x.actionHash == r.actionHash && x.messageId == r.messageId)
  }

  /** Which answers the world can give. */
  ghost predicate Possible(w: World, key: Key, e: Effect) {
    match e
    case Held(owned) => owned <==> Slug.Slug(key) !in w.leases
    case JournalRead(outstanding) => outstanding <==> Slug.Slug(key) in w.journal
    case Listed(rs) => (forall r :: r in rs <==> r in w.records && r.key == key)
    case Probed(r, p) => (
      match p
      case BoundPending => r.messageId in w.posts && r.messageId !in w.gone && r.messageId !in w.decided
      case Approved => r.messageId in w.decided && r.messageId !in w.gone
      case Cancelled => r.messageId in w.decided && r.messageId !in w.gone
      case Missing => r.messageId in w.gone || r.messageId !in w.posts
      case BindingMismatch => true
      case Unverifiable => true)
    case PostFailed(leaked) => leaked.Some? ==> leaked.value !in w.posts && leaked.value !in w.gone
    case Posted(m) => m !in w.posts && m !in w.gone
    case StoreMatched(read) => (
      match read
      case Match(r) => r in w.records && r.key == key
      case Absent => RecordsOf(w, key) == {}
      case Other => RecordsOf(w, key) != {}
      case Unreadable => true)
    case _ => true
  }

  /** The effect on the shared state.  An id seen missing is never assigned later. */
  function Perform(w: World, pid: Pid, pc: Pc, e: Effect): World
    requires !pc.Done?
  {
    var file := Slug.Slug(KeyOf(pc));
    match e
    case Held(true) => w.(leases := w.leases[file := pid])
    case Probed(r, p) =>
      if p == Missing then w.(gone := w.gone + {r.messageId}) else w
    case Deleted(r) => w.(gone := w.gone + {r.messageId})
    case DeleteFailed(r, vanished) => if vanished then w.(gone := w.gone + {r.messageId}) else w
    case Dropped(r) => w.(records := DropBinding(w.records, r))
    case Reserved(res) => w.(journal := w.journal[file := res])
    case PostFailed(leaked) =>
      if leaked.Some? && pc.Producer? && pc.producer.Posting? then
        w.(posts := w.posts[leaked.value := pc.producer.reservation])
      else w
    case Posted(m) =>
      if pc.Producer? && pc.producer.Posting? then w.(posts := w.posts[m := pc.producer.reservation]) else w
    case Committed(r) => w.(records := w.records + {r})
    case JournalCleared => w.(journal := w.journal - {file})
    case Applied(r, _) => w.(consumed := w.consumed + {r.messageId})
    case Audited(true) =>
      if pc.Retire? && pc.retire.RetireAuditing? then w.(abandoned := w.abandoned + {pc.retire.found.messageId}) else w
    case Unlinked(true) =>
      if pc.Retire? && pc.retire.RetireUnlinking? then
        w.(records := (set r | r in w.records && r.key != KeyOf(pc)),
           consumed := if pc.retire.audit then w.consumed else w.consumed + {pc.retire.found.messageId})
      else w
    case _ => w
  }

  /** Continue at `next`; a process that is done leaves its lease block. */
  function Continue(w: World, pid: Pid, pc: Pc, next: Pc): World
    requires !pc.Done?
  {
    if next.Done? then
      w.(procs := w.procs - {pid}, leases := if Holds(pc) then w.leases - {Slug.Slug(KeyOf(pc))} else w.leases)
    else w.(procs := w.procs[pid := next])
  }

  /** The reservation that a clean-up of `key` would unlink is accounted for without its file: it
      is the audited one, or every message posted under it is accounted for and nobody is about
      to post under it. */
  ghost predicate Covered(w: World, key: Key) {
    var file := Slug.Slug(key);
    file in w.journal ==>
      || w.journal[file] in w.audit
      || (AccountedUnder(w, w.journal[file]) && !AboutToPost(w, w.journal[file]))
  }

  ghost predicate AccountedUnder(w: World, res: Reservation) {
    forall m :: m in w.posts && w.posts[m] == res ==> Accounted(w, m)
  }

  predicate PostsUnder(pc: Pc, res: Reservation) {
    pc.Producer? && pc.producer.Posting? && pc.producer.reservation == res
  }

  ghost predicate AboutToPost(w: World, res: Reservation) {
    exists p :: p in w.procs && PostsUnder(w.procs[p], res)
  }

  function Noted(found: Option<Reservation>): set<Reservation> {
    match found
    case None => {}
    case Some(res) => {res}
  }

  ghost predicate Enabled(w: World, l: Label) {
    match l
    case Spawn(pid, start) => pid !in w.procs && IsStart(start) && Slug.Narrow(KeyOf(start))
    case Act(pid, e) =>
      pid in w.procs && !w.procs[pid].Done? && Next(w.procs[pid], e).Some? && Possible(w, KeyOf(w.procs[pid]), e)
    case Crash(pid) => pid in w.procs && !w.procs[pid].Done?
    case React(m) => m in w.posts && m !in w.gone
    case Unreact(m) => m in w.decided
    case OwnerDelete(m) => m in w.posts
    case ReadJournal(op, key) => op !in w.operators && Slug.Narrow(key)
    case AuditJournal(op) => op in w.operators && w.operators[op].Auditing?
    case UnlinkJournal(op) => op in w.operators && w.operators[op].Unlinking?
    case OperatorCrash(op) => op in w.operators
  }

  ghost function Apply(w: World, l: Label): World
    requires Enabled(w, l)
  {
    match l
    case Spawn(pid, start) => w.(procs := w.procs[pid := start])
    case Act(pid, e) =>
      var pc := w.procs[pid];
      Continue(Perform(w, pid, pc, e), pid, pc, Next(pc, e).value)
    case Crash(pid) => Continue(w, pid, w.procs[pid], Done(Raised))
    case React(m) => w.(decided := w.decided + {m})
    case Unreact(m) => w.(decided := w.decided - {m})
    case OwnerDelete(m) => w.(gone := w.gone + {m})
    case ReadJournal(op, key) =>
      var file := Slug.Slug(key);
      var found := if file in w.journal then Some(w.journal[file]) else None;
      w.(operators := w.operators[op := Auditing(key, found)])
    case AuditJournal(op) =>
      w.(audit := w.audit + Noted(w.operators[op].found),
         operators := w.operators[op := Unlinking(w.operators[op].key)])
    case UnlinkJournal(op) =>
      var key := w.operators[op].key;
      w.(journal := w.journal - {Slug.Slug(key)},
         operators := w.operators - {op},
         careless := w.careless || !Covered(w, key))
    case OperatorCrash(op) => w.(operators := w.operators - {op})
  }

  /** `worlds` is the run that `labels` produce from the empty world. */
  ghost predicate IsRun(worlds: seq<World>, labels: seq<Label>) {
    && |worlds| == |labels| + 1 && worlds[0] == EMPTY
    && forall i :: 0 <= i < |labels| ==> Enabled(worlds[i], labels[i]) && worlds[i + 1] == Apply(worlds[i], labels[i])
  }

  // ----- The invariant -----

  /** The message is accounted for without any outstanding reservation. */
  ghost predicate Accounted(w: World, m: nat)
    requires m in w.posts
  {
    || m in w.gone || m in w.consumed || m in w.abandoned || w.posts[m] in w.audit
    || exists r :: r in w.records && r.messageId == m && r.key == w.posts[m].key
  }

  ghost predicate Reserves(w: World, res: Reservation) {
    Slug.Slug(res.key) in w.journal && w.journal[Slug.Slug(res.key)] == res
  }

  /** Every posted message is recorded, deleted, consumed or audited as abandoned, or its own
      posting reservation is outstanding. */
  ghost predicate AllAccounted(w: World) {
    forall m :: m in w.posts ==> Accounted(w, m) || Reserves(w, w.posts[m])
  }

  /** The accounting that the invariant carries: it is suspended by a careless clean-up. */
  ghost predicate Settled(w: World, m: nat)
    requires m in w.posts
  {
    w.careless || Accounted(w, m)
  }

  ghost predicate AllSettled(w: World) {
    forall m :: m in w.posts ==> Settled(w, m) || Reserves(w, w.posts[m])
  }

  /** A message posted under `res` will be accounted for. */
  ghost predicate Backed(w: World, res: Reservation) {
    w.careless || res in w.audit || Reserves(w, res)
  }

  ghost predicate OneRecordPerKey(w: World) {
    forall r, s :: r in w.records && s in w.records && r.key == s.key ==> r == s
  }

  ghost predicate KeySettled(w: World, key: Key) {
    forall m :: m in w.posts && w.posts[m].key == key ==> Settled(w, m)
  }

  ghost predicate KeySettledBut(w: World, key: Key, but: nat) {
    forall m :: m in w.posts && w.posts[m].key == key && m != but ==> Settled(w, m)
  }

  ghost predicate AllOfKey(rs: seq<Request>, key: Key) {
    forall r :: r in rs ==> r.key == key
  }

  ghost predicate Within(w: World, key: Key, rs: seq<Request>) {
    forall r :: r in w.records && r.key == key ==> r in rs
  }

  ghost predicate HeadGone(w: World, rs: seq<Request>) {
    |rs| > 0 && rs[0].messageId in w.gone
  }

  ghost predicate ProducerOk(w: World, pc: ProducerPc) {
    var key := pc.intent.key;
    var file := Slug.Slug(key);
    match pc
    case Waiting(_) => true
    case Checking(_) => true
    case Listing(_) => file !in w.journal
    case Probing(_, todo, seen) =>
      && file !in w.journal && AllOfKey(todo, key) && AllOfKey(Requests(seen), key)
      && Within(w, key, Requests(seen) + todo)
      && (forall i :: 0 <= i < |seen| && seen[i].probe == Missing ==> seen[i].request.messageId in w.gone)
    case Discarding(_, gone, same, others, _) =>
      && file !in w.journal && AllOfKey(gone + same + others, key) && Within(w, key, gone + same + others)
      && (forall r :: r in gone ==> r.messageId in w.gone)
    case Destroying(_, doomed, canonical, _) =>
      file !in w.journal && AllOfKey(doomed, key) && (canonical.None? ==> Within(w, key, doomed))
    case Deleting(_, doomed, canonical, _) =>
      file !in w.journal && AllOfKey(doomed, key) && (canonical.None? ==> Within(w, key, doomed))
    case Removing(_, doomed, canonical, _, _) =>
      && file !in w.journal && AllOfKey(doomed, key) && (canonical.None? ==> Within(w, key, doomed))
      && HeadGone(w, doomed)
    case Reserving(_, _) => file !in w.journal && Within(w, key, [])
    case Posting(_, res, _) => res.key == key && Backed(w, res) && Within(w, key, []) && KeySettled(w, key)
    case Committing(_, res, m, _) =>
      && res.key == key && Within(w, key, [])
      && m in w.posts && w.posts[m] == res && KeySettledBut(w, key, m)
    case Clearing(_, _, _, _) => KeySettled(w, key)
  }

  ghost predicate ProcOk(w: World, pc: Pc) {
    match pc
    case Producer(q) => ProducerOk(w, q)
    case Watcher(q) => q.WatchDropping? ==> q.request.messageId in w.consumed
    case Supersede(q) => (
      match q
      case FreshProbing(key, todo) => AllOfKey(todo, key)
      case FreshDeleting(key, todo) => AllOfKey(todo, key)
      case FreshDropping(key, todo) => AllOfKey(todo, key) && HeadGone(w, todo)
      case _ => true)
    case Retire(q) => (
      match q
      case RetireAuditing(key, found) => found in w.records && found.key == key
      case RetireUnlinking(key, found, audit) =>
        found in w.records && found.key == key && (audit ==> found.messageId in w.abandoned)
      case _ => true)
    case Done(_) => true
  }

  ghost predicate LeasesOk(w: World) {
    forall p :: p in w.procs ==>
      && !w.procs[p].Done? && Slug.Narrow(KeyOf(w.procs[p]))
      && (Holds(w.procs[p]) ==> Slug.Slug(KeyOf(w.procs[p])) in w.leases && w.leases[Slug.Slug(KeyOf(w.procs[p]))] == p)
  }

  ghost predicate FilesOk(w: World) {
    && (forall f :: f in w.journal ==> Slug.Narrow(w.journal[f].key) && f == Slug.Slug(w.journal[f].key))
    && (forall m :: m in w.posts ==> Slug.Narrow(w.posts[m].key))
    && (forall r :: r in w.records ==> Slug.Narrow(r.key))
    && (forall op :: op in w.operators ==> Slug.Narrow(w.operators[op].key))
  }

  ghost predicate Inv(w: World) {
    && LeasesOk(w) && FilesOk(w) && OneRecordPerKey(w) && AllSettled(w)
    && forall p :: p in w.procs ==> ProcOk(w, w.procs[p])
  }

  // ----- Framing: what another process's key sees of a step -----

  ghost predicate Grows(w: World, v: World) {
    && w.gone <= v.gone && w.consumed <= v.consumed && w.abandoned <= v.abandoned && w.audit <= v.audit
    && (w.careless ==> v.careless)
  }

  /** Everything stored under `key` is the same in both worlds. */
  ghost predicate SameView(w: World, v: World, key: Key) {
    && Grows(w, v)
    && (forall r :: r in w.records && r.key == key ==> r in v.records)
    && (forall r :: r in v.records && r.key == key ==> r in w.records)
    && (Slug.Slug(key) in w.journal <==> Slug.Slug(key) in v.journal)
    && (Slug.Slug(key) in w.journal ==> v.journal[Slug.Slug(key)] == w.journal[Slug.Slug(key)])
    && (forall m :: m in w.posts && w.posts[m].key == key ==> m in v.posts && v.posts[m] == w.posts[m])
    && (forall m :: m in v.posts && v.posts[m].key == key ==> m in w.posts && v.posts[m] == w.posts[m])
  }

  lemma SettledFrame(w: World, v: World, m: nat)
    requires m in w.posts && m in v.posts && v.posts[m] == w.posts[m] && SameView(w, v, w.posts[m].key)
    requires Settled(w, m)
    ensures Settled(v, m)
  {
  }

  lemma KeySettledFrame(w: World, v: World, key: Key)
    requires SameView(w, v, key)
    ensures KeySettled(w, key) ==> KeySettled(v, key)
    ensures forall but :: KeySettledBut(w, key, but) ==> KeySettledBut(v, key, but)
  {
    forall m | m in v.posts && v.posts[m].key == key && Settled(w, m) ensures Settled(v, m) {
      SettledFrame(w, v, m);
    }
  }

  lemma ProcFrame(w: World, v: World, pc: Pc)
    requires !pc.Done? && SameView(w, v, KeyOf(pc)) && ProcOk(w, pc)
    ensures ProcOk(v, pc)
  {
    hide Settled, Requests;
    KeySettledFrame(w, v, KeyOf(pc));
  }

  // ----- Own steps -----

  /** The shared state under one key is in order. */
  ghost predicate KeyGood(w: World, key: Key) {
    && (forall r, s :: r in w.records && s in w.records && r.key == key && s.key == key ==> r == s)
    && (forall m :: m in w.posts && w.posts[m].key == key ==> Settled(w, m) || Reserves(w, w.posts[m]))
  }

  /** What a process may assume about its own key before a step. */
  ghost predicate Ready(w: World, pc: Pc) {
    && !pc.Done? && ProcOk(w, pc) && KeyGood(w, KeyOf(pc)) && FilesOk(w) && Slug.Narrow(KeyOf(pc))
  }

  ghost predicate OwnGoal(v: World, key: Key, next: Pc) {
    && KeyGood(v, key)
    && (!next.Done? ==> KeyOf(next) == key && ProcOk(v, next))
  }

  lemma WithinSplit(w: World, key: Key, seen: seq<Seen>, hash: nat)
    requires Within(w, key, Requests(seen))
    requires DecidedOf(seen) == [] && WithProbe(seen, Unverifiable) == [] && WithProbe(seen, BindingMismatch) == []
    ensures Within(w, key, WithProbe(seen, Missing) + Sorted(SameHash(WithProbe(seen, BoundPending), hash))
                           + OtherHash(WithProbe(seen, BoundPending), hash))
  {
    hide WithProbe, SameHash, OtherHash, Sorted, DecidedOf;
    forall r | r in w.records && r.key == key
      ensures r in WithProbe(seen, Missing) + Sorted(SameHash(WithProbe(seen, BoundPending), hash))
                   + OtherHash(WithProbe(seen, BoundPending), hash)
    {
      RequestsAt(seen);
      var i :| 0 <= i < |Requests(seen)| && Requests(seen)[i] == r;
      SnapshotCovers(seen, hash, seen[i]);
    }
  }

  lemma GroupsKeyed(key: Key, seen: seq<Seen>, hash: nat)
    requires AllOfKey(Requests(seen), key)
    ensures AllOfKey(WithProbe(seen, Missing), key)
    ensures AllOfKey(Sorted(SameHash(WithProbe(seen, BoundPending), hash)), key)
    ensures AllOfKey(OtherHash(WithProbe(seen, BoundPending), hash), key)
  {
    hide WithProbe, SameHash, OtherHash, Sorted;
    RequestsAt(seen);
    forall p: Probe, r | r in WithProbe(seen, p) ensures r.key == key {
      WithProbeExactly(seen, p, r);
      var i :| 0 <= i < |seen| && seen[i] == Seen(r, p);
      assert Requests(seen)[i] == r;
    }
    var bound := WithProbe(seen, BoundPending);
    forall r | r in Sorted(SameHash(bound, hash)) ensures r.key == key {
      SortedMembers(SameHash(bound, hash), r);
      HashExactly(bound, hash, r);
    }
    forall r | r in OtherHash(bound, hash) ensures r.key == key {
      HashExactly(bound, hash, r);
    }
  }

  /** The decision after the snapshot starts the clean-up in a good state. */
  lemma AfterSnapshotOk(w: World, intent: Intent, seen: seq<Seen>)
    requires Slug.Slug(intent.key) !in w.journal
    requires AllOfKey(Requests(seen), intent.key) && Within(w, intent.key, Requests(seen))
    requires forall i :: 0 <= i < |seen| && seen[i].probe == Missing ==> seen[i].request.messageId in w.gone
    ensures var pc := AfterSnapshot(intent, seen); !pc.Done? ==> KeyOf(pc) == intent.key && ProcOk(w, pc)
  {
    hide WithProbe, SameHash, OtherHash, Sorted, DecidedOf, AfterDiscard;
    if DecidedOf(seen) == [] && WithProbe(seen, Unverifiable) == [] && WithProbe(seen, BindingMismatch) == [] {
      var gone, bound := WithProbe(seen, Missing), WithProbe(seen, BoundPending);
      WithinSplit(w, intent.key, seen, intent.actionHash);
      GroupsKeyed(intent.key, seen, intent.actionHash);
      forall r | r in gone ensures r.messageId in w.gone {
        WithProbeExactly(seen, Missing, r);
      }
      AfterDiscardOk(w, intent, gone, Sorted(SameHash(bound, intent.actionHash)),
                     OtherHash(bound, intent.actionHash), []);
    }
  }

  lemma AfterDiscardOk(w: World, intent: Intent, gone: seq<Request>, same: seq<Request>, others: seq<Request>,
                       cleared: seq<Cleared>)
    requires Slug.Slug(intent.key) !in w.journal
    requires AllOfKey(gone, intent.key) && AllOfKey(same, intent.key) && AllOfKey(others, intent.key)
    requires Within(w, intent.key, gone + same + others)
    requires forall r :: r in gone ==> r.messageId in w.gone
    ensures var pc := AfterDiscard(intent, gone, same, others, cleared);
            !pc.Done? ==> KeyOf(pc) == intent.key && ProcOk(w, pc)
  {
    if |gone| == 0 && |same| == 0 {
      assert gone + same + others == others;
    }
  }

  lemma DropSettles(w: World, v: World, key: Key, r: Request)
    requires KeyGood(w, key) && FilesOk(w)
    requires v == w.(records := DropBinding(w.records, r))
    requires r.key == key && (r.messageId in w.gone || r.messageId in w.consumed)
    ensures KeyGood(v, key)
  {
    forall m | m in v.posts && v.posts[m].key == key ensures Settled(v, m) || Reserves(v, v.posts[m]) {
      if Settled(w, m) && m != r.messageId {
        if s :| s in w.records && s.messageId == m && s.key == key {
          assert s in v.records;
        }
      }
    }
  }

  /** A step that adds at most deletions, consumptions and sightings keeps the key in order. */
  lemma MarksKeepKey(w: World, v: World, key: Key)
    requires KeyGood(w, key)
    requires v.records == w.records && v.posts == w.posts && v.journal == w.journal && v.audit == w.audit
    requires w.gone <= v.gone && w.consumed <= v.consumed && w.abandoned <= v.abandoned && w.careless == v.careless
    ensures KeyGood(v, key)
  {
    forall m | m in w.posts && Settled(w, m) ensures Settled(v, m) {
    }
  }

  predicate Marking(e: Effect) {
    e.Held? || e.JournalRead? || e.ListFailed? || e.Listed? || e.Probed? || e.Deleted? || e.DeleteFailed?
    || e.Applied? || e.StoreMatched? || e.Audited?
  }

  lemma PerformKeepsRecords(w: World, pid: Pid, pc: Pc, e: Effect)
    requires !pc.Done? && Marking(e)
    ensures Perform(w, pid, pc, e).records == w.records
  {
    hide Slug.Slug, KeyOf;
  }

  lemma PerformKeepsFiles(w: World, pid: Pid, pc: Pc, e: Effect)
    requires !pc.Done? && Marking(e)
    ensures var v := Perform(w, pid, pc, e); v.journal == w.journal && v.audit == w.audit
  {
    hide Slug.Slug, KeyOf;
  }

  lemma PerformKeepsPosts(w: World, pid: Pid, pc: Pc, e: Effect)
    requires !pc.Done? && Marking(e)
    ensures Perform(w, pid, pc, e).posts == w.posts
  {
    hide Slug.Slug, KeyOf;
  }

  lemma PerformKeepsOperators(w: World, pid: Pid, pc: Pc, e: Effect)
    requires !pc.Done?
    ensures var v := Perform(w, pid, pc, e); v.operators == w.operators && v.careless == w.careless
  {
    hide Slug.Slug, KeyOf;
  }

  lemma SameFiles(w: World, v: World)
    requires FilesOk(w) && v.posts == w.posts && v.journal == w.journal && v.records <= w.records
    requires v.operators == w.operators
    ensures FilesOk(v)
  {
  }

  lemma MarkingKeeps(w: World, pid: Pid, pc: Pc, e: Effect)
    requires !pc.Done? && Marking(e) && FilesOk(w) && KeyGood(w, KeyOf(pc))
    ensures var v := Perform(w, pid, pc, e);
            && FilesOk(v) && KeyGood(v, KeyOf(pc))
            && v.records == w.records && v.journal == w.journal
            && w.gone <= v.gone && w.consumed <= v.consumed && w.abandoned <= v.abandoned
  {
    hide KeyGood, FilesOk, Perform, KeyOf;
    PerformGrows(w, pid, pc, e);
    PerformKeepsRecords(w, pid, pc, e);
    PerformKeepsFiles(w, pid, pc, e);
    PerformKeepsPosts(w, pid, pc, e);
    PerformKeepsOperators(w, pid, pc, e);
    SameFiles(w, Perform(w, pid, pc, e));
    MarksKeepKey(w, Perform(w, pid, pc, e), KeyOf(pc));
  }

  lemma OwnListing(w: World, pid: Pid, q: ProducerPc, e: Effect)
    requires Ready(w, Producer(q)) && NextProducer(q, e).Some? && Possible(w, q.intent.key, e)
    requires q.Waiting? || q.Checking? || q.Listing?
    ensures var v := Perform(w, pid, Producer(q), e);
            FilesOk(v) && OwnGoal(v, q.intent.key, NextProducer(q, e).value)
  {
    hide AfterSnapshot, KeyGood, FilesOk, Requests, Slug.Slug, NextWatcher, NextSupersede, NextRetire;
    var v := Perform(w, pid, Producer(q), e);
    MarkingKeeps(w, pid, Producer(q), e);
    if q.Listing? && e.Listed? {
      RequestsAt([]);
      assert Requests([]) + e.requests == e.requests;
      if |e.requests| == 0 {
        AfterSnapshotOk(v, q.intent, []);
      }
    }
  }

  lemma OwnProbing(w: World, pid: Pid, q: ProducerPc, e: Effect)
    requires Ready(w, Producer(q)) && NextProducer(q, e).Some? && Possible(w, q.intent.key, e) && q.Probing?
    ensures var v := Perform(w, pid, Producer(q), e);
            FilesOk(v) && OwnGoal(v, q.intent.key, NextProducer(q, e).value)
  {
    hide AfterSnapshot, KeyGood, FilesOk, Requests, Slug.Slug, NextWatcher, NextSupersede, NextRetire;
    var v := Perform(w, pid, Producer(q), e);
    MarkingKeeps(w, pid, Producer(q), e);
    var todo, seen := q.todo, q.seen;
    var seen' := seen + [Seen(todo[0], e.probe)];
    RequestsAt(seen);
    RequestsAt(seen');
    assert Requests(seen') == Requests(seen) + [todo[0]];
    assert todo == [todo[0]] + todo[1..];
    assert Requests(seen') + todo[1..] == Requests(seen) + todo;
    if |todo| == 1 {
      assert Requests(seen') + todo[1..] == Requests(seen');
      AfterSnapshotOk(v, q.intent, seen');
    }
  }

  lemma OwnDiscard(w: World, pid: Pid, q: ProducerPc, e: Effect)
    requires Ready(w, Producer(q)) && NextProducer(q, e).Some? && q.Discarding?
    ensures var v := Perform(w, pid, Producer(q), e);
            FilesOk(v) && OwnGoal(v, q.intent.key, NextProducer(q, e).value)
  {
    hide AfterDiscard, KeyGood, Slug.Slug;
    var v := Perform(w, pid, Producer(q), e);
    var r := q.gone[0];
    DropSettles(w, v, q.intent.key, r);
    assert q.gone == [r] + q.gone[1..];
    forall x | x in v.records && x.key == q.intent.key ensures x in q.gone[1..] + q.same + q.others {
      assert x in q.gone + q.same + q.others && x != r;
    }
    AfterDiscardOk(v, q.intent, q.gone[1..], q.same, q.others, q.cleared + [Cleared(r, MessageMissing)]);
  }

  lemma OwnDestroying(w: World, pid: Pid, q: ProducerPc, e: Effect)
    requires Ready(w, Producer(q)) && NextProducer(q, e).Some? && Possible(w, q.intent.key, e) && q.Destroying?
    ensures var v := Perform(w, pid, Producer(q), e);
            FilesOk(v) && OwnGoal(v, q.intent.key, NextProducer(q, e).value)
  {
    hide KeyGood, FilesOk, Slug.Slug;
    assert e.Probed?;
    MarkingKeeps(w, pid, Producer(q), e);
    var v := Perform(w, pid, Producer(q), e);
    if e.probe == Missing {
      assert HeadGone(v, q.doomed);
    }
  }

  lemma OwnDeleting(w: World, pid: Pid, q: ProducerPc, e: Effect)
    requires Ready(w, Producer(q)) && NextProducer(q, e).Some? && q.Deleting?
    ensures var v := Perform(w, pid, Producer(q), e);
            FilesOk(v) && OwnGoal(v, q.intent.key, NextProducer(q, e).value)
  {
    hide KeyGood, FilesOk, Slug.Slug;
    assert e.Deleted? || e.DeleteFailed?;
    MarkingKeeps(w, pid, Producer(q), e);
  }

  lemma OwnRemoving(w: World, pid: Pid, q: ProducerPc, e: Effect)
    requires Ready(w, Producer(q)) && NextProducer(q, e).Some? && q.Removing?
    ensures var v := Perform(w, pid, Producer(q), e);
            FilesOk(v) && OwnGoal(v, q.intent.key, NextProducer(q, e).value)
  {
    hide KeyGood, Slug.Slug, AfterSnapshot, AfterDiscard, Requests;
    var v := Perform(w, pid, Producer(q), e);
    DropSettles(w, v, q.intent.key, q.doomed[0]);
    assert q.doomed == [q.doomed[0]] + q.doomed[1..];
  }

  lemma ReserveKeeps(w: World, v: World, key: Key, res: Reservation)
    requires Slug.Narrow(key) && FilesOk(w) && KeyGood(w, key) && Slug.Slug(key) !in w.journal && res.key == key
    requires v == w.(journal := w.journal[Slug.Slug(key) := res])
    ensures FilesOk(v) && KeyGood(v, key) && KeySettled(v, key) && Backed(v, res)
  {
    forall m | m in w.posts && w.posts[m].key == key ensures Settled(v, m) {
      assert Settled(w, m);
    }
  }

  lemma PostKeeps(w: World, v: World, key: Key, res: Reservation, m: nat)
    requires FilesOk(w) && KeyGood(w, key) && KeySettled(w, key) && res.key == key && Backed(w, res) && Slug.Narrow(key)
    requires m !in w.posts && v == w.(posts := w.posts[m := res])
    ensures FilesOk(v) && KeyGood(v, key) && KeySettledBut(v, key, m)
  {
    forall n | n in w.posts && w.posts[n].key == key ensures n in v.posts && v.posts[n] == w.posts[n] && Settled(v, n) {
      assert Settled(w, n);
    }
  }

  lemma CommitKeeps(w: World, v: World, key: Key, r: Request)
    requires Slug.Narrow(key) && FilesOk(w) && KeyGood(w, key) && KeySettledBut(w, key, r.messageId)
             && Within(w, key, [])
    requires r.key == key && r.messageId in w.posts && w.posts[r.messageId].key == key
    requires v == w.(records := w.records + {r})
    ensures FilesOk(v) && KeyGood(v, key) && KeySettled(v, key)
  {
    assert r in v.records;
    forall n | n in w.posts && w.posts[n].key == key ensures Settled(v, n) {
      assert n != r.messageId ==> Settled(w, n);
    }
  }

  lemma ClearKeeps(w: World, v: World, key: Key)
    requires FilesOk(w) && KeyGood(w, key) && KeySettled(w, key)
    requires v == w.(journal := w.journal - {Slug.Slug(key)})
    ensures FilesOk(v) && KeyGood(v, key)
  {
    forall n | n in w.posts && w.posts[n].key == key ensures Settled(v, n) {
      assert Settled(w, n);
    }
  }

  lemma OwnPost(w: World, pid: Pid, q: ProducerPc, e: Effect)
    requires Ready(w, Producer(q)) && NextProducer(q, e).Some? && Possible(w, q.intent.key, e)
    requires q.Reserving? || q.Posting? || q.Committing? || q.Clearing?
    ensures var v := Perform(w, pid, Producer(q), e);
            FilesOk(v) && OwnGoal(v, q.intent.key, NextProducer(q, e).value)
  {
    hide Slug.Slug, Slug.Narrow, KeyGood, KeySettled, KeySettledBut, FilesOk, AfterSnapshot, AfterDiscard,
        AfterDestroy, Requests;
    var key := q.intent.key;
    var v := Perform(w, pid, Producer(q), e);
    match q {
      case Reserving(_, _) => ReserveKeeps(w, v, key, e.reservation);
      case Posting(_, res, _) =>
        if e.Posted? {
          PostKeeps(w, v, key, res, e.messageId);
        } else if e.leaked.Some? {
          PostKeeps(w, v, key, res, e.leaked.value);
        }
      case Committing(intent, res, m, _) => CommitKeeps(w, v, key, Bound(intent, res, m));
      case Clearing(_, _, _, _) => ClearKeeps(w, v, key);
    }
  }

  lemma OwnProducer(w: World, pid: Pid, q: ProducerPc, e: Effect)
    requires Ready(w, Producer(q)) && NextProducer(q, e).Some? && Possible(w, q.intent.key, e)
    ensures var v := Perform(w, pid, Producer(q), e);
            FilesOk(v) && OwnGoal(v, q.intent.key, NextProducer(q, e).value)
  {
    hide *;
    if q.Waiting? || q.Checking? || q.Listing? { OwnListing(w, pid, q, e); }
    else if q.Probing? { OwnProbing(w, pid, q, e); }
    else if q.Discarding? { OwnDiscard(w, pid, q, e); }
    else if q.Destroying? { OwnDestroying(w, pid, q, e); }
    else if q.Deleting? { OwnDeleting(w, pid, q, e); }
    else if q.Removing? { OwnRemoving(w, pid, q, e); }
    else { OwnPost(w, pid, q, e); }
  }

  lemma OwnWatch(w: World, pid: Pid, q: WatchPc, e: Effect)
    requires Ready(w, Watcher(q)) && NextWatcher(q, e).Some?
    ensures var v := Perform(w, pid, Watcher(q), e);
            FilesOk(v) && OwnGoal(v, KeyOf(Watcher(q)), NextWatcher(q, e).value)
  {
    hide KeyGood, FilesOk, Slug.Slug;
    assert FilesOk(w);
    var v := Perform(w, pid, Watcher(q), e);
    if q.WatchDropping? {
      DropSettles(w, v, q.request.key, q.request);
      SameFiles(w, v);
    } else {
      MarkingKeeps(w, pid, Watcher(q), e);
    }
  }

  lemma OwnFresh(w: World, pid: Pid, q: FreshPc, e: Effect)
    requires Ready(w, Supersede(q)) && NextSupersede(q, e).Some? && Possible(w, q.key, e)
    ensures var v := Perform(w, pid, Supersede(q), e);
            FilesOk(v) && OwnGoal(v, q.key, NextSupersede(q, e).value)
  {
    hide KeyGood, FilesOk, Slug.Slug, AfterSnapshot, AfterDiscard, AfterDestroy, Requests, NextProducer, NextWatcher,
        NextRetire;
    var v := Perform(w, pid, Supersede(q), e);
    if q.FreshDropping? {
      DropSettles(w, v, q.key, q.todo[0]);
      SameFiles(w, v);
    } else {
      MarkingKeeps(w, pid, Supersede(q), e);
    }
  }

  lemma UnlinkKeeps(w: World, v: World, key: Key, found: Request)
    requires FilesOk(w) && KeyGood(w, key) && found in w.records && found.key == key
    requires v.records == (set r | r in w.records && r.key != key)
    requires v.posts == w.posts && v.journal == w.journal && v.audit == w.audit && v.gone == w.gone
    requires v.operators == w.operators && v.careless == w.careless
    requires w.consumed <= v.consumed && w.abandoned <= v.abandoned
    requires found.messageId in v.consumed || found.messageId in v.abandoned
    ensures FilesOk(v) && KeyGood(v, key)
  {
    forall m | m in v.posts && v.posts[m].key == key ensures Settled(v, m) || Reserves(v, v.posts[m]) {
      if Settled(w, m) {
        if s :| s in w.records && s.messageId == m && s.key == key {
          assert s == found;
        }
      }
    }
  }

  lemma OwnRetire(w: World, pid: Pid, q: RetirePc, e: Effect)
    requires Ready(w, Retire(q)) && NextRetire(q, e).Some? && Possible(w, q.key, e)
    ensures var v := Perform(w, pid, Retire(q), e);
            FilesOk(v) && OwnGoal(v, q.key, NextRetire(q, e).value)
  {
    hide KeyGood, Slug.Slug, FilesOk, AfterSnapshot, AfterDiscard, AfterDestroy, Requests, NextProducer, NextWatcher,
        NextSupersede;
    var v := Perform(w, pid, Retire(q), e);
    assert FilesOk(w);
    if q.RetireUnlinking? && e == Unlinked(true) {
      UnlinkKeeps(w, v, q.key, q.found);
    } else {
      if Marking(e) {
        MarkingKeeps(w, pid, Retire(q), e);
      }
    }
  }

  // ----- Every step keeps the invariant -----

  lemma OwnStep(w: World, pid: Pid, pc: Pc, e: Effect)
    requires Ready(w, pc) && Next(pc, e).Some? && Possible(w, KeyOf(pc), e)
    ensures var v := Perform(w, pid, pc, e); FilesOk(v) && OwnGoal(v, KeyOf(pc), Next(pc, e).value)
  {
    hide NextProducer, NextWatcher, NextSupersede, NextRetire, Ready, Possible, FilesOk, OwnGoal, Perform;
    match pc {
      case Producer(q) => OwnProducer(w, pid, q, e);
      case Watcher(q) => OwnWatch(w, pid, q, e);
      case Supersede(q) => OwnFresh(w, pid, q, e);
      case Retire(q) => OwnRetire(w, pid, q, e);
    }
  }

  /** Whatever a step removes, adds or reserves is stored under its own key. */
  lemma TouchesOwnKey(w: World, pid: Pid, pc: Pc, e: Effect)
    requires !pc.Done? && ProcOk(w, pc) && Next(pc, e).Some?
    ensures e.Dropped? || e.Committed? ==> e.request.key == KeyOf(pc)
    ensures pc.Producer? && pc.producer.Posting? ==> pc.producer.reservation.key == KeyOf(pc)
  {
    hide AfterSnapshot, AfterDiscard, AfterDestroy, Slug.Slug;
    if e.Dropped? {
      DropNeedsPc(pc, e);
    }
  }

  lemma PerformGrows(w: World, pid: Pid, pc: Pc, e: Effect)
    requires !pc.Done?
    ensures Grows(w, Perform(w, pid, pc, e))
  {
    hide Slug.Slug, KeyOf;
  }

  lemma OtherKeyView(w: World, pid: Pid, pc: Pc, e: Effect, key: Key)
    requires !pc.Done? && ProcOk(w, pc) && Next(pc, e).Some? && Possible(w, KeyOf(pc), e)
    requires Slug.Narrow(key) && Slug.Narrow(KeyOf(pc)) && key != KeyOf(pc)
    ensures SameView(w, Perform(w, pid, pc, e), key)
  {
    hide Next, ProcOk, Slug.Slug, Slug.Narrow, KeyOf, Grows;
    TouchesOwnKey(w, pid, pc, e);
    PerformGrows(w, pid, pc, e);
    Slug.SlugInjective(key, KeyOf(pc));
  }

  /** Leaving a step changes only program counters and leases. */
  lemma TailView(v: World, pid: Pid, pc: Pc, next: Pc, key: Key)
    requires !pc.Done?
    ensures SameView(v, Continue(v, pid, pc, next), key)
  {
  }

  lemma ViewTrans(a: World, b: World, c: World, key: Key)
    requires SameView(a, b, key) && SameView(b, c, key)
    ensures SameView(a, c, key)
  {
  }

  lemma KeyGoodFrame(w: World, v: World, key: Key)
    requires SameView(w, v, key) && KeyGood(w, key)
    ensures KeyGood(v, key)
  {
    hide Settled;
    forall m | m in v.posts && v.posts[m].key == key && Settled(w, m) ensures Settled(v, m) {
      SettledFrame(w, v, m);
    }
  }

  lemma StartOnlyTakesLease(pc: Pc, e: Effect)
    requires IsStart(pc) && Next(pc, e).Some?
    ensures e.Held?
  {
  }

  ghost predicate KeysGood(w: World) {
    FilesOk(w) && forall key :: Slug.Narrow(key) ==> KeyGood(w, key)
  }

  lemma KeysGoodIs(w: World)
    requires FilesOk(w)
    ensures KeysGood(w) <==> OneRecordPerKey(w) && AllSettled(w)
  {
    if KeysGood(w) {
      forall m | m in w.posts ensures Settled(w, m) || Reserves(w, w.posts[m]) {
        assert KeyGood(w, w.posts[m].key);
      }
      forall r, s | r in w.records && s in w.records && r.key == s.key ensures r == s {
        assert KeyGood(w, r.key);
      }
    }
  }

  lemma ReadyFrom(w: World, pid: Pid)
    requires Inv(w) && pid in w.procs
    ensures Ready(w, w.procs[pid])
  {
    hide ProcOk;
    KeysGoodIs(w);
  }

  /** Mutual exclusion: two processes are never inside the lease block of the same key. */
  lemma MutualExclusion(w: World, p: Pid, q: Pid)
    requires Inv(w) && p in w.procs && q in w.procs && p != q
    requires Holds(w.procs[p]) && Holds(w.procs[q])
    ensures KeyOf(w.procs[p]) != KeyOf(w.procs[q])
  {
  }

  /** After a step of `pid`, every key is in order and every other process is undisturbed. */
  lemma ActKeepsKeys(w: World, pid: Pid, e: Effect)
    requires Inv(w) && Enabled(w, Act(pid, e))
    ensures KeysGood(Apply(w, Act(pid, e)))
  {
    hide KeyGood, FilesOk, ProcOk, Next, Possible, SameView, Perform;
    var pc := w.procs[pid];
    var own, v := KeyOf(pc), Perform(w, pid, pc, e);
    var x := Apply(w, Act(pid, e));
    KeysGoodIs(w);
    ReadyFrom(w, pid);
    OwnStep(w, pid, pc, e);
    forall key | Slug.Narrow(key) ensures KeyGood(x, key) {
      if key != own {
        OtherKeyView(w, pid, pc, e, key);
        KeyGoodFrame(w, v, key);
      }
      PerformLeases(w, pid, pc, e);
      TailView(v, pid, pc, Next(pc, e).value, key);
      KeyGoodFrame(v, x, key);
    }
    assert FilesOk(x) by { SameFiles(v, x); }
  }

  lemma ActKeepsOther(w: World, pid: Pid, e: Effect, q: Pid)
    requires Inv(w) && Enabled(w, Act(pid, e)) && q in w.procs && q != pid
    ensures ProcOk(Apply(w, Act(pid, e)), w.procs[q])
  {
    hide ProcOk, Next, Possible, SameView, Perform, FilesOk;
    var pc, other := w.procs[pid], w.procs[q];
    var v, x := Perform(w, pid, pc, e), Apply(w, Act(pid, e));
    if !Holds(other) {
      StartIsOk(x, other);
    } else {
      if KeyOf(other) == KeyOf(pc) {
        // the lease excludes `pid` from the critical section, so it can only be refused
        if Holds(pc) {
          MutualExclusion(w, pid, q);
        }
        StartOnlyTakesLease(pc, e);
        RefusalView(w, pid, pc, e, KeyOf(other));
      } else {
        OtherKeyView(w, pid, pc, e, KeyOf(other));
      }
      PerformLeases(w, pid, pc, e);
      TailView(v, pid, pc, Next(pc, e).value, KeyOf(other));
      ViewTrans(w, v, x, KeyOf(other));
      ProcFrame(w, x, other);
    }
  }

  lemma StartIsOk(w: World, pc: Pc)
    requires IsStart(pc)
    ensures ProcOk(w, pc)
  {
  }

  lemma RefusalView(w: World, pid: Pid, pc: Pc, e: Effect, key: Key)
    requires !pc.Done? && e.Held? && Possible(w, KeyOf(pc), e) && Slug.Slug(KeyOf(pc)) in w.leases
    ensures SameView(w, Perform(w, pid, pc, e), key)
  {
  }

  /** A step acts on the lease file of its own key only, and frees only a lease it holds. */
  lemma ActLeases(w: World, pid: Pid, e: Effect, q: Pid)
    requires LeasesOk(w) && Enabled(w, Act(pid, e)) && q in w.procs && q != pid && Holds(w.procs[q])
    ensures var x := Apply(w, Act(pid, e)); var file := Slug.Slug(KeyOf(w.procs[q]));
            file in x.leases && x.leases[file] == q
  {
    hide Next, Slug.Slug, Slug.Narrow;
    PerformLeases(w, pid, w.procs[pid], e);
  }

  lemma PerformLeases(w: World, pid: Pid, pc: Pc, e: Effect)
    requires !pc.Done?
    ensures Perform(w, pid, pc, e).leases == if e == Held(true) then w.leases[Slug.Slug(KeyOf(pc)) := pid] else w.leases
    ensures Perform(w, pid, pc, e).procs == w.procs
  {
  }

  lemma KeepsKey(w: World, pid: Pid, e: Effect)
    requires Inv(w) && Enabled(w, Act(pid, e)) && !Next(w.procs[pid], e).value.Done?
    ensures var pc, next, x := w.procs[pid], Next(w.procs[pid], e).value, Apply(w, Act(pid, e));
            KeyOf(next) == KeyOf(pc) && ProcOk(x, next)
  {
    hide ProcOk, Next, Possible, SameView, Perform, FilesOk;
    var pc := w.procs[pid];
    var v, next, x := Perform(w, pid, pc, e), Next(pc, e).value, Apply(w, Act(pid, e));
    KeysGoodIs(w);
    ReadyFrom(w, pid);
    OwnStep(w, pid, pc, e);
    PerformLeases(w, pid, pc, e);
    TailView(v, pid, pc, next, KeyOf(pc));
    ProcFrame(v, x, next);
  }

  lemma StartedOrHolds(pc: Pc, e: Effect)
    requires Next(pc, e).Some? && !Next(pc, e).value.Done?
    ensures !IsStart(Next(pc, e).value) && (IsStart(pc) ==> e == Held(true))
  {
    hide AfterSnapshot, AfterDiscard, AfterDestroy;
  }

  lemma ActKeepsLeases(w: World, pid: Pid, e: Effect)
    requires Inv(w) && Enabled(w, Act(pid, e))
    ensures LeasesOk(Apply(w, Act(pid, e)))
  {
    hide ProcOk, Next, Possible, Perform, FilesOk, Slug.Slug, Slug.Narrow, AllSettled, OneRecordPerKey;
    var pc, next := w.procs[pid], Next(w.procs[pid], e).value;
    var x := Apply(w, Act(pid, e));
    PerformLeases(w, pid, pc, e);
    if !next.Done? {
      KeepsKey(w, pid, e);
      StartedOrHolds(pc, e);
    }
    forall q | q in x.procs
      ensures !x.procs[q].Done? && Slug.Narrow(KeyOf(x.procs[q]))
      ensures Holds(x.procs[q]) ==>
                Slug.Slug(KeyOf(x.procs[q])) in x.leases && x.leases[Slug.Slug(KeyOf(x.procs[q]))] == q
    {
      if q != pid && Holds(w.procs[q]) {
        ActLeases(w, pid, e, q);
      }
    }
  }

  lemma ActKeepsInv(w: World, pid: Pid, e: Effect)
    requires Inv(w) && Enabled(w, Act(pid, e))
    ensures Inv(Apply(w, Act(pid, e)))
  {
    hide ProcOk, Next, Possible, Perform, FilesOk, LeasesOk, AllSettled, OneRecordPerKey, KeysGood;
    var x := Apply(w, Act(pid, e));
    ActKeepsKeys(w, pid, e);
    KeysGoodFiles(x);
    KeysGoodIs(x);
    ActKeepsLeases(w, pid, e);
    PerformLeases(w, pid, w.procs[pid], e);
    forall q | q in x.procs ensures ProcOk(x, x.procs[q]) {
      if q == pid {
        KeepsKey(w, pid, e);
      } else {
        ActKeepsOther(w, pid, e, q);
      }
    }
  }

  lemma KeysGoodFiles(w: World)
    requires KeysGood(w)
    ensures FilesOk(w)
  {
  }

  /** Steps that touch nothing stored under `key`, and take no lease away from a holder. */
  lemma QuietStep(w: World, x: World)
    requires Inv(w) && KeysGood(x) && LeasesOk(x)
    requires forall q :: q in x.procs ==> IsStart(x.procs[q]) || (q in w.procs && x.procs[q] == w.procs[q])
    requires forall q :: q in w.procs && Holds(w.procs[q]) ==> SameView(w, x, KeyOf(w.procs[q]))
    ensures Inv(x)
  {
    hide SameView, ProcOk, KeyGood;
    KeysGoodFiles(x);
    KeysGoodIs(x);
    forall q | q in x.procs ensures ProcOk(x, x.procs[q]) {
      if Holds(x.procs[q]) {
        ProcFrame(w, x, x.procs[q]);
      } else {
        StartIsOk(x, x.procs[q]);
      }
    }
  }

  lemma SurfaceView(w: World, x: World, key: Key)
    requires x.records == w.records && x.journal == w.journal && x.posts == w.posts && x.careless == w.careless
    requires w.gone <= x.gone && x.consumed == w.consumed && x.abandoned == w.abandoned && w.audit <= x.audit
    ensures SameView(w, x, key)
  {
  }

  lemma SurfaceKeys(w: World, x: World)
    requires KeysGood(w) && FilesOk(x)
    requires x.records == w.records && x.journal == w.journal && x.posts == w.posts && x.careless == w.careless
    requires w.gone <= x.gone && x.consumed == w.consumed && x.abandoned == w.abandoned && w.audit <= x.audit
    ensures KeysGood(x)
  {
    hide KeyGood, SameView, FilesOk;
    forall key | Slug.Narrow(key) ensures KeyGood(x, key) {
      SurfaceView(w, x, key);
      KeyGoodFrame(w, x, key);
    }
  }

  // ----- The journal clean-up -----

  /** Another key sees nothing of a clean-up. */
  lemma UnlinkView(w: World, op: nat, other: Key)
    requires FilesOk(w) && Enabled(w, UnlinkJournal(op)) && Slug.Narrow(other) && other != w.operators[op].key
    ensures SameView(w, Apply(w, UnlinkJournal(op)), other)
  {
    hide Slug.Slug, Slug.Narrow, Covered;
    Slug.SlugInjective(other, w.operators[op].key);
  }

  /** A covered unlink leaves every message of the key accounted for. */
  lemma UnlinkSettles(w: World, op: nat, m: nat)
    requires FilesOk(w) && Enabled(w, UnlinkJournal(op)) && m in w.posts
    requires Settled(w, m) || Reserves(w, w.posts[m])
    ensures var x := Apply(w, UnlinkJournal(op)); Settled(x, m) || Reserves(x, x.posts[m])
  {
    hide Slug.Slug, AboutToPost;
  }

  lemma UnlinkKeepsKey(w: World, op: nat)
    requires FilesOk(w) && Enabled(w, UnlinkJournal(op)) && KeyGood(w, w.operators[op].key)
    ensures KeyGood(Apply(w, UnlinkJournal(op)), w.operators[op].key)
  {
    hide Settled, Reserves, Covered, Slug.Slug;
    var key, x := w.operators[op].key, Apply(w, UnlinkJournal(op));
    forall m | m in x.posts && x.posts[m].key == key ensures Settled(x, m) || Reserves(x, x.posts[m]) {
      UnlinkSettles(w, op, m);
    }
  }

  lemma UnlinkKeepsSettled(w: World, op: nat, m: nat)
    requires Enabled(w, UnlinkJournal(op)) && m in w.posts && Settled(w, m)
    ensures Settled(Apply(w, UnlinkJournal(op)), m)
  {
    hide Covered, Slug.Slug;
  }

  lemma UnlinkKeepsProducer(w: World, op: nat, pid: Pid)
    requires Enabled(w, UnlinkJournal(op)) && pid in w.procs
    requires w.procs[pid].Producer? && ProducerOk(w, w.procs[pid].producer)
    requires w.procs[pid].producer.intent.key == w.operators[op].key
    ensures ProducerOk(Apply(w, UnlinkJournal(op)), w.procs[pid].producer)
  {
    hide Slug.Slug, Settled, AccountedUnder, Requests;
    var x := Apply(w, UnlinkJournal(op));
    forall m | m in w.posts && Settled(w, m) ensures Settled(x, m) {
      UnlinkKeepsSettled(w, op, m);
    }
    var q := w.procs[pid].producer;
    if q.Posting? {
      assert PostsUnder(w.procs[pid], q.reservation);
    }
  }

  /** The program inside the lease block of the key is not disturbed either. */
  lemma UnlinkKeepsProc(w: World, op: nat, pid: Pid)
    requires Inv(w) && Enabled(w, UnlinkJournal(op)) && pid in w.procs
    ensures ProcOk(Apply(w, UnlinkJournal(op)), w.procs[pid])
  {
    hide ProducerOk, Slug.Slug, Slug.Narrow, Covered, OneRecordPerKey, AllSettled, SameView;
    var pc, x := w.procs[pid], Apply(w, UnlinkJournal(op));
    assert ProcOk(w, pc);
    if KeyOf(pc) != w.operators[op].key {
      UnlinkView(w, op, KeyOf(pc));
      ProcFrame(w, x, pc);
    } else if pc.Producer? {
      UnlinkKeepsProducer(w, op, pid);
    }
  }

  lemma UnlinkKeepsKeys(w: World, op: nat)
    requires KeysGood(w) && Enabled(w, UnlinkJournal(op))
    ensures KeysGood(Apply(w, UnlinkJournal(op)))
  {
    hide KeyGood, SameView, Covered, Slug.Slug, Slug.Narrow;
    var x := Apply(w, UnlinkJournal(op));
    forall key | Slug.Narrow(key) ensures KeyGood(x, key) {
      if key == w.operators[op].key {
        UnlinkKeepsKey(w, op);
      } else {
        UnlinkView(w, op, key);
        KeyGoodFrame(w, x, key);
      }
    }
  }

  lemma UnlinkKeepsInv(w: World, op: nat)
    requires Inv(w) && Enabled(w, UnlinkJournal(op))
    ensures Inv(Apply(w, UnlinkJournal(op)))
  {
    hide ProcOk, Slug.Slug, Slug.Narrow, KeysGood, Covered, OneRecordPerKey, AllSettled;
    var x := Apply(w, UnlinkJournal(op));
    KeysGoodIs(w);
    UnlinkKeepsKeys(w, op);
    KeysGoodFiles(x);
    KeysGoodIs(x);
    forall q | q in x.procs ensures ProcOk(x, x.procs[q]) {
      UnlinkKeepsProc(w, op, q);
    }
  }

  /** Spawning, crashing, the owner's acts and the clean-up before its unlink leave the records,
      the journal and the messages alone. */
  lemma SurfaceStepView(w: World, l: Label)
    requires Inv(w) && Enabled(w, l) && !l.Act? && !l.UnlinkJournal?
    ensures var x := Apply(w, l);
            && FilesOk(x) && LeasesOk(x)
            && x.records == w.records && x.journal == w.journal && x.posts == w.posts && x.careless == w.careless
            && w.gone <= x.gone && x.consumed == w.consumed && x.abandoned == w.abandoned && w.audit <= x.audit
            && (forall q :: q in x.procs ==> IsStart(x.procs[q]) || (q in w.procs && x.procs[q] == w.procs[q]))
  {
    hide ProcOk, Next, Possible, AllSettled, OneRecordPerKey, Perform, Covered, Slug.Narrow;
  }

  lemma SurfaceStep(w: World, l: Label)
    requires Inv(w) && Enabled(w, l) && !l.Act? && !l.UnlinkJournal?
    ensures Inv(Apply(w, l))
  {
    hide ProcOk, Enabled, Apply, AllSettled, OneRecordPerKey, KeysGood, SameView, FilesOk;
    var x := Apply(w, l);
    SurfaceStepView(w, l);
    KeysGoodIs(w);
    SurfaceKeys(w, x);
    forall q | q in w.procs ensures SameView(w, x, KeyOf(w.procs[q])) {
      SurfaceView(w, x, KeyOf(w.procs[q]));
    }
    QuietStep(w, x);
  }

  lemma StepKeepsInv(w: World, l: Label)
    requires Inv(w) && Enabled(w, l)
    ensures Inv(Apply(w, l))
  {
    hide Inv, Enabled, Apply;
    match l {
      case Act(pid, e) => ActKeepsInv(w, pid, e);
      case UnlinkJournal(op) => UnlinkKeepsInv(w, op);
      case _ => SurfaceStep(w, l);
    }
  }
}
