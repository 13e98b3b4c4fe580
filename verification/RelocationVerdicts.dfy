/** When a relocation moves on: what each visit of a tick must see before it takes a record one step
    further, and that a refused relocation is finished. */
module RelocationVerdicts {
  import opened Common
  import opened MemoryText
  import opened Reclaim
  import opened MemoryDeletion
  import opened Relocation
  import opened RelocationRuns
  import ReconcileVerdicts

  // ----- What a visit sees -----

  predicate Carries(c: Config, img: Image, b: Binding, i: nat) {
    i < |Parse(TextOf(img, b.kind))| && c.hs.digest(b.kind, Parse(TextOf(img, b.kind))[i]) == b.entry
  }

  /** The entry is still in native memory. */
  ghost predicate HasEntry(c: Config, img: Image, b: Binding) {
    exists i: nat :: Carries(c, img, b, i)
  }

  lemma RecoversExactly(c: Config, img: Image, b: Binding)
    ensures Recover(c, img, b).Some? <==> HasEntry(c, img, b)
  {
    hide Parse;
    var es := Parse(TextOf(img, b.kind));
    var m := Matching(c.hs, b.kind, b.entry, es, |es|);
    if |m| > 0 {
      assert m[0] in m;
      assert Carries(c, img, b, m[0]);
    }
    if i: nat :| Carries(c, img, b, i) { assert i in m; }
  }

  /** What the probe of a posted record answers: what its message shows on its channel, and pending while
      there is no entry or no message to ask about. */
  ghost function Shown(c: Config, e: Env, r: Relocated, a: Answers): Verdict {
    if HasEntry(c, e.img, r.binding) && r.message.Some? then a.verdict(r.channel) else Pending
  }

  /** The approval request is committed and the lifecycle returns. */
  ghost predicate Delivered(c: Config, e: Env, r: Relocated, a: Answers) {
    && HasEntry(c, e.img, r.binding) && a.post.Some? && a.returned
    && KeyOf(r) in e.store && e.store[KeyOf(r)].binding.action == r.binding.action && e.store[KeyOf(r)].message.None?
  }

  /** The first entry of the binding's digest. */
  ghost predicate FirstEntry(c: Config, img: Image, b: Binding, i: nat) {
    Carries(c, img, b, i) && forall j: nat :: j < i ==> !Carries(c, img, b, j)
  }

  /** The note was pushed: its rendering of entry `i`, or what was there and reads the same, is what the
      remote reads back. */
  predicate Pushed(c: Config, e: Env, r: Relocated, a: Answers, i: nat, local: string)
    requires Carries(c, e.img, r.binding, i)
  {
    var text := Parse(TextOf(e.img, r.binding.kind))[i];
    && a.clone.Some? && a.pushed
    && local == (if c.vault.relpath(text) in a.clone.value
                    && Universal(a.clone.value[c.vault.relpath(text)]) == Rendered(c.vault, text, a.date)
                 then a.clone.value[c.vault.relpath(text)] else Rendered(c.vault, text, a.date))
    && c.hs.sha(Universal(a.remote)) == c.hs.sha(local)
  }

  ghost predicate NoteConfirmed(c: Config, e: Env, r: Relocated, a: Answers, local: string) {
    exists i: nat :: FirstEntry(c, e.img, r.binding, i) && Pushed(c, e, r, a, i, local)
  }

  /** The conditions for deleting the entry of a written record, in the order in which they are asked. */
  ghost predicate Met(c: Config, e: Env, r: Relocated, now: nat, a: Answers, k: nat) {
    match k
    case 0 => HasEntry(c, e.img, r.binding)
    case 1 => c.action(r.binding) == r.binding.action
    case 2 => r.binding.relpath in e.notes && (r.note.Some? ==> c.hs.sha(e.notes[r.binding.relpath]) == r.note.value)
    case 3 => a.ingestedAgain
    case 4 => forall i: nat, j: nat :: Carries(c, e.img, r.binding, i) && Carries(c, e.img, r.binding, j) ==> i == j
    case 5 => ReconcileVerdicts.GoesThrough(e.img, r.binding.kind, now, Visit(None, a.other, a.fault))
    case _ => true
  }

  function BlockFor(k: nat): GateBlock {
    match k
    case 1 => ActionHashDrift
    case 2 => ObsidianNotWritten
    case 3 => RagNotIngested
    case 4 => EntryAmbiguous_
    case _ => EntryAbsent
  }

  ghost predicate MetUpTo(c: Config, e: Env, r: Relocated, now: nat, a: Answers, n: nat) {
    forall k: nat :: k < n ==> Met(c, e, r, now, a, k)
  }

  ghost predicate FirstUnmet(c: Config, e: Env, r: Relocated, now: nat, a: Answers, k: nat) {
    k < 6 && !Met(c, e, r, now, a, k) && MetUpTo(c, e, r, now, a, k)
  }

  // ----- The outcomes of the effects -----

  lemma PostsExactly(c: Config, e: Env, r: Relocated, a: Answers)
    ensures PostedMessage(c, e, r, a) == if Delivered(c, e, r, a) then Some(a.post.value.0) else None
  {
    hide Recover, HasEntry;
    RecoversExactly(c, e.img, r.binding);
  }

  lemma ProbesExactly(c: Config, e: Env, r: Relocated, a: Answers)
    ensures Probed(c, e, r, a) == Shown(c, e, r, a)
  {
    hide Recover, HasEntry;
    RecoversExactly(c, e.img, r.binding);
  }

  lemma RecoversFirst(c: Config, img: Image, b: Binding, i: nat)
    requires FirstEntry(c, img, b, i)
    ensures Recover(c, img, b) == Some(Parse(TextOf(img, b.kind))[i])
  {
    hide Parse;
    var es := Parse(TextOf(img, b.kind));
    var m := Matching(c.hs, b.kind, b.entry, es, |es|);
    assert i in m;
    assert m[0] in m;
    assert Carries(c, img, b, m[0]);
    var k :| 0 <= k < |m| && m[k] == i;
  }

  lemma {:induction false} FindsFirst(c: Config, img: Image, b: Binding, i: nat)
    requires Carries(c, img, b, i)
    ensures exists j: nat :: FirstEntry(c, img, b, j)
  {
    hide Carries;
    if j: nat :| j < i && Carries(c, img, b, j) {
      FindsFirst(c, img, b, j);
    } else {
      assert FirstEntry(c, img, b, i);
    }
  }

  /** A receipt comes exactly for a confirmed note, and carries its hash. */
  lemma ReceiptsExactly(c: Config, e: Env, r: Relocated, a: Answers)
    ensures Receipted(c, e, r, a).Some? <==> exists local :: NoteConfirmed(c, e, r, a, local)
    ensures forall local :: NoteConfirmed(c, e, r, a, local) ==>
              && Receipted(c, e, r, a) == Some(Receipt(c.hs.sha(local)))
              && AfterWrite(c, e, r, a).log == e.log + [Wrote(KeyOf(r), local)]
  {
    hide Recover, Rendered, Universal, Parse, Carries;
    RecoversExactly(c, e.img, r.binding);
    forall local | NoteConfirmed(c, e, r, a, local)
      ensures && Receipted(c, e, r, a) == Some(Receipt(c.hs.sha(local)))
              && AfterWrite(c, e, r, a).log == e.log + [Wrote(KeyOf(r), local)]
    {
      var i: nat :| FirstEntry(c, e.img, r.binding, i) && Pushed(c, e, r, a, i, local);
      RecoversFirst(c, e.img, r.binding, i);
    }
    if Receipted(c, e, r, a).Some? {
      var j: nat :| Carries(c, e.img, r.binding, j);
      FindsFirst(c, e.img, r.binding, j);
      var i: nat :| FirstEntry(c, e.img, r.binding, i);
      RecoversFirst(c, e.img, r.binding, i);
      var local := LocalNote(c, a.clone.value, Recover(c, e.img, r.binding).value, a);
      assert Pushed(c, e, r, a, i, local);
      assert NoteConfirmed(c, e, r, a, local);
    }
  }

  lemma UniqueExactly(c: Config, e: Env, r: Relocated, now: nat, a: Answers)
    ensures var b, es := r.binding, Parse(TextOf(e.img, r.binding.kind));
            |Matching(c.hs, b.kind, b.entry, es, |es|)| > 1 <==> !Met(c, e, r, now, a, 4)
  {
    hide Parse;
    var b, es := r.binding, Parse(TextOf(e.img, r.binding.kind));
    var m := Matching(c.hs, b.kind, b.entry, es, |es|);
    assert forall i: nat :: Carries(c, e.img, b, i) <==> i in m;
    hide Carries;
    if |m| > 1 { assert m[0] in m && m[1] in m; }
  }

  /** A written record is blocked for the first condition it misses. */
  lemma GatesExactly(c: Config, e: Env, r: Relocated, now: nat, a: Answers)
    requires r.status == Written
    ensures MetUpTo(c, e, r, now, a, 5) <==> Gate(c, e, r, a).None?
    ensures forall k :: k < 5 && FirstUnmet(c, e, r, now, a, k) ==> Gate(c, e, r, a) == Some(BlockFor(k))
  {
    RecoversExactly(c, e.img, r.binding);
    UniqueExactly(c, e, r, now, a);
    var M := (k: nat) => Met(c, e, r, now, a, k);
    hide HasEntry, Recover, Parse, Matching, Carries;
    assert MetUpTo(c, e, r, now, a, 5) ==> M(0) && M(1) && M(2) && M(3) && M(4);
    forall k: nat | k < 5 && FirstUnmet(c, e, r, now, a, k)
      ensures Gate(c, e, r, a) == Some(BlockFor(k))
    {
      assert k > 0 ==> M(0);
      assert k > 1 ==> M(1);
      assert k > 2 ==> M(2);
      assert k > 3 ==> M(3);
    }
  }

  lemma DeletionSucceeds(c: Config, e: Env, r: Relocated, now: nat, a: Answers)
    requires r.status == Written && MetUpTo(c, e, r, now, a, 5) && Recover(c, e.img, r.binding).Some?
    ensures var kind, text := r.binding.kind, TextOf(e.img, r.binding.kind);
            Succeeds(Interfere(e.img, kind, a.other), kind, Target(c, e, r), text, now, a.fault)
            <==> Met(c, e, r, now, a, 5)
  {
    assert Met(c, e, r, now, a, 4);
    var b, i := r.binding, Target(c, e, r);
    var es := Parse(TextOf(e.img, b.kind));
    hide Parse, Recover, Target;
    assert Carries(c, e.img, b, i);
    forall j: nat | j < |es| && es[j] == es[i] ensures j == i {
      assert Carries(c, e.img, b, j);
    }
  }

  /** The deletion succeeds exactly when all conditions are met, and otherwise reports the first that is not. */
  lemma AppliesExactly(c: Config, e: Env, r: Relocated, now: nat, a: Answers)
    requires r.status == Written
    ensures ApplyOutcome(c, e, r, now, a).None? <==> MetUpTo(c, e, r, now, a, 6)
    ensures forall k :: FirstUnmet(c, e, r, now, a, k) ==> ApplyOutcome(c, e, r, now, a) == Some(BlockFor(k))
  {
    GatesExactly(c, e, r, now, a);
    assert MetUpTo(c, e, r, now, a, 6) <==> MetUpTo(c, e, r, now, a, 5) && Met(c, e, r, now, a, 5);
    assert forall k: nat :: FirstUnmet(c, e, r, now, a, k) && k >= 5 ==>
        k == 5 && MetUpTo(c, e, r, now, a, 5) && !Met(c, e, r, now, a, 5);
    assert forall k: nat :: FirstUnmet(c, e, r, now, a, k) && k < 5 ==> !MetUpTo(c, e, r, now, a, 5);
    assert Gate(c, e, r, a).None? ==> Recover(c, e.img, r.binding).Some?;
    hide Gate, Met, MetUpTo, FirstUnmet, Recover, Succeeds;
    if Gate(c, e, r, a).None? { DeletionSucceeds(c, e, r, now, a); }
  }

  // ----- One visit -----

  datatype Step = Posts | Approves | Refuses | Unbinds | Writes | Reconciles | Rests

  /** The step that a visit takes, told by what it sees. */
  ghost function StepOf(c: Config, now: nat, maxPosts: int, t: Tick, key: RecordKey, a: Answers): Step {
    if key !in t.records then Rests
    else
      var r := t.records[key];
      match r.status
      case Proposed =>
        if |t.posted| < maxPosts && r.message.None? && Delivered(c, t.env, r, a) then Posts else Rests
      case Posted =>
        (match Shown(c, t.env, r, a)
         case Yes => Approves
         case No => Refuses
         case Missing => Unbinds
         case Pending => Rests)
      case Approved => if exists local :: NoteConfirmed(c, t.env, r, a, local) then Writes else Rests
      case Written => if a.ingested && MetUpTo(c, t.env, r, now, a, 6) then Reconciles else Rests
      case Ingested => Rests
      case Reconciled => Rests
      case Abandoned => Rests
  }

  function StatusAfter(s: Step, before: RelocationStatus): RelocationStatus {
    match s
    case Posts => RelocationStatus.Posted
    case Approves => Approved
    case Refuses => Abandoned
    case Unbinds => Proposed
    case Writes => Written
    case Reconciles => RelocationStatus.Reconciled
    case Rests => before
  }

  /** The record after step `s`: the status of the step, the fields that belong to it, and all others as
      they were. */
  ghost predicate Stepped(c: Config, now: nat, e: Env, a: Answers, s: Step, r: Relocated, q: Relocated) {
    && q.status == StatusAfter(s, r.status) && q.binding == r.binding && q.channel == r.channel
    && (match s
        case Posts => a.post.Some? && q.message == Some(a.post.value.0)
        case Unbinds => q.message == None
        case _ => q.message == r.message)
    && q.approvedAt == (if s == Approves then Some(now) else r.approvedAt)
    && q.writtenAt == (if s == Writes then Some(now) else r.writtenAt)
    && q.reconciledAt == (if s == Reconciles then Some(now) else r.reconciledAt)
    && (if s == Writes then forall local :: NoteConfirmed(c, e, r, a, local) ==> q.note == Some(c.hs.sha(local))
        else q.note == r.note)
    && (s == Reconciles ==> q.lastBlock == None)
    && (s != Reconciles && (r.status == Written ==> !a.ingested) ==> q.lastBlock == r.lastBlock)
    && (r.status == Written && a.ingested ==>
          forall k :: FirstUnmet(c, e, r, now, a, k) ==> q.lastBlock == Some(BlockFor(k)))
  }

  function ListedAs(yes: bool, key: RecordKey): seq<RecordKey> {
    if yes then [key] else []
  }

  ghost predicate VisitIs(c: Config, now: nat, maxPosts: int, t: Tick, u: Tick, key: RecordKey, a: Answers) {
    var s := StepOf(c, now, maxPosts, t, key, a);
    && u.records.Keys == t.records.Keys
    && (forall k :: k in t.records && k != key ==> u.records[k] == t.records[k])
    && (key in t.records ==> Stepped(c, now, t.env, a, s, t.records[key], u.records[key]))
    && u.posted == t.posted + ListedAs(s == Posts, key) && u.written == t.written + ListedAs(s == Writes, key)
    && u.reconciled == t.reconciled + ListedAs(s == Reconciles, key)
    && u.abandoned == t.abandoned + ListedAs(s == Refuses, key)
    && (key in t.records && t.records[key].status == RelocationStatus.Posted ==>
          u.env == t.env.(log := t.env.log + [Observed(key, Shown(c, t.env, t.records[key], a))]))
  }

  lemma ProposedSteps(c: Config, now: nat, maxPosts: int, t: Tick, key: RecordKey, a: Answers)
    requires key in t.records && t.records[key].status == Proposed
    ensures VisitIs(c, now, maxPosts, t, Resolve(c, now, maxPosts, t, key, a), key, a)
  {
    hide PostedMessage, AfterPost, Delivered;
    PostsExactly(c, t.env, t.records[key], a);
    DeliveredPosts(c, t.env, t.records[key], a);
  }

  lemma PostedSteps(c: Config, now: nat, maxPosts: int, t: Tick, key: RecordKey, a: Answers)
    requires key in t.records && t.records[key].status == RelocationStatus.Posted
    ensures VisitIs(c, now, maxPosts, t, Resolve(c, now, maxPosts, t, key, a), key, a)
  {
    hide Probed, Shown;
    ProbesExactly(c, t.env, t.records[key], a);
  }

  lemma ApprovedSteps(c: Config, now: nat, maxPosts: int, t: Tick, key: RecordKey, a: Answers)
    requires key in t.records && t.records[key].status == Approved
    ensures VisitIs(c, now, maxPosts, t, Resolve(c, now, maxPosts, t, key, a), key, a)
  {
    hide Receipted, AfterWrite, NoteConfirmed;
    ReceiptsExactly(c, t.env, t.records[key], a);
  }

  lemma WrittenSteps(c: Config, now: nat, maxPosts: int, t: Tick, key: RecordKey, a: Answers)
    requires key in t.records && t.records[key].status == Written
    ensures VisitIs(c, now, maxPosts, t, Resolve(c, now, maxPosts, t, key, a), key, a)
  {
    hide ApplyOutcome, AfterApply, MetUpTo, FirstUnmet;
    AppliesExactly(c, t.env, t.records[key], now, a);
    if MetUpTo(c, t.env, t.records[key], now, a, 6) { NoneUnmet(c, t.env, t.records[key], now, a); }
  }

  /** Each visit takes exactly the step that it may take by what it sees, reports it, and leaves all other
      records alone. */
  lemma VisitSteps(c: Config, now: nat, maxPosts: int, t: Tick, key: RecordKey, a: Answers)
    ensures VisitIs(c, now, maxPosts, t, Resolve(c, now, maxPosts, t, key, a), key, a)
  {
    if key !in t.records || t.records[key].status in {Ingested, RelocationStatus.Reconciled, Abandoned} {
      assert Resolve(c, now, maxPosts, t, key, a) == t;
    } else {
      hide VisitIs, Resolve;
      match t.records[key].status {
        case Proposed => ProposedSteps(c, now, maxPosts, t, key, a);
        case Posted => PostedSteps(c, now, maxPosts, t, key, a);
        case Approved => ApprovedSteps(c, now, maxPosts, t, key, a);
        case Written => WrittenSteps(c, now, maxPosts, t, key, a);
      }
    }
  }

  lemma DeliveredPosts(c: Config, e: Env, r: Relocated, a: Answers)
    ensures Delivered(c, e, r, a) ==> a.post.Some?
  {
  }

  lemma NoneUnmet(c: Config, e: Env, r: Relocated, now: nat, a: Answers)
    requires MetUpTo(c, e, r, now, a, 6)
    ensures forall k :: !FirstUnmet(c, e, r, now, a, k)
  {
    hide Met;
  }

  // ----- What a visit does outside -----

  /** The note is in the clone at the entry's path whenever the clone was there to write to: freshly rendered,
      unless what was there reads the same. */
  lemma WritesNote(c: Config, e: Env, r: Relocated, a: Answers, i: nat)
    requires FirstEntry(c, e.img, r.binding, i) && a.clone.Some?
    ensures var text := Parse(TextOf(e.img, r.binding.kind))[i];
            var path, note := c.vault.relpath(text), Rendered(c.vault, text, a.date);
            var kept := path in a.clone.value && Universal(a.clone.value[path]) == note;
            AfterWrite(c, e, r, a).notes == a.clone.value[path := if kept then a.clone.value[path] else note]
  {
    hide Parse, Rendered, Universal, Recover;
    RecoversFirst(c, e.img, r.binding, i);
  }

  lemma WritesNothing(c: Config, e: Env, r: Relocated, a: Answers)
    ensures var f := AfterWrite(c, e, r, a);
            f.img == e.img && f.store == e.store && (!HasEntry(c, e.img, r.binding) || a.clone.None? ==> f == e)
  {
    RecoversExactly(c, e.img, r.binding);
    hide Recover, LocalNote, HasEntry;
  }

  lemma AppliesAt(c: Config, e: Env, r: Relocated, now: nat, a: Answers, i: nat)
    requires r.status == Written && Carries(c, e.img, r.binding, i) && MetUpTo(c, e, r, now, a, 6)
    ensures Gate(c, e, r, a).None? && Target(c, e, r) == i
  {
    GatesExactly(c, e, r, now, a);
    assert Met(c, e, r, now, a, 4);
    assert MetUpTo(c, e, r, now, a, 5);
    hide Parse, Matching, Met, MetUpTo;
    assert Carries(c, e.img, r.binding, Target(c, e, r));
  }

  /** A reconciled visit has rewritten the native file without the entry, kept the old text as backup, and
      logged the removal with the note read back. */
  lemma AppliesRemoval(c: Config, e: Env, r: Relocated, now: nat, a: Answers, i: nat)
    requires r.status == Written && Carries(c, e.img, r.binding, i) && MetUpTo(c, e, r, now, a, 6)
    ensures r.binding.relpath in e.notes
    ensures var kind, text, f := r.binding.kind, TextOf(e.img, r.binding.kind), AfterApply(c, e, r, now, a);
            && f.img == Image(e.img.files[kind := Rewritten(text, i)], e.img.backups[(kind, now) := text])
            && f.log == e.log + [Removed(KeyOf(r), e.notes[r.binding.relpath], i, text)]
            && f.notes == e.notes && f.store == e.store
  {
    var kind, text := r.binding.kind, TextOf(e.img, r.binding.kind);
    AppliesAt(c, e, r, now, a, i);
    assert i < |Parse(text)|;
    assert Met(c, e, r, now, a, 5) && Met(c, e, r, now, a, 2);
    assert r.binding.relpath in e.notes
           && ReconcileVerdicts.GoesThrough(e.img, kind, now, Visit(None, a.other, a.fault));
    hide Parse, Recover, Target, Serialize, Met, MetUpTo, Gate, Rewritten, Carries;
    RewritesIt(e.img, kind, i, now, a.other);
  }

  lemma RewritesIt(img: Image, kind: Kind, i: nat, now: nat, other: Option<string>)
    requires var text := TextOf(img, kind);
             && i < |Parse(text)| && (kind, now) !in img.backups
             && (if other.Some? then other.value == text else kind in img.files)
    ensures var text := TextOf(img, kind);
            var met := Interfere(img, kind, other);
            var after := AfterDelete(met, kind, i, text, now, NoFault);
            && after == Image(img.files[kind := Rewritten(text, i)], img.backups[(kind, now) := text])
            && after.files != met.files
  {
    var text := TextOf(img, kind);
    ReadsBack(text, i);
    hide Parse, Rewritten;
    var met := Interfere(img, kind, other);
    assert met.files[kind := Rewritten(text, i)] == img.files[kind := Rewritten(text, i)];
  }

  /** While a condition before the deletion is missed, nothing is touched. */
  lemma BlockedTouchesNothing(c: Config, e: Env, r: Relocated, now: nat, a: Answers)
    requires r.status == Written && !MetUpTo(c, e, r, now, a, 5)
    ensures AfterApply(c, e, r, now, a) == e
  {
    GatesExactly(c, e, r, now, a);
    hide Gate, MetUpTo;
  }

  // ----- A whole call -----

  predicate Once(keys: seq<RecordKey>) {
    forall a, b :: 0 <= a < b < |keys| ==> keys[a] != keys[b]
  }

  lemma {:induction false} UnvisitedStays(c: Config, w: World, call: Call, m: nat, n: nat, k: RecordKey)
    requires m <= n <= |Visited(call)| && forall i :: m <= i < n ==> Visited(call)[i] != k
    requires k in TickAt(c, w, call, m).records
    ensures var t := TickAt(c, w, call, n); k in t.records && t.records[k] == TickAt(c, w, call, m).records[k]
    decreases n
  {
    hide TickAt, StepOf, Stepped;
    if m < n {
      UnvisitedStays(c, w, call, m, n - 1, k);
      TickStep(c, w, call, n - 1);
      VisitSteps(c, call.now, 1, TickAt(c, w, call, n - 1), Visited(call)[n - 1], call.answers(n - 1));
    }
  }

  /** The step of visit `n`. */
  ghost function StepAt(c: Config, w: World, call: Call, n: nat): Step
    requires n < |Visited(call)|
  {
    StepOf(c, call.now, 1, TickAt(c, w, call, n), Visited(call)[n], call.answers(n))
  }

  /** The keys of those of the first `n` visits that took step `s`. */
  ghost function Takers(c: Config, w: World, call: Call, n: nat, s: Step): seq<RecordKey>
    requires n <= |Visited(call)|
  {
    if n == 0 then [] else Takers(c, w, call, n - 1, s) + ListedAs(StepAt(c, w, call, n - 1) == s, Visited(call)[n - 1])
  }

  /** A tick reports, in order, exactly the records that it posted, wrote, reconciled and abandoned, and
      posts at most one. */
  lemma {:induction false} TickReports(c: Config, w: World, call: Call, n: nat)
    requires n <= |Visited(call)|
    ensures var t := TickAt(c, w, call, n);
            && t.posted == Takers(c, w, call, n, Posts) && t.written == Takers(c, w, call, n, Writes)
            && t.reconciled == Takers(c, w, call, n, Reconciles) && t.abandoned == Takers(c, w, call, n, Refuses)
            && |t.posted| <= 1
  {
    if n == 0 {
      TickEnds(c, w, call);
    } else {
      TickReports(c, w, call, n - 1);
      TickStep(c, w, call, n - 1);
      var t, key, a := TickAt(c, w, call, n - 1), Visited(call)[n - 1], call.answers(n - 1);
      VisitSteps(c, call.now, 1, t, key, a);
      PostsWithRoom(c, call.now, 1, t, key, a);
      hide TickAt, StepOf, Stepped;
    }
  }

  lemma PostsWithRoom(c: Config, now: nat, maxPosts: int, t: Tick, key: RecordKey, a: Answers)
    ensures StepOf(c, now, maxPosts, t, key, a) == Posts ==> |t.posted| < maxPosts
  {
  }

  /** How a completed call leaves each record it loaded: the record as loaded, taken one step further by
      what its one visit saw, or as it was when it was not visited. */
  lemma CallSteps(c: Config, w: World, call: Call, k: RecordKey)
    requires Keyed(w.store) && Once(call.keys) && call.crash.None?
    requires k in Loaded(w.store, w.log, call).records
    ensures var r, after := Loaded(w.store, w.log, call).records[k], Saved(c, w.store, w.log, call);
            && k in after
            && (k !in call.keys ==> after[k] == r)
            && forall n :: 0 <= n < |call.keys| && call.keys[n] == k ==>
                 var t := TickAt(c, w, call, n);
                 k in t.records && t.records[k] == r
                 && Stepped(c, call.now, t.env, call.answers(n), StepAt(c, w, call, n), r, after[k])
  {
    hide ResolveAll, Loaded, Stepped;
    TickEnds(c, w, call);
    if k !in call.keys { UnvisitedStays(c, w, call, 0, |call.keys|, k); }
    forall n | 0 <= n < |call.keys| && call.keys[n] == k
      ensures var t, r, after := TickAt(c, w, call, n), Loaded(w.store, w.log, call).records[k],
                                 Saved(c, w.store, w.log, call);
              && k in t.records && t.records[k] == r && k in after
              && Stepped(c, call.now, t.env, call.answers(n), StepAt(c, w, call, n), r, after[k])
    {
      UnvisitedStays(c, w, call, 0, n, k);
      TickStep(c, w, call, n);
      VisitSteps(c, call.now, 1, TickAt(c, w, call, n), k, call.answers(n));
      UnvisitedStays(c, w, call, n + 1, |call.keys|, k);
    }
  }

  // ----- The owner's answer, over runs -----

  /** What the visit of key `k` reads, when the call completes and visits it. */
  ghost predicate Reads(c: Config, w: World, call: Call, k: RecordKey, v: Verdict) {
    call.crash.None? && k in w.store && exists n: nat :: ReadsAt(c, w, call, k, v, n)
  }

  ghost predicate ReadsAt(c: Config, w: World, call: Call, k: RecordKey, v: Verdict, n: nat)
    requires call.crash.None? && k in w.store
  {
    n < |call.keys| && call.keys[n] == k && v == Shown(c, TickAt(c, w, call, n).env, w.store[k], call.answers(n))
  }

  /** A posted record after the owner's answer `v`. */
  predicate Follows(now: nat, r: Relocated, v: Verdict, after: Relocated) {
    match v
    case Yes => after == r.(status := Approved, approvedAt := Some(now))
    case No => after == r.(status := Abandoned)
    case Missing => after == r.(status := Proposed, message := None)
    case Pending => after == r
  }

  lemma VisitFollows(c: Config, w: World, call: Call, k: RecordKey, n: nat, v: Verdict)
    requires Keyed(w.store) && Once(call.keys) && call.crash.None?
    requires k in w.store && w.store[k].status == RelocationStatus.Posted && ReadsAt(c, w, call, k, v, n)
    ensures var after := Saved(c, w.store, w.log, call);
            k in after && Follows(call.now, w.store[k], v, after[k])
    ensures StepAt(c, w, call, n) == Refuses <==> v == No
  {
    hide ResolveAll, TickAt, Resolve, Shown, Saved, Loaded;
    LoadedSame(w, call, k);
    CallSteps(c, w, call, k);
  }

  lemma RefusedIsReported(c: Config, w: World, call: Call, k: RecordKey)
    requires Keyed(w.store) && Once(call.keys) && call.crash.None?
    requires k in w.store && w.store[k].status == RelocationStatus.Posted
    ensures k in Ticked(c, w.store, w.log, call).abandoned <==> Reads(c, w, call, k, No)
  {
    TickEnds(c, w, call);
    TickReports(c, w, call, |call.keys|);
    TakersExactly(c, w, call, |call.keys|, Refuses, k);
    hide ResolveAll, TickAt, Resolve, Shown, Ticked, StepAt;
    forall n: nat | n < |call.keys| && call.keys[n] == k
      ensures StepAt(c, w, call, n) == Refuses <==> ReadsAt(c, w, call, k, No, n)
    {
      VisitFollows(c, w, call, k, n, Shown(c, TickAt(c, w, call, n).env, w.store[k], call.answers(n)));
    }
    assert forall n: nat :: Takes(c, w, call, n, Refuses, k) <==> ReadsAt(c, w, call, k, No, n);
  }

  lemma CallFollows(c: Config, w: World, call: Call, k: RecordKey)
    requires Keyed(w.store) && Once(call.keys) && call.crash.None?
    requires k in w.store && w.store[k].status == RelocationStatus.Posted
    ensures var after := Saved(c, w.store, w.log, call);
            && k in after
            && (k !in call.keys ==> after[k] == w.store[k])
            && (forall v :: Reads(c, w, call, k, v) ==> Follows(call.now, w.store[k], v, after[k]))
            && (k in call.keys ==> exists v :: Reads(c, w, call, k, v))
  {
    LoadedSame(w, call, k);
    CallSteps(c, w, call, k);
    hide ResolveAll, TickAt, Resolve, Shown, Saved, Loaded, Stepped, Follows;
    forall v | Reads(c, w, call, k, v)
      ensures Follows(call.now, w.store[k], v, Saved(c, w.store, w.log, call)[k])
    {
      var n: nat :| ReadsAt(c, w, call, k, v, n);
      VisitFollows(c, w, call, k, n, v);
    }
    if k in call.keys {
      var n: nat :| n < |call.keys| && call.keys[n] == k;
      var v := Shown(c, TickAt(c, w, call, n).env, w.store[k], call.answers(n));
      assert ReadsAt(c, w, call, k, v, n);
      assert Reads(c, w, call, k, v);
    }
  }

  /** The owner's answer decides.  In every call of every run, a posted record ends abandoned if and only if
      its visit read a refusal, and only then is it reported so; approved if and only if it read the
      approval; proposed again, without its message, if and only if the message was missing; and otherwise
      it is still as it was. */
  lemma AnswerDecides(c: Config, worlds: seq<World>, calls: seq<Call>, i: nat, k: RecordKey)
    requires IsRun(c, worlds, calls) && i < |calls| && Once(calls[i].keys)
    requires k in worlds[i].store && worlds[i].store[k].status == RelocationStatus.Posted
    ensures var w, call := worlds[i], calls[i];
            && k in worlds[i + 1].store
            && var r, after := w.store[k], worlds[i + 1].store[k];
               && (after == r.(status := Abandoned) <==> Reads(c, w, call, k, No))
               && (after == r.(status := Approved, approvedAt := Some(call.now)) <==> Reads(c, w, call, k, Yes))
               && (after == r.(status := Proposed, message := None) <==> Reads(c, w, call, k, Missing))
               && (after == r <==> call.crash.Some? || k !in call.keys || Reads(c, w, call, k, Pending))
               && (call.crash.None? ==> (k in Ticked(c, w.store, w.log, call).abandoned <==> Reads(c, w, call, k, No)))
  {
    var w, call := worlds[i], calls[i];
    RunKeyed(c, worlds, calls, i);
    assert IsCall(c, w, call, worlds[i + 1]);
    if call.crash.Some? {
      PostedStaysStored(c, w, call, k, |Visited(call)|);
      TickEnds(c, w, call);
    } else {
      CallFollows(c, w, call, k);
      RefusedIsReported(c, w, call, k);
      if k !in call.keys { Unread(c, w, call, k); }
      hide Saved, Ticked, Reads;
    }
  }

  /** The store keeps a posted record until the final save. */
  lemma {:induction false} PostedStaysStored(c: Config, w: World, call: Call, k: RecordKey, n: nat)
    requires Keyed(w.store) && Once(call.keys) && n <= |Visited(call)|
    requires k in w.store && w.store[k].status == RelocationStatus.Posted
    ensures var store := TickAt(c, w, call, n).env.store; k in store && store[k] == w.store[k]
  {
    hide TickAt, Resolve, Frozen, Loaded;
    LoadedSame(w, call, k);
    TickEnds(c, w, call);
    if n > 0 {
      PostedStaysStored(c, w, call, k, n - 1);
      TickStep(c, w, call, n - 1);
      TickFrame(c, w, call, n - 1, k);
      StepStore(c, call.now, TickAt(c, w, call, n - 1), Visited(call)[n - 1], call.answers(n - 1));
      if Visited(call)[n - 1] == k { UnvisitedStays(c, w, call, 0, n - 1, k); }
    }
  }

  lemma Unread(c: Config, w: World, call: Call, k: RecordKey)
    requires k !in call.keys
    ensures forall v :: !Reads(c, w, call, k, v)
  {
    hide Shown, TickAt;
  }

  lemma {:induction false} TakersExactly(c: Config, w: World, call: Call, n: nat, s: Step, k: RecordKey)
    requires n <= |Visited(call)|
    ensures k in Takers(c, w, call, n, s) <==> exists i: nat :: i < n && Takes(c, w, call, i, s, k)
  {
    hide StepAt;
    if n > 0 {
      TakersExactly(c, w, call, n - 1, s, k);
      assert StepAt(c, w, call, n - 1) == s && Visited(call)[n - 1] == k <==> Takes(c, w, call, n - 1, s, k);
    }
  }

  ghost predicate Takes(c: Config, w: World, call: Call, i: nat, s: Step, k: RecordKey) {
    i < |Visited(call)| && Visited(call)[i] == k && StepAt(c, w, call, i) == s
  }

  // ----- A refused relocation is finished -----

  /** The later log extends the earlier one, by no event of key `k`. */
  predicate Silent(before: seq<Event>, after: seq<Event>, k: RecordKey) {
    |before| <= |after| && after[..|before|] == before && forall m :: |before| <= m < |after| ==> after[m].key != k
  }

  lemma VisitLogs(c: Config, now: nat, maxPosts: int, t: Tick, key: RecordKey, a: Answers)
    requires key in t.records ==> KeyOf(t.records[key]) == key
    ensures var u := Resolve(c, now, maxPosts, t, key, a);
            u.env.log == t.env.log || exists e: Event :: e.key == key && u.env.log == t.env.log + [e]
  {
    hide PostedMessage, AfterPost, Receipted, AfterWrite, ApplyOutcome, Probed, Recover, AfterDelete;
    if key in t.records {
      WriteIsQuiet(c, t.env, t.records[key], a);
      PostIsQuiet(c, t.env, t.records[key], a);
    }
  }

  /** A visit of an abandoned record does nothing at all. */
  lemma AbandonedIsSkipped(c: Config, now: nat, maxPosts: int, t: Tick, key: RecordKey, a: Answers)
    requires key in t.records && t.records[key].status == Abandoned
    ensures Resolve(c, now, maxPosts, t, key, a) == t
  {
  }

  lemma SilentSnoc(first: seq<Event>, before: seq<Event>, after: seq<Event>, key: RecordKey, k: RecordKey)
    requires Silent(first, before, k) && key != k
    requires after == before || exists e: Event :: e.key == key && after == before + [e]
    ensures Silent(first, after, k)
  {
  }

  predicate Unlisted(t: Tick, k: RecordKey) {
    k !in t.posted && k !in t.written && k !in t.reconciled && k !in t.abandoned
  }

  lemma VisitKeepsOthers(c: Config, now: nat, t: Tick, key: RecordKey, a: Answers, k: RecordKey)
    requires key != k && k in t.records && Unlisted(t, k)
    ensures var u := Resolve(c, now, 1, t, key, a);
            k in u.records && u.records[k] == t.records[k] && Unlisted(u, k)
  {
    VisitSteps(c, now, 1, t, key, a);
    hide Resolve, StepOf, Stepped;
  }

  /** While a call visits its records, an abandoned one stays as it is, and nothing is done or reported for
      its key. */
  lemma {:induction false} AbandonedAt(c: Config, w: World, call: Call, n: nat, k: RecordKey)
    requires Keyed(w.store) && n <= |Visited(call)|
    requires k in w.store && w.store[k].status == Abandoned
    ensures var t := TickAt(c, w, call, n);
            && k in t.records && t.records[k] == w.store[k] && Unlisted(t, k)
            && Silent(w.log, t.env.log, k)
  {
    hide TickAt, Resolve, Frozen;
    TickEnds(c, w, call);
    if n == 0 {
      LoadedSame(w, call, k);
      LoadedLog(w, call);
    } else {
      AbandonedAt(c, w, call, n - 1, k);
      TickStep(c, w, call, n - 1);
      TickFrame(c, w, call, n - 1, k);
      var t, key, a := TickAt(c, w, call, n - 1), Visited(call)[n - 1], call.answers(n - 1);
      if key == k {
        AbandonedIsSkipped(c, call.now, 1, t, key, a);
      } else {
        KeyedAt(t.records, key);
        VisitLogs(c, call.now, 1, t, key, a);
        VisitKeepsOthers(c, call.now, t, key, a, k);
        SilentSnoc(w.log, t.env.log, TickAt(c, w, call, n).env.log, key, k);
      }
    }
  }

  /** Once the owner refused and the call saved it, the relocation is finished: over every later run the
      record stays as it is, no visit posts, probes, writes or removes anything for its key, and no call
      reports it again. */
  lemma {:induction false} RefusedIsFinished(c: Config, worlds: seq<World>, calls: seq<Call>, i: nat, j: nat,
                                             k: RecordKey)
    requires IsRun(c, worlds, calls) && i <= j <= |calls|
    requires k in worlds[i].store && worlds[i].store[k].status == Abandoned
    ensures k in worlds[j].store && worlds[j].store[k] == worlds[i].store[k]
    ensures Silent(worlds[i].log, worlds[j].log, k)
    ensures j < |calls| ==> Unlisted(Ticked(c, worlds[j].store, worlds[j].log, calls[j]), k)
                            && forall n :: 0 <= n < |Visited(calls[j])| ==> !CommitsAt(c, worlds[j], calls[j], k, n)
    decreases j
  {
    hide Saved, Ticked, TickAt, Visited;
    assert Frozen(worlds[i].store[k]);
    RunFrame(c, worlds, calls, i, j, k);
    if i < j {
      var w, call := worlds[j - 1], calls[j - 1];
      RefusedIsFinished(c, worlds, calls, i, j - 1, k);
      RunKeyed(c, worlds, calls, j - 1);
      assert IsCall(c, w, call, worlds[j]);
      AbandonedAt(c, w, call, |Visited(call)|, k);
      TickEnds(c, w, call);
      SilentTwice(worlds[i].log, w.log, worlds[j].log, k);
    }
    if j < |calls| {
      var w, call := worlds[j], calls[j];
      RunKeyed(c, worlds, calls, j);
      AbandonedAt(c, w, call, |Visited(call)|, k);
      TickEnds(c, w, call);
      forall n | 0 <= n < |Visited(call)| ensures !CommitsAt(c, w, call, k, n) {
        AbandonedAt(c, w, call, n, k);
      }
    }
  }

  lemma SilentTwice(a: seq<Event>, b: seq<Event>, d: seq<Event>, k: RecordKey)
    requires Silent(a, b, k) && Silent(b, d, k)
    ensures Silent(a, d, k)
  {
    assert d[..|a|] == d[..|b|][..|a|];
    forall m | |a| <= m < |d| ensures d[m].key != k {
      if m < |b| { assert d[m] == d[..|b|][m]; }
    }
  }

  // ----- Discovery -----

  predicate AllFinished(store: map<RecordKey, Relocated>) {
    forall k :: k in store ==> store[k].status in {RelocationStatus.Reconciled, Abandoned}
  }

  predicate Proposes(p: Relocated, k: RecordKey) {
    KeyOf(p) == k && p.status == Proposed && p.message.None? && p.note.None?
  }

  lemma FinishedExactly(store: map<RecordKey, Relocated>)
    ensures AllFinished(store) <==> !InFlight(store)
  {
    if !InFlight(store) {
      forall k | k in store ensures store[k].status in {RelocationStatus.Reconciled, Abandoned} {
        var s := store[k].status;
        assert s !in {Proposed, RelocationStatus.Posted, Approved, Written, Ingested};
        assert s.Proposed? || s.Posted? || s.Approved? || s.Written? || s.Ingested? || s.Reconciled? || s.Abandoned?;
      }
    }
  }

  /** A new record comes exactly from a proposal that is unbound and proposed, for a key that is not stored,
      while no stored record is on its way. */
  lemma NewRecordExactly(c: Config, worlds: seq<World>, calls: seq<Call>, i: nat, k: RecordKey)
    requires IsRun(c, worlds, calls) && i < |calls| && k !in worlds[i].store
    ensures k in worlds[i + 1].store <==>
              AllFinished(worlds[i].store) && calls[i].proposal.Some? && Proposes(calls[i].proposal.value, k)
    ensures k in worlds[i + 1].store && calls[i].proposal.Some? ==>
              worlds[i + 1].store[k].binding == calls[i].proposal.value.binding
  {
    hide ResolveAll, Frozen;
    assert AllFinished(worlds[i].store) <==> !InFlight(worlds[i].store) by { FinishedExactly(worlds[i].store); }
    hide AllFinished, InFlight;
    var w, call := worlds[i], calls[i];
    RunKeyed(c, worlds, calls, i);
    assert IsCall(c, w, call, worlds[i + 1]);
    TickFrame(c, w, call, |Visited(call)|, k);
    TickEnds(c, w, call);
  }
}
