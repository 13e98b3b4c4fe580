/** What every run of relocation ticks keeps: no fact leaves native memory before its note holds it. */
module RelocationRuns {
  import opened Common
  import opened MemoryText
  import opened Reclaim
  import opened MemoryDeletion
  import opened Relocation

  // ----- The note holds the entry -----

  predicate Occurs(s: string, t: string, i: nat) {
    i + |t| <= |s| && s[i..i + |t|] == t
  }

  ghost predicate Contains(s: string, t: string) {
    exists i: nat :: Occurs(s, t, i)
  }

  lemma StripKeeps(s: string)
    requires |s| > 0 && !IsSpace(s[0]) && !IsSpace(s[|s| - 1])
    ensures Strip(s) == s
  {
  }

  predicate NoReturn(s: string) {
    forall i :: 0 <= i < |s| ==> s[i] != '\r'
  }

  lemma {:induction false} UniversalHasNoReturn(s: string)
    ensures NoReturn(Universal(s))
    decreases |s|
  {
    if |s| > 0 {
      UniversalHasNoReturn(if s[0] == '\r' && |s| > 1 && s[1] == '\n' then s[2..] else s[1..]);
    }
  }

  lemma {:induction false} UniversalOfNoReturn(s: string)
    requires NoReturn(s)
    ensures Universal(s) == s
  {
    if |s| > 0 {
      UniversalOfNoReturn(s[1..]);
      assert s == [s[0]] + s[1..];
    }
  }

  ghost predicate Injective(sha: string -> Digest) {
    forall x: string, y: string :: sha(x) == sha(y) ==> x == y
  }

  /** A receipt means that the local file is exactly the rendered note, even when the file was there
      before and was only compared after newline translation. */
  lemma ReceiptMeansRendered(hs: Hashes, present: Option<string>, content: string, remote: string, pushed: bool)
    requires Injective(hs.sha) && WriteReceipt(hs, Upserted(present, content), remote, pushed).Some?
    ensures Upserted(present, content) == content
  {
    var local := Upserted(present, content);
    assert local == Universal(remote);
    UniversalHasNoReturn(remote);
    UniversalOfNoReturn(local);
  }

  predicate VaultOk(v: Vault) {
    |v.footer| > 0 && !IsSpace(v.footer[|v.footer| - 1])
  }

  /** The rendered note contains the entry's exact text. */
  lemma RenderedContains(v: Vault, text: string, date: nat)
    requires VaultOk(v)
    ensures Contains(Rendered(v, text, date), text)
  {
    var body := EntryBody(v, text);
    assert body[0] == '#' && body[|body| - 1] == v.footer[|v.footer| - 1];
    StripKeeps(body);
    var front := v.header(text, date) + HEADING + "\n\n";
    var back := "\n\n" + v.footer + "\n";
    assert Rendered(v, text, date) == front + text + back;
    assert Occurs(Rendered(v, text, date), text, |front|);
  }

  // ----- What is known of a record -----

  /** The content holds the entry that the key's digest names. */
  ghost predicate Holds(c: Config, key: RecordKey, content: string) {
    forall text :: c.hs.digest(key.0, text) == key.1 ==> Contains(content, text)
  }

  /** Approval before writing, writing before removal. */
  ghost predicate Sound(c: Config, log: seq<Event>, key: RecordKey, r: Relocated) {
    && KeyOf(r) == key
    && (r.status in {Approved, Written, RelocationStatus.Reconciled} ==> Observed(key, Yes) in log)
    && (r.status in {Written, RelocationStatus.Reconciled} ==>
          r.note.Some? && forall content :: c.hs.sha(content) == r.note.value ==>
              Wrote(key, content) in log
              && Holds(c, key, content))
  }

  ghost predicate AllSound(c: Config, log: seq<Event>, records: map<RecordKey, Relocated>) {
    forall k :: k in records ==> Sound(c, log, k, records[k])
  }

  /** A removal came after the owner's approval and a write, and the note read back holds the removed entry. */
  ghost predicate SafeRemoval(c: Config, past: seq<Event>, e: Event)
    requires e.Removed?
  {
    && Observed(e.key, Yes) in past && Wrote(e.key, e.note) in past
    && e.index < |Parse(e.before)| && Contains(e.note, Parse(e.before)[e.index])
    && c.hs.digest(e.key.0, Parse(e.before)[e.index]) == e.key.1
  }

  ghost predicate LogSafe(c: Config, log: seq<Event>) {
    forall n :: 0 <= n < |log| && log[n].Removed? ==> SafeRemoval(c, log[..n], log[n])
  }

  ghost predicate ConfigOk(c: Config) {
    && VaultOk(c.vault) && Injective(c.hs.sha)
    && forall k: Kind, x: string, y: string :: c.hs.digest(k, x) == c.hs.digest(k, y) ==> x == y
  }

  lemma LogSnoc(c: Config, log: seq<Event>, e: Event)
    requires LogSafe(c, log) && (e.Removed? ==> SafeRemoval(c, log, e))
    ensures LogSafe(c, log + [e])
  {
    var longer := log + [e];
    forall n | 0 <= n < |longer| && longer[n].Removed?
      ensures SafeRemoval(c, longer[..n], longer[n])
    {
      if n < |log| {
        assert longer[..n] == log[..n] && longer[n] == log[n];
      } else {
        assert longer[..n] == log;
      }
    }
  }

  lemma SoundGrows(c: Config, log: seq<Event>, e: Event, records: map<RecordKey, Relocated>)
    requires AllSound(c, log, records)
    ensures AllSound(c, log + [e], records)
  {
    hide Holds;
    forall k | k in records
      ensures Sound(c, log + [e], k, records[k])
    {
      assert Sound(c, log, k, records[k]);
    }
  }

  // ----- The effects -----

  lemma WriteIsSound(c: Config, e: Env, r: Relocated, a: Answers)
    requires ConfigOk(c) && Receipted(c, e, r, a).Some?
    ensures var after := AfterWrite(c, e, r, a);
            exists content :: after.log == e.log + [Wrote(KeyOf(r), content)]
                && c.hs.sha(content) == Receipted(c, e, r, a).value.content
                              && Holds(c, KeyOf(r), content)
    ensures AfterWrite(c, e, r, a).store == e.store
  {
    hide Rendered, Universal, Parse, Matching, Contains;
    var text := Recover(c, e.img, r.binding).value;
    var content := Rendered(c.vault, text, a.date);
    ReceiptMeansRendered(c.hs, NoteAt(a.clone.value, c.vault.relpath(text)), content, a.remote, a.pushed);
    RenderedContains(c.vault, text, a.date);
    assert c.hs.digest(r.binding.kind, text) == r.binding.entry by {
      assert Target(c, e, r) >= 0;
    }
    assert Holds(c, KeyOf(r), content);
    assert AfterWrite(c, e, r, a).log == e.log + [Wrote(KeyOf(r), content)];
  }

  /** Whenever the apply effect changes a native file other than through another writer, the removal is safe. */
  lemma ApplyIsSafe(c: Config, e: Env, r: Relocated, now: nat, a: Answers)
    requires Sound(c, e.log, KeyOf(r), r) && r.status == Written
    ensures var after := AfterApply(c, e, r, now, a);
            after.store == e.store
            && (|| after.log == e.log
                || (exists ev: Event :: ev.Removed? && after.log == e.log + [ev] && SafeRemoval(c, e.log, ev)))
  {
    hide Contains, Parse, Matching, AfterDelete;
    if Gate(c, e, r, a).None? {
      var note := e.notes[r.binding.relpath];
      var i := Target(c, e, r);
      assert Holds(c, KeyOf(r), note);
      assert SafeRemoval(c, e.log, Removed(KeyOf(r), note, i, TextOf(e.img, r.binding.kind)));
    }
  }

  // ----- One tick -----

  ghost predicate TickOk(c: Config, t: Tick) {
    AllSound(c, t.env.log, t.records) && AllSound(c, t.env.log, t.env.store) && LogSafe(c, t.env.log)
  }

  lemma PostKeeps(c: Config, e: Env, r: Relocated, a: Answers)
    requires AllSound(c, e.log, e.store)
    ensures var after := AfterPost(c, e, r, a);
            after.log == e.log && AllSound(c, e.log, after.store)
  {
    hide Recover, Holds;
    if Commits(c, e, r, a) { assert Sound(c, e.log, KeyOf(r), e.store[KeyOf(r)]); }
  }

  /** The record and the log after one iteration; the store changes only by posting. */
  lemma ResolveKeeps(c: Config, now: nat, maxPosts: int, t: Tick, key: RecordKey, a: Answers)
    requires ConfigOk(c) && TickOk(c, t)
    ensures TickOk(c, Resolve(c, now, maxPosts, t, key, a))
  {
    if key in t.records {
      var r := t.records[key];
      assert Sound(c, t.env.log, key, r);
      match r.status {
        case Proposed => ProposedKeeps(c, now, maxPosts, t, key, a);
        case Posted => ProbeKeeps(c, now, maxPosts, t, key, a);
        case Approved => ApprovedKeeps(c, now, maxPosts, t, key, a);
        case Written => WrittenKeeps(c, now, maxPosts, t, key, a);
        case Ingested =>
        case Reconciled =>
        case Abandoned =>
      }
    }
  }

  lemma ProposedKeeps(c: Config, now: nat, maxPosts: int, t: Tick, key: RecordKey, a: Answers)
    requires TickOk(c, t) && key in t.records && t.records[key].status == Proposed
    ensures TickOk(c, Resolve(c, now, maxPosts, t, key, a))
  {
    hide AfterPost, PostedMessage, Holds, LogSafe;
    PostKeeps(c, t.env, t.records[key], a);
    assert Sound(c, t.env.log, key, t.records[key]);
  }

  lemma ProbeKeeps(c: Config, now: nat, maxPosts: int, t: Tick, key: RecordKey, a: Answers)
    requires TickOk(c, t) && key in t.records && t.records[key].status == RelocationStatus.Posted
    ensures TickOk(c, Resolve(c, now, maxPosts, t, key, a))
  {
    hide Probed, Holds, LogSafe;
    var e := Observed(key, Probed(c, t.env, t.records[key], a));
    LogSnoc(c, t.env.log, e);
    SoundGrows(c, t.env.log, e, t.records);
    SoundGrows(c, t.env.log, e, t.env.store);
    assert Sound(c, t.env.log, key, t.records[key]);
  }

  lemma EffectlessWrite(c: Config, e: Env, r: Relocated, a: Answers)
    ensures Receipted(c, e, r, a).None? ==>
              AfterWrite(c, e, r, a).log == e.log && AfterWrite(c, e, r, a).store == e.store
  {
    hide Recover, LocalNote;
  }

  lemma WrittenIsSound(c: Config, log: seq<Event>, key: RecordKey, r: Relocated, content: string, now: nat)
    requires Injective(c.hs.sha) && Sound(c, log, key, r) && r.status == Approved && Holds(c, key, content)
    ensures Sound(c, log + [Wrote(key, content)], key, r.(status := Written, note := Some(c.hs.sha(content)),
                                                          writtenAt := Some(now)))
  {
    hide Holds;
  }

  lemma ApprovedKeeps(c: Config, now: nat, maxPosts: int, t: Tick, key: RecordKey, a: Answers)
    requires ConfigOk(c) && TickOk(c, t) && key in t.records && t.records[key].status == Approved
    ensures TickOk(c, Resolve(c, now, maxPosts, t, key, a))
  {
    var r := t.records[key];
    assert Sound(c, t.env.log, key, r) && KeyOf(r) == key && Injective(c.hs.sha);
    EffectlessWrite(c, t.env, r, a);
    hide AfterWrite, Receipted, Holds, LogSafe, Sound, ConfigOk;
    if Receipted(c, t.env, r, a).Some? {
      WriteIsSound(c, t.env, r, a);
      var content :| AfterWrite(c, t.env, r, a).log == t.env.log + [Wrote(key, content)]
                     && c.hs.sha(content) == Receipted(c, t.env, r, a).value.content && Holds(c, key, content);
      LogSnoc(c, t.env.log, Wrote(key, content));
      SoundGrows(c, t.env.log, Wrote(key, content), t.records);
      SoundGrows(c, t.env.log, Wrote(key, content), t.env.store);
      WrittenIsSound(c, t.env.log, key, r, content, now);
    }
  }

  lemma WrittenKeeps(c: Config, now: nat, maxPosts: int, t: Tick, key: RecordKey, a: Answers)
    requires TickOk(c, t) && key in t.records && t.records[key].status == Written
    ensures TickOk(c, Resolve(c, now, maxPosts, t, key, a))
  {
    hide AfterApply, ApplyOutcome, Holds, LogSafe, SafeRemoval;
    var r := t.records[key];
    assert Sound(c, t.env.log, key, r);
    ApplyIsSafe(c, t.env, r, now, a);
    var after := AfterApply(c, t.env, r, now, a);
    if after.log != t.env.log {
      var e: Event :| e.Removed? && after.log == t.env.log + [e] && SafeRemoval(c, t.env.log, e);
      LogSnoc(c, t.env.log, e);
      SoundGrows(c, t.env.log, e, t.records);
      SoundGrows(c, t.env.log, e, t.env.store);
    }
  }

  lemma {:induction false} ResolveAllKeeps(c: Config, now: nat, maxPosts: int, start: Tick, keys: seq<RecordKey>,
                                           answers: nat -> Answers)
    requires ConfigOk(c) && TickOk(c, start)
    ensures TickOk(c, ResolveAll(c, now, maxPosts, start, keys, answers))
    decreases |keys|
  {
    hide Resolve, TickOk, ConfigOk;
    if |keys| > 0 {
      var n := |keys| - 1;
      ResolveAllKeeps(c, now, maxPosts, start, keys[..n], answers);
      ResolveKeeps(c, now, maxPosts, ResolveAll(c, now, maxPosts, start, keys[..n], answers), keys[n], answers(n));
    }
  }

  // ----- Runs -----

  /** One call of `run_once`: the files as other programs left them, the record that discovery would
      propose, the keys in order, and how many of them a crash lets it visit. */
  datatype Call = Call(img: Image, notes: map<string, string>, proposal: Option<Relocated>, now: nat,
                       keys: seq<RecordKey>,
                       answers: nat -> Answers, crash: Option<nat>)

  predicate InFlight(records: map<RecordKey, Relocated>) {
    exists k :: k in records && records[k].status in {Proposed, RelocationStatus.Posted, Approved, Written, Ingested}
  }

  /** `_discover_and_propose`: at most one new proposal, and none while another is in flight. */
  function Discovered(records: map<RecordKey, Relocated>, proposal: Option<Relocated>): map<RecordKey, Relocated> {
    if InFlight(records) || proposal.None? || KeyOf(proposal.value) in records
       || proposal.value.status != Proposed || proposal.value.message.Some? || proposal.value.note.Some? then records
    else records[KeyOf(proposal.value) := proposal.value]
  }

  function Loaded(store: map<RecordKey, Relocated>, log: seq<Event>, call: Call): Tick {
    var records := Discovered(store, call.proposal);
    Started(Env(call.img, call.notes, records, log), records)
  }

  /** The keys the call gets to: all of them, unless it crashes. */
  function Visited(call: Call): (keys: seq<RecordKey>)
    ensures |keys| <= |call.keys|
  {
    if call.crash.Some? && call.crash.value <= |call.keys| then call.keys[..call.crash.value] else call.keys
  }

  /** The tick, cut short when the call crashes. */
  function Ticked(c: Config, store: map<RecordKey, Relocated>, log: seq<Event>, call: Call): Tick {
    ResolveAll(c, call.now, 1, Loaded(store, log, call), Visited(call), call.answers)
  }

  /** The store after the call: the final save overwrites it, unless the call crashed before. */
  function Saved(c: Config, store: map<RecordKey, Relocated>, log: seq<Event>, call: Call): map<RecordKey, Relocated> {
    var t := Ticked(c, store, log, call);
    if call.crash.Some? then t.env.store else t.records
  }

  datatype World = World(store: map<RecordKey, Relocated>, log: seq<Event>)

  ghost predicate IsRun(c: Config, worlds: seq<World>, calls: seq<Call>) {
    && |worlds| == |calls| + 1 && worlds[0] == World(map[], [])
    && forall i :: 0 <= i < |calls| ==> IsCall(c, worlds[i], calls[i], worlds[i + 1])
  }

  ghost predicate IsCall(c: Config, w: World, call: Call, next: World) {
    next == World(Saved(c, w.store, w.log, call), Ticked(c, w.store, w.log, call).env.log)
  }

  lemma DiscoveryIsSound(c: Config, w: World, call: Call)
    requires AllSound(c, w.log, w.store) && LogSafe(c, w.log)
    ensures TickOk(c, Loaded(w.store, w.log, call))
  {
    hide Holds, LogSafe;
    var records := Discovered(w.store, call.proposal);
    forall k | k in records
      ensures Sound(c, w.log, k, records[k])
    {
      if k in w.store { assert Sound(c, w.log, k, w.store[k]); }
    }
  }

  /** Over every run, crashes at any point included: an entry leaves native memory only after an observed
      owner approval and a recorded write, while the note read back contains that very entry. */
  lemma {:induction false} NoFactIsLost(c: Config, worlds: seq<World>, calls: seq<Call>, n: nat)
    requires ConfigOk(c) && IsRun(c, worlds, calls) && n <= |calls|
    ensures AllSound(c, worlds[n].log, worlds[n].store) && LogSafe(c, worlds[n].log)
  {
    assert AllSound(c, [], map[]) && LogSafe(c, []);
    hide AllSound, LogSafe, ConfigOk, ResolveAll, Loaded;
    if n > 0 {
      NoFactIsLost(c, worlds, calls, n - 1);
      var w, call := worlds[n - 1], calls[n - 1];
      assert IsCall(c, w, call, worlds[n]);
      DiscoveryIsSound(c, w, call);
      ResolveAllKeeps(c, call.now, 1, Loaded(w.store, w.log, call), Visited(call), call.answers);
    }
  }

  // ----- What never moves -----

  /** A record is out of reach of the tick when its status is final, or when it is proposed but already
      holds a message. */
  predicate Frozen(r: Relocated) {
    r.status in {Ingested, RelocationStatus.Reconciled, Abandoned} || (r.status == Proposed && r.message.Some?)
  }

  lemma EffectsKeepStore(c: Config, e: Env, r: Relocated, now: nat, a: Answers)
    ensures AfterWrite(c, e, r, a).store == e.store && AfterApply(c, e, r, now, a).store == e.store
    ensures var store := AfterPost(c, e, r, a).store;
            || store == e.store
            || (KeyOf(r) in e.store && KeyOf(r) in store
                && store == e.store[KeyOf(r) := e.store[KeyOf(r)].(message := store[KeyOf(r)].message,
                                                                   channel := store[KeyOf(r)].channel)])
  {
    hide Recover, Gate, AfterDelete, Rendered, LocalNote;
  }

  /** What one iteration may do to the record under key `k`, in memory and in the store: its binding and
      channel stay in memory, its binding and status stay in the store, and a frozen record stays as it is. */
  ghost predicate Framed(t: Tick, u: Tick, k: RecordKey) {
    && u.records.Keys == t.records.Keys && u.env.store.Keys == t.env.store.Keys
    && (k in t.records ==>
          && u.records[k].binding == t.records[k].binding && u.records[k].channel == t.records[k].channel
          && (Frozen(t.records[k]) ==> u.records[k] == t.records[k]))
    && (k in t.env.store ==>
          && u.env.store[k].binding == t.env.store[k].binding && u.env.store[k].status == t.env.store[k].status
          && (k in t.records && Frozen(t.records[k]) ==> u.env.store[k] == t.env.store[k]))
  }

  lemma ResolveFrame(c: Config, now: nat, maxPosts: int, t: Tick, key: RecordKey, a: Answers, k: RecordKey)
    requires key in t.records ==> KeyOf(t.records[key]) == key
    ensures Framed(t, Resolve(c, now, maxPosts, t, key, a), k)
  {
    hide AfterPost, AfterWrite, AfterApply, PostedMessage, Probed, Receipted, ApplyOutcome;
    if key in t.records { EffectsKeepStore(c, t.env, t.records[key], now, a); }
  }

  predicate Keyed(records: map<RecordKey, Relocated>) {
    forall k :: k in records ==> KeyOf(records[k]) == k
  }

  lemma KeyedAt(records: map<RecordKey, Relocated>, key: RecordKey)
    requires Keyed(records)
    ensures key in records ==> KeyOf(records[key]) == key
  {
  }

  lemma ResolveKeyed(c: Config, now: nat, maxPosts: int, t: Tick, key: RecordKey, a: Answers)
    requires Keyed(t.records)
    ensures Keyed(Resolve(c, now, maxPosts, t, key, a).records)
  {
    hide AfterPost, AfterWrite, AfterApply, PostedMessage, Probed, Receipted, ApplyOutcome;
  }

  lemma {:induction false} ResolveAllFrame(c: Config, now: nat, maxPosts: int, start: Tick, keys: seq<RecordKey>,
                                           answers: nat -> Answers, k: RecordKey)
    requires Keyed(start.records)
    ensures var t := ResolveAll(c, now, maxPosts, start, keys, answers);
            Framed(start, t, k) && Keyed(t.records)
    decreases |keys|
  {
    hide Resolve, Frozen, Keyed;
    if |keys| > 0 {
      var n := |keys| - 1;
      var t := ResolveAll(c, now, maxPosts, start, keys[..n], answers);
      ResolveAllFrame(c, now, maxPosts, start, keys[..n], answers, k);
      ResolveKeyed(c, now, maxPosts, t, keys[n], answers(n));
      KeyedAt(t.records, keys[n]);
      ResolveFrame(c, now, maxPosts, t, keys[n], answers(n), k);
    }
  }

  /** Calls change no binding and no frozen record, and no call ever loses a key. */
  lemma CallFrame(c: Config, w: World, call: Call, k: RecordKey)
    requires Keyed(w.store) && k in w.store
    ensures var after := Saved(c, w.store, w.log, call);
            && k in after && after[k].binding == w.store[k].binding
            && (Frozen(w.store[k]) ==> after[k] == w.store[k])
  {
    hide ResolveAll, Frozen;
    var start := Loaded(w.store, w.log, call);
    ResolveAllFrame(c, call.now, 1, start, Visited(call), call.answers, k);
  }

  lemma {:induction false} RunKeyed(c: Config, worlds: seq<World>, calls: seq<Call>, n: nat)
    requires IsRun(c, worlds, calls) && n <= |calls|
    ensures Keyed(worlds[n].store)
  {
    hide Saved;
    if n > 0 {
      RunKeyed(c, worlds, calls, n - 1);
      assert IsCall(c, worlds[n - 1], calls[n - 1], worlds[n]);
      SavedKeyed(c, worlds[n - 1], calls[n - 1]);
    }
  }

  lemma SavedKeyed(c: Config, w: World, call: Call)
    requires Keyed(w.store)
    ensures Keyed(Saved(c, w.store, w.log, call))
  {
    hide ResolveAll;
    var start := Loaded(w.store, w.log, call);
    var after := Saved(c, w.store, w.log, call);
    forall j | j in after
      ensures KeyOf(after[j]) == j
    {
      ResolveAllFrame(c, call.now, 1, start, Visited(call), call.answers, j);
    }
  }

  /** Over a run, a binding never changes, and a final or stuck record never changes again. */
  lemma {:induction false} RunFrame(c: Config, worlds: seq<World>, calls: seq<Call>, i: nat, j: nat, k: RecordKey)
    requires IsRun(c, worlds, calls) && i <= j <= |calls| && k in worlds[i].store
    ensures k in worlds[j].store && worlds[j].store[k].binding == worlds[i].store[k].binding
    ensures Frozen(worlds[i].store[k]) ==> worlds[j].store[k] == worlds[i].store[k]
    decreases j
  {
    hide Saved, Frozen;
    if i < j {
      RunFrame(c, worlds, calls, i, j - 1, k);
      RunKeyed(c, worlds, calls, j - 1);
      assert IsCall(c, worlds[j - 1], calls[j - 1], worlds[j]);
      CallFrame(c, worlds[j - 1], calls[j - 1], k);
    }
  }

  // ----- Visit by visit -----

  /** The tick after the first `n` visits of a call. */
  function TickAt(c: Config, w: World, call: Call, n: nat): Tick
    requires n <= |Visited(call)|
  {
    ResolveAll(c, call.now, 1, Loaded(w.store, w.log, call), Visited(call)[..n], call.answers)
  }

  lemma TickEnds(c: Config, w: World, call: Call)
    ensures TickAt(c, w, call, 0) == Loaded(w.store, w.log, call)
    ensures TickAt(c, w, call, |Visited(call)|) == Ticked(c, w.store, w.log, call)
  {
    assert Visited(call)[..|Visited(call)|] == Visited(call);
  }

  lemma TickStep(c: Config, w: World, call: Call, n: nat)
    requires n < |Visited(call)|
    ensures TickAt(c, w, call, n + 1) ==
            Resolve(c, call.now, 1, TickAt(c, w, call, n), Visited(call)[n], call.answers(n))
  {
    hide Resolve;
    assert Visited(call)[..n + 1][..n] == Visited(call)[..n];
  }

  lemma TickFrame(c: Config, w: World, call: Call, n: nat, k: RecordKey)
    requires Keyed(w.store) && n <= |Visited(call)|
    ensures Framed(Loaded(w.store, w.log, call), TickAt(c, w, call, n), k)
    ensures Keyed(TickAt(c, w, call, n).records)
  {
    hide ResolveAll, Frozen;
    ResolveAllFrame(c, call.now, 1, Loaded(w.store, w.log, call), Visited(call)[..n], call.answers, k);
  }

  // ----- A message that was committed but not saved -----

  /** Visiting `key` commits a posted message. */
  predicate StepCommits(c: Config, t: Tick, key: RecordKey, a: Answers) {
    && key in t.records && t.records[key].status == Proposed && t.records[key].message.None?
    && |t.posted| == 0 && Commits(c, t.env, t.records[key], a)
  }

  lemma StepStore(c: Config, now: nat, t: Tick, key: RecordKey, a: Answers)
    requires Keyed(t.records)
    ensures Resolve(c, now, 1, t, key, a).env.store ==
            if StepCommits(c, t, key, a)
            then t.env.store[key := t.env.store[key].(message := Some(a.post.value.0), channel := a.post.value.1)]
            else t.env.store
  {
    hide Recover, AfterWrite, AfterApply, Probed, Receipted, ApplyOutcome;
    if key in t.records {
      KeyedAt(t.records, key);
      EffectsKeepStore(c, t.env, t.records[key], now, a);
    }
  }

  /** Visit `n` of the call commits a message for the stored proposal under `k`. */
  predicate CommitsAt(c: Config, w: World, call: Call, k: RecordKey, n: nat)
    requires n < |Visited(call)|
  {
    var t := TickAt(c, w, call, n);
    && Visited(call)[n] == k && StepCommits(c, t, k, call.answers(n))
    && k in t.env.store && t.env.store[k].status == Proposed
  }

  predicate CommittedBefore(c: Config, w: World, call: Call, k: RecordKey, n: nat)
    requires n <= |Visited(call)|
  {
    exists m :: 0 <= m < n && CommitsAt(c, w, call, k, m)
  }

  /** Proposed, and holding a message: no tick visits such a record again. */
  predicate Stuck(r: Relocated) {
    r.status == Proposed && r.message.Some?
  }

  /** In the store, a proposal becomes stuck exactly by a commit; in memory it never does. */
  lemma {:induction false} StuckAt(c: Config, w: World, call: Call, k: RecordKey, n: nat)
    requires Keyed(w.store) && n <= |Visited(call)|
    requires k in Loaded(w.store, w.log, call).records && !Stuck(Loaded(w.store, w.log, call).records[k])
    ensures var t := TickAt(c, w, call, n);
            && k in t.records && k in t.env.store && !Stuck(t.records[k])
            && (Stuck(t.env.store[k]) <==> CommittedBefore(c, w, call, k, n))
  {
    hide ResolveAll, Frozen, Resolve, StepCommits, Loaded;
    TickFrame(c, w, call, n, k);
    if n == 0 {
      TickEnds(c, w, call);
      LoadedSame(w, call, k);
    } else {
      var t, key, a := TickAt(c, w, call, n - 1), Visited(call)[n - 1], call.answers(n - 1);
      StuckAt(c, w, call, k, n - 1);
      TickFrame(c, w, call, n - 1, k);
      TickStep(c, w, call, n - 1);
      StepStore(c, call.now, t, key, a);
      StepUnstuck(c, call.now, t, key, a, k);
      CommittedStep(c, w, call, k, n);
    }
  }

  lemma CommittedStep(c: Config, w: World, call: Call, k: RecordKey, n: nat)
    requires 0 < n <= |Visited(call)|
    ensures CommittedBefore(c, w, call, k, n) <==>
              CommittedBefore(c, w, call, k, n - 1) || CommitsAt(c, w, call, k, n - 1)
  {
    hide CommitsAt;
  }

  lemma LoadedSame(w: World, call: Call, k: RecordKey)
    ensures var t := Loaded(w.store, w.log, call);
            t.env.store == t.records && (k in w.store ==> k in t.records && t.records[k] == w.store[k])
  {
  }

  lemma StepUnstuck(c: Config, now: nat, t: Tick, key: RecordKey, a: Answers, k: RecordKey)
    requires k in t.records && !Stuck(t.records[k])
    ensures var u := Resolve(c, now, 1, t, key, a); k in u.records && !Stuck(u.records[k])
  {
    hide AfterPost, AfterWrite, AfterApply, PostedMessage, Probed, Receipted, ApplyOutcome;
  }

  /** The call crashed before its save, after it had committed a message for the proposal under `k`. */
  predicate CrashedAfterCommit(c: Config, w: World, call: Call, k: RecordKey) {
    call.crash.Some? && CommittedBefore(c, w, call, k, |Visited(call)|)
  }

  /** One call makes a record stuck exactly by crashing between the commit and the save. */
  lemma CallSticksExactly(c: Config, w: World, call: Call, k: RecordKey)
    requires Keyed(w.store) && k in Saved(c, w.store, w.log, call) && (k in w.store ==> !Stuck(w.store[k]))
    ensures Stuck(Saved(c, w.store, w.log, call)[k]) <==> CrashedAfterCommit(c, w, call, k)
  {
    hide ResolveAll, CommittedBefore, Frozen;
    TickFrame(c, w, call, |Visited(call)|, k);
    TickEnds(c, w, call);
    LoadedUnstuck(w, call, k);
    StuckAt(c, w, call, k, |Visited(call)|);
  }

  lemma LoadedUnstuck(w: World, call: Call, k: RecordKey)
    requires k in Loaded(w.store, w.log, call).records && (k in w.store ==> !Stuck(w.store[k]))
    ensures !Stuck(Loaded(w.store, w.log, call).records[k])
  {
  }

  /** Over every run, a stored record is stuck if and only if some earlier call crashed between the
      commit of its message and the final save. */
  lemma {:induction false} StuckExactly(c: Config, worlds: seq<World>, calls: seq<Call>, n: nat, k: RecordKey)
    requires IsRun(c, worlds, calls) && n <= |calls| && k in worlds[n].store
    ensures Stuck(worlds[n].store[k]) <==> exists i :: 0 <= i < n && CrashedAfterCommit(c, worlds[i], calls[i], k)
  {
    hide Saved, Frozen, CrashedAfterCommit;
    if n > 0 {
      var w, call := worlds[n - 1], calls[n - 1];
      assert IsCall(c, w, call, worlds[n]);
      RunKeyed(c, worlds, calls, n - 1);
      if k in w.store {
        StuckExactly(c, worlds, calls, n - 1, k);
        if Stuck(w.store[k]) {
          StuckStays(c, worlds, calls, n - 1, n, k);
        } else {
          CallSticksExactly(c, w, call, k);
        }
      } else {
        NeverCommitted(c, worlds, calls, n - 1, k);
        CallSticksExactly(c, w, call, k);
      }
    }
  }

  lemma StuckStays(c: Config, worlds: seq<World>, calls: seq<Call>, i: nat, j: nat, k: RecordKey)
    requires IsRun(c, worlds, calls) && i <= j <= |calls| && k in worlds[i].store && Stuck(worlds[i].store[k])
    ensures k in worlds[j].store && worlds[j].store[k] == worlds[i].store[k]
  {
    assert Frozen(worlds[i].store[k]);
    RunFrame(c, worlds, calls, i, j, k);
  }

  /** A key that is not stored yet was never committed. */
  lemma NeverCommitted(c: Config, worlds: seq<World>, calls: seq<Call>, n: nat, k: RecordKey)
    requires IsRun(c, worlds, calls) && n <= |calls| && k !in worlds[n].store
    ensures forall i :: 0 <= i < n ==> !CrashedAfterCommit(c, worlds[i], calls[i], k)
  {
    hide Saved, Frozen, ResolveAll;
    forall i | 0 <= i < n ensures !CrashedAfterCommit(c, worlds[i], calls[i], k) {
      if CrashedAfterCommit(c, worlds[i], calls[i], k) {
        RunKeyed(c, worlds, calls, i);
        var m :| 0 <= m < |Visited(calls[i])| && CommitsAt(c, worlds[i], calls[i], k, m);
        TickFrame(c, worlds[i], calls[i], m, k);
        CallKeepsLoaded(c, worlds[i], calls[i], k);
        assert IsCall(c, worlds[i], calls[i], worlds[i + 1]);
        RunFrame(c, worlds, calls, i + 1, n, k);
      }
    }
  }

  lemma CallKeepsLoaded(c: Config, w: World, call: Call, k: RecordKey)
    requires Keyed(w.store) && k in Loaded(w.store, w.log, call).records
    ensures k in Saved(c, w.store, w.log, call)
  {
    hide ResolveAll, Frozen;
    TickFrame(c, w, call, |Visited(call)|, k);
    TickEnds(c, w, call);
  }

  /** A stuck record blocks the watcher for good: it is never moved again and no later call of the run
      discovers another candidate. */
  lemma {:induction false} StuckBlocksDiscovery(c: Config, worlds: seq<World>, calls: seq<Call>, i: nat, j: nat,
                                                k: RecordKey)
    requires IsRun(c, worlds, calls) && i <= j <= |calls| && k in worlds[i].store && Stuck(worlds[i].store[k])
    ensures k in worlds[j].store && worlds[j].store[k] == worlds[i].store[k]
    ensures worlds[j].store.Keys == worlds[i].store.Keys
    decreases j
  {
    hide Saved;
    StuckStays(c, worlds, calls, i, j, k);
    if i < j {
      StuckBlocksDiscovery(c, worlds, calls, i, j - 1, k);
      RunKeyed(c, worlds, calls, j - 1);
      assert IsCall(c, worlds[j - 1], calls[j - 1], worlds[j]);
      assert InFlight(worlds[j - 1].store);
      StoreKeys(c, worlds[j - 1], calls[j - 1]);
    }
  }

  lemma StoreKeys(c: Config, w: World, call: Call)
    requires Keyed(w.store) && InFlight(w.store)
    ensures Saved(c, w.store, w.log, call).Keys == w.store.Keys
  {
    hide ResolveAll;
    var start := Loaded(w.store, w.log, call);
    var k :| k in w.store;
    ResolveAllFrame(c, call.now, 1, start, Visited(call), call.answers, k);
  }

  // ----- The binding that the lifecycle commits -----

  /** After the commit at visit `n`, the store holds the committed message and channel until the end of
      the tick. */
  lemma {:induction false} CommitHolds(c: Config, w: World, call: Call, k: RecordKey, n: nat, m: nat)
    requires Keyed(w.store) && n < m <= |Visited(call)| && CommitsAt(c, w, call, k, n)
    ensures var store := TickAt(c, w, call, m).env.store;
            && k in store && store[k].message == Some(call.answers(n).post.value.0)
            && store[k].channel == call.answers(n).post.value.1
  {
    hide ResolveAll, Resolve, Frozen, Recover;
    TickFrame(c, w, call, m - 1, k);
    TickStep(c, w, call, m - 1);
    var t, key, a := TickAt(c, w, call, m - 1), Visited(call)[m - 1], call.answers(m - 1);
    StepStore(c, call.now, t, key, a);
    if n < m - 1 {
      CommitHolds(c, w, call, k, n, m - 1);
      KeyedAt(t.records, key);
    }
  }

  /** In memory, the proposal under `k` holds no message. */
  predicate Unbound(t: Tick, k: RecordKey) {
    k in t.records && t.records[k].status == Proposed && t.records[k].message.None?
  }

  /** In a completed call, the channel that the approval lifecycle committed survives the final save
      if and only if the record was loaded with that channel. */
  lemma ChannelSurvivesExactly(c: Config, w: World, call: Call, k: RecordKey, n: nat)
    requires Keyed(w.store) && call.crash.None? && n < |Visited(call)| && CommitsAt(c, w, call, k, n)
    ensures var committed, loaded := Ticked(c, w.store, w.log, call).env.store, Loaded(w.store, w.log, call).records;
            var saved := Saved(c, w.store, w.log, call);
            && k in committed && committed[k].channel == call.answers(n).post.value.1
            && k in loaded && k in saved
            && (saved[k].channel == committed[k].channel <==> loaded[k].channel == call.answers(n).post.value.1)
  {
    hide ResolveAll, Frozen, CommitsAt;
    assert k in TickAt(c, w, call, n).records by { CommitsKnown(c, w, call, k, n); }
    TickFrame(c, w, call, n, k);
    TickFrame(c, w, call, |Visited(call)|, k);
    TickEnds(c, w, call);
    CommitHolds(c, w, call, k, n, |Visited(call)|);
  }

  lemma CommitsKnown(c: Config, w: World, call: Call, k: RecordKey, n: nat)
    requires n < |Visited(call)| && CommitsAt(c, w, call, k, n)
    ensures Unbound(TickAt(c, w, call, n), k)
  {
    hide ResolveAll;
  }

  lemma OtherVisit(c: Config, now: nat, t: Tick, key: RecordKey, a: Answers, k: RecordKey)
    requires key != k && k in t.records
    ensures var u := Resolve(c, now, 1, t, key, a); k in u.records && u.records[k] == t.records[k]
  {
    hide AfterPost, AfterWrite, AfterApply, PostedMessage, Probed, Receipted, ApplyOutcome;
  }

  /** What the committing visit leaves in memory: a posted record if the lifecycle returned, otherwise the
      unbound proposal. */
  lemma CommittingVisit(c: Config, now: nat, t: Tick, key: RecordKey, a: Answers)
    requires StepCommits(c, t, key, a)
    ensures var u := Resolve(c, now, 1, t, key, a);
            && key in u.records
            && u.records[key] == if a.returned
                                 then t.records[key].(status := RelocationStatus.Posted,
                                                      message := Some(a.post.value.0))
                                 else t.records[key]
  {
    hide Recover;
  }

  lemma {:induction false} MemoryAfterCommit(c: Config, w: World, call: Call, k: RecordKey, n: nat, m: nat)
    requires n < m <= |Visited(call)| && CommitsAt(c, w, call, k, n)
    requires forall i :: n < i < m ==> Visited(call)[i] != k
    ensures var t, u, a := TickAt(c, w, call, n), TickAt(c, w, call, m), call.answers(n);
            && k in t.records && k in u.records && Unbound(t, k)
            && u.records[k] == if a.returned
                               then t.records[k].(status := RelocationStatus.Posted, message := Some(a.post.value.0))
                               else t.records[k]
  {
    hide ResolveAll, Resolve, Frozen, Commits;
    TickStep(c, w, call, m - 1);
    if n == m - 1 {
      CommittingVisit(c, call.now, TickAt(c, w, call, n), k, call.answers(n));
    } else {
      MemoryAfterCommit(c, w, call, k, n, m - 1);
      OtherVisit(c, call.now, TickAt(c, w, call, m - 1), Visited(call)[m - 1], call.answers(m - 1), k);
    }
  }

  /** In a completed call that visits the record once, the committed message survives the final save if and
      only if nothing failed between the commit and the lifecycle's return; otherwise the record is saved
      as an unbound proposal although its message was posted. */
  lemma MessageSurvivesExactly(c: Config, w: World, call: Call, k: RecordKey, n: nat)
    requires Keyed(w.store) && call.crash.None? && n < |Visited(call)| && CommitsAt(c, w, call, k, n)
    requires forall i :: n < i < |Visited(call)| ==> Visited(call)[i] != k
    ensures var saved := Saved(c, w.store, w.log, call);
            && k in saved
            && (saved[k].message == Some(call.answers(n).post.value.0) <==> call.answers(n).returned)
            && (!call.answers(n).returned ==> saved[k].status == Proposed && saved[k].message.None?)
  {
    CommitsKnown(c, w, call, k, n);
    hide ResolveAll, CommitsAt;
    MemoryAfterCommit(c, w, call, k, n, |Visited(call)|);
    TickEnds(c, w, call);
  }

  // ----- A written record whose entry is gone -----

  /** Visit `n` of the call reconciles the record under `k`. */
  predicate ReconcilesAt(c: Config, w: World, call: Call, k: RecordKey, n: nat)
    requires n < |Visited(call)|
  {
    var t, a := TickAt(c, w, call, n), call.answers(n);
    && Visited(call)[n] == k && k in t.records && t.records[k].status == Written
    && a.ingested && ApplyOutcome(c, t.env, t.records[k], call.now, a).None?
  }

  lemma StepWritten(c: Config, now: nat, t: Tick, key: RecordKey, a: Answers, k: RecordKey)
    requires k in t.records && t.records[k].status in {Written, RelocationStatus.Reconciled}
    ensures var u := Resolve(c, now, 1, t, key, a);
            && k in u.records && u.records[k].status in {Written, RelocationStatus.Reconciled}
            && (u.records[k].status == Written <==>
                  t.records[k].status == Written
                  && !(key == k && a.ingested && ApplyOutcome(c, t.env, t.records[k], now, a).None?))
  {
    hide AfterPost, AfterWrite, AfterApply, PostedMessage, Probed, Receipted, ApplyOutcome;
  }

  lemma {:induction false} WrittenAt(c: Config, w: World, call: Call, k: RecordKey, n: nat)
    requires k in w.store && w.store[k].status == Written && n <= |Visited(call)|
    ensures var t := TickAt(c, w, call, n);
            && k in t.records && t.records[k].status in {Written, RelocationStatus.Reconciled}
            && (t.records[k].status == Written <==> NoneReconciles(c, w, call, k, n))
  {
    hide ResolveAll, Resolve, ApplyOutcome, Loaded;
    if n == 0 {
      TickEnds(c, w, call);
      LoadedSame(w, call, k);
    } else {
      WrittenAt(c, w, call, k, n - 1);
      TickStep(c, w, call, n - 1);
      StepWritten(c, call.now, TickAt(c, w, call, n - 1), Visited(call)[n - 1], call.answers(n - 1), k);
      NoneReconcilesStep(c, w, call, k, n);
    }
  }

  predicate NoneReconciles(c: Config, w: World, call: Call, k: RecordKey, n: nat)
    requires n <= |Visited(call)|
  {
    forall m :: 0 <= m < n ==> !ReconcilesAt(c, w, call, k, m)
  }

  lemma NoneReconcilesStep(c: Config, w: World, call: Call, k: RecordKey, n: nat)
    requires 0 < n <= |Visited(call)|
    ensures NoneReconciles(c, w, call, k, n) <==>
              NoneReconciles(c, w, call, k, n - 1) && !ReconcilesAt(c, w, call, k, n - 1)
  {
    hide ReconcilesAt;
  }

  /** A written record is still written after a call exactly if the call crashed or no visit of it
      passed every gate and deleted. */
  lemma WrittenStaysExactly(c: Config, w: World, call: Call, k: RecordKey)
    requires Keyed(w.store) && k in w.store && w.store[k].status == Written
    ensures var after := Saved(c, w.store, w.log, call);
            k in after && (after[k].status == Written <==>
              call.crash.Some? || NoneReconciles(c, w, call, k, |Visited(call)|))
  {
    hide ResolveAll, ReconcilesAt, Frozen;
    CallFrame(c, w, call, k);
    TickFrame(c, w, call, |Visited(call)|, k);
    WrittenAt(c, w, call, k, |Visited(call)|);
    TickEnds(c, w, call);
    LoadedSame(w, call, k);
  }

  /** No visit of the call finds an entry with the bound digest. */
  predicate EntryGone(c: Config, w: World, call: Call, b: Binding) {
    forall n :: 0 <= n < |Visited(call)| ==> Recover(c, TickAt(c, w, call, n).env.img, b).None?
  }

  lemma GoneNeverReconciles(c: Config, w: World, call: Call, k: RecordKey, n: nat)
    requires Keyed(w.store) && k in w.store && EntryGone(c, w, call, w.store[k].binding) && n < |Visited(call)|
    ensures !ReconcilesAt(c, w, call, k, n)
  {
    hide ResolveAll, Frozen, Recover, Loaded;
    TickFrame(c, w, call, n, k);
    LoadedSame(w, call, k);
  }

  /** Once its entry is gone from native memory, a written record stays written over every run in which
      the entry stays gone, and no call of that run discovers another candidate. */
  lemma {:induction false} WrittenWithoutEntryStays(c: Config, worlds: seq<World>, calls: seq<Call>, i: nat, j: nat,
                                                    k: RecordKey)
    requires IsRun(c, worlds, calls) && i <= j <= |calls|
    requires k in worlds[i].store && worlds[i].store[k].status == Written
    requires forall n :: i <= n < j ==> EntryGone(c, worlds[n], calls[n], worlds[i].store[k].binding)
    ensures k in worlds[j].store && worlds[j].store[k].status == Written
    ensures worlds[j].store[k].binding == worlds[i].store[k].binding
    ensures worlds[j].store.Keys == worlds[i].store.Keys
    decreases j
  {
    hide Saved, EntryGone, Frozen, ReconcilesAt, ResolveAll;
    if i < j {
      WrittenWithoutEntryStays(c, worlds, calls, i, j - 1, k);
      var w, call := worlds[j - 1], calls[j - 1];
      RunKeyed(c, worlds, calls, j - 1);
      RunFrame(c, worlds, calls, i, j, k);
      assert IsCall(c, w, call, worlds[j]);
      assert InFlight(w.store);
      StoreKeys(c, w, call);
      forall n | 0 <= n < |Visited(call)| ensures !ReconcilesAt(c, w, call, k, n) {
        GoneNeverReconciles(c, w, call, k, n);
      }
      WrittenStaysExactly(c, w, call, k);
    }
  }

  // ----- A record without a channel -----

  /** Nothing can be read on the empty channel: its probe finds no message, or fails. */
  ghost predicate Deaf(call: Call) {
    forall n: nat :: call.answers(n).verdict(NO_CHANNEL) in {Missing, Pending}
  }

  /** Whatever the call may propose has no channel. */
  predicate Unaddressed(call: Call) {
    call.proposal.Some? ==> call.proposal.value.channel == NO_CHANNEL
  }

  predicate Adrift(r: Relocated) {
    && r.channel == NO_CHANNEL && r.status in {Proposed, RelocationStatus.Posted}
    && (r.status == RelocationStatus.Posted ==> r.message.Some?)
  }

  /** In memory the record is adrift or stuck, and in the store too. */
  predicate Unapproved(t: Tick, k: RecordKey) {
    && (k in t.records ==> Adrift(t.records[k]) || Stuck(t.records[k]))
    && (k in t.env.store ==> Adrift(t.env.store[k]) || Stuck(t.env.store[k]))
  }

  predicate Harmless(log: seq<Event>) {
    forall n :: 0 <= n < |log| ==> log[n].Observed? && log[n].verdict != Yes
  }

  lemma VisitStaysUnapproved(c: Config, now: nat, t: Tick, key: RecordKey, a: Answers, k: RecordKey)
    requires Keyed(t.records) && Unapproved(t, k) && a.verdict(NO_CHANNEL) in {Missing, Pending}
    ensures Unapproved(Resolve(c, now, 1, t, key, a), k)
  {
    hide AfterPost, AfterWrite, AfterApply, PostedMessage, Receipted, ApplyOutcome, Recover;
    StepStore(c, now, t, key, a);
    if key in t.records { PostedIsCommitted(c, t.env, t.records[key], a); }
  }

  lemma PostedIsCommitted(c: Config, e: Env, r: Relocated, a: Answers)
    ensures PostedMessage(c, e, r, a).Some? ==> Commits(c, e, r, a)
  {
  }

  lemma VisitStaysHarmless(c: Config, now: nat, t: Tick, key: RecordKey, a: Answers)
    requires Unapproved(t, key) && a.verdict(NO_CHANNEL) in {Missing, Pending} && Harmless(t.env.log)
    ensures Harmless(Resolve(c, now, 1, t, key, a).env.log)
  {
    hide AfterWrite, AfterApply, PostedMessage, Receipted, ApplyOutcome, Recover, AfterPost;
    if key in t.records { PostIsQuiet(c, t.env, t.records[key], a); }
  }

  lemma {:induction false} TickStaysUnapproved(c: Config, w: World, call: Call, n: nat)
    requires Keyed(w.store) && n <= |Visited(call)| && Deaf(call)
    requires Harmless(w.log) && forall k :: Unapproved(Loaded(w.store, w.log, call), k)
    ensures Harmless(TickAt(c, w, call, n).env.log) && forall k :: Unapproved(TickAt(c, w, call, n), k)
  {
    hide ResolveAll, Resolve, Frozen, Unapproved, Harmless, Loaded;
    if n == 0 {
      TickEnds(c, w, call);
      LoadedLog(w, call);
    } else {
      var t, key, a := TickAt(c, w, call, n - 1), Visited(call)[n - 1], call.answers(n - 1);
      TickStaysUnapproved(c, w, call, n - 1);
      TickFrame(c, w, call, n - 1, key);
      TickStep(c, w, call, n - 1);
      VisitStaysHarmless(c, call.now, t, key, a);
      forall k ensures Unapproved(TickAt(c, w, call, n), k) {
        VisitStaysUnapproved(c, call.now, t, key, a, k);
      }
    }
  }

  lemma LoadedLog(w: World, call: Call)
    ensures Loaded(w.store, w.log, call).env.log == w.log
  {
  }

  predicate AllAdrift(store: map<RecordKey, Relocated>) {
    forall k :: k in store ==> Adrift(store[k]) || Stuck(store[k])
  }

  /** A relocation that the watcher discovers itself is never carried out.  Its proposal has no channel, the
      final save keeps it so, and a crash before that save leaves it stuck: over every run of such calls no
      record is ever approved, and nothing is written or removed, whatever the owner answers on the channel
      the message was posted to. */
  lemma {:induction false} DiscoveredIsNeverApproved(c: Config, worlds: seq<World>, calls: seq<Call>, n: nat)
    requires IsRun(c, worlds, calls) && n <= |calls|
    requires forall i :: 0 <= i < n ==> Deaf(calls[i]) && Unaddressed(calls[i])
    ensures AllAdrift(worlds[n].store) && Harmless(worlds[n].log)
    ensures forall k :: k in worlds[n].store ==> worlds[n].store[k].status in {Proposed, RelocationStatus.Posted}
  {
    hide ResolveAll, Harmless, Frozen, Deaf;
    if n == 0 {
      NothingYet();
    } else {
      var w, call := worlds[n - 1], calls[n - 1];
      DiscoveredIsNeverApproved(c, worlds, calls, n - 1);
      RunKeyed(c, worlds, calls, n - 1);
      assert IsCall(c, w, call, worlds[n]);
      LoadedUnapproved(w, call);
      TickStaysUnapproved(c, w, call, |Visited(call)|);
      TickEnds(c, w, call);
      SavedAdrift(c, w, call);
    }
  }

  lemma SavedAdrift(c: Config, w: World, call: Call)
    requires forall k :: Unapproved(Ticked(c, w.store, w.log, call), k)
    ensures AllAdrift(Saved(c, w.store, w.log, call))
  {
    hide Ticked;
    var t, after := Ticked(c, w.store, w.log, call), Saved(c, w.store, w.log, call);
    forall k | k in after ensures Adrift(after[k]) || Stuck(after[k]) {
      assert Unapproved(t, k);
    }
  }

  lemma NothingYet()
    ensures Harmless([]) && AllAdrift(map[])
  {
  }

  lemma LoadedUnapproved(w: World, call: Call)
    requires AllAdrift(w.store) && Unaddressed(call)
    ensures forall k :: Unapproved(Loaded(w.store, w.log, call), k)
  {
  }

  // ----- What a tick changes in the native files -----

  /** One visit changes the native files through another writer, or by removing one entry, and then the
      new log entry names the text it read and the entry it removed. */
  ghost predicate Accounted(t: Tick, u: Tick, key: RecordKey, other: Option<string>) {
    || (u.env.img.files == t.env.img.files && Quiet(t, u))
    || (key in t.records && other.Some? && Quiet(t, u)
        && u.env.img.files == Interfere(t.env.img, t.records[key].binding.kind, other).files)
    || (key in t.records && Removes(t, u, key, Interfere(t.env.img, t.records[key].binding.kind, other)))
  }

  /** The visit adds no removal to the log. */
  predicate Quiet(t: Tick, u: Tick) {
    u.env.log == t.env.log || (exists e :: e in u.env.log && !e.Removed? && u.env.log == t.env.log + [e])
  }

  ghost predicate Removes(t: Tick, u: Tick, key: RecordKey, met: Image)
    requires key in t.records
  {
    && |u.env.log| == |t.env.log| + 1 && u.env.log[..|t.env.log|] == t.env.log
    && var e := u.env.log[|t.env.log|];
       && e.Removed? && e.key == key && e.before == TextOf(t.env.img, t.records[key].binding.kind)
       && t.records[key].binding.kind in met.files && met.files[t.records[key].binding.kind] == e.before
       && e.index < |Parse(e.before)|
       && u.env.img.files == met.files[t.records[key].binding.kind := Rewritten(e.before, e.index)]
  }

  lemma ApplyIsAccounted(c: Config, now: nat, t: Tick, u: Tick, key: RecordKey, a: Answers)
    requires key in t.records && KeyOf(t.records[key]) == key && u.env == AfterApply(c, t.env, t.records[key], now, a)
    ensures Accounted(t, u, key, a.other)
  {
    hide Recover, Parse, Serialize;
    if Gate(c, t.env, t.records[key], a).None? {
      var r := t.records[key];
      var text := TextOf(t.env.img, r.binding.kind);
      var met := Interfere(t.env.img, r.binding.kind, a.other);
      if u.env.img.files != met.files {
        DeleteCases(met, r.binding.kind, Target(c, t.env, r), text, now, a.fault);
        assert Removes(t, u, key, met);
      }
    }
  }

  lemma VisitIsAccounted(c: Config, now: nat, maxPosts: int, t: Tick, key: RecordKey, a: Answers)
    requires key in t.records ==> KeyOf(t.records[key]) == key
    ensures Accounted(t, Resolve(c, now, maxPosts, t, key, a), key, a.other)
  {
    hide AfterApply, ApplyOutcome, Recover, Rendered, Universal, Removes, Probed, PostedMessage, Receipted;
    if key in t.records && t.records[key].status == Written && a.ingested {
      ApplyIsAccounted(c, now, t, Resolve(c, now, maxPosts, t, key, a), key, a);
    } else if key in t.records && t.records[key].status == Approved {
      WriteIsQuiet(c, t.env, t.records[key], a);
    } else if key in t.records && t.records[key].status == Proposed {
      PostIsQuiet(c, t.env, t.records[key], a);
    }
  }

  lemma WriteIsQuiet(c: Config, e: Env, r: Relocated, a: Answers)
    ensures var f := AfterWrite(c, e, r, a);
            f.img == e.img
            && (f.log == e.log || (exists content :: f.log == e.log + [Wrote(KeyOf(r), content)]))
  {
    hide Recover, LocalNote;
  }

  lemma PostIsQuiet(c: Config, e: Env, r: Relocated, a: Answers)
    ensures var f := AfterPost(c, e, r, a); f.img == e.img && f.log == e.log
  {
    hide Recover;
  }

  /** In every call of every run, whatever other writers do and wherever it crashes: each visit changes
      the native files through another writer, or by rewriting the text it read without exactly the one
      entry that the new log entry names. */
  lemma RemovalsAreLogged(c: Config, worlds: seq<World>, calls: seq<Call>, i: nat, n: nat)
    requires IsRun(c, worlds, calls) && i < |calls| && n < |Visited(calls[i])|
    ensures Accounted(TickAt(c, worlds[i], calls[i], n), TickAt(c, worlds[i], calls[i], n + 1),
                      Visited(calls[i])[n], calls[i].answers(n).other)
  {
    hide ResolveAll, Resolve, Accounted, Frozen;
    var w, call := worlds[i], calls[i];
    RunKeyed(c, worlds, calls, i);
    TickFrame(c, w, call, n, Visited(call)[n]);
    TickStep(c, w, call, n);
    KeyedAt(TickAt(c, w, call, n).records, Visited(call)[n]);
    VisitIsAccounted(c, call.now, 1, TickAt(c, w, call, n), Visited(call)[n], call.answers(n));
  }

  /** The deletion is reached exactly for an approved or written record whose action hash still matches,
      whose note reads back with the recorded hash and is indexed, and whose digest one entry carries. */
  lemma GateOpensExactly(c: Config, e: Env, r: Relocated, a: Answers)
    ensures var b, es := r.binding, Parse(TextOf(e.img, r.binding.kind));
            Gate(c, e, r, a).None? <==>
              && r.status in {Approved, Written} && c.action(b) == b.action
              && b.relpath in e.notes && (r.note.Some? ==> c.hs.sha(e.notes[b.relpath]) == r.note.value)
              && a.ingestedAgain
              && exists i: nat :: OnlyEntry(c.hs, b.kind, b.entry, es, i)
  {
    hide Parse;
    var b, es := r.binding, Parse(TextOf(e.img, r.binding.kind));
    var m := Matching(c.hs, b.kind, b.entry, es, |es|);
    if |m| == 1 {
      assert m[0] in m;
      forall j | 0 <= j < |es| && j != m[0]
        ensures c.hs.digest(b.kind, es[j]) != b.entry
      {
        assert j !in m;
      }
      assert OnlyEntry(c.hs, b.kind, b.entry, es, m[0]);
    }
    assert |m| > 1 ==> m[0] in m && m[1] in m;
    if i: nat :| OnlyEntry(c.hs, b.kind, b.entry, es, i) {
      assert i in m;
    }
  }

  predicate OnlyEntry(hs: Hashes, kind: Kind, digest: Digest, es: seq<string>, i: nat) {
    && i < |es| && hs.digest(kind, es[i]) == digest
    && forall j :: 0 <= j < |es| && j != i ==> hs.digest(kind, es[j]) != digest
  }
}
