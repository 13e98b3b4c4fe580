/** Moving an operational fact from native memory into an Obsidian note: the status machine of one
    tick, the guarded write, and the gates before the deletion.

    Discord, git and the retrieval index answer through `Answers`; the native files, the clone's notes
    and the record store are state. */
module Relocation {
  import opened Common
  import opened MemoryText
  import opened Reclaim
  import opened MemoryDeletion

  // ----- The note -----

  const HEADING: string := "## \U{C6D0}\U{BCF8} \U{AE30}\U{B85D} (verbatim)"

  /** What planning and rendering take from outside: an entry's path and callout header, and the
      provenance footer. */
  datatype Vault = Vault(relpath: string -> string, header: (string, nat) -> string, footer: string)

  /** `_entry_body`: the entry verbatim between heading and footer. */
  function EntryBody(v: Vault, text: string): string {
    HEADING + "\n\n" + text + "\n\n" + v.footer
  }

  /** `render_note` of the planned note; planning strips the body, `date` stands for the dates. */
  function Rendered(v: Vault, text: string, date: nat): string {
    v.header(text, date) + Strip(EntryBody(v, text)) + "\n"
  }

  /** Universal-newline reading. */
  function Universal(s: string): string {
    if |s| == 0 then ""
    else if s[0] == '\r' then "\n" + Universal(if |s| > 1 && s[1] == '\n' then s[2..] else s[1..])
    else [s[0]] + Universal(s[1..])
  }

  datatype Receipt = Receipt(content: Digest)

  /** The clone's file after `_atomic_upsert`: a file that reads the same is left alone. */
  function Upserted(present: Option<string>, content: string): string {
    if present.Some? && Universal(present.value) == content then present.value else content
  }

  /** `write_note`: a receipt only when the remote, read back as text, hashes like the local file. */
  function WriteReceipt(hs: Hashes, local: string, remote: string, pushed: bool): Option<Receipt> {
    if pushed && hs.sha(Universal(remote)) == hs.sha(local) then Some(Receipt(hs.sha(local))) else None
  }

  // ----- Records -----

  datatype RelocationStatus = Proposed | Posted | Approved | Written | Ingested | Reconciled | Abandoned

  /** The fields that the approval binds. */
  datatype Binding = Binding(kind: Kind, entry: Digest, relpath: string, plan: Digest, action: Digest)

  datatype GateBlock = NotApproved | ActionHashDrift | ObsidianNotWritten | RagNotIngested | EntryAbsent
      | EntryAmbiguous_

  datatype Relocated = Relocated(
    binding: Binding,
    status: RelocationStatus,
    channel: nat,
    message: Option<nat>,
    approvedAt: Option<nat>,
    note: Option<Digest>,
    writtenAt: Option<nat>,
    reconciledAt: Option<nat>,
    lastBlock: Option<GateBlock>)

  /** The empty channel, which discovery gives to its proposals. */
  const NO_CHANNEL: nat := 0

  type RecordKey = (Kind, Digest)

  function KeyOf(r: Relocated): RecordKey {
    (r.binding.kind, r.binding.entry)
  }

  // ----- The store -----

  /** `RelocationStore`: each operation loads, compares and replaces one record. */
  class Store {
    var records: map<RecordKey, Relocated>

    constructor (records: map<RecordKey, Relocated>)
      ensures this.records == records
    {
      this.records := records;
    }

    /** Binds a posted message, never over an existing one. */
    method SetMessageId(r: Relocated, message: nat, channel: nat) returns (ok: bool)
      modifies this
      ensures ok <==> KeyOf(r) in old(records) && old(records)[KeyOf(r)].binding.action == r.binding.action
                      && old(records)[KeyOf(r)].message.None?
      ensures var before := old(records);
              records == if ok
                         then before[KeyOf(r) := before[KeyOf(r)].(message := Some(message), channel := channel)]
                         else before
    {
      if KeyOf(r) !in records { return false; }
      var current := records[KeyOf(r)];
      if current.binding.action != r.binding.action || current.message.Some? { return false; }
      records := records[KeyOf(r) := current.(message := Some(message), channel := channel)];
      return true;
    }

    /** Unbinds exactly the message it was asked to. */
    method ClearMessageId(key: RecordKey, action: Digest, message: nat) returns (ok: bool)
      modifies this
      ensures ok <==> key in old(records)
      ensures var before := old(records);
              records == if ok && before[key].binding.action == action && before[key].message == Some(message)
                         then before[key := before[key].(message := None)]
                         else before
    {
      if key !in records { return false; }
      var current := records[key];
      if current.binding.action == action && current.message == Some(message) {
        records := records[key := current.(message := None)];
      }
      return true;
    }

    /** Replaces a record whose action and message binding is unchanged. */
    method Update(r: Relocated) returns (ok: bool)
      modifies this
      ensures ok <==> KeyOf(r) in old(records) && old(records)[KeyOf(r)].binding.action == r.binding.action
                      && old(records)[KeyOf(r)].message == r.message
      ensures records == if ok then old(records)[KeyOf(r) := r] else old(records)
    {
      if KeyOf(r) !in records { return false; }
      var current := records[KeyOf(r)];
      if current.binding.action != r.binding.action || current.message != r.message { return false; }
      records := records[KeyOf(r) := r];
      return true;
    }
  }

  // ----- The effects of one tick -----

  datatype Verdict = Yes | No | Pending | Missing

  datatype Answers = Answers(
    post: Option<(nat, nat)>,   // the message and channel the approval lifecycle committed, if it posted
    returned: bool,             // nothing failed between that commit and the lifecycle's return
    verdict: nat -> Verdict,    // what a probe of the message reads on each channel
    date: nat,
    clone: Option<map<string, string>>,   // the clone after fetch and reset, unless they failed
    pushed: bool,
    remote: string,
    ingested: bool,
    ingestedAgain: bool,
    other: Option<string>,      // another writer between reading and deleting
    fault: Fault)

  /** What the environment did, in order. */
  datatype Event =
    | Observed(key: RecordKey, verdict: Verdict)
    | Wrote(key: RecordKey, content: string)
    | Removed(key: RecordKey, note: string, index: nat, before: string)

  datatype Env = Env(img: Image, notes: map<string, string>, store: map<RecordKey, Relocated>, log: seq<Event>)

  /** The configuration: hashes, vault and the composite action hash. */
  datatype Config = Config(hs: Hashes, vault: Vault, action: Binding -> Digest)

  /** `recover_entry_text`: the first entry with the bound digest. */
  function Recover(c: Config, img: Image, b: Binding): Option<string> {
    var es := Parse(TextOf(img, b.kind));
    var m := Matching(c.hs, b.kind, b.entry, es, |es|);
    if |m| == 0 then None else (assert m[0] in m; Some(es[m[0]]))
  }

  /** The lifecycle's commit goes through the store's no-overwrite binding. */
  predicate Commits(c: Config, e: Env, r: Relocated, a: Answers) {
    && Recover(c, e.img, r.binding).Some? && a.post.Some?
    && KeyOf(r) in e.store && e.store[KeyOf(r)].binding.action == r.binding.action && e.store[KeyOf(r)].message.None?
  }

  function AfterPost(c: Config, e: Env, r: Relocated, a: Answers): Env {
    if !Commits(c, e, r, a) then e
    else
      var bound := e.store[KeyOf(r)].(message := Some(a.post.value.0), channel := a.post.value.1);
      e.(store := e.store[KeyOf(r) := bound])
  }

  function PostedMessage(c: Config, e: Env, r: Relocated, a: Answers): Option<nat> {
    if Commits(c, e, r, a) && a.returned then Some(a.post.value.0) else None
  }

  function Probed(c: Config, e: Env, r: Relocated, a: Answers): Verdict {
    if Recover(c, e.img, r.binding).None? || r.message.None? then Pending else a.verdict(r.channel)
  }

  function NoteAt(notes: map<string, string>, path: string): Option<string> {
    if path in notes then Some(notes[path]) else None
  }

  function LocalNote(c: Config, clone: map<string, string>, text: string, a: Answers): string {
    Upserted(NoteAt(clone, c.vault.relpath(text)), Rendered(c.vault, text, a.date))
  }

  function AfterWrite(c: Config, e: Env, r: Relocated, a: Answers): Env {
    var text := Recover(c, e.img, r.binding);
    if text.None? || a.clone.None? then e
    else
      var local := LocalNote(c, a.clone.value, text.value, a);
      var noted := e.(notes := a.clone.value[c.vault.relpath(text.value) := local]);
      var wrote := WriteReceipt(c.hs, local, a.remote, a.pushed).Some?;
      if wrote then noted.(log := noted.log + [Wrote(KeyOf(r), local)]) else noted
  }

  function Receipted(c: Config, e: Env, r: Relocated, a: Answers): Option<Receipt> {
    var text := Recover(c, e.img, r.binding);
    if text.None? || a.clone.None? then None
    else WriteReceipt(c.hs, LocalNote(c, a.clone.value, text.value, a), a.remote, a.pushed)
  }

  /** The gates of `apply_relocation` up to the deletion, in the source's order; `None` lets it pass. */
  function Gate(c: Config, e: Env, r: Relocated, a: Answers): Option<GateBlock> {
    if Recover(c, e.img, r.binding).None? then Some(EntryAbsent)
    else if r.status !in {Approved, Written} then Some(NotApproved)
    else if c.action(r.binding) != r.binding.action then Some(ActionHashDrift)
    else if r.binding.relpath !in e.notes then Some(ObsidianNotWritten)
    else if r.note.Some? && c.hs.sha(e.notes[r.binding.relpath]) != r.note.value then Some(ObsidianNotWritten)
    else if !a.ingestedAgain then Some(RagNotIngested)
    else
      var es := Parse(TextOf(e.img, r.binding.kind));
      if |Matching(c.hs, r.binding.kind, r.binding.entry, es, |es|)| > 1 then Some(EntryAmbiguous_) else None
  }

  /** The entry the deletion is aimed at. */
  function Target(c: Config, e: Env, r: Relocated): (i: nat)
    requires Recover(c, e.img, r.binding).Some?
    ensures var es := Parse(TextOf(e.img, r.binding.kind));
            && i < |es| && c.hs.digest(r.binding.kind, es[i]) == r.binding.entry
            && Recover(c, e.img, r.binding).value == es[i]
  {
    var es := Parse(TextOf(e.img, r.binding.kind));
    var m := Matching(c.hs, r.binding.kind, r.binding.entry, es, |es|);
    assert m[0] in m;
    m[0]
  }

  function AfterApply(c: Config, e: Env, r: Relocated, now: nat, a: Answers): Env {
    if Gate(c, e, r, a).Some? then e
    else
      var kind, text := r.binding.kind, TextOf(e.img, r.binding.kind);
      var met := Interfere(e.img, kind, a.other);
      var img := AfterDelete(met, kind, Target(c, e, r), text, now, a.fault);
      var removed := Removed(KeyOf(r), e.notes[r.binding.relpath], Target(c, e, r), text);
      e.(img := img, log := if img.files == met.files then e.log else e.log + [removed])
  }

  function ApplyOutcome(c: Config, e: Env, r: Relocated, now: nat, a: Answers): Option<GateBlock> {
    var gate := Gate(c, e, r, a);
    if gate.Some? then gate
    else
      var kind, text := r.binding.kind, TextOf(e.img, r.binding.kind);
      if Succeeds(Interfere(e.img, kind, a.other), kind, Target(c, e, r), text, now, a.fault) then None
      else Some(EntryAbsent)
  }

  // ----- One tick -----

  datatype Tick = Tick(env: Env, records: map<RecordKey, Relocated>, posted: seq<RecordKey>, written: seq<RecordKey>,
                       reconciled: seq<RecordKey>, abandoned: seq<RecordKey>)

  /** One iteration of `resolve_tick`. */
  function Resolve(c: Config, now: nat, maxPosts: int, t: Tick, key: RecordKey, a: Answers): Tick {
    if key !in t.records then t
    else
      var r := t.records[key];
      match r.status
      case Proposed =>
        if |t.posted| >= maxPosts || r.message.Some? then t
        else
          var message := PostedMessage(c, t.env, r, a);
          var t1 := t.(env := AfterPost(c, t.env, r, a));
          if message.None? then t1
          else t1.(records := t.records[key := r.(status := RelocationStatus.Posted, message := message)],
                   posted := t.posted + [key])
      case Posted =>
        var verdict := Probed(c, t.env, r, a);
        var t1 := t.(env := t.env.(log := t.env.log + [Observed(key, verdict)]));
        (match verdict
         case Yes => t1.(records := t.records[key := r.(status := Approved, approvedAt := Some(now))])
         case No => t1.(records := t.records[key := r.(status := Abandoned)], abandoned := t.abandoned + [key])
         case Missing => t1.(records := t.records[key := r.(status := Proposed, message := None)])
         case Pending => t1)
      case Approved =>
        var t1 := t.(env := AfterWrite(c, t.env, r, a));
        (match Receipted(c, t.env, r, a)
         case None => t1
         case Some(receipt) =>
           t1.(records :=
               t.records[key := r.(status := Written, note := Some(receipt.content), writtenAt := Some(now))],
               written := t.written + [key]))
      case Written =>
        if !a.ingested then t
        else
          var t1 := t.(env := AfterApply(c, t.env, r, now, a));
          (match ApplyOutcome(c, t.env, r, now, a)
           case None =>
             t1.(records :=
                 t.records[key := r.(status := RelocationStatus.Reconciled, reconciledAt := Some(now),
                                    lastBlock := None)],
                 reconciled := t.reconciled + [key])
           case Some(block) => t1.(records := t.records[key := r.(lastBlock := Some(block))]))
      case Ingested => t
      case Reconciled => t
      case Abandoned => t
  }

  function ResolveAll(c: Config, now: nat, maxPosts: int, start: Tick, keys: seq<RecordKey>,
                      answers: nat -> Answers): Tick
    decreases |keys|
  {
    if |keys| == 0 then start
    else
      var n := |keys| - 1;
      Resolve(c, now, maxPosts, ResolveAll(c, now, maxPosts, start, keys[..n], answers), keys[n], answers(n))
  }

  function Started(e: Env, records: map<RecordKey, Relocated>): Tick {
    Tick(e, records, [], [], [], [])
  }

  /** The node that runs the ticks. */
  class Node {
    const config: Config
    const native: Disk
    const store: Store
    var notes: map<string, string>
    ghost var log: seq<Event>

    constructor (config: Config, native: Disk, store: Store, notes: map<string, string>)
      ensures this.config == config && this.native == native && this.store == store && this.notes == notes && log == []
    {
      this.config, this.native, this.store, this.notes := config, native, store, notes;
      log := [];
    }

    ghost function Snapshot(): Env
      reads this, native, store
    {
      Env(native.Snapshot(), notes, store.records, log)
    }

    method RecoverText(b: Binding) returns (text: Option<string>, index: nat)
      ensures text == Recover(config, native.Snapshot(), b)
      ensures text.Some? ==> forall e: Env, r: Relocated :: e.img == native.Snapshot() && r.binding == b ==>
              index == Target(config, e, r)
    {
      hide Parse;
      var es := ParseMemoryFile(if b.kind in native.files then native.files[b.kind] else "");
      var m := Matching(config.hs, b.kind, b.entry, es, |es|);
      index := 0;
      if |m| == 0 { return None, 0; }
      assert m[0] in m;
      return Some(es[m[0]]), m[0];
    }

    /** The `post` effect: the lifecycle commits the binding to the store before it answers. */
    method Post(r: Relocated, a: Answers) returns (message: Option<nat>)
      modifies this, native, store
      ensures message == PostedMessage(config, old(Snapshot()), r, a)
      ensures Snapshot() == AfterPost(config, old(Snapshot()), r, a)
    {
      hide Recover;
      var text, _ := RecoverText(r.binding);
      if text.None? || a.post.None? { return None; }
      var ok := store.SetMessageId(r, a.post.value.0, a.post.value.1);
      return if ok && a.returned then Some(a.post.value.0) else None;
    }

    /** The `write` effect around `write_note`. */
    method WriteObsidian(r: Relocated, a: Answers) returns (receipt: Option<Receipt>)
      modifies this, native, store
      ensures receipt == Receipted(config, old(Snapshot()), r, a)
      ensures Snapshot() == AfterWrite(config, old(Snapshot()), r, a)
    {
      hide Recover, Rendered, Universal;
      var text, _ := RecoverText(r.binding);
      if text.None? || a.clone.None? { return None; }
      notes := a.clone.value;
      var path := config.vault.relpath(text.value);
      var local := Upserted(NoteAt(notes, path), Rendered(config.vault, text.value, a.date));
      notes := notes[path := local];
      receipt := WriteReceipt(config.hs, local, a.remote, a.pushed);
      if receipt.Some? { log := log + [Wrote(KeyOf(r), local)]; }
    }

    /** The `apply` effect: `apply_relocation` behind the recovery of the entry. */
    method ApplyDelete(r: Relocated, now: nat, a: Answers) returns (outcome: Option<GateBlock>)
      modifies this, native, store
      ensures outcome == ApplyOutcome(config, old(Snapshot()), r, now, a)
      ensures Snapshot() == AfterApply(config, old(Snapshot()), r, now, a)
    {
      hide Recover, Parse, AfterDelete, Succeeds;
      ghost var before := Snapshot();
      var text, index := RecoverText(r.binding);
      assert text.Some? ==> index == Target(config, before, r);
      if text.None? { return Some(EntryAbsent); }
      if r.status !in {Approved, Written} { return Some(NotApproved); }
      if config.action(r.binding) != r.binding.action { return Some(ActionHashDrift); }
      if r.binding.relpath !in notes { return Some(ObsidianNotWritten); }
      var note := notes[r.binding.relpath];
      if r.note.Some? && config.hs.sha(note) != r.note.value { return Some(ObsidianNotWritten); }
      if !a.ingestedAgain { return Some(RagNotIngested); }
      var kind := r.binding.kind;
      var content := if kind in native.files then native.files[kind] else "";
      var es := ParseMemoryFile(content);
      if |Matching(config.hs, kind, r.binding.entry, es, |es|)| > 1 { return Some(EntryAmbiguous_); }
      if a.other.Some? { native.files := native.files[kind := a.other.value]; }
      ghost var met := native.Snapshot();
      var deleted := native.DeleteEntry(kind, index, content, now, a.fault);
      ghost var removed := Removed(KeyOf(r), note, index, content);
      log := if native.Snapshot().files == met.files then log else log + [removed];
      return if deleted.Some? then None else Some(EntryAbsent);
    }

    /** `resolve_tick`. */
    method ResolveTick(now: nat, maxPosts: int, loaded: map<RecordKey, Relocated>, keys: seq<RecordKey>,
                       answers: nat -> Answers)
      returns (records: map<RecordKey, Relocated>, posted: seq<RecordKey>, written: seq<RecordKey>,
               reconciled: seq<RecordKey>, abandoned: seq<RecordKey>)
      modifies this, native, store
      ensures Tick(Snapshot(), records, posted, written, reconciled, abandoned) ==
              ResolveAll(config, now, maxPosts, Started(old(Snapshot()), loaded), keys, answers)
    {
      hide PostedMessage, AfterPost, Receipted, AfterWrite, ApplyOutcome, AfterApply;
      records, posted, written, reconciled, abandoned := loaded, [], [], [], [];
      ghost var start := Started(old(Snapshot()), loaded);
      for n := 0 to |keys|
        invariant Tick(Snapshot(), records, posted, written, reconciled, abandoned)
                  == ResolveAll(config, now, maxPosts, start, keys[..n], answers)
      {
        assert keys[..n + 1][..n] == keys[..n];
        var key, a := keys[n], answers(n);
        ghost var before := Tick(Snapshot(), records, posted, written, reconciled, abandoned);
        if key in records {
          var r := records[key];
          match r.status {
            case Proposed =>
              if |posted| < maxPosts && r.message.None? {
                var message := Post(r, a);
                if message.Some? {
                  records := records[key := r.(status := RelocationStatus.Posted, message := message)];
                  posted := posted + [key];
                }
              }
            case Posted =>
              var text, _ := RecoverText(r.binding);
              var verdict := if text.None? || r.message.None? then Pending else a.verdict(r.channel);
              assert verdict == Probed(config, before.env, r, a);
              log := log + [Observed(key, verdict)];
              match verdict {
                case Yes => records := records[key := r.(status := Approved, approvedAt := Some(now))];
                case No =>
                  records := records[key := r.(status := Abandoned)];
                  abandoned := abandoned + [key];
                case Missing => records := records[key := r.(status := Proposed, message := None)];
                case Pending =>
              }
            case Approved =>
              var receipt := WriteObsidian(r, a);
              if receipt.Some? {
                records :=
                    records[key := r.(status := Written, note := Some(receipt.value.content), writtenAt := Some(now))];
                written := written + [key];
              }
            case Written =>
              if a.ingested {
                var outcome := ApplyDelete(r, now, a);
                if outcome.None? {
                  records :=
                      records[key := r.(status := RelocationStatus.Reconciled, reconciledAt := Some(now),
                                        lastBlock := None)];
                  reconciled := reconciled + [key];
                } else {
                  records := records[key := r.(lastBlock := outcome)];
                }
              }
            case Ingested =>
            case Reconciled =>
            case Abandoned =>
          }
        }
        assert Tick(Snapshot(), records, posted, written, reconciled, abandoned)
               == Resolve(config, now, maxPosts, before, key, a);
      }
      assert keys[..|keys|] == keys;
    }
  }
}
