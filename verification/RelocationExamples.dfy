/** Concrete runs of the relocation watcher on which its records and effects come apart. */
module RelocationExamples {
  import opened Common
  import opened MemoryText
  import opened Reclaim
  import opened MemoryDeletion
  import opened Relocation
  import opened RelocationRuns

  function Always(a: Answers): nat -> Answers {
    n => a
  }

  /** The channel of the owner's direct messages. */
  const OWNER_DM: nat := 5

  /** The owner has answered `v` on the direct-message channel; other channels do not know the message. */
  function Answered(v: Verdict): nat -> Verdict {
    channel => if channel == OWNER_DM then v else Missing
  }

  const IDLE := Answers(None, true, Answered(Pending), 0, None, false, "", false, false, None, NoFault)

  /** A configuration, a binding and an entry that belong together. */
  predicate Fits(c: Config, b: Binding, text: string) {
    && Canonical(text) && b.entry == c.hs.digest(b.kind, text) && b.relpath == c.vault.relpath(text)
    && c.action(b) == b.action && NoReturn(Rendered(c.vault, text, 0))
  }

  lemma OneLetterIsCanonical()
    ensures Canonical("e")
  {
    var text := "e";
    assert text[1..] == "" && SplitLines("") == [] && SplitLines(text) == AddHead('e', []) == [text];
    assert StripLeft(text) == text && StripRight(text) == text;
  }

  lemma PlainNote(v: Vault)
    requires v.footer == "f" && v.header("e", 0) == ""
    ensures NoReturn(Rendered(v, "e", 0))
  {
    StripKeeps(EntryBody(v, "e"));
    assert NoReturn(HEADING);
    assert Rendered(v, "e", 0) == HEADING + "\n\n" + "e" + "\n\n" + "f" + "\n";
  }

  /** Texts stand for their own hashes. */
  function PlainConfig(): Config {
    Config(Hashes((s: string) => s, (k: Kind, s: string) => s, (s: string) => None),
           Vault((t: string) => t, (t: string, date: nat) => "", "f"),
           (x: Binding) => "a")
  }

  /** There are configurations that fit, and that meet every assumption of the safety theorem. */
  lemma PlainConfigIsOk()
    ensures ConfigOk(PlainConfig())
  {
  }

  lemma PlainConfigFits(kind: Kind)
    ensures Fits(PlainConfig(), Binding(kind, "e", "e", "p", "a"), "e")
  {
    OneLetterIsCanonical();
    PlainNote(PlainConfig().vault);
    hide Canonical, Rendered;
  }

  function Proposal(b: Binding, channel: nat): Relocated {
    Relocated(b, Proposed, channel, None, None, None, None, None, None)
  }

  function FileOf(b: Binding, text: string): Image {
    Image(map[b.kind := Serialize([text])], map[])
  }

  function Posts(returned: bool): Answers {
    IDLE.(post := Some((7, OWNER_DM)), returned := returned)
  }

  /** A call that proposes the entry with a channel and posts message 7 to the owner. */
  function PostingCall(b: Binding, text: string, channel: nat, returned: bool, crash: Option<nat>): Call {
    Call(FileOf(b, text), map[], Some(Proposal(b, channel)), 0, [(b.kind, b.entry)], Always(Posts(returned)), crash)
  }

  lemma OneVisit(c: Config, start: Tick, now: nat, key: RecordKey, a: Answers)
    ensures ResolveAll(c, now, 1, start, [key], Always(a)) == Resolve(c, now, 1, start, key, a)
  {
    hide Resolve;
    var keys := [key];
    assert keys[..0] == [] && keys[..1] == keys;
    assert ResolveAll(c, now, 1, start, [], Always(a)) == start;
  }

  lemma EntryIsFound(c: Config, b: Binding, text: string)
    requires Fits(c, b, text)
    ensures Parse(TextOf(FileOf(b, text), b.kind)) == [text]
    ensures Matching(c.hs, b.kind, b.entry, [text], 1) == [0]
    ensures Recover(c, FileOf(b, text), b) == Some(text)
  {
    hide Parse, Serialize, Canonical;
    assert AllCanonical([text]);
    ParseSerialize([text]);
    assert Matching(c.hs, b.kind, b.entry, [text], 0) == [];
  }

  /** The record as the lifecycle commits it, and as the tick holds it. */
  function Committed(b: Binding, channel: nat): Relocated {
    Proposal(b, channel).(message := Some(7), channel := OWNER_DM)
  }

  function Held(b: Binding, channel: nat, returned: bool): Relocated {
    if returned then Proposal(b, channel).(status := RelocationStatus.Posted, message := Some(7))
    else Proposal(b, channel)
  }

  lemma PostingTick(c: Config, b: Binding, text: string, channel: nat, returned: bool, crash: Option<nat>)
    requires Fits(c, b, text) && (crash.Some? ==> crash.value >= 1)
    ensures var t := Ticked(c, map[], [], PostingCall(b, text, channel, returned, crash));
            && t.env.store == map[(b.kind, b.entry) := Committed(b, channel)]
            && t.records == map[(b.kind, b.entry) := Held(b, channel, returned)]
            && t.env.log == []
  {
    hide Recover, Parse, Serialize, Fits;
    var call := PostingCall(b, text, channel, returned, crash);
    EntryIsFound(c, b, text);
    assert call.keys[..1] == call.keys;
    assert Visited(call) == [(b.kind, b.entry)];
    OneVisit(c, Loaded(map[], [], call), 0, (b.kind, b.entry), Posts(returned));
  }

  function NextWorld(c: Config, w: World, call: Call): World {
    World(Saved(c, w.store, w.log, call), Ticked(c, w.store, w.log, call).env.log)
  }

  function FirstWorlds(c: Config, call: Call): seq<World> {
    [World(map[], []), NextWorld(c, World(map[], []), call)]
  }

  lemma FirstRun(c: Config, call: Call)
    ensures IsRun(c, FirstWorlds(c, call), [call])
  {
    hide Saved, Ticked;
  }

  /** A call that crashes after `set_message_id`, before its final save: the very first call of this run
      leaves a stuck record. */
  lemma PostedButUnsaved(c: Config, b: Binding, text: string, channel: nat)
    requires Fits(c, b, text)
    ensures var key, call := (b.kind, b.entry), PostingCall(b, text, channel, true, Some(1));
            var worlds := FirstWorlds(c, call);
            && IsRun(c, worlds, [call]) && key in worlds[1].store && Stuck(worlds[1].store[key])
            && CrashedAfterCommit(c, worlds[0], call, key)
  {
    hide Ticked, Fits, Recover;
    var call := PostingCall(b, text, channel, true, Some(1));
    FirstRun(c, call);
    PostingTick(c, b, text, channel, true, Some(1));
    RunKeyed(c, FirstWorlds(c, call), [call], 0);
    CallSticksExactly(c, World(map[], []), call, (b.kind, b.entry));
  }

  /** A completed call whose final save loses the channel that the lifecycle committed. */
  lemma ChannelIsLost(c: Config, b: Binding, text: string)
    requires Fits(c, b, text)
    ensures var key, call := (b.kind, b.entry), PostingCall(b, text, NO_CHANNEL, true, None);
            var worlds, committed := FirstWorlds(c, call), Ticked(c, map[], [], call).env.store;
            && IsRun(c, worlds, [call]) && key in worlds[1].store && key in committed
            && worlds[1].store[key].message == Some(7) && worlds[1].store[key].channel == NO_CHANNEL
            && committed[key].message == Some(7) && committed[key].channel == OWNER_DM
  {
    hide Ticked, Fits, Recover;
    FirstRun(c, PostingCall(b, text, NO_CHANNEL, true, None));
    PostingTick(c, b, text, NO_CHANNEL, true, None);
  }

  /** A completed call whose final save loses the message itself: the lifecycle committed message 7 and then
      failed, so the record is saved as an unbound proposal. */
  lemma MessageIsLost(c: Config, b: Binding, text: string, channel: nat)
    requires Fits(c, b, text)
    ensures var key, call := (b.kind, b.entry), PostingCall(b, text, channel, false, None);
            var worlds, committed := FirstWorlds(c, call), Ticked(c, map[], [], call).env.store;
            && IsRun(c, worlds, [call]) && key in worlds[1].store && key in committed
            && committed[key].message == Some(7)
            && worlds[1].store[key].status == Proposed && worlds[1].store[key].message.None?
  {
    hide Ticked, Fits, Recover;
    FirstRun(c, PostingCall(b, text, channel, false, None));
    PostingTick(c, b, text, channel, false, None);
  }

  /** The further calls of a longer run: the owner approves, the note is written and indexed, the
      deletion crashes before the save, and a last call completes. */
  function ProbeCall(b: Binding, text: string): Call {
    Call(FileOf(b, text), map[], None, 0, [(b.kind, b.entry)], Always(IDLE.(verdict := Answered(Yes))), None)
  }

  function WritingCall(c: Config, b: Binding, text: string): Call {
    Call(FileOf(b, text), map[], None, 0, [(b.kind, b.entry)],
         Always(IDLE.(clone := Some(map[]), pushed := true, remote := Rendered(c.vault, text, 0))), None)
  }

  function DeletingCall(c: Config, b: Binding, text: string): Call {
    Call(FileOf(b, text), map[b.relpath := Rendered(c.vault, text, 0)], None, 0, [(b.kind, b.entry)],
         Always(IDLE.(ingested := true, ingestedAgain := true)), Some(1))
  }

  /** The native file is as the deletion left it. */
  function LastCall(c: Config, b: Binding, text: string): Call {
    DeletingCall(c, b, text).(img := AfterDelete(FileOf(b, text), b.kind, 0, Serialize([text]), 0, NoFault),
                              crash := None)
  }

  function Approval(b: Binding): Relocated {
    Held(b, OWNER_DM, true).(status := Approved, approvedAt := Some(0))
  }

  function Writing(c: Config, b: Binding, text: string): Relocated {
    Approval(b).(status := Written, note := Some(c.hs.sha(Rendered(c.vault, text, 0))), writtenAt := Some(0))
  }

  lemma CallTick(c: Config, w: World, call: Call, key: RecordKey, a: Answers)
    requires call.keys == [key] && call.answers == Always(a) && call.proposal.None? && call.now == 0
    requires call.crash.Some? ==> call.crash.value == 1
    ensures Ticked(c, w.store, w.log, call)
            == Resolve(c, 0, 1, Started(Env(call.img, call.notes, w.store, w.log), w.store), key, a)
  {
    hide Resolve;
    assert call.keys[..1] == call.keys;
    OneVisit(c, Loaded(w.store, w.log, call), 0, key, a);
  }

  lemma ProbeTick(c: Config, b: Binding, text: string)
    requires Fits(c, b, text)
    ensures var key := (b.kind, b.entry);
            Saved(c, map[key := Held(b, OWNER_DM, true)], [], ProbeCall(b, text)) == map[key := Approval(b)]
            && Ticked(c, map[key := Held(b, OWNER_DM, true)], [], ProbeCall(b, text)).env.log == [Observed(key, Yes)]
  {
    hide Recover, Parse, Serialize, Fits;
    EntryIsFound(c, b, text);
    var key := (b.kind, b.entry);
    CallTick(c, World(map[key := Held(b, OWNER_DM, true)], []), ProbeCall(b, text), key,
             IDLE.(verdict := Answered(Yes)));
  }

  lemma WritingApplies(c: Config, b: Binding, text: string, e: Env)
    requires Fits(c, b, text) && e.img == FileOf(b, text)
    ensures var a := WritingCall(c, b, text).answers(0);
            && Receipted(c, e, Approval(b), a) == Some(Receipt(c.hs.sha(Rendered(c.vault, text, 0))))
            && AfterWrite(c, e, Approval(b), a).store == e.store
  {
    EntryIsFound(c, b, text);
    UniversalOfNoReturn(Rendered(c.vault, text, 0));
    hide Recover, Parse, Serialize, Canonical, Rendered, Universal;
  }

  lemma WritingTick(c: Config, b: Binding, text: string, log: seq<Event>)
    requires Fits(c, b, text)
    ensures var key := (b.kind, b.entry);
            Saved(c, map[key := Approval(b)], log, WritingCall(c, b, text)) == map[key := Writing(c, b, text)]
  {
    var key, call := (b.kind, b.entry), WritingCall(c, b, text);
    var e := Env(call.img, call.notes, map[key := Approval(b)], log);
    WritingApplies(c, b, text, e);
    hide AfterWrite, Receipted, Rendered, Fits, FileOf;
    CallTick(c, World(map[key := Approval(b)], log), call, key,
             IDLE.(clone := Some(map[]), pushed := true, remote := Rendered(c.vault, text, 0)));
  }

  lemma DeletingApplies(c: Config, b: Binding, text: string, log: seq<Event>)
    requires Fits(c, b, text)
    ensures var call := DeletingCall(c, b, text);
            var e := Env(call.img, call.notes, map[(b.kind, b.entry) := Writing(c, b, text)], log);
            && AfterApply(c, e, Writing(c, b, text), 0, call.answers(0)).img == LastCall(c, b, text).img
            && AfterApply(c, e, Writing(c, b, text), 0, call.answers(0)).store == e.store
  {
    EntryIsFound(c, b, text);
    hide Recover, Parse, Serialize, Canonical, Rendered, AfterDelete;
    var call := DeletingCall(c, b, text);
    var e := Env(call.img, call.notes, map[(b.kind, b.entry) := Writing(c, b, text)], log);
    assert Gate(c, e, Writing(c, b, text), call.answers(0)).None?;
    assert Target(c, e, Writing(c, b, text)) == 0;
  }

  lemma WrittenVisit(c: Config, now: nat, t: Tick, key: RecordKey, a: Answers)
    requires key in t.records && t.records[key].status == Written && a.ingested
    ensures var u, outcome := Resolve(c, now, 1, t, key, a), ApplyOutcome(c, t.env, t.records[key], now, a);
            && u.env == AfterApply(c, t.env, t.records[key], now, a)
            && (outcome.Some? ==> u.records == t.records[key := t.records[key].(lastBlock := outcome)])
  {
    hide AfterApply, ApplyOutcome;
  }

  lemma DeletingTick(c: Config, b: Binding, text: string, log: seq<Event>)
    requires Fits(c, b, text)
    ensures var key, call := (b.kind, b.entry), DeletingCall(c, b, text);
            && Saved(c, map[key := Writing(c, b, text)], log, call) == map[key := Writing(c, b, text)]
            && Ticked(c, map[key := Writing(c, b, text)], log, call).env.img == LastCall(c, b, text).img
  {
    DeletingApplies(c, b, text, log);
    var key, call := (b.kind, b.entry), DeletingCall(c, b, text);
    var r, a := Writing(c, b, text), IDLE.(ingested := true, ingestedAgain := true);
    var e := Env(call.img, call.notes, map[key := r], log);
    WrittenVisit(c, 0, Started(e, map[key := r]), key, a);
    hide AfterApply, ApplyOutcome, Rendered, LastCall, Fits, Resolve, Writing, FileOf;
    CallTick(c, World(map[key := Writing(c, b, text)], log), DeletingCall(c, b, text), key,
             IDLE.(ingested := true, ingestedAgain := true));
  }

  /** Without the entry the apply effect does nothing. */
  lemma GoneBlocks(c: Config, e: Env, r: Relocated, now: nat, a: Answers)
    requires Recover(c, e.img, r.binding).None?
    ensures AfterApply(c, e, r, now, a) == e && ApplyOutcome(c, e, r, now, a) == Some(EntryAbsent)
  {
  }

  lemma GoneAfterDeletion(c: Config, b: Binding, text: string)
    requires Fits(c, b, text)
    ensures Recover(c, LastCall(c, b, text).img, b).None?
  {
    EntryIsFound(c, b, text);
    ReadsBack(Serialize([text]), 0);
    hide Parse, Serialize, Canonical, Rendered, Fits;
    assert Parse(TextOf(LastCall(c, b, text).img, b.kind)) == [];
  }

  lemma LastTick(c: Config, b: Binding, text: string, log: seq<Event>)
    requires Fits(c, b, text)
    ensures var key, call := (b.kind, b.entry), LastCall(c, b, text);
            Saved(c, map[key := Writing(c, b, text)], log, call)
            == map[key := Writing(c, b, text).(lastBlock := Some(EntryAbsent))]
  {
    GoneAfterDeletion(c, b, text);
    var call := LastCall(c, b, text);
    var e := Env(call.img, call.notes, map[(b.kind, b.entry) := Writing(c, b, text)], log);
    GoneBlocks(c, e, Writing(c, b, text), 0, call.answers(0));
    var key := (b.kind, b.entry);
    WrittenVisit(c, 0, Started(e, map[key := Writing(c, b, text)]), key,
                 IDLE.(ingested := true, ingestedAgain := true));
    assert Writing(c, b, text).status == Written;
    hide AfterApply, ApplyOutcome, Rendered, AfterDelete, Fits, Recover, Resolve, Writing, FileOf;
    CallTick(c, World(map[key := Writing(c, b, text)], log), LastCall(c, b, text), key,
             IDLE.(ingested := true, ingestedAgain := true));
  }

  /** A call that crashes after its deletion: the entry is gone, and the completed call after it finds the
      record written and the entry absent. */
  lemma DeletedButUnsaved(c: Config, b: Binding, text: string) returns (worlds: seq<World>, calls: seq<Call>)
    requires Fits(c, b, text)
    ensures |calls| == 5 && IsRun(c, worlds, calls)
    ensures var key := (b.kind, b.entry);
            && key in worlds[3].store && worlds[3].store[key].status == Written
            && Recover(c, calls[3].img, b) == Some(text)
            && calls[4].img == Ticked(c, worlds[3].store, worlds[3].log, calls[3]).env.img
            && Recover(c, calls[4].img, b).None? && calls[4].crash.None?
            && key in worlds[5].store && worlds[5].store[key].status == Written
            && worlds[5].store[key].lastBlock == Some(EntryAbsent)
  {
    hide Saved, Ticked, Fits, Recover;
    var key := (b.kind, b.entry);
    calls := [PostingCall(b, text, OWNER_DM, true, None), ProbeCall(b, text), WritingCall(c, b, text),
              DeletingCall(c, b, text),
              LastCall(c, b, text)];
    var w0 := World(map[], []);
    var w1 := NextWorld(c, w0, calls[0]);
    var w2 := NextWorld(c, w1, calls[1]);
    var w3 := NextWorld(c, w2, calls[2]);
    var w4 := NextWorld(c, w3, calls[3]);
    worlds := [w0, w1, w2, w3, w4, NextWorld(c, w4, calls[4])];
    PostingSaved(c, b, text, OWNER_DM);
    ProbeTick(c, b, text);
    WritingTick(c, b, text, w2.log);
    DeletingTick(c, b, text, w3.log);
    LastTick(c, b, text, w4.log);
    EntryIsFound(c, b, text);
    GoneAfterDeletion(c, b, text);
  }

  lemma PostingSaved(c: Config, b: Binding, text: string, channel: nat)
    requires Fits(c, b, text)
    ensures NextWorld(c, World(map[], []), PostingCall(b, text, channel, true, None))
            == World(map[(b.kind, b.entry) := Held(b, channel, true)], [])
  {
    hide Ticked, Fits;
    PostingTick(c, b, text, channel, true, None);
  }

  /** The owner approves, and the approval is discarded: the proposal had no channel, so after the completed
      posting call the next one probes the empty channel, reads missing, and unbinds the message. */
  lemma ApprovalIsDiscarded(c: Config, b: Binding, text: string) returns (worlds: seq<World>)
    requires Fits(c, b, text)
    ensures var key, calls := (b.kind, b.entry), [PostingCall(b, text, NO_CHANNEL, true, None), ProbeCall(b, text)];
            && IsRun(c, worlds, calls)
            && key in worlds[1].store && worlds[1].store[key].message == Some(7)
            && calls[1].answers(0).verdict(OWNER_DM) == Yes
            && key in worlds[2].store && worlds[2].store[key].status == Proposed && worlds[2].store[key].message.None?
  {
    hide Saved, Ticked, Fits, Recover;
    var w0 := World(map[], []);
    var w1 := NextWorld(c, w0, PostingCall(b, text, NO_CHANNEL, true, None));
    worlds := [w0, w1, NextWorld(c, w1, ProbeCall(b, text))];
    PostingSaved(c, b, text, NO_CHANNEL);
    MissedTick(c, b, text);
  }

  lemma MissedTick(c: Config, b: Binding, text: string)
    requires Fits(c, b, text)
    ensures var key := (b.kind, b.entry);
            Saved(c, map[key := Held(b, NO_CHANNEL, true)], [], ProbeCall(b, text))
                == map[key := Proposal(b, NO_CHANNEL)]
  {
    hide Recover, Parse, Serialize, Fits;
    EntryIsFound(c, b, text);
    var key := (b.kind, b.entry);
    CallTick(c, World(map[key := Held(b, NO_CHANNEL, true)], []), ProbeCall(b, text), key,
             IDLE.(verdict := Answered(Yes)));
  }
}
