/** What a subscriber records, stages and keeps over any number of sync passes. */
module ManagedSyncRuns {
  import opened Common
  import opened ReleaseTags
  import opened ManagedSync

  // ----- The publisher's history -----

  datatype Content = Content(sha: Digest, revoked: set<Digest>)

  function TagsOf(h: seq<Manifest>): seq<Published> {
    seq(|h|, i requires 0 <= i < |h| => Published(i + 1, h[i]))
  }

  /** Publishing the contents one after the other. */
  function History(skill: string, contents: seq<Content>): (h: seq<Manifest>)
    ensures |h| <= |contents|
    decreases |contents|
  {
    if |contents| == 0 then []
    else
      var n := |contents| - 1;
      var h := History(skill, contents[..n]);
      match ReleaseState(skill, TagsOf(h))
      case None => h
      case Some(up) => h + [Manifest(skill, up.sequence, contents[n].sha, up.previous, contents[n].revoked)]
  }

  lemma TagsExactly(h: seq<Manifest>)
    ensures forall p :: p in TagsOf(h) <==> exists i :: 0 <= i < |h| && p == Published(i + 1, h[i])
  {
    forall p
      ensures p in TagsOf(h) <==> exists i :: 0 <= i < |h| && p == Published(i + 1, h[i])
    {
      if i :| 0 <= i < |h| && p == Published(i + 1, h[i]) { assert TagsOf(h)[i] == p; }
    }
  }

  lemma ChainedNone(skill: string)
    ensures Chained(skill, [])
  {
  }

  /** However many contents are published, the tags form one chain over them. */
  lemma {:induction false} HistoryIsChained(skill: string, contents: seq<Content>)
    ensures |History(skill, contents)| == |contents| && Chained(skill, History(skill, contents))
    ensures forall i :: 0 <= i < |contents| ==> History(skill, contents)[i].sha == contents[i].sha
    decreases |contents|
  {
    hide Chained, ReleaseState, TagsOf;
    if |contents| == 0 {
      ChainedNone(skill);
    } else {
      var n := |contents| - 1;
      HistoryIsChained(skill, contents[..n]);
      var h := History(skill, contents[..n]);
      TagsExactly(h);
      PublishExtends(skill, h, TagsOf(h), contents[n].sha, contents[n].revoked);
    }
  }

  // ----- What one step keeps -----

  /** Every digest that the first `n` releases revoke. */
  function RevokedBy(h: seq<Manifest>, n: nat): set<Digest>
    requires n <= |h|
  {
    if n == 0 then {} else RevokedBy(h, n - 1) + h[n - 1].revoked
  }

  /** None of the first `n` releases was revoked by itself or before it came. */
  predicate Clean(h: seq<Manifest>, n: nat)
    requires n <= |h|
  {
    forall i :: 0 <= i < n ==> h[i].sha !in RevokedBy(h, i + 1)
  }

  /** A skill's state is the one left by recording exactly the first `highest` releases. */
  predicate IsPrefix(h: seq<Manifest>, s: SkillState) {
    && s.highest <= |h| && s.last == DigestAt(h, s.highest)
    && s.revoked == RevokedBy(h, s.highest) && Clean(h, s.highest)
  }

  /** Nothing signed by the publisher and bound to its tag is outside the history. */
  predicate Honest(skill: string, h: seq<Manifest>, a: Answer) {
    a.signed && a.principal && a.bound && a.read.Shown? && a.read.manifest.skill == skill ==> a.read.manifest in h
  }

  /** After release `a` (counted from 0) the release after `b` passes for the next one: the two digests
      agree, a subscriber can come as far as `a`, and nothing recorded by then or in the release itself
      revokes it. */
  predicate CanSkip(h: seq<Manifest>, a: nat, b: nat) {
    && a < b < |h| - 1 && h[a].sha == h[b].sha && Clean(h, a + 1)
    && h[b + 1].sha !in RevokedBy(h, a + 1) + h[b + 1].revoked
  }

  ghost predicate NeverSkips(h: seq<Manifest>) {
    forall a: nat, b: nat :: !CanSkip(h, a, b)
  }

  /** No two of the releases that have a successor carry the same digest. */
  predicate Distinct(h: seq<Manifest>) {
    forall i, j :: 0 <= i < j < |h| - 1 ==> h[i].sha != h[j].sha
  }

  /** The order in which a skill's state may move. */
  predicate Later(s: SkillState, t: SkillState) {
    && s.highest <= t.highest && s.revoked <= t.revoked && s.activated == t.activated
    && (s.highest == t.highest ==> s.last == t.last)
  }

  lemma {:induction false} RevokedGrows(h: seq<Manifest>, i: nat, n: nat)
    requires i < n <= |h|
    ensures h[i].revoked <= RevokedBy(h, n)
    decreases n
  {
    if i < n - 1 { RevokedGrows(h, i, n - 1); }
  }

  /** A clean prefix does not end in the predecessor of a later release that it would accept. */
  lemma PredecessorsDiffer(h: seq<Manifest>, k: nat, j: nat)
    requires NeverSkips(h) && k < j < |h| && Clean(h, k) && h[j].sha !in RevokedBy(h, k) + h[j].revoked
    ensures DigestAt(h, k) != DigestAt(h, j)
  {
    hide RevokedBy, Clean;
    if k > 0 { assert !CanSkip(h, k - 1, j - 1); }
  }

  /** A verified forward release is the next one of the history. */
  lemma VerifiedIsNext(skill: string, h: seq<Manifest>, sequence: nat, st: SkillState, a: Answer)
    requires Chained(skill, h) && NeverSkips(h) && IsPrefix(h, st) && Honest(skill, h, a)
    requires VerifyRelease(skill, sequence, st, a, false).Ok?
    ensures var m := VerifyRelease(skill, sequence, st, a, false).value;
            m.sequence == st.highest + 1 <= |h| && m == h[st.highest]
  {
    hide VerifyRelease, DigestAt, NeverSkips, RevokedBy;
    VerifiedExactly(skill, sequence, st, a, false);
    var m := a.read.manifest;
    var j :| 0 <= j < |h| && h[j] == m;
    assert m.previous == DigestAt(h, j) && m.sequence == j + 1;
    if st.highest < j { PredecessorsDiffer(h, st.highest, j); }
  }

  lemma CleanNext(h: seq<Manifest>, k: nat)
    requires k < |h| && Clean(h, k) && h[k].sha !in RevokedBy(h, k) + h[k].revoked
    ensures Clean(h, k + 1) && RevokedBy(h, k + 1) == RevokedBy(h, k) + h[k].revoked
  {
    assert RevokedBy(h, k + 1) == RevokedBy(h, k) + h[k].revoked;
    hide RevokedBy;
  }

  /** Recording the next release of the history, or rolling back to a recorded one, leaves a prefix. */
  lemma MarkedIsPrefix(skill: string, h: seq<Manifest>, st: SkillState, m: Manifest, isRollback: bool)
    requires Chained(skill, h) && IsPrefix(h, st) && m in h
    requires if isRollback then m.sequence <= st.highest else st.highest < |h| && m == h[st.highest]
    requires m.sha !in st.revoked && m.sha !in m.revoked
    ensures IsPrefix(h, Marked(st, m, isRollback))
  {
    hide RevokedBy, Clean;
    if isRollback {
      var j :| 0 <= j < |h| && h[j] == m;
      assert h[j].sequence == j + 1;
      RevokedGrows(h, j, st.highest);
    } else {
      CleanNext(h, st.highest);
      assert h[st.highest].sequence == st.highest + 1;
    }
  }

  /** Recording after verification never raises. */
  lemma RecordingSucceeds(skill: string, state: SyncState, sequence: nat, a: Answer)
    requires VerifyRelease(skill, sequence, Skill(state, skill), a, false).Ok?
    ensures var m := VerifyRelease(skill, sequence, Skill(state, skill), a, false).value;
            RecordVerified(state, skill, m.sequence, m.sha).Some?
  {
    hide VerifyRelease;
    VerifiedExactly(skill, sequence, Skill(state, skill), a, false);
  }

  /** The skill's state after its release `m` went through. */
  function Marked(st: SkillState, m: Manifest, isRollback: bool): (t: SkillState)
    ensures isRollback ==> t.highest == st.highest && t.last == st.last
  {
    var forward := if isRollback then st else st.(highest := m.sequence, last := Some(m.sha));
    forward.(revoked := st.revoked + m.revoked)
  }

  /** One processed release either changes nothing but the failure list, or was acceptable, is staged
      and marked. */
  lemma ProcessCases(skill: string, w: Walk, tag: ReleaseTag, a: Answer, isRollback: bool)
    ensures var v := Process(skill, w, tag, a, isRollback);
            var st := Skill(w.state, skill);
            || v == w.(failed := v.failed)
            || (&& a.stages && a.read.Shown? && Acceptable(skill, tag.sequence, st, a, isRollback, a.read.manifest)
                && var m := a.read.manifest;
                && v.state == w.state[skill := Marked(st, m, isRollback)]
                && v.durable == (if a.saves then v.state else w.durable)
                && v.staged == w.staged + [Staged(skill, m.sequence, m.sha)]
                && v.recorded == (if isRollback then w.recorded else w.recorded + [m.sequence])
                && v.visited == w.visited && v.stopped == w.stopped)
  {
    hide VerifyRelease;
    VerifiedExactly(skill, tag.sequence, Skill(w.state, skill), a, isRollback);
    if !isRollback && VerifyRelease(skill, tag.sequence, Skill(w.state, skill), a, false).Ok? {
      RecordingSucceeds(skill, w.state, tag.sequence, a);
    }
  }

  /** The memory is never behind the state file. */
  predicate Ahead(name: string, memory: SyncState, durable: SyncState) {
    Later(Skill(durable, name), Skill(memory, name))
  }

  /** A step moves every skill forward, in memory and on disk, and other skills not at all in memory. */
  lemma StepGrows(name: string, skill: string, options: Options, rollback: Option<nat>, w: Walk, tag: ReleaseTag,
                  a: Answer)
    requires Ahead(name, w.state, w.durable)
    ensures var v := WalkOne(skill, options, rollback, w, tag, a);
            && Later(Skill(w.state, name), Skill(v.state, name))
            && Later(Skill(w.durable, name), Skill(v.durable, name))
            && Ahead(name, v.state, v.durable)
            && (name != skill ==> Skill(v.state, name) == Skill(w.state, name)
                                  && (v.durable == w.durable || Skill(v.durable, name) == Skill(w.state, name)))
  {
    hide Process;
    if !w.stopped {
      WalkCases(skill, options, rollback, w, tag, a);
      ProcessCases(skill, w, tag, a, IsRollback(rollback, tag.sequence, Skill(w.state, skill).highest));
    }
  }

  lemma {:induction false} WalkGrows(name: string, skill: string, options: Options, rollback: Option<nat>,
                                     start: Walk, tags: seq<ReleaseTag>, answers: nat -> Answer)
    requires Ahead(name, start.state, start.durable)
    ensures var v := WalkAll(skill, options, rollback, start, tags, answers);
            && Later(Skill(start.state, name), Skill(v.state, name))
            && Later(Skill(start.durable, name), Skill(v.durable, name))
            && Ahead(name, v.state, v.durable)
            && (name != skill ==> Skill(v.state, name) == Skill(start.state, name)
                                  && Skill(v.durable, name) in {Skill(start.durable, name), Skill(start.state, name)})
    decreases |tags|
  {
    hide WalkOne;
    if |tags| > 0 {
      var n := |tags| - 1;
      WalkGrows(name, skill, options, rollback, start, tags[..n], answers);
      StepGrows(name, skill, options, rollback, WalkAll(skill, options, rollback, start, tags[..n], answers),
                tags[n], answers(n));
    }
  }

  /** Both states of skill `name` stay prefixes of its history, whichever skill is walked, and every
      recorded sequence is one above the one before it. */
  lemma StepKeepsPrefix(name: string, h: seq<Manifest>, skill: string, options: Options, rollback: Option<nat>,
                        w: Walk, tag: ReleaseTag, a: Answer)
    requires Chained(name, h) && NeverSkips(h) && Honest(name, h, a)
    requires IsPrefix(h, Skill(w.state, name)) && IsPrefix(h, Skill(w.durable, name))
    ensures var v := WalkOne(skill, options, rollback, w, tag, a);
            && IsPrefix(h, Skill(v.state, name)) && IsPrefix(h, Skill(v.durable, name))
            && (name == skill ==>
                if Skill(v.state, name).highest == Skill(w.state, name).highest then v.recorded == w.recorded
                else v.recorded == w.recorded + [Skill(w.state, name).highest + 1]
                     && Skill(v.state, name).highest == Skill(w.state, name).highest + 1)
  {
    hide Process, Chained, NeverSkips, VerifyRelease, IsPrefix;
    if !w.stopped {
      WalkCases(skill, options, rollback, w, tag, a);
      var isRollback := IsRollback(rollback, tag.sequence, Skill(w.state, skill).highest);
      ProcessCases(skill, w, tag, a, isRollback);
      if name == skill && !isRollback {
        VerifiedExactly(skill, tag.sequence, Skill(w.state, skill), a, false);
        if VerifyRelease(skill, tag.sequence, Skill(w.state, skill), a, false).Ok? {
          VerifiedIsNext(skill, h, tag.sequence, Skill(w.state, skill), a);
        }
      }
      if name == skill
          && Process(skill, w, tag, a, isRollback) != w.(failed := Process(skill, w, tag, a, isRollback).failed) {
        MarkedIsPrefix(skill, h, Skill(w.state, skill), a.read.manifest, isRollback);
      }
    }
  }

  ghost predicate Consecutive(from: nat, s: seq<nat>) {
    forall i :: 0 <= i < |s| ==> s[i] == from + 1 + i
  }

  ghost predicate AllHonest(name: string, h: seq<Manifest>, answers: nat -> Answer) {
    forall i: nat :: Honest(name, h, answers(i))
  }

  lemma {:induction false} WalkKeepsPrefix(name: string, h: seq<Manifest>, skill: string, options: Options,
                                           rollback: Option<nat>, start: Walk, tags: seq<ReleaseTag>,
                                           answers: nat -> Answer)
    requires Chained(name, h) && NeverSkips(h) && AllHonest(name, h, answers)
    requires IsPrefix(h, Skill(start.state, name)) && IsPrefix(h, Skill(start.durable, name)) && start.recorded == []
    ensures var v := WalkAll(skill, options, rollback, start, tags, answers);
            && IsPrefix(h, Skill(v.state, name)) && IsPrefix(h, Skill(v.durable, name))
            && (name == skill ==> Consecutive(Skill(start.state, name).highest, v.recorded)
                                  && Skill(v.state, name).highest == Skill(start.state, name).highest + |v.recorded|)
    decreases |tags|
  {
    hide WalkOne, Chained, NeverSkips, IsPrefix, Honest;
    if |tags| > 0 {
      var n := |tags| - 1;
      WalkKeepsPrefix(name, h, skill, options, rollback, start, tags[..n], answers);
      var w := WalkAll(skill, options, rollback, start, tags[..n], answers);
      StepKeepsPrefix(name, h, skill, options, rollback, w, tags[n], answers(n));
    }
  }

  // ----- What is staged, and where the walk stops -----

  /** A release may be staged when its digest is not revoked so far and its sequence respects the pin. */
  predicate Eligible(options: Options, st: SkillState, r: Staged) {
    r.digest !in st.revoked && (options.pin.Some? ==> r.sequence <= options.pin.value)
  }

  lemma StepStagesEligible(skill: string, options: Options, rollback: Option<nat>, w: Walk, tag: ReleaseTag, a: Answer)
    ensures var v := WalkOne(skill, options, rollback, w, tag, a);
            || v.staged == w.staged
            || (&& |v.staged| == |w.staged| + 1 && v.staged[..|w.staged|] == w.staged
                && Eligible(options, Skill(w.state, skill), v.staged[|w.staged|]))
  {
    hide Process;
    if !w.stopped {
      WalkCases(skill, options, rollback, w, tag, a);
      ProcessCases(skill, w, tag, a, IsRollback(rollback, tag.sequence, Skill(w.state, skill).highest));
    }
  }

  /** Nothing above the pin is staged, and nothing whose digest was revoked when the walk began. */
  lemma {:induction false} WalkStagesEligible(skill: string, options: Options, rollback: Option<nat>, start: Walk,
                                              tags: seq<ReleaseTag>, answers: nat -> Answer)
    requires start.staged == [] && Ahead(skill, start.state, start.durable)
    ensures forall r :: r in WalkAll(skill, options, rollback, start, tags, answers).staged ==>
            Eligible(options, Skill(start.state, skill), r)
    decreases |tags|
  {
    hide WalkOne;
    if |tags| > 0 {
      var n := |tags| - 1;
      var w := WalkAll(skill, options, rollback, start, tags[..n], answers);
      var v := WalkAll(skill, options, rollback, start, tags, answers);
      WalkStagesEligible(skill, options, rollback, start, tags[..n], answers);
      WalkGrows(skill, skill, options, rollback, start, tags[..n], answers);
      StepStagesEligible(skill, options, rollback, w, tags[n], answers(n));
      assert v.staged == w.staged || v.staged == w.staged + [v.staged[|w.staged|]];
    }
  }

  /** The walk visits every tag, or stops at one above the pin; the tags ascend, so it skips none within it. */
  lemma {:induction false} BreakSkipsNothing(skill: string, options: Options, rollback: Option<nat>, start: Walk,
                                             tags: seq<ReleaseTag>, answers: nat -> Answer)
    requires Ascending(tags) && !start.stopped && start.visited == 0
    ensures var v := WalkAll(skill, options, rollback, start, tags, answers);
            && v.visited <= |tags| && (v.stopped <==> v.visited < |tags|)
            && forall k :: v.visited <= k < |tags| ==> options.pin.Some? && tags[k].sequence > options.pin.value
    decreases |tags|
  {
    hide Process;
    if |tags| > 0 {
      var n := |tags| - 1;
      assert Ascending(tags[..n]);
      BreakSkipsNothing(skill, options, rollback, start, tags[..n], answers);
      var w := WalkAll(skill, options, rollback, start, tags[..n], answers);
      ProcessCases(skill, w, tags[n], answers(n),
                   IsRollback(rollback, tags[n].sequence, Skill(w.state, skill).highest));
      if w.stopped {
        assert tags[..n][w.visited] == tags[w.visited];
        assert tags[w.visited].sequence <= tags[n].sequence;
      }
      forall k | WalkAll(skill, options, rollback, start, tags, answers).visited <= k < |tags|
        ensures options.pin.Some? && tags[k].sequence > options.pin.value
      {
        if k < n { assert tags[..n][k] == tags[k]; }
      }
    }
  }

  // ----- Whole passes and runs of passes -----

  /** A pass loads the state file, which is then the state in memory. */
  function Loaded(durable: SyncState): Pass {
    Pass(durable, durable, [], [], [], [])
  }

  /** One call of `sync_all`.  A pass that a crash cuts short is a pass over fewer tags and skills. */
  datatype Tick = Tick(targets: seq<Target>, rollback: Option<nat>)

  /** The state file after a run of passes from an empty file. */
  function Durable(ticks: seq<Tick>): SyncState
    decreases |ticks|
  {
    if |ticks| == 0 then map[]
    else
      var last := ticks[|ticks| - 1];
      PassAll(last.rollback, Loaded(Durable(ticks[..|ticks| - 1])), last.targets).durable
  }

  ghost predicate HonestTargets(name: string, h: seq<Manifest>, targets: seq<Target>) {
    forall t :: t in targets ==> AllHonest(name, h, t.answers)
  }

  lemma {:induction false} PassKeepsPrefix(name: string, h: seq<Manifest>, rollback: Option<nat>, start: Pass,
                                           targets: seq<Target>)
    requires HonestTargets(name, h, targets) && Chained(name, h) && NeverSkips(h)
    requires IsPrefix(h, Skill(start.memory, name)) && IsPrefix(h, Skill(start.durable, name))
    ensures var p := PassAll(rollback, start, targets);
            IsPrefix(h, Skill(p.memory, name)) && IsPrefix(h, Skill(p.durable, name))
    decreases |targets|
  {
    hide Chained, NeverSkips, IsPrefix, AllHonest, WalkAll;
    if |targets| > 0 {
      var n := |targets| - 1;
      PassKeepsPrefix(name, h, rollback, start, targets[..n]);
      var p, t := PassAll(rollback, start, targets[..n]), targets[n];
      if t.options.optIn && t.listed.Some? {
        WalkKeepsPrefix(name, h, t.skill, t.options, rollback, StartWalk(p.memory, p.durable), t.listed.value,
                        t.answers);
      }
    }
  }

  lemma {:induction false} PassGrows(name: string, rollback: Option<nat>, start: Pass, targets: seq<Target>)
    requires Ahead(name, start.memory, start.durable)
    ensures var p := PassAll(rollback, start, targets);
            && Ahead(name, p.memory, p.durable)
            && Later(Skill(start.memory, name), Skill(p.memory, name))
            && Later(Skill(start.durable, name), Skill(p.durable, name))
    decreases |targets|
  {
    hide WalkAll, Skill;
    if |targets| > 0 {
      var n := |targets| - 1;
      PassGrows(name, rollback, start, targets[..n]);
      var p, t := PassAll(rollback, start, targets[..n]), targets[n];
      if t.options.optIn && t.listed.Some? {
        WalkGrows(name, t.skill, t.options, rollback, StartWalk(p.memory, p.durable), t.listed.value, t.answers);
      }
    }
  }

  /** A pass leaves the state of a skill that is not opted in alone, in memory and on disk. */
  lemma {:induction false} OptedOutUntouched(name: string, rollback: Option<nat>, durable: SyncState,
                                             targets: seq<Target>)
    requires forall t :: t in targets && t.skill == name ==> !t.options.optIn
    ensures var p := PassAll(rollback, Loaded(durable), targets);
            Skill(p.memory, name) == Skill(durable, name) && Skill(p.durable, name) == Skill(durable, name)
    decreases |targets|
  {
    hide WalkAll, Skill;
    if |targets| > 0 {
      var n := |targets| - 1;
      OptedOutUntouched(name, rollback, durable, targets[..n]);
      var p, t := PassAll(rollback, Loaded(durable), targets[..n]), targets[n];
      if t.options.optIn && t.listed.Some? {
        WalkGrows(name, t.skill, t.options, rollback, StartWalk(p.memory, p.durable), t.listed.value, t.answers);
      }
    }
  }

  ghost predicate HonestTicks(name: string, h: seq<Manifest>, ticks: seq<Tick>) {
    forall t :: t in ticks ==> HonestTargets(name, h, t.targets)
  }

  lemma {:induction false} DurableIsPrefix(name: string, h: seq<Manifest>, ticks: seq<Tick>)
    requires HonestTicks(name, h, ticks) && Chained(name, h) && NeverSkips(h)
    ensures IsPrefix(h, Skill(Durable(ticks), name))
    decreases |ticks|
  {
    hide Chained, NeverSkips, PassAll, HonestTargets;
    if |ticks| > 0 {
      var n := |ticks| - 1;
      DurableIsPrefix(name, h, ticks[..n]);
      PassKeepsPrefix(name, h, ticks[n].rollback, Loaded(Durable(ticks[..n])), ticks[n].targets);
    }
  }

  /** The walk that target `j` of the pass after `ticks` makes. */
  function WalkOf(ticks: seq<Tick>, tick: Tick, j: nat): Walk
    requires j < |tick.targets| && tick.targets[j].listed.Some?
  {
    var p := PassAll(tick.rollback, Loaded(Durable(ticks)), tick.targets[..j]);
    var t := tick.targets[j];
    WalkAll(t.skill, t.options, tick.rollback, StartWalk(p.memory, p.durable), t.listed.value, t.answers)
  }

  /** Over every run of passes, failures, pins, failed saves and rollbacks included: each walk starts from
      a prefix of the history, records exactly the releases that follow it, and leaves a prefix in memory
      and on disk. */
  lemma RunRecordsHistory(name: string, h: seq<Manifest>, ticks: seq<Tick>, tick: Tick, j: nat)
    requires HonestTicks(name, h, ticks + [tick]) && Chained(name, h) && NeverSkips(h)
    requires j < |tick.targets| && tick.targets[j].listed.Some? && tick.targets[j].skill == name
    ensures var before := PassAll(tick.rollback, Loaded(Durable(ticks)), tick.targets[..j]);
            var w := WalkOf(ticks, tick, j);
            && IsPrefix(h, Skill(Durable(ticks), name)) && IsPrefix(h, Skill(before.memory, name))
            && Consecutive(Skill(before.memory, name).highest, w.recorded)
            && Skill(w.state, name).highest == Skill(before.memory, name).highest + |w.recorded|
            && IsPrefix(h, Skill(w.state, name)) && IsPrefix(h, Skill(w.durable, name))
  {
    hide Chained, NeverSkips, PassAll, WalkAll, IsPrefix, AllHonest, Durable;
    assert tick in ticks + [tick] && forall t :: t in ticks ==> t in ticks + [tick];
    DurableIsPrefix(name, h, ticks);
    PassKeepsPrefix(name, h, tick.rollback, Loaded(Durable(ticks)), tick.targets[..j]);
    var p, t := PassAll(tick.rollback, Loaded(Durable(ticks)), tick.targets[..j]), tick.targets[j];
    WalkKeepsPrefix(name, h, t.skill, t.options, tick.rollback, StartWalk(p.memory, p.durable), t.listed.value,
                    t.answers);
  }

  /** The state file never moves a skill backward and never forgets a revocation. */
  lemma {:induction false} DurableGrows(name: string, ticks: seq<Tick>, more: seq<Tick>)
    ensures Later(Skill(Durable(ticks), name), Skill(Durable(ticks + more), name))
    decreases |more|
  {
    hide PassAll, Skill, Durable;
    if |more| == 0 {
      assert ticks + more == ticks;
    } else {
      var n := |more| - 1;
      DurableGrows(name, ticks, more[..n]);
      DurableSnoc(ticks, more);
      PassGrows(name, more[n].rollback, Loaded(Durable(ticks + more[..n])), more[n].targets);
    }
  }

  lemma DurableSnoc(ticks: seq<Tick>, more: seq<Tick>)
    requires |more| > 0
    ensures var n := |more| - 1;
            Durable(ticks + more) == PassAll(more[n].rollback, Loaded(Durable(ticks + more[..n])),
                                             more[n].targets).durable
  {
    hide PassAll;
    assert (ticks + more)[..|ticks + more| - 1] == ticks + more[..|more| - 1];
  }

  /** A digest revoked in the state file is never staged by any later pass, rollback or not. */
  lemma RevokedIsNeverStaged(digest: Digest, ticks: seq<Tick>, more: seq<Tick>, tick: Tick, j: nat)
    requires j < |tick.targets| && tick.targets[j].listed.Some?
    requires digest in Skill(Durable(ticks), tick.targets[j].skill).revoked
    ensures forall r :: r in WalkOf(ticks + more, tick, j).staged ==> r.digest != digest
  {
    hide PassAll, WalkAll, Skill, Durable;
    var t := tick.targets[j];
    DurableGrows(t.skill, ticks, more);
    var start := Loaded(Durable(ticks + more));
    PassGrows(t.skill, tick.rollback, start, tick.targets[..j]);
    var p := PassAll(tick.rollback, start, tick.targets[..j]);
    WalkStagesEligible(t.skill, t.options, tick.rollback, StartWalk(p.memory, p.durable), t.listed.value, t.answers);
  }

  // ----- What a failed save costs -----

  /** What a pass does to a release, in order: staged going forward, staged again as a rollback, and a
      successful save of the state file. */
  datatype SyncEvent = Forward(skill: string, sequence: nat) | Again(skill: string, sequence: nat) | Saved

  function StepEvents(skill: string, options: Options, rollback: Option<nat>, w: Walk, tag: ReleaseTag,
                      a: Answer): seq<SyncEvent> {
    var v := WalkOne(skill, options, rollback, w, tag, a);
    if |v.staged| == |w.staged| then []
    else [if |v.recorded| > |w.recorded| then Forward(skill, tag.sequence) else Again(skill, tag.sequence)]
         + (if a.saves then [Saved] else [])
  }

  function WalkEvents(skill: string, options: Options, rollback: Option<nat>, start: Walk, tags: seq<ReleaseTag>,
                      answers: nat -> Answer): seq<SyncEvent>
    decreases |tags|
  {
    if |tags| == 0 then []
    else
      var n := |tags| - 1;
      WalkEvents(skill, options, rollback, start, tags[..n], answers)
      + StepEvents(skill, options, rollback, WalkAll(skill, options, rollback, start, tags[..n], answers), tags[n],
                   answers(n))
  }

  function PassEvents(rollback: Option<nat>, start: Pass, targets: seq<Target>): seq<SyncEvent>
    decreases |targets|
  {
    if |targets| == 0 then []
    else
      var n := |targets| - 1;
      var p, t := PassAll(rollback, start, targets[..n]), targets[n];
      PassEvents(rollback, start, targets[..n])
      + (if t.options.optIn && t.listed.Some?
         then WalkEvents(t.skill, t.options, rollback, StartWalk(p.memory, p.durable), t.listed.value, t.answers)
         else [])
  }

  /** The events of pass `i` of a run. */
  function EventsOf(ticks: seq<Tick>, i: nat): seq<SyncEvent>
    requires i < |ticks|
  {
    PassEvents(ticks[i].rollback, Loaded(Durable(ticks[..i])), ticks[i].targets)
  }

  /** A forward staging of release `s` of the skill, or of a later one. */
  predicate Covers(e: SyncEvent, name: string, s: nat) {
    e.Forward? && e.skill == name && e.sequence >= s
  }

  predicate StagedFrom(events: seq<SyncEvent>, name: string, s: nat) {
    exists i :: 0 <= i < |events| && Covers(events[i], name, s)
  }

  /** Such a staging, and a successful save at or after it. */
  predicate Kept(events: seq<SyncEvent>, name: string, s: nat) {
    exists k :: 0 <= k < |events| && events[k].Saved? && StagedFrom(events[..k], name, s)
  }

  /** Whether the skill has come to release `s`, in memory and on disk. */
  datatype Reach = Reach(memory: bool, disk: bool)

  function ReachOf(name: string, s: nat, memory: SyncState, durable: SyncState): Reach {
    Reach(Skill(memory, name).highest >= s, Skill(durable, name).highest >= s)
  }

  function Fold(events: seq<SyncEvent>, name: string, s: nat, start: Reach): Reach {
    if |events| == 0 then start
    else
      var r, e := Fold(events[..|events| - 1], name, s, start), events[|events| - 1];
      if e.Saved? then Reach(r.memory, r.memory) else r.(memory := r.memory || Covers(e, name, s))
  }

  lemma {:induction false} FoldConcat(a: seq<SyncEvent>, b: seq<SyncEvent>, name: string, s: nat, start: Reach)
    ensures Fold(a + b, name, s, start) == Fold(b, name, s, Fold(a, name, s, start))
    decreases |b|
  {
    if |b| == 0 {
      assert a + b == a;
    } else {
      FoldConcat(a, b[..|b| - 1], name, s, start);
      assert (a + b)[..|a + b| - 1] == a + b[..|b| - 1];
    }
  }

  lemma {:induction false} FoldExactly(events: seq<SyncEvent>, name: string, s: nat)
    ensures Fold(events, name, s, Reach(false, false)) == Reach(StagedFrom(events, name, s), Kept(events, name, s))
  {
    if |events| > 0 {
      var n := |events| - 1;
      var front := events[..n];
      FoldExactly(front, name, s);
      assert forall k :: 0 <= k < n ==> front[..k] == events[..k];
      if StagedFrom(front, name, s) {
        var i :| 0 <= i < n && Covers(front[i], name, s);
        assert Covers(events[i], name, s);
      }
      if Kept(front, name, s) {
        var k :| 0 <= k < n && front[k].Saved? && StagedFrom(front[..k], name, s);
        assert events[k].Saved? && StagedFrom(events[..k], name, s);
      }
      if k :| 0 <= k < n && events[k].Saved? && StagedFrom(events[..k], name, s) {
        assert front[k].Saved? && StagedFrom(front[..k], name, s);
        var i :| 0 <= i < k && Covers(events[..k][i], name, s);
        assert Covers(front[i], name, s);
      }
    }
  }

  lemma StepReach(name: string, s: nat, skill: string, options: Options, rollback: Option<nat>, w: Walk,
                  tag: ReleaseTag, a: Answer)
    ensures var v := WalkOne(skill, options, rollback, w, tag, a);
            Fold(StepEvents(skill, options, rollback, w, tag, a), name, s, ReachOf(name, s, w.state, w.durable))
            == ReachOf(name, s, v.state, v.durable)
  {
    hide Process;
    var events := StepEvents(skill, options, rollback, w, tag, a);
    if !w.stopped {
      WalkCases(skill, options, rollback, w, tag, a);
      ProcessCases(skill, w, tag, a, IsRollback(rollback, tag.sequence, Skill(w.state, skill).highest));
    }
    FoldSmall(events, name, s, ReachOf(name, s, w.state, w.durable));
  }

  lemma FoldSmall(events: seq<SyncEvent>, name: string, s: nat, r: Reach)
    ensures |events| == 0 ==> Fold(events, name, s, r) == r
    ensures |events| == 1 && !events[0].Saved? ==>
              Fold(events, name, s, r) == r.(memory := r.memory || Covers(events[0], name, s))
    ensures |events| == 2 && !events[0].Saved? && events[1].Saved? ==>
              var memory := r.memory || Covers(events[0], name, s); Fold(events, name, s, r) == Reach(memory, memory)
  {
    if |events| == 2 {
      FoldSmall(events[..1], name, s, r);
    } else if |events| == 1 {
      FoldSmall(events[..0], name, s, r);
    }
  }

  lemma {:induction false} WalkReach(name: string, s: nat, skill: string, options: Options, rollback: Option<nat>,
                                     start: Walk,
                                     tags: seq<ReleaseTag>, answers: nat -> Answer)
    ensures var v := WalkAll(skill, options, rollback, start, tags, answers);
            Fold(WalkEvents(skill, options, rollback, start, tags, answers), name, s,
                 ReachOf(name, s, start.state, start.durable))
            == ReachOf(name, s, v.state, v.durable)
    decreases |tags|
  {
    hide WalkOne, StepEvents, ReachOf;
    if |tags| > 0 {
      var n := |tags| - 1;
      var w := WalkAll(skill, options, rollback, start, tags[..n], answers);
      WalkReach(name, s, skill, options, rollback, start, tags[..n], answers);
      StepReach(name, s, skill, options, rollback, w, tags[n], answers(n));
      FoldConcat(WalkEvents(skill, options, rollback, start, tags[..n], answers),
                 StepEvents(skill, options, rollback, w, tags[n], answers(n)),
                 name, s, ReachOf(name, s, start.state, start.durable));
    }
  }

  lemma {:induction false} PassReach(name: string, s: nat, rollback: Option<nat>, start: Pass, targets: seq<Target>)
    ensures var p := PassAll(rollback, start, targets);
            Fold(PassEvents(rollback, start, targets), name, s, ReachOf(name, s, start.memory, start.durable))
            == ReachOf(name, s, p.memory, p.durable)
    decreases |targets|
  {
    hide WalkAll, WalkEvents, ReachOf;
    if |targets| > 0 {
      var n := |targets| - 1;
      PassReach(name, s, rollback, start, targets[..n]);
      var p, t := PassAll(rollback, start, targets[..n]), targets[n];
      var front := PassEvents(rollback, start, targets[..n]);
      if t.options.optIn && t.listed.Some? {
        var w := StartWalk(p.memory, p.durable);
        WalkReach(name, s, t.skill, t.options, rollback, w, t.listed.value, t.answers);
        FoldConcat(front, WalkEvents(t.skill, t.options, rollback, w, t.listed.value, t.answers),
                   name, s, ReachOf(name, s, start.memory, start.durable));
      } else {
        assert front + [] == front;
      }
    }
  }

  /** Over every run: the state file has come to release `s` of a skill if and only if, in some pass, a
      successful save came at or after a forward staging of that release or of a later one. */
  lemma {:induction false} DurableExactly(name: string, s: nat, ticks: seq<Tick>)
    requires s > 0
    ensures Skill(Durable(ticks), name).highest >= s <==>
              exists i :: 0 <= i < |ticks| && Kept(EventsOf(ticks, i), name, s)
    decreases |ticks|
  {
    hide PassAll, Durable, EventsOf, Kept;
    if |ticks| == 0 {
      NothingDurable(name);
    } else {
      var n := |ticks| - 1;
      DurableExactly(name, s, ticks[..n]);
      forall i | 0 <= i < n ensures EventsOf(ticks, i) == EventsOf(ticks[..n], i) {
        EarlierEvents(ticks, n, i);
      }
      LastPass(name, s, ticks);
      if i :| 0 <= i < n && Kept(EventsOf(ticks[..n], i), name, s) {
        assert Kept(EventsOf(ticks, i), name, s);
      }
    }
  }

  lemma NothingDurable(name: string)
    ensures Skill(Durable([]), name).highest == 0
  {
  }

  lemma EarlierEvents(ticks: seq<Tick>, n: nat, i: nat)
    requires i < n <= |ticks|
    ensures EventsOf(ticks[..n], i) == EventsOf(ticks, i)
  {
    hide PassEvents, Durable;
    assert ticks[..n][..i] == ticks[..i];
  }

  /** What the last pass of a run adds. */
  lemma LastPass(name: string, s: nat, ticks: seq<Tick>)
    requires |ticks| > 0
    ensures Skill(Durable(ticks), name).highest >= s <==>
              Skill(Durable(ticks[..|ticks| - 1]), name).highest >= s || Kept(EventsOf(ticks, |ticks| - 1), name, s)
  {
    var n := |ticks| - 1;
    var start := Loaded(Durable(ticks[..n]));
    assert Durable(ticks) == PassAll(ticks[n].rollback, start, ticks[n].targets).durable;
    hide PassAll, PassEvents, Kept, Fold, Durable;
    PassReach(name, s, ticks[n].rollback, start, ticks[n].targets);
    PassGrows(name, ticks[n].rollback, start, ticks[n].targets);
    FoldExactly(EventsOf(ticks, n), name, s);
    KeptOnwards(EventsOf(ticks, n), name, s);
  }

  /** A skill that has come to the release before the pass stays there. */
  lemma {:induction false} KeptOnwards(events: seq<SyncEvent>, name: string, s: nat)
    ensures Fold(events, name, s, Reach(true, true)) == Reach(true, true)
  {
    if |events| > 0 { KeptOnwards(events[..|events| - 1], name, s); }
  }

  /** A release that shows everything it must: it follows the last recorded one, or is itself recorded. */
  predicate MetWell(skill: string, options: Options, w: Walk, tag: ReleaseTag, a: Answer) {
    var st := Skill(w.state, skill);
    && !w.stopped && (options.pin.Some? ==> tag.sequence <= options.pin.value)
    && a.signed && a.principal && a.bound && a.stages && a.read.Shown?
    && var m := a.read.manifest;
    && m.skill == skill && m.sequence == tag.sequence && a.tree == Some(m.sha)
    && m.sha !in st.revoked && m.sha !in m.revoked
    && (st.highest < tag.sequence ==> m.previous == st.last)
  }

  /** The walk of target `j` of the pass after `ticks`, before its visit `n`. */
  function WalkAt(ticks: seq<Tick>, tick: Tick, j: nat, n: nat): Walk
    requires j < |tick.targets| && tick.targets[j].listed.Some? && n <= |tick.targets[j].listed.value|
  {
    var p := PassAll(tick.rollback, Loaded(Durable(ticks)), tick.targets[..j]);
    var t := tick.targets[j];
    WalkAll(t.skill, t.options, tick.rollback, StartWalk(p.memory, p.durable), t.listed.value[..n], t.answers)
  }

  function EventsAt(ticks: seq<Tick>, tick: Tick, j: nat, n: nat): seq<SyncEvent>
    requires j < |tick.targets| && tick.targets[j].listed.Some? && n < |tick.targets[j].listed.value|
  {
    var t := tick.targets[j];
    StepEvents(t.skill, t.options, tick.rollback, WalkAt(ticks, tick, j, n), t.listed.value[n], t.answers(n))
  }

  /** A walk over ascending tags never gets past the tag it is about to visit, unless it started there. */
  lemma {:induction false} WalkBelow(skill: string, options: Options, rollback: Option<nat>, start: Walk,
                                     tags: seq<ReleaseTag>,
                                     answers: nat -> Answer, s: nat)
    requires forall i :: 0 <= i < |tags| ==> tags[i].sequence < s
    ensures Skill(WalkAll(skill, options, rollback, start, tags, answers).state, skill).highest >= s
            <==> Skill(start.state, skill).highest >= s
    decreases |tags|
  {
    hide WalkOne;
    if |tags| > 0 {
      var n := |tags| - 1;
      WalkBelow(skill, options, rollback, start, tags[..n], answers, s);
      StepBelow(skill, options, rollback, WalkAll(skill, options, rollback, start, tags[..n], answers), tags[n],
                answers(n), s);
    }
  }

  lemma StepBelow(skill: string, options: Options, rollback: Option<nat>, w: Walk, tag: ReleaseTag, a: Answer, s: nat)
    requires tag.sequence < s
    ensures Skill(WalkOne(skill, options, rollback, w, tag, a).state, skill).highest >= s <==>
            Skill(w.state, skill).highest >= s
  {
    hide Process;
    if !w.stopped {
      WalkCases(skill, options, rollback, w, tag, a);
      ProcessCases(skill, w, tag, a, IsRollback(rollback, tag.sequence, Skill(w.state, skill).highest));
    }
  }

  /** Skills walked before leave the memory of this one alone. */
  lemma {:induction false} OthersFirst(name: string, rollback: Option<nat>, durable: SyncState, targets: seq<Target>)
    requires forall t :: t in targets ==> t.skill != name
    ensures Skill(PassAll(rollback, Loaded(durable), targets).memory, name) == Skill(durable, name)
    decreases |targets|
  {
    hide WalkAll, Skill;
    if |targets| > 0 {
      var n := |targets| - 1;
      OthersFirst(name, rollback, durable, targets[..n]);
      var p, t := PassAll(rollback, Loaded(durable), targets[..n]), targets[n];
      PassGrowsFrom(name, rollback, durable, targets[..n]);
      if t.options.optIn && t.listed.Some? {
        WalkGrows(name, t.skill, t.options, rollback, StartWalk(p.memory, p.durable), t.listed.value, t.answers);
      }
    }
  }

  lemma PassGrowsFrom(name: string, rollback: Option<nat>, durable: SyncState, targets: seq<Target>)
    ensures var p := PassAll(rollback, Loaded(durable), targets); Ahead(name, p.memory, p.durable)
  {
    hide PassAll;
    PassGrows(name, rollback, Loaded(durable), targets);
  }

  /** Visit `n` of target `j` meets the tag of release `s`, in a list that ascends; no skill is listed twice. */
  predicate MeetsTag(tick: Tick, j: nat, n: nat, s: nat) {
    && j < |tick.targets| && tick.targets[j].options.optIn && tick.targets[j].listed.Some?
    && n < |tick.targets[j].listed.value| && tick.targets[j].listed.value[n].sequence == s
    && (forall i :: 0 <= i < n ==> tick.targets[j].listed.value[i].sequence < s)
    && (forall i :: 0 <= i < j ==> tick.targets[i].skill != tick.targets[j].skill)
  }

  /** The walk stands at or above release `s` exactly if the pass loaded it so. */
  lemma ReachedExactly(ticks: seq<Tick>, tick: Tick, j: nat, n: nat, s: nat)
    requires MeetsTag(tick, j, n, s)
    ensures var name := tick.targets[j].skill;
            Skill(WalkAt(ticks, tick, j, n).state, name).highest >= s <==> Skill(Durable(ticks), name).highest >= s
  {
    hide PassAll, WalkAll, Durable, Skill;
    var t := tick.targets[j];
    OthersFirst(t.skill, tick.rollback, Durable(ticks), tick.targets[..j]);
    var p := PassAll(tick.rollback, Loaded(Durable(ticks)), tick.targets[..j]);
    WalkBelow(t.skill, t.options, tick.rollback, StartWalk(p.memory, p.durable), t.listed.value[..n], t.answers, s);
  }

  lemma VisitExactly(skill: string, options: Options, rollback: Option<nat>, w: Walk, tag: ReleaseTag, a: Answer)
    requires MetWell(skill, options, w, tag, a)
    ensures var current, events := Skill(w.state, skill).highest, StepEvents(skill, options, rollback, w, tag, a);
            && (Forward(skill, tag.sequence) in events <==> current < tag.sequence)
            && (Again(skill, tag.sequence) in events <==> rollback == Some(tag.sequence) && tag.sequence <= current)
  {
    hide Process;
    var current := Skill(w.state, skill).highest;
    var isRollback := IsRollback(rollback, tag.sequence, current);
    WalkCases(skill, options, rollback, w, tag, a);
    if current < tag.sequence || isRollback {
      ProcessGood(skill, w, tag, a, isRollback);
    }
  }

  lemma ProcessGood(skill: string, w: Walk, tag: ReleaseTag, a: Answer, isRollback: bool)
    requires a.stages && a.read.Shown? && Acceptable(skill, tag.sequence, Skill(w.state, skill), a, isRollback,
                                                     a.read.manifest)
    ensures var v := Process(skill, w, tag, a, isRollback);
            && |v.staged| == |w.staged| + 1
            && |v.recorded| == |w.recorded| + (if isRollback then 0 else 1)
  {
    hide VerifyRelease;
    VerifiedExactly(skill, tag.sequence, Skill(w.state, skill), a, isRollback);
    if !isRollback {
      RecordingSucceeds(skill, w.state, tag.sequence, a);
    }
  }

  /** When a release is staged again.  Met with good answers in the pass after `ticks`, release `s` is
      staged going forward if and only if no save succeeded at or after an earlier forward staging of it
      or of a later release, in the pass of that staging.  So a staged release is staged again exactly
      when its pass failed to save, or crashed, from that staging on. */
  lemma StagedAgainExactly(ticks: seq<Tick>, tick: Tick, j: nat, n: nat, s: nat)
    requires s > 0 && MeetsTag(tick, j, n, s)
    requires var t := tick.targets[j]; MetWell(t.skill, t.options, WalkAt(ticks, tick, j, n), t.listed.value[n],
                                               t.answers(n))
    ensures var name := tick.targets[j].skill;
            Forward(name, s) in EventsAt(ticks, tick, j, n) <==>
              !exists i :: 0 <= i < |ticks| && Kept(EventsOf(ticks, i), name, s)
  {
    hide PassAll, WalkAll, Durable, Skill, StepEvents, Kept, EventsOf, MetWell;
    var t := tick.targets[j];
    ReachedExactly(ticks, tick, j, n, s);
    VisitExactly(t.skill, t.options, tick.rollback, WalkAt(ticks, tick, j, n), t.listed.value[n], t.answers(n));
    DurableExactly(t.skill, s, ticks);
  }

  /** Rollbacks stand apart: a requested release that answers well is staged again by every pass that loads
      it as recorded, whatever was saved, and a rollback never moves the recorded sequence. */
  lemma RollbackAgainExactly(ticks: seq<Tick>, tick: Tick, j: nat, n: nat, s: nat)
    requires s > 0 && MeetsTag(tick, j, n, s)
    requires var t := tick.targets[j]; MetWell(t.skill, t.options, WalkAt(ticks, tick, j, n), t.listed.value[n],
                                               t.answers(n))
    ensures var t := tick.targets[j];
            && (Again(t.skill, s) in EventsAt(ticks, tick, j, n) <==>
                  tick.rollback == Some(s) && exists i :: 0 <= i < |ticks| && Kept(EventsOf(ticks, i), t.skill, s))
            && (Again(t.skill, s) in EventsAt(ticks, tick, j, n) ==>
                  Skill(WalkAt(ticks, tick, j, n + 1).state, t.skill).highest
                      == Skill(WalkAt(ticks, tick, j, n).state, t.skill).highest)
  {
    hide PassAll, WalkAll, Durable, Skill, StepEvents, Kept, EventsOf, MetWell;
    var t := tick.targets[j];
    var w := WalkAt(ticks, tick, j, n);
    ReachedExactly(ticks, tick, j, n, s);
    VisitExactly(t.skill, t.options, tick.rollback, w, t.listed.value[n], t.answers(n));
    DurableExactly(t.skill, s, ticks);
    var p := PassAll(tick.rollback, Loaded(Durable(ticks)), tick.targets[..j]);
    WalkSnoc(t.skill, t.options, tick.rollback, StartWalk(p.memory, p.durable), t.listed.value, t.answers, n);
    if tick.rollback == Some(s) && Skill(w.state, t.skill).highest >= s {
      RollbackKeeps(t.skill, t.options, tick.rollback, w, t.listed.value[n], t.answers(n));
    }
  }

  lemma RollbackKeeps(skill: string, options: Options, rollback: Option<nat>, w: Walk, tag: ReleaseTag, a: Answer)
    requires tag.sequence <= Skill(w.state, skill).highest
    ensures Skill(WalkOne(skill, options, rollback, w, tag, a).state, skill).highest == Skill(w.state, skill).highest
  {
    hide Process;
    if !w.stopped {
      WalkCases(skill, options, rollback, w, tag, a);
      ProcessCases(skill, w, tag, a, IsRollback(rollback, tag.sequence, Skill(w.state, skill).highest));
    }
  }

  // ----- Why the digests must differ -----

  function Good(m: Manifest): Answer {
    Answer(true, true, Shown(m), true, Some(m.sha), true, true)
  }

  function Walking(skill: string, tags: seq<ReleaseTag>, answers: nat -> Answer): Walk {
    WalkAll(skill, Options(true, None), None, StartWalk(map[], map[]), tags, answers)
  }

  /** A subscriber that starts afresh records the releases in order, whatever it is shown and whatever fails. */
  ghost predicate AlwaysInOrder(skill: string, h: seq<Manifest>) {
    forall tags: seq<ReleaseTag>, answers: nat -> Answer | AllHonest(skill, h, answers) ::
      Consecutive(0, Walking(skill, tags, answers).recorded)
  }

  /** Every release answers well except those after `a` up to `b`, whose signatures are refused. */
  function Answers(h: seq<Manifest>, a: nat, b: nat): nat -> Answer {
    (i: nat) => if i >= |h| then Answer(false, false, Unshown, false, None, false, false)
                else Good(h[i]).(signed := !(a < i <= b))
  }

  function TagNames(skill: string, n: nat): seq<ReleaseTag> {
    seq(n, i requires 0 <= i < n => ReleaseTag(i + 1, Render(skill, i + 1)))
  }

  lemma GoodStep(skill: string, w: Walk, m: Manifest, tag: ReleaseTag)
    requires !w.stopped && m.skill == skill && m.sequence == tag.sequence
    requires Skill(w.state, skill).highest < m.sequence && Skill(w.state, skill).last == m.previous
    requires m.sha !in Skill(w.state, skill).revoked + m.revoked
    ensures var v := WalkOne(skill, Options(true, None), None, w, tag, Good(m));
            && !v.stopped && v.recorded == w.recorded + [m.sequence]
            && Skill(v.state, skill) == Marked(Skill(w.state, skill), m, false)
  {
    hide VerifyRelease;
    VerifiedExactly(skill, tag.sequence, Skill(w.state, skill), Good(m), false);
  }

  lemma InHistory(skill: string, h: seq<Manifest>, i: nat)
    requires Chained(skill, h) && i < |h|
    ensures h[i].skill == skill && h[i].sequence == i + 1 && h[i].previous == DigestAt(h, i)
  {
  }

  lemma RefusedStep(skill: string, w: Walk, tag: ReleaseTag, a: Answer)
    requires !w.stopped && !a.signed
    ensures var v := WalkOne(skill, Options(true, None), None, w, tag, a);
            !v.stopped && v.recorded == w.recorded && v.state == w.state
  {
  }

  /** Where the walk of `Answers(h, a, b)` stands before the release after `b`. */
  lemma {:induction false} WalkToGap(skill: string, h: seq<Manifest>, a: nat, b: nat, n: nat)
    requires Chained(skill, h) && a < b < |h| - 1 && n <= b + 1 && Clean(h, a + 1)
    ensures var w := Walking(skill, TagNames(skill, n), Answers(h, a, b));
            var k := if n <= a then n else a + 1;
            && !w.stopped && |w.recorded| == k
            && Skill(w.state, skill) == SkillState(k, DigestAt(h, k), None, RevokedBy(h, k))
  {
    hide WalkAll, WalkOne, Chained;
    var tags, answers, start := TagNames(skill, n), Answers(h, a, b), StartWalk(map[], map[]);
    if n == 0 {
      assert tags == [];
      WalkNone(skill, Options(true, None), None, start, answers);
    } else {
      WalkToGap(skill, h, a, b, n - 1);
      var w := Walking(skill, TagNames(skill, n - 1), answers);
      assert Walking(skill, tags, answers) == WalkOne(skill, Options(true, None), None, w, tags[n - 1],
                                                      answers(n - 1)) by {
        assert tags[..n - 1] == TagNames(skill, n - 1) && tags[..n] == tags;
        WalkSnoc(skill, Options(true, None), None, start, tags, answers, n - 1);
      }
      if n - 1 <= a {
        assert h[n - 1] in h;
        InHistory(skill, h, n - 1);
        GoodStep(skill, w, h[n - 1], tags[n - 1]);
      } else {
        RefusedStep(skill, w, tags[n - 1], answers(n - 1));
      }
    }
  }

  lemma AnswersAreHonest(skill: string, h: seq<Manifest>, a: nat, b: nat)
    ensures AllHonest(skill, h, Answers(h, a, b))
  {
    forall i: nat
      ensures Honest(skill, h, Answers(h, a, b)(i))
    {
      if i < |h| { assert h[i] in h; }
    }
  }

  /** Where a history can skip, a run of refused signatures makes the subscriber accept a release whose
      predecessors it never saw, and whose revocations it never learns. */
  lemma CollisionSkips(skill: string, h: seq<Manifest>, a: nat, b: nat)
    requires Chained(skill, h) && CanSkip(h, a, b)
    ensures var w := Walking(skill, TagNames(skill, b + 2), Answers(h, a, b));
            && AllHonest(skill, h, Answers(h, a, b))
            && |w.recorded| == a + 2 && w.recorded[a + 1] == b + 2 && !Consecutive(0, w.recorded)
            && Skill(w.state, skill).revoked == RevokedBy(h, a + 1) + h[b + 1].revoked
  {
    hide WalkAll, WalkOne, Chained, AllHonest;
    AnswersAreHonest(skill, h, a, b);
    WalkToGap(skill, h, a, b, b + 1);
    var tags, m := TagNames(skill, b + 2), h[b + 1];
    var w := Walking(skill, TagNames(skill, b + 1), Answers(h, a, b));
    var v := Walking(skill, tags, Answers(h, a, b));
    assert v == WalkOne(skill, Options(true, None), None, w, tags[b + 1], Good(m)) by {
      assert tags[..b + 1] == TagNames(skill, b + 1) && tags[..b + 2] == tags;
      WalkSnoc(skill, Options(true, None), None, StartWalk(map[], map[]), tags, Answers(h, a, b), b + 1);
    }
    InHistory(skill, h, b + 1);
    GoodStep(skill, w, m, tags[b + 1]);
    assert v.recorded[a + 1] == b + 2;
  }

  /** Whatever the history revokes: its releases are always recorded in order if and only if none of them
      can be skipped. */
  lemma InOrderExactly(skill: string, h: seq<Manifest>)
    requires Chained(skill, h)
    ensures AlwaysInOrder(skill, h) <==> NeverSkips(h)
  {
    hide WalkAll, Chained, AllHonest, Answers, TagNames, CanSkip;
    if NeverSkips(h) {
      forall tags: seq<ReleaseTag>, answers: nat -> Answer | AllHonest(skill, h, answers)
        ensures Consecutive(0, Walking(skill, tags, answers).recorded)
      {
        WalkKeepsPrefix(skill, h, skill, Options(true, None), None, StartWalk(map[], map[]), tags, answers);
      }
    } else {
      var a: nat, b: nat :| CanSkip(h, a, b);
      CollisionSkips(skill, h, a, b);
    }
  }

  lemma {:induction false} NothingRevoked(h: seq<Manifest>, n: nat)
    requires n <= |h| && forall m :: m in h ==> m.revoked == {}
    ensures RevokedBy(h, n) == {}
  {
    if n > 0 {
      NothingRevoked(h, n - 1);
      assert h[n - 1] in h;
    }
  }

  /** Distinct digests always suffice; without revocations they are also necessary. */
  lemma InOrderIffDistinct(skill: string, h: seq<Manifest>)
    requires Chained(skill, h)
    ensures Distinct(h) ==> AlwaysInOrder(skill, h)
    ensures (forall m :: m in h ==> m.revoked == {}) ==> (AlwaysInOrder(skill, h) <==> Distinct(h))
  {
    hide AlwaysInOrder, Chained;
    InOrderExactly(skill, h);
    if (forall m :: m in h ==> m.revoked == {}) && !Distinct(h) {
      var a: nat, b: nat :| a < b < |h| - 1 && h[a].sha == h[b].sha;
      forall n: nat | n <= |h| ensures RevokedBy(h, n) == {} {
        NothingRevoked(h, n);
      }
      assert h[b + 1] in h;
      assert CanSkip(h, a, b);
    }
  }

  lemma FirstIsRevoked(h: seq<Manifest>, a: nat, b: nat)
    requires |h| > 0 && h[0].sha in h[0].revoked
    ensures !CanSkip(h, a, b)
  {
    RevokedGrows(h, 0, 1);
  }

  /** A history with two equal digests that is recorded in order all the same: the first release revokes
      the digest, so no subscriber ever comes to have it as its last one. */
  lemma RevocationPreventsSkipping(skill: string)
    ensures var h := [Manifest(skill, 1, 7, None, {7}), Manifest(skill, 2, 7, Some(7), {}),
                      Manifest(skill, 3, 8, Some(7), {})];
            Chained(skill, h) && !Distinct(h) && AlwaysInOrder(skill, h)
  {
    var h := [Manifest(skill, 1, 7, None, {7}), Manifest(skill, 2, 7, Some(7), {}), Manifest(skill, 3, 8, Some(7), {})];
    assert h[0].sha == h[1].sha;
    forall a: nat, b: nat ensures !CanSkip(h, a, b) {
      FirstIsRevoked(h, a, b);
    }
    hide AlwaysInOrder;
    InOrderExactly(skill, h);
  }

  // ----- A failed save, shown -----

  function Always(a: Answer): nat -> Answer {
    (i: nat) => a
  }

  /** The pass over one release of one skill that meets answer `a`. */
  function OneRelease(skill: string, tag: ReleaseTag, a: Answer): Tick {
    Tick([Target(skill, Options(true, None), Some([tag]), Always(a))], None)
  }

  /** A release whose save failed stays out of the state file, so the next pass stages it again. */
  lemma FailedSaveStagesTwice(skill: string, m: Manifest, tag: ReleaseTag)
    requires m.skill == skill && m.sequence == tag.sequence > 0 && m.previous == None && m.sha !in m.revoked
    ensures var lost := OneRelease(skill, tag, Good(m).(saves := false));
            && WalkOf([], lost, 0).staged == [Staged(skill, m.sequence, m.sha)]
            && WalkOf([lost], OneRelease(skill, tag, Good(m)), 0).staged == [Staged(skill, m.sequence, m.sha)]
  {
    hide WalkAll;
    var lost := OneRelease(skill, tag, Good(m).(saves := false));
    assert lost.targets[..0] == [] && [lost][..0] == [];
    assert PassAll(None, Loaded(map[]), []) == Loaded(map[]);
    StagesIt(skill, m, tag, false);
    StagesIt(skill, m, tag, true);
    assert Durable([lost]) == map[];
  }

  lemma StagesIt(skill: string, m: Manifest, tag: ReleaseTag, saves: bool)
    requires m.skill == skill && m.sequence == tag.sequence > 0 && m.previous == None && m.sha !in m.revoked
    ensures var w := Walking(skill, [tag], Always(Good(m).(saves := saves)));
            w.staged == [Staged(skill, m.sequence, m.sha)] && (!saves ==> w.durable == map[])
  {
    hide VerifyRelease;
    var a := Good(m).(saves := saves);
    VerifiedExactly(skill, tag.sequence, EMPTY_SKILL, a, false);
    assert [tag][..0] == [] && [tag][..1] == [tag];
    var start := StartWalk(map[], map[]);
    WalkNone(skill, Options(true, None), None, start, Always(a));
    WalkSnoc(skill, Options(true, None), None, start, [tag], Always(a), 0);
  }
}
