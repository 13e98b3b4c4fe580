/** What the report of a sync pass says: which releases failed and why, and which were staged. */
module ManagedSyncReports {
  import opened Common
  import opened ReleaseTags
  import opened ManagedSync
  import opened ManagedSyncRuns

  // ----- Why a release fails -----

  /** The conditions a release must meet, in the order in which they are reported: what `Acceptable` asks,
      then the staging, then the save. */
  function Met(k: nat, skill: string, tag: ReleaseTag, st: SkillState, a: Answer, isRollback: bool): bool {
    match k
    case 0 => a.signed
    case 1 => a.principal
    case 2 => a.read != Unshown
    case 3 => a.read != Unparsable
    case 4 => a.bound
    case 5 => a.read.Shown? && a.read.manifest.skill == skill && a.read.manifest.sequence == tag.sequence
    case 6 => isRollback || tag.sequence > st.highest
    case 7 => isRollback || (a.read.Shown? && a.read.manifest.previous == st.last)
    case 8 => a.read.Shown? && a.tree == Some(a.read.manifest.sha)
    case 9 => a.read.Shown? && a.read.manifest.sha !in st.revoked && a.read.manifest.sha !in a.read.manifest.revoked
    case 10 => a.stages
    case 11 => a.saves
    case _ => true
  }

  function ReasonFor(k: nat): Reason {
    match k
    case 0 => BadSignature
    case 1 => WrongPrincipal
    case 2 => ManifestBinding
    case 3 => ManifestSchema
    case 4 => ManifestBinding
    case 5 => TagMismatch
    case 6 => SequenceReplay
    case 7 => ChainBreak
    case 8 => DigestMismatch
    case 9 => Revoked
    case 10 => Quarantine
    case _ => State
  }

  /** Condition `k` is the first that the release does not meet. */
  predicate FirstUnmet(k: nat, skill: string, tag: ReleaseTag, st: SkillState, a: Answer, isRollback: bool) {
    k < 12 && !Met(k, skill, tag, st, a, isRollback) && forall j: nat :: j < k ==> Met(j, skill, tag, st, a, isRollback)
  }

  predicate MetUpTo(n: nat, skill: string, tag: ReleaseTag, st: SkillState, a: Answer, isRollback: bool) {
    forall j: nat :: j < n ==> Met(j, skill, tag, st, a, isRollback)
  }

  lemma MetIsAcceptable(skill: string, tag: ReleaseTag, st: SkillState, a: Answer, isRollback: bool)
    ensures MetUpTo(10, skill, tag, st, a, isRollback) <==>
              a.read.Shown? && Acceptable(skill, tag.sequence, st, a, isRollback, a.read.manifest)
  {
    var M := (j: nat) => Met(j, skill, tag, st, a, isRollback);
    if MetUpTo(10, skill, tag, st, a, isRollback) {
      assert M(0) && M(1) && M(2) && M(3) && M(4) && M(5) && M(6) && M(7) && M(8) && M(9);
    }
  }

  /** A release that is not accepted fails for its first unmet condition. */
  lemma RejectedForFirst(skill: string, tag: ReleaseTag, st: SkillState, a: Answer, isRollback: bool, k: nat)
    requires k < 10 && FirstUnmet(k, skill, tag, st, a, isRollback)
    ensures VerifyRelease(skill, tag.sequence, st, a, isRollback) == Err(ReasonFor(k))
  {
    var M := (j: nat) => Met(j, skill, tag, st, a, isRollback);
    assert k > 0 ==> M(0);
    assert k > 1 ==> M(1);
    assert k > 2 ==> M(2);
    assert k > 3 ==> M(3);
    assert k > 4 ==> M(4);
    assert k > 5 ==> M(5);
    assert k > 6 ==> M(6);
    assert k > 7 ==> M(7);
    assert k > 8 ==> M(8);
  }

  function ReleaseOf(skill: string, tag: ReleaseTag, a: Answer): Staged
    requires a.read.Shown?
  {
    Staged(skill, tag.sequence, a.read.manifest.sha)
  }

  /** What processing one release adds to the report: one failure with the reason of the first unmet
      condition, or none if all are met; and the release as staged when all up to the staging are met. */
  lemma ProcessReports(skill: string, w: Walk, tag: ReleaseTag, a: Answer, isRollback: bool)
    ensures var v, st := Process(skill, w, tag, a, isRollback), Skill(w.state, skill);
            && (MetUpTo(12, skill, tag, st, a, isRollback) ==> v.failed == w.failed)
            && (forall k :: FirstUnmet(k, skill, tag, st, a, isRollback) ==>
                  v.failed == w.failed + [Failed(skill, tag.name, ReasonFor(k))])
            && (if MetUpTo(11, skill, tag, st, a, isRollback) then
                  a.read.Shown?
                  && (if isRollback then v.latest == w.latest && v.rolledBack == Some(ReleaseOf(skill, tag, a))
                                    else v.latest == Some(ReleaseOf(skill, tag, a)) && v.rolledBack == w.rolledBack)
                else v.latest == w.latest && v.rolledBack == w.rolledBack)
  {
    hide VerifyRelease, Acceptable, Met;
    var st := Skill(w.state, skill);
    VerifiedExactly(skill, tag.sequence, st, a, isRollback);
    MetIsAcceptable(skill, tag, st, a, isRollback);
    LastConditions(skill, tag, st, a, isRollback);
    forall k | FirstUnmet(k, skill, tag, st, a, isRollback) && k < 10
      ensures VerifyRelease(skill, tag.sequence, st, a, isRollback) == Err(ReasonFor(k))
    {
      RejectedForFirst(skill, tag, st, a, isRollback, k);
    }
    if VerifyRelease(skill, tag.sequence, st, a, isRollback).Ok? {
      NamesTheTag(skill, tag, st, a, isRollback);
      if !isRollback { RecordingSucceeds(skill, w.state, tag.sequence, a); }
    }
  }

  lemma NamesTheTag(skill: string, tag: ReleaseTag, st: SkillState, a: Answer, isRollback: bool)
    requires a.read.Shown? && Acceptable(skill, tag.sequence, st, a, isRollback, a.read.manifest)
    ensures a.read.manifest.sequence == tag.sequence
  {
  }

  lemma LastConditions(skill: string, tag: ReleaseTag, st: SkillState, a: Answer, isRollback: bool)
    ensures MetUpTo(11, skill, tag, st, a, isRollback) <==> MetUpTo(10, skill, tag, st, a, isRollback) && a.stages
    ensures MetUpTo(12, skill, tag, st, a, isRollback) <==> MetUpTo(11, skill, tag, st, a, isRollback) && a.saves
    ensures forall k :: FirstUnmet(k, skill, tag, st, a, isRollback) ==>
              && (k < 10 <==> !MetUpTo(10, skill, tag, st, a, isRollback))
              && (k == 10 <==> MetUpTo(10, skill, tag, st, a, isRollback) && !a.stages)
              && (k == 11 <==> MetUpTo(11, skill, tag, st, a, isRollback) && !a.saves)
    ensures !MetUpTo(12, skill, tag, st, a, isRollback) ==> exists k :: FirstUnmet(k, skill, tag, st, a, isRollback)
  {
    assert Met(10, skill, tag, st, a, isRollback) == a.stages && Met(11, skill, tag, st, a, isRollback) == a.saves;
    hide Met;
    if !MetUpTo(12, skill, tag, st, a, isRollback) {
      var j: nat :| j < 12 && !Met(j, skill, tag, st, a, isRollback);
      FirstBelow(skill, tag, st, a, isRollback, j);
    }
  }

  lemma {:induction false} FirstBelow(skill: string, tag: ReleaseTag, st: SkillState, a: Answer, isRollback: bool,
                                      j: nat)
    requires j < 12 && !Met(j, skill, tag, st, a, isRollback)
    ensures exists k :: FirstUnmet(k, skill, tag, st, a, isRollback)
  {
    hide Met;
    if i: nat :| i < j && !Met(i, skill, tag, st, a, isRollback) {
      FirstBelow(skill, tag, st, a, isRollback, i);
    } else {
      assert FirstUnmet(j, skill, tag, st, a, isRollback);
    }
  }

  // ----- A whole walk -----

  /** Everything one walk depends on. */
  datatype Job = Job(skill: string, options: Options, rollback: Option<nat>, memory: SyncState, durable: SyncState,
                     tags: seq<ReleaseTag>, answers: nat -> Answer)

  /** The walk over the first `n` tags. */
  function After(j: Job, n: nat): Walk
    requires n <= |j.tags|
  {
    WalkAll(j.skill, j.options, j.rollback, StartWalk(j.memory, j.durable), j.tags[..n], j.answers)
  }

  /** The skill's state in memory when visit `n` begins. */
  function StateAt(j: Job, n: nat): SkillState
    requires n <= |j.tags|
  {
    Skill(After(j, n).state, j.skill)
  }

  predicate RollsBack(j: Job, n: nat)
    requires n < |j.tags|
  {
    j.rollback == Some(j.tags[n].sequence) && j.tags[n].sequence <= StateAt(j, n).highest
  }

  /** Visit `n` is worth processing: the release is newer than the recorded one or the requested rollback. */
  predicate Due(j: Job, n: nat)
    requires n < |j.tags|
  {
    j.tags[n].sequence > StateAt(j, n).highest || RollsBack(j, n)
  }

  /** Visit `n` meets a due release above the pin, where the walk ends. */
  predicate Ends(j: Job, n: nat) {
    n < |j.tags| && Due(j, n) && j.options.pin.Some? && j.tags[n].sequence > j.options.pin.value
  }

  predicate Handles(j: Job, n: nat)
    requires n < |j.tags|
  {
    Due(j, n) && forall i: nat :: i <= n ==> !Ends(j, i)
  }

  predicate MeetsAll(j: Job, n: nat, conditions: nat)
    requires n < |j.tags|
  {
    MetUpTo(conditions, j.skill, j.tags[n], StateAt(j, n), j.answers(n), RollsBack(j, n))
  }

  /** Visit `n` must be reported as failed. */
  predicate Fails(j: Job, n: nat) {
    n < |j.tags| && Handles(j, n) && !MeetsAll(j, n, 12)
  }

  /** Visit `n` stages its release. */
  predicate Stages(j: Job, n: nat) {
    n < |j.tags| && Handles(j, n) && MeetsAll(j, n, 11) && j.answers(n).read.Shown?
  }

  predicate StagesAs(j: Job, n: nat, asRollback: bool) {
    Stages(j, n) && RollsBack(j, n) == asRollback
  }

  /** The reported failure names the tag of the visit and its first unmet condition. */
  ghost predicate Names(j: Job, n: nat, f: Failed) {
    && n < |j.tags|
    && exists k :: FirstUnmet(k, j.skill, j.tags[n], StateAt(j, n), j.answers(n), RollsBack(j, n))
                   && f == Failed(j.skill, j.tags[n].name, ReasonFor(k))
  }

  /** What a staged release leaves in the skill's state: its revocations, and going forward its sequence
      and digest. */
  function Recorded(j: Job, n: nat): SkillState
    requires Stages(j, n)
  {
    var st, m := StateAt(j, n), j.answers(n).read.manifest;
    if RollsBack(j, n) then st.(revoked := st.revoked + m.revoked)
    else SkillState(j.tags[n].sequence, Some(m.sha), st.activated, st.revoked + m.revoked)
  }

  /** The walk has stopped once a visit met a due release above the pin. */
  lemma {:induction false} StoppedExactly(j: Job, n: nat)
    requires n <= |j.tags|
    ensures After(j, n).stopped <==> exists i: nat :: i < n && Ends(j, i)
  {
    hide Process, WalkAll;
    if n == 0 {
      WalkNone(j.skill, j.options, j.rollback, StartWalk(j.memory, j.durable), j.answers);
      assert j.tags[..0] == [];
    } else {
      var start := StartWalk(j.memory, j.durable);
      StoppedExactly(j, n - 1);
      WalkSnoc(j.skill, j.options, j.rollback, start, j.tags, j.answers, n - 1);
      var w, v := After(j, n - 1), After(j, n);
      if w.stopped {
        assert v.stopped;
      } else {
        WalkCases(j.skill, j.options, j.rollback, w, j.tags[n - 1], j.answers(n - 1));
        KeepsGoing(j.skill, w, j.tags[n - 1], j.answers(n - 1), RollsBack(j, n - 1));
        assert v.stopped <==> Ends(j, n - 1);
      }
    }
  }

  lemma KeepsGoing(skill: string, w: Walk, tag: ReleaseTag, a: Answer, isRollback: bool)
    ensures Process(skill, w, tag, a, isRollback).stopped == w.stopped
  {
    hide VerifyRelease;
  }

  /** What one visit adds to the report and to the states. */
  lemma VisitReports(j: Job, n: nat)
    requires n < |j.tags|
    ensures var w, v := After(j, n), After(j, n + 1);
            && (!Fails(j, n) ==> v.failed == w.failed)
            && (Fails(j, n) ==> exists f :: v.failed == w.failed + [f] && Names(j, n, f))
            && v.latest == (if StagesAs(j, n, false) then Some(ReleaseOf(j.skill, j.tags[n], j.answers(n)))
                            else w.latest)
            && v.rolledBack
               == (if StagesAs(j, n, true) then Some(ReleaseOf(j.skill, j.tags[n], j.answers(n))) else w.rolledBack)
            && v.state == (if Stages(j, n) then w.state[j.skill := Recorded(j, n)] else w.state)
            && v.durable == (if Stages(j, n) && j.answers(n).saves then v.state else w.durable)
  {
    hide WalkAll, Process, Met, MetUpTo, ReasonFor, Skill;
    var w, tag, a := After(j, n), j.tags[n], j.answers(n);
    WalkSnoc(j.skill, j.options, j.rollback, StartWalk(j.memory, j.durable), j.tags, j.answers, n);
    StoppedExactly(j, n);
    hide After;
    if w.stopped {
      assert !Handles(j, n);
    } else {
      WalkCases(j.skill, j.options, j.rollback, w, tag, a);
      assert Handles(j, n) <==> Due(j, n) && !Ends(j, n);
      if Handles(j, n) {
        ProcessReports(j.skill, w, tag, a, RollsBack(j, n));
        ProcessStates(j.skill, w, tag, a, RollsBack(j, n));
        LastConditions(j.skill, tag, StateAt(j, n), a, RollsBack(j, n));
      }
    }
  }

  lemma ProcessStates(skill: string, w: Walk, tag: ReleaseTag, a: Answer, isRollback: bool)
    ensures var v, st := Process(skill, w, tag, a, isRollback), Skill(w.state, skill);
            if MetUpTo(11, skill, tag, st, a, isRollback) then
              && a.read.Shown? && a.read.manifest.sequence == tag.sequence
              && v.state == w.state[skill := Marked(st, a.read.manifest, isRollback)]
              && v.durable == (if a.saves then v.state else w.durable)
            else v.state == w.state && v.durable == w.durable
  {
    hide Acceptable, Met;
    var st := Skill(w.state, skill);
    MetIsAcceptable(skill, tag, st, a, isRollback);
    LastConditions(skill, tag, st, a, isRollback);
    VerifiedExactly(skill, tag.sequence, st, a, isRollback);
    hide VerifyRelease;
    if VerifyRelease(skill, tag.sequence, st, a, isRollback).Ok? {
      NamesTheTag(skill, tag, st, a, isRollback);
      if !isRollback { RecordingSucceeds(skill, w.state, tag.sequence, a); }
    }
  }

  /** The failing visits among the first `n`, in order. */
  function Failing(j: Job, n: nat): (at: seq<nat>)
    ensures forall i: nat :: i in at <==> i < n && Fails(j, i)
    ensures forall a, b :: 0 <= a < b < |at| ==> at[a] < at[b]
  {
    hide Fails;
    if n == 0 then []
    else if Fails(j, n - 1) then
      var below := Failing(j, n - 1);
      assert forall a :: 0 <= a < |below| ==> below[a] in below;
      below + [n - 1]
    else Failing(j, n - 1)
  }

  /** The failures list the failing visits, in order, each with its tag and reason. */
  ghost predicate Lists(j: Job, n: nat, failed: seq<Failed>)
    requires n <= |j.tags|
  {
    var at := Failing(j, n);
    |failed| == |at| && forall i :: 0 <= i < |at| ==> Names(j, at[i], failed[i])
  }

  /** A walk reports exactly the releases it handled and that missed a condition, in the order of the
      visits, each for the first condition it missed. */
  lemma {:induction false} FailuresExactly(j: Job, n: nat)
    requires n <= |j.tags|
    ensures Lists(j, n, After(j, n).failed)
  {
    hide WalkAll, Process, Fails, Names, Stages, Skill;
    if n == 0 {
      assert j.tags[..0] == [];
      WalkNone(j.skill, j.options, j.rollback, StartWalk(j.memory, j.durable), j.answers);
    } else {
      FailuresExactly(j, n - 1);
      VisitReports(j, n - 1);
    }
  }

  /** `staged` is the release of the last of the first `n` visits that staged one, `None` if none did. */
  predicate IsLast(j: Job, n: nat, asRollback: bool, staged: Option<Staged>)
    requires n <= |j.tags|
  {
    if staged.None? then forall i: nat :: i < n ==> !StagesAs(j, i, asRollback)
    else exists i: nat :: i < n && IsAfterAll(j, i, n, asRollback)
                          && staged == Some(ReleaseOf(j.skill, j.tags[i], j.answers(i)))
  }

  predicate IsAfterAll(j: Job, i: nat, n: nat, asRollback: bool) {
    StagesAs(j, i, asRollback) && forall k: nat :: i < k < n ==> !StagesAs(j, k, asRollback)
  }

  /** The walk ends with the release it staged last, forward and as a rollback. */
  lemma {:induction false} LatestIsLast(j: Job, n: nat)
    requires n <= |j.tags|
    ensures IsLast(j, n, false, After(j, n).latest) && IsLast(j, n, true, After(j, n).rolledBack)
  {
    hide WalkAll, Process, Fails, Names, Skill, RollsBack, Handles, MeetsAll;
    if n == 0 {
      assert j.tags[..0] == [];
      WalkNone(j.skill, j.options, j.rollback, StartWalk(j.memory, j.durable), j.answers);
    } else {
      LatestIsLast(j, n - 1);
      VisitReports(j, n - 1);
      var w, v := After(j, n - 1), After(j, n);
      hide After;
      LastSnoc(j, n - 1, false, w.latest, v.latest);
      LastSnoc(j, n - 1, true, w.rolledBack, v.rolledBack);
    }
  }

  lemma LastSnoc(j: Job, n: nat, asRollback: bool, before: Option<Staged>, after: Option<Staged>)
    requires n < |j.tags| && IsLast(j, n, asRollback, before)
    requires after == (if StagesAs(j, n, asRollback) then Some(ReleaseOf(j.skill, j.tags[n], j.answers(n))) else before)
    ensures IsLast(j, n + 1, asRollback, after)
  {
    hide After, Skill, RollsBack, Handles, MeetsAll;
    if StagesAs(j, n, asRollback) {
      assert IsAfterAll(j, n, n + 1, asRollback);
    } else if before.Some? {
      var i: nat :| i < n && IsAfterAll(j, i, n, asRollback)
                    && before == Some(ReleaseOf(j.skill, j.tags[i], j.answers(i)));
      assert IsAfterAll(j, i, n + 1, asRollback);
    }
  }

  // ----- A whole pass -----

  /** What one configured skill adds to the report. */
  datatype Part = Part(failed: seq<Failed>, staged: seq<Staged>, rolledBack: seq<Staged>, skipped: seq<string>)

  /** The walk over target `i` of a pass. */
  function JobOf(rollback: Option<nat>, start: Pass, targets: seq<Target>, i: nat): Job
    requires i < |targets| && targets[i].listed.Some?
  {
    var p := PassAll(rollback, start, targets[..i]);
    Job(targets[i].skill, targets[i].options, rollback, p.memory, p.durable, targets[i].listed.value,
        targets[i].answers)
  }

  /** A skill that is not opted in is skipped, one whose tags cannot be listed fails once, and any other
      reports its failing visits and the releases it staged last. */
  ghost predicate Tells(rollback: Option<nat>, start: Pass, targets: seq<Target>, i: nat, part: Part)
    requires i < |targets|
  {
    if !targets[i].options.optIn then part == Part([], [], [], [targets[i].skill])
    else if targets[i].listed.None? then part == Part([Failed(targets[i].skill, "", Fetch)], [], [], [])
    else
      var j := JobOf(rollback, start, targets, i);
      && Lists(j, |j.tags|, part.failed) && part.skipped == []
      && (exists o: Option<Staged> :: part.staged == AsSeq(o) && IsLast(j, |j.tags|, false, o))
      && (exists o: Option<Staged> :: part.rolledBack == AsSeq(o) && IsLast(j, |j.tags|, true, o))
  }

  /** The parts joined to one. */
  function Joined(parts: seq<Part>): Part {
    if |parts| == 0 then Part([], [], [], [])
    else
      var n := |parts| - 1;
      var p := Joined(parts[..n]);
      Part(p.failed + parts[n].failed, p.staged + parts[n].staged, p.rolledBack + parts[n].rolledBack,
           p.skipped + parts[n].skipped)
  }

  ghost predicate TellAll(rollback: Option<nat>, start: Pass, targets: seq<Target>, parts: seq<Part>) {
    |parts| == |targets| && forall i :: 0 <= i < |parts| ==> Tells(rollback, start, targets, i, parts[i])
  }

  predicate Adds(start: Pass, p: Pass, part: Part) {
    && p.failed == start.failed + part.failed && p.staged == start.staged + part.staged
    && p.rolledBack == start.rolledBack + part.rolledBack && p.skipped == start.skipped + part.skipped
  }

  lemma TargetTells(rollback: Option<nat>, start: Pass, targets: seq<Target>, i: nat) returns (part: Part)
    requires i < |targets|
    ensures Tells(rollback, start, targets, i, part)
    ensures Adds(PassAll(rollback, start, targets[..i]), PassAll(rollback, start, targets[..i + 1]), part)
  {
    hide WalkAll, Lists, IsLast;
    var p, t := PassAll(rollback, start, targets[..i]), targets[i];
    assert targets[..i + 1][..i] == targets[..i];
    if !t.options.optIn {
      part := Part([], [], [], [t.skill]);
    } else if t.listed.None? {
      part := Part([Failed(t.skill, "", Fetch)], [], [], []);
    } else {
      var j := JobOf(rollback, start, targets, i);
      var w := After(j, |j.tags|);
      assert j.tags[..|j.tags|] == j.tags;
      FailuresExactly(j, |j.tags|);
      LatestIsLast(j, |j.tags|);
      part := Part(w.failed, AsSeq(w.latest), AsSeq(w.rolledBack), []);
    }
  }

  /** The report of a whole pass: one part per configured skill, in order, each telling exactly what
      happened to its skill. */
  lemma {:induction false} PassReports(rollback: Option<nat>, start: Pass, targets: seq<Target>, n: nat)
    returns (parts: seq<Part>)
    requires n <= |targets|
    ensures |parts| == n && forall i :: 0 <= i < n ==> Tells(rollback, start, targets, i, parts[i])
    ensures Adds(start, PassAll(rollback, start, targets[..n]), Joined(parts))
  {
    hide Tells, PassOne;
    if n == 0 {
      assert targets[..0] == [];
      parts := [];
    } else {
      var before := PassReports(rollback, start, targets, n - 1);
      var part := TargetTells(rollback, start, targets, n - 1);
      hide PassAll;
      parts := before + [part];
      assert parts[..n - 1] == before;
    }
  }

  lemma ReportIsComplete(rollback: Option<nat>, start: Pass, targets: seq<Target>)
    ensures exists parts :: TellAll(rollback, start, targets, parts)
                            && Adds(start, PassAll(rollback, start, targets), Joined(parts))
  {
    hide Tells, PassOne, PassAll, Joined;
    assert targets[..|targets|] == targets;
    var parts := PassReports(rollback, start, targets, |targets|);
    assert TellAll(rollback, start, targets, parts);
  }
}
