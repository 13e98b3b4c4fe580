/** The managed-release channel: the publisher extends a hash-chained history of releases, the
    subscriber walks the release tags, verifies, stages and records them.

    git, signatures, archives and the state file answer through `Answer`s, one per visited tag,
    so everything is proved for every pattern of failures. */
module ManagedSync {
  import opened Common
  import opened ReleaseTags

  type Digest = nat

  datatype Manifest = Manifest(skill: string, sequence: nat, sha: Digest, previous: Option<Digest>,
                               revoked: set<Digest>)

  // ----- Publisher -----

  /** A release tag of the managed repository with the manifest it points to. */
  datatype Published = Published(sequence: nat, manifest: Manifest)

  datatype Upcoming = Upcoming(sequence: nat, previous: Option<Digest>)

  function Latest(tags: seq<Published>): (p: Published)
    requires |tags| > 0
    ensures p in tags && forall t :: t in tags ==> t.sequence <= p.sequence
  {
    if |tags| == 1 then tags[0]
    else
      var rest := Latest(tags[1..]);
      assert tags == [tags[0]] + tags[1..];
      if tags[0].sequence > rest.sequence then tags[0] else rest
  }

  /** `_release_state`: the next sequence and the digest it must chain to; `None` when the newest
      tag and its manifest disagree. */
  function ReleaseState(skill: string, tags: seq<Published>): Option<Upcoming> {
    if |tags| == 0 then Some(Upcoming(1, None))
    else
      var latest := Latest(tags);
      if latest.manifest.skill != skill || latest.manifest.sequence != latest.sequence then None
      else Some(Upcoming(latest.sequence + 1, Some(latest.manifest.sha)))
  }

  /** The digest of the last of the first `n` releases. */
  function DigestAt(h: seq<Manifest>, n: nat): Option<Digest>
    requires n <= |h|
  {
    if n == 0 then None else Some(h[n - 1].sha)
  }

  /** Sequences count from one and every release names its predecessor's digest. */
  ghost predicate Chained(skill: string, h: seq<Manifest>) {
    forall i :: 0 <= i < |h| ==> h[i].skill == skill && h[i].sequence == i + 1 && h[i].previous == DigestAt(h, i)
  }

  lemma LatestIsNewest(h: seq<Manifest>, tags: seq<Published>)
    requires |h| > 0
    requires forall p :: p in tags <==> exists i :: 0 <= i < |h| && p == Published(i + 1, h[i])
    ensures |tags| > 0 && Latest(tags) == Published(|h|, h[|h| - 1])
  {
    var newest := Published(|h|, h[|h| - 1]);
    assert newest in tags;
    var latest := Latest(tags);
    assert latest in tags && latest.sequence >= newest.sequence;
  }

  /** Publishing from the tags of a chained history, listed in any order, extends the chain. */
  lemma PublishExtends(skill: string, h: seq<Manifest>, tags: seq<Published>, sha: Digest, revoked: set<Digest>)
    requires Chained(skill, h)
    requires forall p :: p in tags <==> exists i :: 0 <= i < |h| && p == Published(i + 1, h[i])
    ensures ReleaseState(skill, tags).Some?
    ensures var up := ReleaseState(skill, tags).value;
            && up.sequence == |h| + 1
            && Chained(skill, h + [Manifest(skill, up.sequence, sha, up.previous, revoked)])
  {
    if |h| == 0 {
      assert |tags| == 0 || tags[0] in tags;
    } else {
      LatestIsNewest(h, tags);
      assert h[|h| - 1].skill == skill && h[|h| - 1].sequence == |h|;
    }
    var up := ReleaseState(skill, tags).value;
    ChainSnoc(skill, h, Manifest(skill, up.sequence, sha, up.previous, revoked));
  }

  /** With tags of different sequences, the publisher goes on from the newest one, and refuses exactly when
      its manifest is for another skill or another sequence. */
  lemma RefusesExactly(skill: string, tags: seq<Published>, newest: Published)
    requires newest in tags && forall t :: t in tags && t != newest ==> t.sequence < newest.sequence
    ensures ReleaseState(skill, tags).None? <==>
              newest.manifest.skill != skill || newest.manifest.sequence != newest.sequence
    ensures ReleaseState(skill, tags).Some? ==>
              ReleaseState(skill, tags).value == Upcoming(newest.sequence + 1, Some(newest.manifest.sha))
  {
    assert |tags| > 0;
    var latest := Latest(tags);
    assert latest in tags && latest.sequence >= newest.sequence;
  }

  lemma ChainSnoc(skill: string, h: seq<Manifest>, m: Manifest)
    requires Chained(skill, h)
    requires m.skill == skill && m.sequence == |h| + 1
    requires m.previous == DigestAt(h, |h|)
    ensures Chained(skill, h + [m])
  {
    var longer := h + [m];
    forall i | 0 <= i < |longer|
      ensures longer[i].skill == skill && longer[i].sequence == i + 1 && longer[i].previous == DigestAt(longer, i)
    {
      assert longer[i] == if i < |h| then h[i] else m;
      assert DigestAt(longer, i) == DigestAt(h, i);
    }
  }

  // ----- Subscriber state -----

  datatype SkillState = SkillState(highest: nat, last: Option<Digest>, activated: Option<Digest>, revoked: set<Digest>)

  type SyncState = map<string, SkillState>

  const EMPTY_SKILL := SkillState(0, None, None, {})

  function Skill(state: SyncState, name: string): SkillState {
    if name in state then state[name] else EMPTY_SKILL
  }

  /** `record_verified`; `None` stands for the raised `StateError`. */
  function RecordVerified(state: SyncState, name: string, sequence: nat, digest: Digest): Option<SyncState> {
    var current := Skill(state, name);
    if sequence <= current.highest then None
    else Some(state[name := current.(highest := sequence, last := Some(digest))])
  }

  /** `add_revoked`; the stored tuple is sorted and duplicate-free, so a set. */
  function AddRevoked(state: SyncState, name: string, digests: set<Digest>): SyncState {
    state[name := Skill(state, name).(revoked := Skill(state, name).revoked + digests)]
  }

  // ----- Verification -----

  datatype ManifestRead = Unshown | Unparsable | Shown(manifest: Manifest)

  datatype Answer = Answer(signed: bool, principal: bool, read: ManifestRead, bound: bool, tree: Option<Digest>,
                           stages: bool, saves: bool)

  datatype Reason =
    | BadSignature | WrongPrincipal | ManifestBinding | ManifestSchema | TagMismatch | SequenceReplay
    | ChainBreak | DigestMismatch | Revoked | Quarantine | State | Fetch

  datatype Result<+T> = Ok(value: T) | Err(reason: Reason)

  function VerifyMetadata(m: Manifest, skill: string, sequence: nat, st: SkillState,
                          allowRollback: bool): Option<Reason> {
    if m.skill != skill || m.sequence != sequence then Some(TagMismatch)
    else if m.sequence <= st.highest && !allowRollback then Some(SequenceReplay)
    else if !allowRollback && m.previous != st.last then Some(ChainBreak)
    else None
  }

  /** `verify_release`, with the source's order of checks. */
  function VerifyRelease(skill: string, sequence: nat, st: SkillState, a: Answer,
                         allowRollback: bool): Result<Manifest> {
    if !a.signed then Err(BadSignature)
    else if !a.principal then Err(WrongPrincipal)
    else match a.read
      case Unshown => Err(ManifestBinding)
      case Unparsable => Err(ManifestSchema)
      case Shown(m) =>
        if !a.bound then Err(ManifestBinding)
        else match VerifyMetadata(m, skill, sequence, st, allowRollback)
          case Some(reason) => Err(reason)
          case None =>
            if a.tree != Some(m.sha) then Err(DigestMismatch)
            else if m.sha in st.revoked || m.sha in m.revoked then Err(Revoked)
            else Ok(m)
  }

  /** What a release must show to be verified. */
  predicate Acceptable(skill: string, sequence: nat, st: SkillState, a: Answer, allowRollback: bool, m: Manifest) {
    && a.signed && a.principal && a.bound && a.read == Shown(m)
    && m.skill == skill && m.sequence == sequence
    && (allowRollback || (sequence > st.highest && m.previous == st.last))
    && a.tree == Some(m.sha) && m.sha !in st.revoked && m.sha !in m.revoked
  }

  lemma VerifiedExactly(skill: string, sequence: nat, st: SkillState, a: Answer, allowRollback: bool)
    ensures VerifyRelease(skill, sequence, st, a, allowRollback).Ok? <==>
            a.read.Shown? && Acceptable(skill, sequence, st, a, allowRollback, a.read.manifest)
    ensures VerifyRelease(skill, sequence, st, a, allowRollback).Ok? ==>
            VerifyRelease(skill, sequence, st, a, allowRollback).value == a.read.manifest
  {
  }

  // ----- The walk over one skill's tags -----

  datatype Options = Options(optIn: bool, pin: Option<nat>)

  datatype Staged = Staged(skill: string, sequence: nat, digest: Digest)

  datatype Failed = Failed(skill: string, name: string, reason: Reason)

  /** The local variables of `sync_skill`, with a history of what was staged and recorded. */
  datatype Walk = Walk(
    state: SyncState,
    durable: SyncState,
    latest: Option<Staged>,
    rolledBack: Option<Staged>,
    failed: seq<Failed>,
    stopped: bool,
    visited: nat,
    staged: seq<Staged>,
    recorded: seq<nat>)

  function StartWalk(state: SyncState, durable: SyncState): Walk {
    Walk(state, durable, None, None, [], false, 0, [], [])
  }

  predicate IsRollback(rollback: Option<nat>, sequence: nat, current: nat) {
    rollback == Some(sequence) && sequence <= current
  }

  /** Verify, stage, record and save one release. */
  function Process(skill: string, w: Walk, tag: ReleaseTag, a: Answer, isRollback: bool): Walk {
    match VerifyRelease(skill, tag.sequence, Skill(w.state, skill), a, isRollback)
    case Err(reason) => w.(failed := w.failed + [Failed(skill, tag.name, reason)])
    case Ok(m) =>
      if !a.stages then w.(failed := w.failed + [Failed(skill, tag.name, Quarantine)])
      else
        var release := Staged(skill, m.sequence, m.sha);
        var w1 := w.(staged := w.staged + [release]);
        var w2 :=
          if isRollback then w1.(rolledBack := Some(release))
          else match RecordVerified(w.state, skill, m.sequence, m.sha)
            case None => w1.(failed := w1.failed + [Failed(skill, tag.name, State)])
            case Some(state) => w1.(state := state, latest := Some(release), recorded := w1.recorded + [m.sequence]);
        if !isRollback && RecordVerified(w.state, skill, m.sequence, m.sha).None? then w2
        else
          var w3 := w2.(state := AddRevoked(w2.state, skill, m.revoked));
          if a.saves then w3.(durable := w3.state)
          else w3.(failed := w3.failed + [Failed(skill, tag.name, State)])
  }

  /** One iteration of the loop body. */
  function WalkOne(skill: string, options: Options, rollback: Option<nat>, w: Walk, tag: ReleaseTag, a: Answer): Walk {
    if w.stopped then w
    else
      var current := Skill(w.state, skill).highest;
      var isRollback := IsRollback(rollback, tag.sequence, current);
      if tag.sequence <= current && !isRollback then w.(visited := w.visited + 1)
      else if options.pin.Some? && tag.sequence > options.pin.value then w.(stopped := true)
      else Process(skill, w, tag, a, isRollback).(visited := w.visited + 1)
  }

  function WalkAll(skill: string, options: Options, rollback: Option<nat>, start: Walk, tags: seq<ReleaseTag>,
                   answers: nat -> Answer): Walk
    decreases |tags|
  {
    if |tags| == 0 then start
    else
      var n := |tags| - 1;
      WalkOne(skill, options, rollback, WalkAll(skill, options, rollback, start, tags[..n], answers), tags[n],
              answers(n))
  }

  // ----- The run over all configured skills -----

  /** One configured skill with the answers its tags meet: `listed` is the ascending tag list, `None` when
      listing failed. */
  datatype Target = Target(skill: string, options: Options, listed: Option<seq<ReleaseTag>>, answers: nat -> Answer)

  /** The state in memory, the state file and the report under construction. */
  datatype Pass = Pass(memory: SyncState, durable: SyncState, staged: seq<Staged>, failed: seq<Failed>,
                       rolledBack: seq<Staged>, skipped: seq<string>)

  function AsSeq<T>(o: Option<T>): seq<T> {
    if o.Some? then [o.value] else []
  }

  function PassOne(rollback: Option<nat>, p: Pass, t: Target): Pass
  {
    if !t.options.optIn then p.(skipped := p.skipped + [t.skill])
    else if t.listed.None? then p.(failed := p.failed + [Failed(t.skill, "", Fetch)])
    else
      var w := WalkAll(t.skill, t.options, rollback, StartWalk(p.memory, p.durable), t.listed.value, t.answers);
      Pass(w.state, w.durable, p.staged + AsSeq(w.latest), p.failed + w.failed, p.rolledBack + AsSeq(w.rolledBack),
           p.skipped)
  }

  function PassAll(rollback: Option<nat>, start: Pass, targets: seq<Target>): Pass
    decreases |targets|
  {
    if |targets| == 0 then start
    else
      var n := |targets| - 1;
      PassOne(rollback, PassAll(rollback, start, targets[..n]), targets[n])
  }

  /** The accumulator of one run, and the state file. */
  class SyncRun {
    var durable: SyncState
    var staged: seq<Staged>
    var failed: seq<Failed>
    var rolledBack: seq<Staged>
    var skipped: seq<string>

    constructor (durable: SyncState)
      ensures Report(durable) == Pass(durable, durable, [], [], [], [])
    {
      this.durable := durable;
      staged, failed, rolledBack, skipped := [], [], [], [];
    }

    ghost function Report(memory: SyncState): Pass
      reads this
    {
      Pass(memory, durable, staged, failed, rolledBack, skipped)
    }

    /** The `try` block of one iteration. */
    method HandleRelease(skill: string, state0: SyncState, tag: ReleaseTag, a: Answer, isRollback: bool,
                         latest0: Option<Staged>, rolled0: Option<Staged>, ghost w: Walk, ghost before: seq<Failed>)
      returns (state: SyncState, latest: Option<Staged>, rolled: Option<Staged>)
      requires w.state == state0 && w.durable == durable && w.latest == latest0 && w.rolledBack == rolled0
      requires failed == before + w.failed
      modifies this`durable, this`failed
      ensures var v := Process(skill, w, tag, a, isRollback);
              && state == v.state && durable == v.durable && latest == v.latest && rolled == v.rolledBack
              && failed == before + v.failed && v.stopped == w.stopped
    {
      hide VerifyRelease;
      state, latest, rolled := state0, latest0, rolled0;
      var verified := VerifyRelease(skill, tag.sequence, Skill(state, skill), a, isRollback);
      if verified.Err? {
        failed := failed + [Failed(skill, tag.name, verified.reason)];
        return;
      }
      if !a.stages {
        failed := failed + [Failed(skill, tag.name, Quarantine)];
        return;
      }
      var m := verified.value;
      var release := Staged(skill, m.sequence, m.sha);
      if isRollback {
        rolled := Some(release);
      } else {
        var recorded := RecordVerified(state, skill, m.sequence, m.sha);
        if recorded.None? {
          failed := failed + [Failed(skill, tag.name, State)];
          return;
        }
        state, latest := recorded.value, Some(release);
      }
      state := AddRevoked(state, skill, m.revoked);
      if a.saves {
        durable := state;
      } else {
        failed := failed + [Failed(skill, tag.name, State)];
      }
    }

    /** `sync_skill` for one configured skill. */
    method SyncSkill(t: Target, state0: SyncState, rollback: Option<nat>)
      returns (state: SyncState)
      requires t.options.optIn
      modifies this
      ensures Report(state) == PassOne(rollback, old(Report(state0)), t)
    {
      hide Process, VerifyRelease, RecordVerified, AddRevoked, WalkAll, WalkOne;
      state := state0;
      if t.listed.None? {
        failed := failed + [Failed(t.skill, "", Fetch)];
        return;
      }
      var tags := t.listed.value;
      var latest: Option<Staged>, rolled: Option<Staged> := None, None;
      ghost var start := StartWalk(state0, durable);
      WalkNone(t.skill, t.options, rollback, start, t.answers);
      ghost var w := start;
      ghost var before := failed;
      var i := 0;
      assert tags[..0] == [];
      while i < |tags|
        invariant 0 <= i <= |tags|
        invariant w == WalkAll(t.skill, t.options, rollback, start, tags[..i], t.answers) && !w.stopped
        invariant state == w.state && durable == w.durable && latest == w.latest && rolled == w.rolledBack
        invariant failed == before + w.failed
        invariant staged == old(staged) && rolledBack == old(rolledBack) && skipped == old(skipped)
      {
        var tag, a := tags[i], t.answers(i);
        WalkSnoc(t.skill, t.options, rollback, start, tags, t.answers, i);
        WalkCases(t.skill, t.options, rollback, w, tag, a);
        ghost var last := w;
        w := WalkOne(t.skill, t.options, rollback, last, tag, a);
        var current := Skill(state, t.skill).highest;
        var isRollback := IsRollback(rollback, tag.sequence, current);
        if tag.sequence <= current && !isRollback {
          i := i + 1;
          continue;
        }
        if t.options.pin.Some? && tag.sequence > t.options.pin.value {
          WalkStops(t.skill, t.options, rollback, start, tags, t.answers, i + 1);
          break;
        }
        state, latest, rolled := HandleRelease(t.skill, state, tag, a, isRollback, latest, rolled, last, before);
        i := i + 1;
      }
      if i == |tags| {
        assert tags[..i] == tags;
      }
      assert w == WalkAll(t.skill, t.options, rollback, start, tags, t.answers);
      if latest.Some? { staged := staged + [latest.value]; }
      if rolled.Some? { rolledBack := rolledBack + [rolled.value]; }
    }

    /** The loop of `sync_all`; `targets` is the configuration sorted by skill name. */
    method SyncAll(targets: seq<Target>, state0: SyncState, rollback: Option<nat>)
      returns (state: SyncState)
      modifies this
      ensures Report(state) == PassAll(rollback, old(Report(state0)), targets)
    {
      hide WalkAll, WalkOne, StartWalk;
      state := state0;
      for i := 0 to |targets|
        invariant Report(state) == PassAll(rollback, old(Report(state0)), targets[..i])
      {
        assert targets[..i + 1][..i] == targets[..i] && targets[..i + 1][i] == targets[i];
        if !targets[i].options.optIn {
          skipped := skipped + [targets[i].skill];
        } else {
          state := SyncSkill(targets[i], state, rollback);
        }
      }
      assert targets[..|targets|] == targets;
    }
  }

  lemma WalkNone(skill: string, options: Options, rollback: Option<nat>, start: Walk, answers: nat -> Answer)
    ensures WalkAll(skill, options, rollback, start, [], answers) == start
  {
  }

  /** The three ways one iteration can go. */
  lemma WalkCases(skill: string, options: Options, rollback: Option<nat>, w: Walk, tag: ReleaseTag, a: Answer)
    requires !w.stopped
    ensures var current := Skill(w.state, skill).highest;
            var isRollback := IsRollback(rollback, tag.sequence, current);
            var v := WalkOne(skill, options, rollback, w, tag, a);
            if tag.sequence <= current && !isRollback then v == w.(visited := w.visited + 1)
            else if options.pin.Some? && tag.sequence > options.pin.value then v == w.(stopped := true)
            else v == Process(skill, w, tag, a, isRollback).(visited := w.visited + 1)
  {
  }

  lemma WalkSnoc(skill: string, options: Options, rollback: Option<nat>, start: Walk, tags: seq<ReleaseTag>,
                 answers: nat -> Answer, i: nat)
    requires i < |tags|
    ensures WalkAll(skill, options, rollback, start, tags[..i + 1], answers) ==
            WalkOne(skill, options, rollback, WalkAll(skill, options, rollback, start, tags[..i], answers), tags[i],
                    answers(i))
  {
    assert tags[..i + 1][..i] == tags[..i];
  }

  /** After the break nothing changes any more. */
  lemma {:induction false} WalkStops(skill: string, options: Options, rollback: Option<nat>, start: Walk,
                                     tags: seq<ReleaseTag>, answers: nat -> Answer, i: nat)
    requires i <= |tags|
    requires WalkAll(skill, options, rollback, start, tags[..i], answers).stopped
    ensures WalkAll(skill, options, rollback, start, tags, answers)
            == WalkAll(skill, options, rollback, start, tags[..i], answers)
    decreases |tags| - i
  {
    if i < |tags| {
      WalkSnoc(skill, options, rollback, start, tags, answers, i);
      WalkStops(skill, options, rollback, start, tags, answers, i + 1);
    } else {
      assert tags[..i] == tags;
    }
  }
}
