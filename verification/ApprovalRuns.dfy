/** What every run of the approval programs keeps, and when a journal clean-up loses a message. */
module ApprovalRuns {
  import opened Common
  import opened ApprovalProtocol
  import opened ApprovalWorld
  import Slug

  // ----- What holds in every run -----

  lemma {:induction false} RunInv(worlds: seq<World>, labels: seq<Label>, i: nat)
    requires IsRun(worlds, labels) && i < |worlds|
    ensures Inv(worlds[i])
  {
    hide Inv, Enabled, Apply;
    if i == 0 {
      EmptyInv();
    } else {
      RunInv(worlds, labels, i - 1);
      StepKeepsInv(worlds[i - 1], labels[i - 1]);
    }
  }

  lemma EmptyInv()
    ensures Inv(EMPTY)
  {
  }

  /** Safety of the lifecycle over every interleaving, with crashes, owner reactions, owner
      deletions and journal clean-ups anywhere: at most one record per key; and as long as every
      clean-up was covered at its unlink, no posted message is ever lost from sight: it is
      recorded, deleted, consumed or audited, or its reservation is outstanding. */
  lemma RunsAreSafe(worlds: seq<World>, labels: seq<Label>, i: nat)
    requires IsRun(worlds, labels) && i < |worlds|
    ensures OneRecordPerKey(worlds[i])
    ensures CoveredUpTo(worlds, labels, i) ==> AllAccounted(worlds[i])
  {
    hide Enabled, Apply, Covered;
    RunInv(worlds, labels, i);
    CarelessExactly(worlds, labels, i);
  }

  /** Every clean-up among the first `n` steps unlinked a covered reservation. */
  ghost predicate CoveredUpTo(worlds: seq<World>, labels: seq<Label>, n: nat)
    requires IsRun(worlds, labels) && n <= |labels|
  {
    forall j :: 0 <= j < n ==> CarefulStep(worlds[j], labels[j])
  }

  ghost predicate CarefulStep(w: World, l: Label)
    requires Enabled(w, l)
  {
    l.UnlinkJournal? ==> Covered(w, w.operators[l.op].key)
  }

  lemma StepCareless(w: World, l: Label)
    requires Enabled(w, l)
    ensures Apply(w, l).careless == (w.careless || !CarefulStep(w, l))
  {
    hide Next, Possible, Covered, Slug.Slug, Perform;
    if l.Act? {
      PerformCareless(w, l.pid, w.procs[l.pid], l.effect);
    }
  }

  lemma PerformCareless(w: World, pid: Pid, pc: Pc, e: Effect)
    requires !pc.Done?
    ensures Perform(w, pid, pc, e).careless == w.careless
  {
  }

  lemma {:induction false} CarelessExactly(worlds: seq<World>, labels: seq<Label>, n: nat)
    requires IsRun(worlds, labels) && n <= |labels|
    ensures worlds[n].careless <==> !CoveredUpTo(worlds, labels, n)
  {
    hide Enabled, Apply, CarefulStep;
    if n > 0 {
      CarelessExactly(worlds, labels, n - 1);
      StepCareless(worlds[n - 1], labels[n - 1]);
    }
  }

  // ----- When a clean-up loses a message -----

  /** `ws` goes on from the run of `labels` with the unlink of `op`, every later clean-up being
      covered. */
  ghost predicate GoesOn(labels: seq<Label>, op: nat, ws: seq<World>, ls: seq<Label>) {
    && IsRun(ws, ls) && |labels| < |ls| && ls[..|labels|] == labels && ls[|labels|] == UnlinkJournal(op)
    && forall j :: |labels| < j < |ls| ==> CarefulStep(ws[j], ls[j])
  }

  lemma {:induction false} RunsAgree(worlds: seq<World>, labels: seq<Label>, ws: seq<World>, ls: seq<Label>, i: nat)
    requires IsRun(worlds, labels) && IsRun(ws, ls) && i <= |labels| <= |ls| && ls[..|labels|] == labels
    ensures worlds[i] == ws[i]
  {
    hide Enabled, Apply;
    if i > 0 {
      RunsAgree(worlds, labels, ws, ls, i - 1);
      assert labels[i - 1] == ls[..|labels|][i - 1];
    }
  }

  lemma Extended(worlds: seq<World>, labels: seq<Label>, l: Label)
    requires IsRun(worlds, labels) && Enabled(worlds[|labels|], l)
    ensures IsRun(worlds + [Apply(worlds[|labels|], l)], labels + [l])
  {
    hide Enabled, Apply;
    var ws, ls := worlds + [Apply(worlds[|labels|], l)], labels + [l];
    forall i | 0 <= i < |ls| ensures Enabled(ws[i], ls[i]) && ws[i + 1] == Apply(ws[i], ls[i]) {
      if i < |labels| {
        assert ws[i] == worlds[i] && ws[i + 1] == worlds[i + 1] && ls[i] == labels[i];
      }
    }
  }

  lemma {:induction false} Beyond(s: set<nat>) returns (m: nat)
    ensures forall x :: x in s ==> x < m
  {
    if s == {} {
      m := 0;
    } else {
      var x :| x in s;
      var n := Beyond(s - {x});
      m := n + x + 1;
      forall y | y in s ensures y < m {
        assert y == x || y in s - {x};
      }
    }
  }

  lemma FreshMessage(w: World) returns (m: nat)
    ensures m !in w.posts && m !in w.gone && m !in w.consumed && m !in w.abandoned
    ensures forall r :: r in w.records ==> r.messageId != m
  {
    var ids := set r | r in w.records :: r.messageId;
    m := Beyond(w.posts.Keys + w.gone + w.consumed + w.abandoned + ids);
    forall r | r in w.records ensures r.messageId != m {
      assert r.messageId in ids;
    }
  }

  /** Unlinking a reservation with an unaccounted message loses that message at once. */
  lemma UnlinkLosesPosted(w: World, op: nat, m: nat)
    requires FilesOk(w) && Enabled(w, UnlinkJournal(op)) && m in w.posts && !Accounted(w, m)
    requires var file := Slug.Slug(w.operators[op].key); file in w.journal && w.posts[m] == w.journal[file]
    ensures !AllAccounted(Apply(w, UnlinkJournal(op)))
  {
    hide Slug.Slug, Slug.Narrow, Covered;
    var x := Apply(w, UnlinkJournal(op));
    assert !Accounted(x, m) && !Reserves(x, x.posts[m]);
  }

  /** Unlinking a reservation before its message is posted loses the message when it is posted. */
  lemma UnlinkLosesNext(w: World, op: nat, pid: Pid, m: nat)
    requires FilesOk(w) && Enabled(w, UnlinkJournal(op)) && pid in w.procs
    requires var file := Slug.Slug(w.operators[op].key);
             file in w.journal && w.journal[file] !in w.audit && PostsUnder(w.procs[pid], w.journal[file])
    requires m !in w.posts && m !in w.gone && m !in w.consumed && m !in w.abandoned
    requires forall r :: r in w.records ==> r.messageId != m
    ensures var x := Apply(w, UnlinkJournal(op));
            Enabled(x, Act(pid, Posted(m))) && !AllAccounted(Apply(x, Act(pid, Posted(m))))
  {
    hide Slug.Slug, Slug.Narrow, Covered, NextWatcher, NextSupersede, NextRetire, AfterSnapshot, AfterDiscard,
        AfterDestroy;
    var x := Apply(w, UnlinkJournal(op));
    var y := Apply(x, Act(pid, Posted(m)));
    assert m in y.posts && y.posts[m] == w.journal[Slug.Slug(w.operators[op].key)];
    assert !Accounted(y, m) && !Reserves(y, y.posts[m]);
  }

  lemma UncoveredLoses(worlds: seq<World>, labels: seq<Label>, op: nat) returns (ws: seq<World>, ls: seq<Label>)
    requires IsRun(worlds, labels) && Enabled(worlds[|labels|], UnlinkJournal(op))
    requires !Covered(worlds[|labels|], worlds[|labels|].operators[op].key)
    ensures GoesOn(labels, op, ws, ls) && !AllAccounted(ws[|ls|])
  {
    hide Inv, IsRun, Apply, Accounted, AllAccounted, Next, Possible, Slug.Slug;
    var w := worlds[|labels|] by { RunLength(worlds, labels); }
    RunLength(worlds, labels);
    RunInv(worlds, labels, |labels|);
    FilesOfInv(w);
    var res := w.journal[Slug.Slug(w.operators[op].key)];
    var x := Apply(w, UnlinkJournal(op));
    Extended(worlds, labels, UnlinkJournal(op));
    ws, ls := worlds + [x], labels + [UnlinkJournal(op)];
    if m :| m in w.posts && w.posts[m] == res && !Accounted(w, m) {
      UnlinkLosesPosted(w, op, m);
    } else {
      assert AboutToPost(w, res);
      var pid :| pid in w.procs && PostsUnder(w.procs[pid], res);
      var m := FreshMessage(w);
      UnlinkLosesNext(w, op, pid, m);
      Extended(ws, ls, Act(pid, Posted(m)));
      ws, ls := ws + [Apply(x, Act(pid, Posted(m)))], ls + [Act(pid, Posted(m))];
    }
  }

  lemma RunLength(worlds: seq<World>, labels: seq<Label>)
    requires IsRun(worlds, labels)
    ensures |worlds| == |labels| + 1
  {
  }

  lemma FilesOfInv(w: World)
    requires Inv(w)
    ensures FilesOk(w)
  {
  }

  /** The exact condition for the journal clean-up.  In a run whose clean-ups have been covered so
      far, the next unlink is harmless in every continuation if and only if it is covered. */
  lemma CleanupLosesNothingExactly(worlds: seq<World>, labels: seq<Label>, op: nat)
    requires IsRun(worlds, labels) && CoveredUpTo(worlds, labels, |labels|)
    requires Enabled(worlds[|labels|], UnlinkJournal(op))
    ensures Covered(worlds[|labels|], worlds[|labels|].operators[op].key)
            <==> (forall ws, ls :: GoesOn(labels, op, ws, ls) ==> AllAccounted(ws[|ls|]))
  {
    assert worlds[|labels|].operators[op].Unlinking?;
    hide Covered, Enabled, Apply, AllAccounted;
    if Covered(worlds[|labels|], worlds[|labels|].operators[op].key) {
      forall ws, ls | GoesOn(labels, op, ws, ls) ensures AllAccounted(ws[|ls|]) {
        forall j | 0 <= j < |ls| ensures CarefulStep(ws[j], ls[j]) {
          if j <= |labels| {
            RunsAgree(worlds, labels, ws, ls, j);
            if j < |labels| {
              assert ls[..|labels|][j] == ls[j];
              assert CarefulStep(worlds[j], labels[j]);
            }
          }
        }
        RunsAreSafe(ws, ls, |ls|);
      }
    } else {
      var ws, ls := UncoveredLoses(worlds, labels, op);
    }
  }

  /** What the clean-up of `op` still needs: the reservation it read or audited is the one in the
      file. */
  ghost predicate Follows(w: World, op: nat, key: Key) {
    var file := Slug.Slug(key);
    op in w.operators ==>
      && w.operators[op].key == key
      && (file in w.journal ==>
            if w.operators[op].Auditing? then w.operators[op].found == Some(w.journal[file])
            else w.journal[file] in w.audit)
  }

  lemma FollowsStep(w: World, l: Label, op: nat, key: Key)
    requires Inv(w) && Enabled(w, l) && Follows(w, op, key) && Slug.Slug(key) !in w.leases
    requires !(l.ReadJournal? && l.op == op)
    ensures Follows(Apply(w, l), op, key)
  {
    hide Covered, Next, Possible, Slug.Slug, Slug.Narrow, ProcOk, AllSettled, OneRecordPerKey, FilesOk, Perform;
    if l.Act? {
      JournalStep(w, l.pid, l.effect, Slug.Slug(key));
    }
  }

  /** Only a program inside the lease block writes the journal file of its key. */
  lemma JournalStep(w: World, pid: Pid, e: Effect, file: string)
    requires LeasesOk(w) && Enabled(w, Act(pid, e)) && file !in w.leases
    ensures var x := Apply(w, Act(pid, e));
            && x.operators == w.operators && w.audit <= x.audit
            && (file in x.journal ==> file in w.journal && x.journal[file] == w.journal[file])
  {
    hide Slug.Slug, Slug.Narrow, Possible, Next, Perform;
    var pc := w.procs[pid];
    if e.Reserved? {
      ReserveNeedsPc(pc, e);
    }
    PerformJournal(w, pid, pc, e, file);
  }

  lemma PerformJournal(w: World, pid: Pid, pc: Pc, e: Effect, file: string)
    requires !pc.Done? && (e.Reserved? ==> file != Slug.Slug(KeyOf(pc)))
    ensures var x := Perform(w, pid, pc, e);
            && x.operators == w.operators && x.audit == w.audit
            && (file in x.journal ==> file in w.journal && x.journal[file] == w.journal[file])
  {
    hide Slug.Slug, KeyOf;
  }

  lemma ReserveNeedsPc(pc: Pc, e: Effect)
    requires e.Reserved? && Next(pc, e).Some?
    ensures Holds(pc)
  {
    hide AfterSnapshot, AfterDiscard, AfterDestroy;
  }

  lemma {:induction false} FollowsRun(worlds: seq<World>, labels: seq<Label>, start: nat, i: nat, op: nat, key: Key)
    requires IsRun(worlds, labels) && start < i <= |labels| && labels[start] == ReadJournal(op, key)
    requires forall j :: start <= j <= i ==> Slug.Slug(key) !in worlds[j].leases
    requires forall j :: start < j < i ==> !(labels[j].ReadJournal? && labels[j].op == op)
    ensures Follows(worlds[i], op, key)
    decreases i
  {
    hide Slug.Slug, Slug.Narrow, Inv, Follows;
    if i == start + 1 {
      ReadFollows(worlds[start], op, key);
    } else {
      FollowsRun(worlds, labels, start, i - 1, op, key);
      RunInv(worlds, labels, i - 1);
      assert Enabled(worlds[i - 1], labels[i - 1]);
      FollowsStep(worlds[i - 1], labels[i - 1], op, key);
    }
  }

  lemma ReadFollows(w: World, op: nat, key: Key)
    requires Enabled(w, ReadJournal(op, key))
    ensures Follows(Apply(w, ReadJournal(op, key)), op, key)
  {
  }

  /** The caller's check: if the key's lease is kept free of every program from the clean-up's read
      to its unlink (the operator holding it over all three steps), the unlink is covered. */
  lemma LeaseOverCleanupCovers(worlds: seq<World>, labels: seq<Label>, start: nat, i: nat, op: nat, key: Key)
    requires IsRun(worlds, labels) && start < i < |labels|
    requires labels[start] == ReadJournal(op, key) && labels[i] == UnlinkJournal(op)
    requires forall j :: start <= j <= i ==> Slug.Slug(key) !in worlds[j].leases
    requires forall j :: start < j < i ==> !(labels[j].ReadJournal? && labels[j].op == op)
    ensures worlds[i].operators[op].key == key && Covered(worlds[i], key)
  {
    hide Slug.Slug, Slug.Narrow, Apply, AccountedUnder, AboutToPost;
    FollowsRun(worlds, labels, start, i, op, key);
  }

  /** L1: two processes never overlap inside the lease block of one key. */
  lemma RunsExclude(worlds: seq<World>, labels: seq<Label>, i: nat, p: Pid, q: Pid)
    requires IsRun(worlds, labels) && i < |worlds| && p != q
    requires p in worlds[i].procs && q in worlds[i].procs && Holds(worlds[i].procs[p]) && Holds(worlds[i].procs[q])
    ensures KeyOf(worlds[i].procs[p]) != KeyOf(worlds[i].procs[q])
  {
    RunInv(worlds, labels, i);
    MutualExclusion(worlds[i], p, q);
  }

  lemma CommitNeedsPc(pc: Pc, e: Effect)
    requires e.Committed? && Next(pc, e).Some?
    ensures pc.Producer? && pc.producer.Committing? && pc.producer.intent.key == e.request.key
  {
  }

  lemma PerformRecords(w: World, pid: Pid, pc: Pc, e: Effect)
    requires !pc.Done?
    ensures Perform(w, pid, pc, e).records <= w.records + (if e.Committed? then {e.request} else {})
  {
  }

  /** L2: a stored binding is never replaced.  Whatever a step does, a key that has a record
      before and a record after has the same record. */
  lemma RunsNeverReplace(worlds: seq<World>, labels: seq<Label>, i: nat, prior: Request, later: Request)
    requires IsRun(worlds, labels) && i < |labels|
    requires prior in worlds[i].records && later in worlds[i + 1].records && prior.key == later.key
    ensures prior == later
  {
    hide Inv, Apply, Enabled;
    var w, l := worlds[i], labels[i];
    RunInv(worlds, labels, i);
    OneRecordOf(w);
    if l.Act? {
      ActNeverReplaces(w, l.pid, l.effect, prior, later);
    } else {
      OthersKeepRecords(w, l);
    }
  }

  lemma OthersKeepRecords(w: World, l: Label)
    requires Enabled(w, l) && !l.Act?
    ensures Apply(w, l).records == w.records
  {
    hide Covered, Slug.Slug, KeyOf;
  }

  lemma ActNeverReplaces(w: World, pid: Pid, e: Effect, prior: Request, later: Request)
    requires Inv(w) && Enabled(w, Act(pid, e))
    requires prior in w.records && later in Apply(w, Act(pid, e)).records && prior.key == later.key
    ensures prior == later
  {
    hide Inv, Perform, Next, Possible, KeyOf, Slug.Slug;
    var pc := w.procs[pid];
    OneRecordOf(w);
    PerformRecords(w, pid, pc, e);
    if e.Committed? && later == e.request {
      CommitNeedsPc(pc, e);
      CommitIntoEmptySlot(w, pid);
      CommitKey(pc);
    }
  }

  lemma CommitKey(pc: Pc)
    requires pc.Producer?
    ensures KeyOf(pc) == pc.producer.intent.key
  {
  }

  lemma OneRecordOf(w: World)
    requires Inv(w)
    ensures OneRecordPerKey(w)
  {
  }

  /** A producer commits only when its key has no record. */
  lemma CommitIntoEmptySlot(w: World, pid: Pid)
    requires Inv(w) && pid in w.procs && w.procs[pid].Producer? && w.procs[pid].producer.Committing?
    ensures forall r :: r in w.records ==> r.key != KeyOf(w.procs[pid])
  {
    var pc := w.procs[pid];
    assert ProcOk(w, pc);
  }

  lemma Undisturbed(w: World, l: Label, pid: Pid)
    requires Enabled(w, l) && pid in Apply(w, l).procs
    requires !(l.Act? && l.pid == pid) && !(l.Spawn? && l.pid == pid)
    ensures pid in w.procs && w.procs[pid] == Apply(w, l).procs[pid] && !(l.Crash? && l.pid == pid)
  {
    hide Next, Possible, Perform;
    if l.Act? {
      PerformLeases(w, l.pid, w.procs[l.pid], l.effect);
    }
  }

  /** A process comes to a deletion only by a probe that saw the message live and undecided. */
  lemma DeleteEntered(w: World, pid: Pid, e: Effect)
    requires Enabled(w, Act(pid, e))
    requires pid in Apply(w, Act(pid, e)).procs && ToDelete(Apply(w, Act(pid, e)).procs[pid]).Some?
    ensures var r := ToDelete(Apply(w, Act(pid, e)).procs[pid]).value;
            e == Probed(r, BoundPending) && r.messageId !in w.decided && r.messageId !in w.gone
  {
    hide Next, Perform, ToDelete, Covered, Slug.Slug;
    PerformLeases(w, pid, w.procs[pid], e);
    ToDeleteEntered(w.procs[pid], e);
  }

  /** A process that is about to delete a message saw it, as its own last step, live and
      undecided. */
  lemma {:induction false} PendingDelete(worlds: seq<World>, labels: seq<Label>, i: nat, pid: Pid) returns (j: nat)
    requires IsRun(worlds, labels) && i < |worlds|
    requires pid in worlds[i].procs && ToDelete(worlds[i].procs[pid]).Some?
    ensures var r := ToDelete(worlds[i].procs[pid]).value;
            && j < i && labels[j] == Act(pid, Probed(r, BoundPending))
            && r.messageId !in worlds[j].decided && r.messageId !in worlds[j].gone
            && (forall k :: j < k < i ==> !(labels[k].Act? && labels[k].pid == pid))
  {
    hide Apply, Enabled, ToDelete;
    j := 0;
    if i > 0 {
      var w, l := worlds[i - 1], labels[i - 1];
      if l.Act? && l.pid == pid {
        DeleteEntered(w, pid, l.effect);
        j := i - 1;
      } else {
        if l.Spawn? && l.pid == pid {
          SpawnsNoDelete(w, pid, l.start);
        }
        Undisturbed(w, l, pid);
        j := PendingDelete(worlds, labels, i - 1, pid);
      }
    }
  }

  lemma SpawnsNoDelete(w: World, pid: Pid, start: Pc)
    requires Enabled(w, Spawn(pid, start))
    ensures var x := Apply(w, Spawn(pid, start)); pid in x.procs && ToDelete(x.procs[pid]).None?
  {
    NoDeleteAtStart(start);
  }

  lemma NoDeleteAtStart(pc: Pc)
    requires IsStart(pc)
    ensures ToDelete(pc) == None
  {
  }

  /** The owner reacted to `m` at one of the steps from `j` to before `i`, and did not take it back
      since. */
  ghost predicate ReactedSince(labels: seq<Label>, m: nat, j: nat, i: nat)
    requires j <= i <= |labels|
  {
    exists k :: j <= k < i && labels[k] == React(m) && Stands(labels, m, k, i)
  }

  ghost predicate Stands(labels: seq<Label>, m: nat, k: nat, i: nat)
    requires k < i <= |labels|
  {
    forall n :: k < n < i ==> labels[n] != Unreact(m)
  }

  lemma StandsOn(labels: seq<Label>, m: nat, j: nat, i: nat)
    requires j < i <= |labels| && ReactedSince(labels, m, j, i - 1) && labels[i - 1] != Unreact(m)
    ensures ReactedSince(labels, m, j, i)
  {
    var k :| j <= k < i - 1 && labels[k] == React(m) && Stands(labels, m, k, i - 1);
    assert Stands(labels, m, k, i);
  }

  lemma OwnerDecides(w: World, l: Label, m: nat)
    requires Enabled(w, l)
    ensures m in Apply(w, l).decided <==> l == React(m) || (m in w.decided && l != Unreact(m))
  {
    hide Next, Possible, Perform, Covered, Slug.Slug;
    if l.Act? {
      PerformDecides(w, l.pid, w.procs[l.pid], l.effect);
    }
  }

  /** An undecided message is decided later exactly if a reaction stands. */
  lemma {:induction false} DecidedExactly(worlds: seq<World>, labels: seq<Label>, j: nat, i: nat, m: nat)
    requires IsRun(worlds, labels) && j <= i < |worlds| && m !in worlds[j].decided
    ensures m in worlds[i].decided <==> ReactedSince(labels, m, j, i)
    decreases i
  {
    hide Enabled, Apply;
    if j < i {
      DecidedExactly(worlds, labels, j, i - 1, m);
      OwnerDecides(worlds[i - 1], labels[i - 1], m);
      if labels[i - 1] == React(m) {
        assert Stands(labels, m, i - 1, i);
      } else if ReactedSince(labels, m, j, i) {
        var k :| j <= k < i && labels[k] == React(m) && Stands(labels, m, k, i);
        assert Stands(labels, m, k, i - 1) && labels[i - 1] != Unreact(m);
      } else {
        if m in worlds[i].decided {
          StandsOn(labels, m, j, i);
        }
      }
    }
  }

  lemma PerformDecides(w: World, pid: Pid, pc: Pc, e: Effect)
    requires !pc.Done?
    ensures Perform(w, pid, pc, e).decided == w.decided
  {
  }

  /** L3 over runs: when a program deletes a message, its own preceding step was a probe at which
      the message was live and undecided.  The deletion destroys a decision if and only if the owner
      reacted between that probe and the deletion and did not take the reaction back. */
  lemma DeletionsRespectDecisions(worlds: seq<World>, labels: seq<Label>, i: nat) returns (j: nat)
    requires IsRun(worlds, labels) && i < |labels|
    requires labels[i].Act? && (labels[i].effect.Deleted? || labels[i].effect.DeleteFailed?)
    ensures var r := labels[i].effect.request;
            && j < i && labels[j] == Act(labels[i].pid, Probed(r, BoundPending))
            && r.messageId !in worlds[j].decided && r.messageId !in worlds[j].gone
            && (forall k :: j < k < i ==> !(labels[k].Act? && labels[k].pid == labels[i].pid))
            && (r.messageId in worlds[i].decided <==> ReactedSince(labels, r.messageId, j, i))
  {
    hide Inv, Next, Perform, Possible, ToDelete;
    var pid, e := labels[i].pid, labels[i].effect;
    DeleteNeedsPc(worlds[i].procs[pid], e);
    j := PendingDelete(worlds, labels, i, pid);
    DecidedExactly(worlds, labels, j, i, e.request.messageId);
  }
}
