/** What a reconciliation pass answers for each record: the reason it stays open, or how it was closed. */
module ReconcileVerdicts {
  import opened Common
  import opened MemoryText
  import opened Reclaim
  import opened MemoryDeletion

  // ----- One record -----

  predicate Names(hs: Hashes, r: Record, es: seq<string>, i: nat) {
    i < |es| && hs.digest(r.kind, es[i]) == r.digest
  }

  /** The conditions that the deletion of a promoted entry needs, in the order in which they are asked. */
  ghost predicate Met(hs: Hashes, r: Record, note: Option<string>, es: seq<string>, k: nat) {
    match k
    case 0 => note.Some?
    case 1 => note.Some? && hs.sha(note.value) == r.noteHash
    case 2 => note.Some? && hs.marker(note.value).Some?
    case 3 => note.Some? && hs.marker(note.value) == Some(Marker(Promotion(r.kind, r.digest), r.kind, r.digest, true))
    case 4 => exists i :: Names(hs, r, es, i)
    case 5 => forall a, b :: Names(hs, r, es, a) && Names(hs, r, es, b) ==> a == b
    case _ => true
  }

  function ReasonFor(k: nat): BlockReason {
    match k
    case 0 => NoteMissing
    case 1 => NoteHashMismatch
    case 2 => MarkerMissing
    case 3 => MarkerMismatch
    case 4 => EntryNotFound
    case _ => EntryAmbiguous
  }

  ghost predicate MetUpTo(hs: Hashes, r: Record, note: Option<string>, es: seq<string>, n: nat) {
    forall i: nat :: i < n ==> Met(hs, r, note, es, i)
  }

  ghost predicate FirstUnmet(hs: Hashes, r: Record, note: Option<string>, es: seq<string>, k: nat) {
    k < 6 && !Met(hs, r, note, es, k) && MetUpTo(hs, r, note, es, k)
  }

  predicate Open(r: Record) {
    r.status in {Prepared, Posted}
  }

  lemma DecidesEarly(hs: Hashes, r: Record, note: Option<string>, es: seq<string>, k: nat)
    requires Open(r) && k < 4 && FirstUnmet(hs, r, note, es, k)
    ensures Decide(hs, r, note, note.Some?, es) == Skip(Some(ReasonFor(k)))
  {
    hide Matching;
    assert k > 0 ==> Met(hs, r, note, es, 0);
    assert k > 1 ==> Met(hs, r, note, es, 1);
    assert k > 2 ==> Met(hs, r, note, es, 2);
  }

  lemma DecidesLate(hs: Hashes, r: Record, note: Option<string>, es: seq<string>)
    requires Open(r) && MetUpTo(hs, r, note, es, 4)
    ensures var m := Matching(hs, r.kind, r.digest, es, |es|);
            Decide(hs, r, note, note.Some?, es) == if |m| == 0 then Terminal(Some(EntryNotFound))
                                                   else if |m| >= 2 then Skip(Some(EntryAmbiguous))
                                                   else Delete(m[0])
  {
    hide Matching;
    assert Met(hs, r, note, es, 0) && Met(hs, r, note, es, 1) && Met(hs, r, note, es, 2) && Met(hs, r, note, es, 3);
  }

  lemma MatchingNames(hs: Hashes, r: Record, es: seq<string>)
    ensures var m := Matching(hs, r.kind, r.digest, es, |es|);
            && (|m| == 0 <==> !exists i :: Names(hs, r, es, i))
            && (|m| <= 1 <==> forall a, b :: Names(hs, r, es, a) && Names(hs, r, es, b) ==> a == b)
            && (|m| == 1 ==> Names(hs, r, es, m[0]))
  {
    var m := Matching(hs, r.kind, r.digest, es, |es|);
    assert forall i: nat :: Names(hs, r, es, i) <==> i in m;
    hide Names;
    if |m| >= 1 { assert m[0] in m; }
    if |m| >= 2 { assert m[1] in m; }
  }

  /** A record is decided by the first condition it misses: it stays open for that reason, or is closed
      when its entry is gone. */
  lemma DecidesFirst(hs: Hashes, r: Record, note: Option<string>, es: seq<string>, k: nat)
    requires Open(r) && FirstUnmet(hs, r, note, es, k)
    ensures Decide(hs, r, note, note.Some?, es)
            == if ReasonFor(k) == EntryNotFound then Terminal(Some(EntryNotFound)) else Skip(Some(ReasonFor(k)))
  {
    hide Decide, Matching, Names;
    if k < 4 {
      DecidesEarly(hs, r, note, es, k);
    } else {
      DecidesLate(hs, r, note, es);
      MatchingNames(hs, r, es);
      assert k == 5 ==> Met(hs, r, note, es, 4);
    }
  }

  lemma DecidesDeletion(hs: Hashes, r: Record, note: Option<string>, es: seq<string>, i: nat)
    requires Open(r) && MetUpTo(hs, r, note, es, 6) && Names(hs, r, es, i)
    ensures Decide(hs, r, note, note.Some?, es) == Delete(i)
  {
    hide Decide, Matching, Names;
    DecidesLate(hs, r, note, es);
    MatchingNames(hs, r, es);
    assert Met(hs, r, note, es, 5);
  }

  // ----- One visit -----

  /** Nothing keeps the rewrite of the file from going through. */
  predicate GoesThrough(img: Image, kind: Kind, now: nat, v: Visit) {
    && v.fault == NoFault && (kind, now) !in img.backups
    && (if v.other.Some? then v.other.value == TextOf(img, kind) else kind in img.files)
  }

  /** What the visit of an open record does when condition `k` is the first it misses. */
  predicate Refuses(now: nat, p: Pass, q: Pass, key: Key, k: nat)
    requires key in p.promotions
  {
    var r := p.promotions[key];
    && q.img == p.img && q.deleted == p.deleted
    && if ReasonFor(k) == EntryNotFound then
         && q.promotions == p.promotions[key := ClosedAt(r, now, Some(EntryNotFound))]
         && q.blocked == p.blocked && q.reasons == p.reasons
       else
         && q.promotions == p.promotions[key := r.(lastBlock := Some(ReasonFor(k)))]
         && q.blocked == p.blocked + [Blocked(key, ReasonFor(k), None)]
         && q.reasons == p.reasons + {ReasonFor(k)}
  }

  /** What it does when all conditions are met for entry `i`. */
  predicate Settles(now: nat, dryRun: bool, p: Pass, q: Pass, key: Key, v: Visit, i: nat)
    requires key in p.promotions && i < |Parse(TextOf(p.img, p.promotions[key].kind))|
  {
    var r := p.promotions[key];
    var es := Parse(TextOf(p.img, r.kind));
    && q.reasons == p.reasons
    && if dryRun then
         && q.img == p.img && q.promotions == p.promotions && q.blocked == p.blocked
         && q.deleted == p.deleted + [Deleted(key, es[i], Reclaimable(es, i), false)]
       else if GoesThrough(p.img, r.kind, now, v) then
         && q.promotions == p.promotions[key := ClosedAt(r, now, None)]
         && q.blocked == p.blocked
         && q.deleted == p.deleted + [Deleted(key, es[i], Reclaimable(es, i), true)]
       else
         && q.promotions == p.promotions[key := r.(lastBlock := Some(DeleteFailed))]
         && q.blocked == p.blocked + [Blocked(key, DeleteFailed, Some(es[i]))]
         && q.deleted == p.deleted
  }

  /** What the visit of an open record adds to the pass. */
  ghost predicate Answers(hs: Hashes, now: nat, dryRun: bool, p: Pass, q: Pass, key: Key, v: Visit)
    requires key in p.promotions
  {
    var r := p.promotions[key];
    var es := Parse(TextOf(p.img, r.kind));
    && (forall k :: FirstUnmet(hs, r, v.note, es, k) ==> Refuses(now, p, q, key, k))
    && (forall i :: MetUpTo(hs, r, v.note, es, 6) && Names(hs, r, es, i) ==> Settles(now, dryRun, p, q, key, v, i))
  }

  function ClosedAt(r: Record, now: nat, reason: Option<BlockReason>): Record {
    r.(status := Reconciled, reconciledAt := Some(now), lastBlock := reason)
  }

  lemma VisitRefuses(hs: Hashes, now: nat, dryRun: bool, p: Pass, key: Key, v: Visit, k: nat)
    requires key in p.promotions && Open(p.promotions[key])
    requires FirstUnmet(hs, p.promotions[key], v.note, Parse(TextOf(p.img, p.promotions[key].kind)), k)
    ensures Refuses(now, p, Reconcile(hs, now, dryRun, p, key, v), key, k)
  {
    hide Parse, Decide, TextOf, FirstUnmet;
    DecidesFirst(hs, p.promotions[key], v.note, Parse(TextOf(p.img, p.promotions[key].kind)), k);
  }

  lemma VisitRemoves(hs: Hashes, now: nat, dryRun: bool, p: Pass, key: Key, v: Visit, i: nat)
    requires key in p.promotions && Open(p.promotions[key])
    requires var r := p.promotions[key];
             var es := Parse(TextOf(p.img, r.kind));
             MetUpTo(hs, r, v.note, es, 6) && Names(hs, r, es, i)
    ensures Settles(now, dryRun, p, Reconcile(hs, now, dryRun, p, key, v), key, v, i)
  {
    DecidesDeletion(hs, p.promotions[key], v.note, Parse(TextOf(p.img, p.promotions[key].kind)), i);
    SucceedsExactly(hs, now, p, key, v, i);
    hide Parse, Decide, TextOf, MetUpTo, Succeeds, GoesThrough, AfterDelete;
  }

  lemma SucceedsExactly(hs: Hashes, now: nat, p: Pass, key: Key, v: Visit, i: nat)
    requires key in p.promotions && Open(p.promotions[key])
    requires var r := p.promotions[key];
             var es := Parse(TextOf(p.img, r.kind));
             MetUpTo(hs, r, v.note, es, 6) && Names(hs, r, es, i)
    ensures var r := p.promotions[key];
            Succeeds(Interfere(p.img, r.kind, v.other), r.kind, i, TextOf(p.img, r.kind), now, v.fault)
            <==> GoesThrough(p.img, r.kind, now, v)
  {
    var r := p.promotions[key];
    var es := Parse(TextOf(p.img, r.kind));
    assert Met(hs, r, v.note, es, 5);
    hide Parse;
    forall b: nat | b < |es| && es[b] == es[i]
      ensures b == i
    {
      assert Names(hs, r, es, b);
    }
  }

  /** Each visit of an open record answers for the first condition the record misses, and for the entry
      if it misses none. */
  lemma VisitAnswers(hs: Hashes, now: nat, dryRun: bool, p: Pass, key: Key, v: Visit)
    requires key in p.promotions && Open(p.promotions[key])
    ensures Answers(hs, now, dryRun, p, Reconcile(hs, now, dryRun, p, key, v), key, v)
  {
    var r := p.promotions[key];
    var es := Parse(TextOf(p.img, r.kind));
    hide *;
    forall k | FirstUnmet(hs, r, v.note, es, k)
      ensures Refuses(now, p, Reconcile(hs, now, dryRun, p, key, v), key, k)
    {
      VisitRefuses(hs, now, dryRun, p, key, v, k);
    }
    forall i: nat | MetUpTo(hs, r, v.note, es, 6) && Names(hs, r, es, i)
      ensures i < |es| && Settles(now, dryRun, p, Reconcile(hs, now, dryRun, p, key, v), key, v, i)
    {
      NamesBelow(hs, r, es, i);
      VisitRemoves(hs, now, dryRun, p, key, v, i);
    }
  }

  lemma NamesBelow(hs: Hashes, r: Record, es: seq<string>, i: nat)
    requires Names(hs, r, es, i)
    ensures i < |es|
  {
  }

  // ----- A whole pass -----

  lemma {:induction false} LaterVisitsKeep(hs: Hashes, now: nat, dryRun: bool, start: Pass, keys: seq<Key>,
                                           visits: nat -> Visit, n: nat, m: nat)
    requires Distinct(keys) && n < m <= |keys| && keys[n] in start.promotions
    ensures var p := PassAt(hs, now, dryRun, start, keys, visits, n + 1);
            var q := PassAt(hs, now, dryRun, start, keys, visits, m);
            keys[n] in p.promotions && keys[n] in q.promotions && q.promotions[keys[n]] == p.promotions[keys[n]]
    decreases m
  {
    hide Reconcile, PassAt;
    if n + 1 < m {
      LaterVisitsKeep(hs, now, dryRun, start, keys, visits, n, m - 1);
      PassStep(hs, now, dryRun, start, keys, visits, m - 1);
      ReconcileMoves(hs, now, dryRun, PassAt(hs, now, dryRun, start, keys, visits, m - 1), keys[m - 1], visits(m - 1));
    } else {
      UnvisitedAt(hs, now, dryRun, start, keys, visits, n);
      PassStep(hs, now, dryRun, start, keys, visits, n);
      ReconcileMoves(hs, now, dryRun, PassAt(hs, now, dryRun, start, keys, visits, n), keys[n], visits(n));
    }
  }

  /** A pass answers once for each record that it finds open, from the record as it was loaded and the files
      as they are by then; the record ends as this answer left it.  Nothing else is reported. */
  lemma PassAnswers(hs: Hashes, now: nat, dryRun: bool, start: Pass, keys: seq<Key>, visits: nat -> Visit, n: nat)
    requires Distinct(keys) && n < |keys|
    ensures var p, q := PassAt(hs, now, dryRun, start, keys, visits, n),
            PassAt(hs, now, dryRun, start, keys, visits, n + 1);
            var key, end := keys[n], ReconcileAll(hs, now, dryRun, start, keys, visits);
            if key in start.promotions && Open(start.promotions[key]) then
              && key in p.promotions && p.promotions[key] == start.promotions[key]
              && Answers(hs, now, dryRun, p, q, key, visits(n))
              && key in q.promotions && key in end.promotions && end.promotions[key] == q.promotions[key]
            else q == p
  {
    hide Reconcile, ReconcileAll, Answers;
    var key := keys[n];
    UnvisitedAt(hs, now, dryRun, start, keys, visits, n);
    PassStep(hs, now, dryRun, start, keys, visits, n);
    var p := PassAt(hs, now, dryRun, start, keys, visits, n);
    if key in start.promotions && Open(start.promotions[key]) {
      VisitAnswers(hs, now, dryRun, p, key, visits(n));
      LaterVisitsKeep(hs, now, dryRun, start, keys, visits, n, |keys|);
      assert keys[..|keys|] == keys;
    } else {
      ClosedIsLeft(hs, now, dryRun, p, key, visits(n));
    }
  }

  lemma ClosedIsLeft(hs: Hashes, now: nat, dryRun: bool, p: Pass, key: Key, v: Visit)
    requires key in p.promotions ==> !Open(p.promotions[key])
    ensures Reconcile(hs, now, dryRun, p, key, v) == p
  {
  }

  // ----- Dry runs -----

  lemma DryVisit(hs: Hashes, now: nat, p: Pass, key: Key, v: Visit)
    ensures var q := Reconcile(hs, now, true, p, key, v);
            q.img == p.img && AppliedKeys(q.deleted) == AppliedKeys(p.deleted)
  {
    hide Decide, Parse, Reclaimable, AppliedKeys;
    var q := Reconcile(hs, now, true, p, key, v);
    if q.deleted != p.deleted {
      assert |q.deleted| == |p.deleted| + 1;
      var d := q.deleted[|p.deleted|];
      assert q.deleted == p.deleted + [d] && !d.applied;
      AppliedSnoc(p.deleted, d);
    }
  }

  /** A dry pass leaves the files alone and applies no deletion. */
  lemma {:induction false} DryPassDeletesNothing(hs: Hashes, now: nat, start: Pass, keys: seq<Key>,
                                                 visits: nat -> Visit)
    requires AppliedKeys(start.deleted) == []
    ensures var q := ReconcileAll(hs, now, true, start, keys, visits);
            q.img == start.img && AppliedKeys(q.deleted) == []
    decreases |keys|
  {
    hide Reconcile, AppliedKeys;
    if |keys| > 0 {
      var n := |keys| - 1;
      DryPassDeletesNothing(hs, now, start, keys[..n], visits);
      DryVisit(hs, now, ReconcileAll(hs, now, true, start, keys[..n], visits), keys[n], visits(n));
    }
  }

  // ----- The disk after a deletion -----

  /** Whatever fails: the file changes exactly when nothing failed up to its replacement, then it lost just
      the entry and its backup holds the old text; a backup is created exactly when the lock and its name
      were granted, and is complete unless its writing failed; nothing else on disk changes. */
  lemma DiskExactly(img: Image, kind: Kind, index: int, expected: string, stamp: nat, fault: Fault)
    ensures var after, name := AfterDelete(img, kind, index, expected, stamp, fault), (kind, stamp);
            var replaced := Ready(img, kind, index, expected, stamp) && (fault.NoFault? || fault.ReadBackFailed?);
            var created := Ready(img, kind, index, expected, stamp) && !fault.LockRefused? && !fault.BackupRefused?;
            && after.files.Keys == img.files.Keys
            && (forall k :: k in img.files && !(replaced && k == kind) ==> after.files[k] == img.files[k])
            && (replaced ==> name in after.backups && after.backups[name] == expected == img.files[kind]
                             && Parse(after.files[kind]) == Without(Parse(expected), index))
            && after.backups.Keys == img.backups.Keys + (if created then {name} else {})
            && (forall b :: b in img.backups ==> after.backups[b] == img.backups[b])
            && (created ==> after.backups[name] == if fault.BackupTorn? then fault.written else expected)
  {
    if Ready(img, kind, index, expected, stamp) { ReadsBack(expected, index); }
    hide Parse, Serialize;
  }
}
