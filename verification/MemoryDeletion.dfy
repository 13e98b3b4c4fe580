/** Deleting promoted entries from the memory files.

    `DeleteEntry` is the guarded rewrite of one file; `ReconcilePromotions` decides, record by record,
    whether the persisted note authorizes it.  Locks and I/O answer through `Fault`, the notes and
    other writers through `Visit`. */
module MemoryDeletion {
  import opened Common
  import opened MemoryText
  import opened Reclaim

  // ----- One guarded deletion -----

  /** The two files and the exclusive backups, which are named by file and second. */
  datatype Image = Image(files: map<Kind, string>, backups: map<(Kind, nat), string>)

  datatype Fault =
    | NoFault
    | LockRefused      // not accessible, not regular, or the lock is held
    | BackupRefused    // the backup could not be created
    | BackupTorn(written: string)   // created, but not written to the end
    | ReplaceFailed    // the temporary file could not replace the file
    | ReadBackFailed   // replaced, but not readable afterwards

  datatype Outcome = Outcome(beforeChars: nat, afterChars: nat)

  /** Everything is as the caller saw it and the backup name is free. */
  predicate Ready(img: Image, kind: Kind, index: int, expected: string, stamp: nat) {
    && kind in img.files && img.files[kind] == expected
    && 0 <= index < |Parse(expected)| && (kind, stamp) !in img.backups
  }

  function Rewritten(text: string, index: nat): string
    requires index < |Parse(text)|
  {
    Serialize(Without(Parse(text), index))
  }

  /** What one call leaves on disk. */
  function AfterDelete(img: Image, kind: Kind, index: int, expected: string, stamp: nat, fault: Fault): Image {
    if !Ready(img, kind, index, expected, stamp) then img
    else match fault
      case LockRefused | BackupRefused => img
      case BackupTorn(written) => img.(backups := img.backups[(kind, stamp) := written])
      case ReplaceFailed => img.(backups := img.backups[(kind, stamp) := expected])
      case NoFault | ReadBackFailed =>
        Image(img.files[kind := Rewritten(expected, index)], img.backups[(kind, stamp) := expected])
  }

  // ----- Decisions -----

  type Digest = string

  datatype Key = Promotion(kind: Kind, digest: Digest) | Legacy(content: Digest)

  datatype Status = Prepared | Posted | Reconciled | LegacyUnbound

  datatype BlockReason =
    | NoteMissing | NoteNotRegularFile | NoteHashMismatch | MarkerMissing | MarkerMismatch
    | EntryNotFound | EntryAmbiguous | DeleteFailed | PostFailed | DryRun

  datatype Record = Record(kind: Kind, digest: Digest, noteHash: Digest, status: Status, reconciledAt: Option<nat>,
                           lastBlock: Option<BlockReason>)

  datatype Marker = Marker(key: Key, kind: Kind, digest: Digest, deleteAfterPersist: bool)

  /** The hashes and the marker parser. */
  datatype Hashes = Hashes(sha: string -> Digest, digest: (Kind, string) -> Digest, marker: string -> Option<Marker>)

  function Matching(hs: Hashes, kind: Kind, digest: Digest, es: seq<string>, n: nat): (m: seq<nat>)
    requires n <= |es|
    ensures forall i: nat :: i in m <==> i < n && hs.digest(kind, es[i]) == digest
    ensures forall a, b :: 0 <= a < b < |m| ==> m[a] < m[b]
  {
    if n == 0 then []
    else
      var below := Matching(hs, kind, digest, es, n - 1);
      if hs.digest(kind, es[n - 1]) == digest then
        assert forall a :: 0 <= a < |below| ==> below[a] in below;
        below + [n - 1]
      else below
  }

  datatype Decision = Skip(reason: Option<BlockReason>) | Terminal(reason: Option<BlockReason>) | Delete(index: nat)

  /** `decide_reconcile`; an undecodable note has no marker. */
  function Decide(hs: Hashes, r: Record, note: Option<string>, regular: bool, es: seq<string>): Decision {
    if r.status == LegacyUnbound then Skip(None)
    else if r.status == Reconciled then Terminal(None)
    else if note.None? then Skip(Some(NoteMissing))
    else if !regular then Skip(Some(NoteNotRegularFile))
    else if hs.sha(note.value) != r.noteHash then Skip(Some(NoteHashMismatch))
    else match hs.marker(note.value)
      case None => Skip(Some(MarkerMissing))
      case Some(m) =>
        if m.key != Promotion(r.kind, r.digest) || m.kind != r.kind || m.digest != r.digest || !m.deleteAfterPersist
        then Skip(Some(MarkerMismatch))
        else
          var matching := Matching(hs, r.kind, r.digest, es, |es|);
          if |matching| == 0 then Terminal(Some(EntryNotFound))
          else if |matching| >= 2 then Skip(Some(EntryAmbiguous))
          else Delete(matching[0])
  }

  /** The authority to delete entry `i`. */
  ghost predicate Authorizes(hs: Hashes, r: Record, note: Option<string>, es: seq<string>, i: nat): (ok: bool)
    ensures ok ==> i < |es|
  {
    && r.status in {Prepared, Posted}
    && note.Some? && hs.sha(note.value) == r.noteHash
    && hs.marker(note.value) == Some(Marker(Promotion(r.kind, r.digest), r.kind, r.digest, true))
    && i < |es| && hs.digest(r.kind, es[i]) == r.digest
    && forall j :: 0 <= j < |es| && j != i ==> hs.digest(r.kind, es[j]) != r.digest
  }

  /** Deletion is decided exactly for the one entry whose digest the intact note names. */
  lemma DeletesExactly(hs: Hashes, r: Record, note: Option<string>, regular: bool, es: seq<string>, i: nat)
    ensures Decide(hs, r, note, regular, es) == Delete(i) <==> regular && Authorizes(hs, r, note, es, i)
  {
    var matching := Matching(hs, r.kind, r.digest, es, |es|);
    assert |matching| >= 2 ==> matching[0] in matching && matching[1] in matching;
    if Decide(hs, r, note, regular, es) == Delete(i) {
      assert i in matching;
      forall j | 0 <= j < |es| && j != i
        ensures hs.digest(r.kind, es[j]) != r.digest
      {
        assert j !in matching;
      }
    }
    if regular && Authorizes(hs, r, note, es, i) {
      assert i in matching;
    }
  }

  /** A record whose note was never confirmed carries an empty hash and deletes nothing. */
  lemma UnconfirmedNeverDeletes(hs: Hashes, r: Record, note: Option<string>, regular: bool, es: seq<string>)
    requires r.noteHash == "" && forall bytes :: hs.sha(bytes) != ""
    ensures !Decide(hs, r, note, regular, es).Delete?
  {
    if Decide(hs, r, note, regular, es).Delete? {
      DeletesExactly(hs, r, note, regular, es, Decide(hs, r, note, regular, es).index);
      assert false;
    }
  }

  /** The one entry with the recorded digest is also the only one with its text, so the check after the
      rewrite passes. */
  lemma AuthorizedIsUnique(hs: Hashes, r: Record, note: Option<string>, es: seq<string>, i: nat)
    requires Authorizes(hs, r, note, es, i)
    ensures es[i] !in Without(es, i)
  {
  }

  // ----- One pass over the promotion records -----

  /** What record `n` of the pass meets: its note, another writer between reading and deleting, a fault. */
  datatype Visit = Visit(note: Option<string>, other: Option<string>, fault: Fault)

  datatype Deleted = Deleted(key: Key, text: string, freed: int, applied: bool)

  datatype Blocked = Blocked(key: Key, reason: BlockReason, text: Option<string>)

  datatype Pass = Pass(img: Image, promotions: map<Key, Record>, deleted: seq<Deleted>, blocked: seq<Blocked>,
                       reasons: set<BlockReason>)

  function TextOf(img: Image, kind: Kind): string {
    if kind in img.files then img.files[kind] else ""
  }

  function Interfere(img: Image, kind: Kind, other: Option<string>): Image {
    if other.Some? then img.(files := img.files[kind := other.value]) else img
  }

  predicate Succeeds(img: Image, kind: Kind, index: int, expected: string, stamp: nat, fault: Fault) {
    && Ready(img, kind, index, expected, stamp) && fault == NoFault
    && Parse(expected)[index] !in Without(Parse(expected), index)
  }

  /** One iteration of `reconcile_promotions`. */
  function Reconcile(hs: Hashes, now: nat, dryRun: bool, p: Pass, key: Key, v: Visit): Pass {
    if key !in p.promotions || p.promotions[key].status !in {Prepared, Posted} then p
    else
      var r := p.promotions[key];
      var text := TextOf(p.img, r.kind);
      var es := Parse(text);
      match Decide(hs, r, v.note, v.note.Some?, es)
      case Skip(reason) =>
        var p1 := p.(promotions := p.promotions[key := r.(lastBlock := reason)]);
        if reason.None? then p1
        else p1.(reasons := p.reasons + {reason.value}, blocked := p.blocked + [Blocked(key, reason.value, None)])
      case Terminal(reason) =>
        p.(promotions := p.promotions[key := r.(status := Reconciled, reconciledAt := Some(now), lastBlock := reason)])
      case Delete(i) =>
        if i >= |es| then p
        else if dryRun then p.(deleted := p.deleted + [Deleted(key, es[i], Reclaimable(es, i), false)])
        else
          var img := Interfere(p.img, r.kind, v.other);
          var p1 := p.(img := AfterDelete(img, r.kind, i, text, now, v.fault));
          if Succeeds(img, r.kind, i, text, now, v.fault) then
            p1.(promotions :=
                p.promotions[key := r.(status := Reconciled, reconciledAt := Some(now), lastBlock := None)],
                deleted := p.deleted + [Deleted(key, es[i], Reclaimable(es, i), true)])
          else
            p1.(promotions := p.promotions[key := r.(lastBlock := Some(DeleteFailed))],
                blocked := p.blocked + [Blocked(key, DeleteFailed, Some(es[i]))])
  }

  function ReconcileAll(hs: Hashes, now: nat, dryRun: bool, start: Pass, keys: seq<Key>, visits: nat -> Visit): Pass
    decreases |keys|
  {
    if |keys| == 0 then start
    else
      var n := |keys| - 1;
      Reconcile(hs, now, dryRun, ReconcileAll(hs, now, dryRun, start, keys[..n], visits), keys[n], visits(n))
  }

  class Disk {
    var files: map<Kind, string>
    var backups: map<(Kind, nat), string>

    constructor (img: Image)
      ensures Snapshot() == img
    {
      files, backups := img.files, img.backups;
    }

    ghost function Snapshot(): Image
      reads this
    {
      Image(files, backups)
    }

    /** `delete_entry`.  `None` stands for the raised `DeletionError`; the file has been replaced all the
        same when the fault is `ReadBackFailed` or the removed text occurs again. */
    method DeleteEntry(kind: Kind, index: int, expected: string, stamp: nat, fault: Fault)
        returns (outcome: Option<Outcome>)
      modifies this
      ensures Snapshot() == AfterDelete(old(Snapshot()), kind, index, expected, stamp, fault)
      ensures outcome.Some? <==> Succeeds(old(Snapshot()), kind, index, expected, stamp, fault)
      ensures outcome.Some? ==>
                && outcome.value.beforeChars == CharCount(Parse(expected))
                && outcome.value.afterChars == |files[kind]|
                && outcome.value.beforeChars - outcome.value.afterChars == Reclaimable(Parse(expected), index)
    {
      hide Parse, Serialize;
      if fault == LockRefused || kind !in files { return None; }
      var data := files[kind];
      if data != expected { return None; }
      var original := ParseMemoryFile(data);
      if !(0 <= index < |original|) { return None; }
      var removed := original[index];
      if (kind, stamp) in backups || fault == BackupRefused { return None; }
      if fault.BackupTorn? {
        backups := backups[(kind, stamp) := fault.written];
        return None;
      }
      backups := backups[(kind, stamp) := data];
      var remaining := original[..index] + original[index + 1..];
      var rewritten := Serialize(remaining);
      if fault == ReplaceFailed { return None; }
      files := files[kind := rewritten];
      if fault == ReadBackFailed { return None; }
      var readBack := files[kind];
      var verified := ParseMemoryFile(readBack);
      ReadsBack(data, index);
      if readBack != rewritten || |verified| != |original| - 1 || removed in verified { return None; }
      return Some(Outcome(CharCount(original), CharCount(remaining)));
    }

    /** `reconcile_promotions` over the records in their stored order. */
    method ReconcilePromotions(hs: Hashes, now: nat, dryRun: bool, loaded: map<Key, Record>, keys: seq<Key>,
                               visits: nat -> Visit)
      returns (promotions: map<Key, Record>, deleted: seq<Deleted>, blocked: seq<Blocked>, reasons: set<BlockReason>)
      modifies this
      ensures Pass(Snapshot(), promotions, deleted, blocked, reasons) ==
              ReconcileAll(hs, now, dryRun, Pass(old(Snapshot()), loaded, [], [], {}), keys, visits)
    {
      hide Parse, Decide, AfterDelete, Succeeds, Reclaimable;
      promotions, deleted, blocked, reasons := loaded, [], [], {};
      ghost var start := Pass(old(Snapshot()), loaded, [], [], {});
      for n := 0 to |keys|
        invariant Pass(Snapshot(), promotions, deleted, blocked, reasons)
                  == ReconcileAll(hs, now, dryRun, start, keys[..n], visits)
      {
        assert keys[..n + 1][..n] == keys[..n];
        var key, v := keys[n], visits(n);
        ghost var before := Pass(Snapshot(), promotions, deleted, blocked, reasons);
        if key in promotions && promotions[key].status in {Prepared, Posted} {
          var r := promotions[key];
          var text := if r.kind in files then files[r.kind] else "";
          var es := ParseMemoryFile(text);
          match Decide(hs, r, v.note, v.note.Some?, es) {
            case Skip(reason) =>
              promotions := promotions[key := r.(lastBlock := reason)];
              if reason.Some? {
                reasons := reasons + {reason.value};
                blocked := blocked + [Blocked(key, reason.value, None)];
              }
            case Terminal(reason) =>
              promotions := promotions[key := r.(status := Reconciled, reconciledAt := Some(now), lastBlock := reason)];
            case Delete(i) =>
              if i < |es| {
                if dryRun {
                  deleted := deleted + [Deleted(key, es[i], Reclaimable(es, i), false)];
                } else {
                  if v.other.Some? { files := files[r.kind := v.other.value]; }
                  var outcome := DeleteEntry(r.kind, i, text, now, v.fault);
                  if outcome.Some? {
                    promotions :=
                        promotions[key := r.(status := Reconciled, reconciledAt := Some(now), lastBlock := None)];
                    deleted := deleted
                        + [Deleted(key, es[i], outcome.value.beforeChars - outcome.value.afterChars, true)];
                  } else {
                    promotions := promotions[key := r.(lastBlock := Some(DeleteFailed))];
                    blocked := blocked + [Blocked(key, DeleteFailed, Some(es[i]))];
                  }
                }
              }
          }
        }
        assert Pass(Snapshot(), promotions, deleted, blocked, reasons) == Reconcile(hs, now, dryRun, before, key, v);
      }
      assert keys[..|keys|] == keys;
    }
  }

  lemma ReadsBack(text: string, i: nat)
    requires i < |Parse(text)|
    ensures Parse(Rewritten(text, i)) == Without(Parse(text), i)
  {
    hide Parse, Canonical;
    ParseIsCanonical(text);
    assert AllCanonical(Without(Parse(text), i));
    ParseSerialize(Without(Parse(text), i));
  }

  // ----- What a pass does to the files -----

  /** The pass before its visit `n`. */
  function PassAt(hs: Hashes, now: nat, dryRun: bool, start: Pass, keys: seq<Key>, visits: nat -> Visit, n: nat): Pass
    requires n <= |keys|
  {
    ReconcileAll(hs, now, dryRun, start, keys[..n], visits)
  }

  lemma PassStep(hs: Hashes, now: nat, dryRun: bool, start: Pass, keys: seq<Key>, visits: nat -> Visit, n: nat)
    requires n < |keys|
    ensures PassAt(hs, now, dryRun, start, keys, visits, n + 1)
            == Reconcile(hs, now, dryRun, PassAt(hs, now, dryRun, start, keys, visits, n), keys[n], visits(n))
  {
    hide Reconcile;
    assert keys[..n + 1][..n] == keys[..n];
  }

  predicate Distinct(keys: seq<Key>) {
    forall a, b :: 0 <= a < b < |keys| ==> keys[a] != keys[b]
  }

  lemma {:induction false} UnvisitedUnchanged(hs: Hashes, now: nat, dryRun: bool, start: Pass, keys: seq<Key>,
                                              visits: nat -> Visit, key: Key)
    requires key !in keys
    ensures var p := ReconcileAll(hs, now, dryRun, start, keys, visits);
            (key in p.promotions <==> key in start.promotions)
            && (key in p.promotions ==> p.promotions[key] == start.promotions[key])
    decreases |keys|
  {
    hide Decide, AfterDelete, Parse, Succeeds;
    if |keys| > 0 { UnvisitedUnchanged(hs, now, dryRun, start, keys[..|keys| - 1], visits, key); }
  }

  /** The visit of `key` reads `text` and then replaces the file by `text` without entry `i`. */
  ghost predicate Removes(hs: Hashes, p: Pass, q: Pass, key: Key, v: Visit, kind: Kind, now: nat, i: nat) {
    var text := TextOf(p.img, kind);
    && key in p.promotions && p.promotions[key].kind == kind
    && Authorizes(hs, p.promotions[key], v.note, Parse(text), i)
    && (v.other.Some? ==> v.other.value == text) && (kind, now) !in p.img.backups
    && q.img == Image(p.img.files[kind := Rewritten(text, i)], p.img.backups[(kind, now) := text])
  }

  /** What one visit may do to the files: nothing, what another writer did, or one authorized removal.
      Backups only become more. */
  ghost predicate FilesMove(hs: Hashes, now: nat, dryRun: bool, p: Pass, q: Pass, key: Key, v: Visit) {
    && p.img.backups.Keys <= q.img.backups.Keys
    && (|| q.img.files == p.img.files
        || (key in p.promotions && q.img.files == Interfere(p.img, p.promotions[key].kind, v.other).files)
        || (!dryRun && key in p.promotions
            && exists i: nat :: Removes(hs, p, q, key, v, p.promotions[key].kind, now, i)))
  }

  lemma DeleteCases(img: Image, kind: Kind, index: nat, text: string, now: nat, fault: Fault)
    ensures var after := AfterDelete(img, kind, index, text, now, fault);
            && img.backups.Keys <= after.backups.Keys
            && (|| after.files == img.files
                || (kind in img.files && img.files[kind] == text && index < |Parse(text)|
                    && (kind, now) !in img.backups && after.backups == img.backups[(kind, now) := text]
                    && after.files == img.files[kind := Rewritten(text, index)]))
  {
    hide Parse, Serialize;
  }

  lemma VisitMovesFiles(hs: Hashes, now: nat, dryRun: bool, p: Pass, key: Key, v: Visit)
    ensures FilesMove(hs, now, dryRun, p, Reconcile(hs, now, dryRun, p, key, v), key, v)
  {
    hide Decide, Parse, Authorizes, Serialize, AfterDelete, Reclaimable, Succeeds;
    if key in p.promotions && p.promotions[key].status in {Prepared, Posted} {
      var r := p.promotions[key];
      var text := TextOf(p.img, r.kind);
      var d := Decide(hs, r, v.note, v.note.Some?, Parse(text));
      if d.Delete? && !dryRun {
        DeletesExactly(hs, r, v.note, v.note.Some?, Parse(text), d.index);
        var met := Interfere(p.img, r.kind, v.other);
        DeleteCases(met, r.kind, d.index, text, now, v.fault);
        var q := Reconcile(hs, now, dryRun, p, key, v);
        if q.img.files != met.files {
          assert met.files[r.kind := Rewritten(text, d.index)] == p.img.files[r.kind := Rewritten(text, d.index)];
          assert Removes(hs, p, q, key, v, r.kind, now, d.index);
        }
      }
    }
  }

  /** Visit `n` of the pass removes entry `i` from the file of `kind`. */
  ghost predicate RemovesAt(hs: Hashes, now: nat, dryRun: bool, start: Pass, keys: seq<Key>, visits: nat -> Visit,
                            n: nat, kind: Kind, i: nat)
    requires n < |keys|
  {
    Removes(hs, PassAt(hs, now, dryRun, start, keys, visits, n), PassAt(hs, now, dryRun, start, keys, visits, n + 1),
            keys[n], visits(n), kind, now, i)
  }

  lemma {:induction false} BackupsGrow(hs: Hashes, now: nat, dryRun: bool, start: Pass, keys: seq<Key>,
                                       visits: nat -> Visit, m: nat, n: nat)
    requires m <= n <= |keys|
    ensures PassAt(hs, now, dryRun, start, keys, visits, m).img.backups.Keys
            <= PassAt(hs, now, dryRun, start, keys, visits, n).img.backups.Keys
    decreases n
  {
    hide Reconcile, PassAt;
    if m < n {
      BackupsGrow(hs, now, dryRun, start, keys, visits, m, n - 1);
      PassStep(hs, now, dryRun, start, keys, visits, n - 1);
      VisitMovesFiles(hs, now, dryRun, PassAt(hs, now, dryRun, start, keys, visits, n - 1), keys[n - 1], visits(n - 1));
    }
  }

  /** Whatever other writers do in between, a pass removes at most one entry from each file: the backup is
      named after the second of the pass. */
  lemma PassDeletesAtMostOne(hs: Hashes, now: nat, dryRun: bool, start: Pass, keys: seq<Key>, visits: nat -> Visit,
                             kind: Kind, m: nat, i: nat, n: nat, j: nat)
    requires m < |keys| && n < |keys|
    requires RemovesAt(hs, now, dryRun, start, keys, visits, m, kind, i)
    requires RemovesAt(hs, now, dryRun, start, keys, visits, n, kind, j)
    ensures m == n && (kind, now) !in start.img.backups
  {
    hide PassAt, Authorizes, Parse, Serialize, ReconcileAll;
    if m < n {
      BackupsGrow(hs, now, dryRun, start, keys, visits, m + 1, n);
    } else if n < m {
      BackupsGrow(hs, now, dryRun, start, keys, visits, n + 1, m);
    }
    BackupsGrow(hs, now, dryRun, start, keys, visits, 0, n);
    PassStarts(hs, now, dryRun, start, keys, visits);
  }

  lemma PassStarts(hs: Hashes, now: nat, dryRun: bool, start: Pass, keys: seq<Key>, visits: nat -> Visit)
    ensures PassAt(hs, now, dryRun, start, keys, visits, 0) == start
  {
  }

  /** Record `keys[n]` as the pass found it authorizes removing entry `i` of the text it read, and the
      visit leaves all other entries in place and in order. */
  ghost predicate KeepsOthers(hs: Hashes, start: Pass, key: Key, note: Option<string>, kind: Kind, before: string,
                              after: string, i: nat) {
    && key in start.promotions && start.promotions[key].kind == kind
    && Authorizes(hs, start.promotions[key], note, Parse(before), i) && Parse(after) == Without(Parse(before), i)
  }

  /** Each visit of a pass leaves a file as it was, as another writer made it, or without exactly the
      entry that an intact note authorized. */
  lemma PassKeepsEntries(hs: Hashes, now: nat, dryRun: bool, start: Pass, keys: seq<Key>, visits: nat -> Visit,
                         n: nat, kind: Kind)
    requires Distinct(keys) && n < |keys|
    ensures var p := PassAt(hs, now, dryRun, start, keys, visits, n);
            var q := PassAt(hs, now, dryRun, start, keys, visits, n + 1);
            var before, after := TextOf(p.img, kind), TextOf(q.img, kind);
            || after == before
            || visits(n).other == Some(after)
            || (exists i: nat :: !dryRun && RemovesAt(hs, now, dryRun, start, keys, visits, n, kind, i)
                                 && KeepsOthers(hs, start, keys[n], visits(n).note, kind, before, after, i))
  {
    hide Reconcile, Parse, Serialize, Authorizes, ReconcileAll;
    var p, q := PassAt(hs, now, dryRun, start, keys, visits, n), PassAt(hs, now, dryRun, start, keys, visits, n + 1);
    PassStep(hs, now, dryRun, start, keys, visits, n);
    VisitMovesFiles(hs, now, dryRun, p, keys[n], visits(n));
    UnvisitedAt(hs, now, dryRun, start, keys, visits, n);
    if i: nat :| keys[n] in p.promotions && !dryRun
                 && Removes(hs, p, q, keys[n], visits(n), p.promotions[keys[n]].kind, now, i)
    {
      if p.promotions[keys[n]].kind == kind {
        ReadsBack(TextOf(p.img, kind), i);
        assert RemovesAt(hs, now, dryRun, start, keys, visits, n, kind, i);
        assert KeepsOthers(hs, start, keys[n], visits(n).note, kind, TextOf(p.img, kind), TextOf(q.img, kind), i);
      }
    }
  }

  lemma UnvisitedAt(hs: Hashes, now: nat, dryRun: bool, start: Pass, keys: seq<Key>, visits: nat -> Visit, n: nat)
    requires Distinct(keys) && n < |keys|
    ensures var p := PassAt(hs, now, dryRun, start, keys, visits, n);
            (keys[n] in p.promotions <==> keys[n] in start.promotions)
            && (keys[n] in p.promotions ==> p.promotions[keys[n]] == start.promotions[keys[n]])
  {
    UnvisitedUnchanged(hs, now, dryRun, start, keys[..n], visits, keys[n]);
  }

  /** Visit `m`, before visit `n`, removed one entry of the file as the pass found it, and nothing else
      happened to that file. */
  ghost predicate RemovedOnce(hs: Hashes, now: nat, dryRun: bool, start: Pass, keys: seq<Key>, visits: nat -> Visit,
                              n: nat, kind: Kind)
    requires n <= |keys|
  {
    exists m: nat, i: nat :: m < n && RemovesAt(hs, now, dryRun, start, keys, visits, m, kind, i)
      && KeepsOthers(hs, start, keys[m], visits(m).note, kind, TextOf(start.img, kind),
                     TextOf(PassAt(hs, now, dryRun, start, keys, visits, n).img, kind), i)
  }

  /** Without another writer, a pass leaves each file as it found it or without one authorized entry. */
  lemma {:induction false} PassAlone(hs: Hashes, now: nat, dryRun: bool, start: Pass, keys: seq<Key>,
                                     visits: nat -> Visit, n: nat, kind: Kind)
    requires Distinct(keys) && n <= |keys| && forall m :: visits(m).other.None?
    ensures TextOf(PassAt(hs, now, dryRun, start, keys, visits, n).img, kind) == TextOf(start.img, kind)
            || (!dryRun && RemovedOnce(hs, now, dryRun, start, keys, visits, n, kind))
  {
    hide PassAt, RemovesAt, KeepsOthers, TextOf;
    if n == 0 {
      PassStarts(hs, now, dryRun, start, keys, visits);
    } else {
      PassAlone(hs, now, dryRun, start, keys, visits, n - 1, kind);
      PassKeepsEntries(hs, now, dryRun, start, keys, visits, n - 1, kind);
      var p, q := PassAt(hs, now, dryRun, start, keys, visits, n - 1), PassAt(hs, now, dryRun, start, keys, visits, n);
      if TextOf(q.img, kind) != TextOf(p.img, kind) {
        var j: nat :| RemovesAt(hs, now, dryRun, start, keys, visits, n - 1, kind, j)
                      && KeepsOthers(hs, start, keys[n - 1], visits(n - 1).note, kind, TextOf(p.img, kind),
                                     TextOf(q.img, kind), j);
        if TextOf(p.img, kind) != TextOf(start.img, kind) {
          var m: nat, i: nat :| m < n - 1 && RemovesAt(hs, now, dryRun, start, keys, visits, m, kind, i);
          PassDeletesAtMostOne(hs, now, dryRun, start, keys, visits, kind, m, i, n - 1, j);
        }
      }
    }
  }

  /** An authorized entry is deleted when nothing interferes: the file loses it, the record is reconciled
      and the deletion is reported. */
  lemma AuthorizedIsDeleted(hs: Hashes, now: nat, p: Pass, key: Key, v: Visit, i: nat)
    requires key in p.promotions && v.other.None? && v.fault == NoFault
    requires var r := p.promotions[key];
             && r.kind in p.img.files && (r.kind, now) !in p.img.backups
             && Authorizes(hs, r, v.note, Parse(TextOf(p.img, r.kind)), i)
    ensures var q := Reconcile(hs, now, false, p, key, v);
            var r, text := p.promotions[key], TextOf(p.img, p.promotions[key].kind);
            && q.img.files == p.img.files[r.kind := Rewritten(text, i)]
            && q.img.backups == p.img.backups[(r.kind, now) := text]
            && q.promotions[key].status == Reconciled
            && q.deleted == p.deleted + [Deleted(key, Parse(text)[i], Reclaimable(Parse(text), i), true)]
  {
    hide Parse, Decide, Serialize, Reclaimable;
    var r := p.promotions[key];
    DeletesExactly(hs, r, v.note, v.note.Some?, Parse(TextOf(p.img, r.kind)), i);
    AuthorizedIsUnique(hs, r, v.note, Parse(TextOf(p.img, r.kind)), i);
  }

  // ----- What a pass does to the records -----

  /** Only the status, the time and the block reason of a record may move, and the status only forward. */
  predicate Moves(r: Record, s: Record) {
    && s.kind == r.kind && s.digest == r.digest && s.noteHash == r.noteHash
    && (s.status == r.status || (r.status in {Prepared, Posted} && s.status == Reconciled))
  }

  /** The record was open, some note had its confirmed hash, and it is reconciled now. */
  ghost predicate Closed(hs: Hashes, r: Record, s: Record) {
    r.status in {Prepared, Posted} && s.status == Reconciled && exists bytes :: hs.sha(bytes) == r.noteHash
  }

  function AppliedKeys(ds: seq<Deleted>): seq<Key> {
    if |ds| == 0 then []
    else AppliedKeys(ds[..|ds| - 1]) + (if ds[|ds| - 1].applied then [ds[|ds| - 1].key] else [])
  }

  lemma AppliedSnoc(ds: seq<Deleted>, d: Deleted)
    ensures AppliedKeys(ds + [d]) == AppliedKeys(ds) + (if d.applied then [d.key] else [])
  {
    assert (ds + [d])[..|ds|] == ds;
  }

  lemma ReconcileRecords(hs: Hashes, now: nat, dryRun: bool, p: Pass, key: Key, v: Visit)
    ensures var q := Reconcile(hs, now, dryRun, p, key, v);
            || q.promotions == p.promotions
            || (key in p.promotions && q.promotions == p.promotions[key := q.promotions[key]]
                && Moves(p.promotions[key], q.promotions[key]))
  {
    hide Decide, Parse, AfterDelete, Succeeds, Reclaimable, Interfere;
  }

  lemma MovesReflexive(r: Record)
    ensures Moves(r, r)
  {
  }

  /** A record adds at most one deletion, and a real one only by closing itself. */
  lemma ReconcileDeletes(hs: Hashes, now: nat, dryRun: bool, p: Pass, key: Key, v: Visit)
    ensures var q := Reconcile(hs, now, dryRun, p, key, v);
            || q.deleted == p.deleted
            || (exists d: Deleted :: q.deleted == p.deleted + [d] && d.key == key
                                     && (d.applied ==>
                                         key in p.promotions && key in q.promotions
                                         && Closed(hs, p.promotions[key], q.promotions[key])))
  {
    hide Decide, Parse, AfterDelete, Succeeds, Reclaimable;
    if key in p.promotions && p.promotions[key].status in {Prepared, Posted} {
      var r := p.promotions[key];
      var es := Parse(TextOf(p.img, r.kind));
      var d := Decide(hs, r, v.note, v.note.Some?, es);
      if d.Delete? && d.index < |es| {
        DeletesExactly(hs, r, v.note, v.note.Some?, es, d.index);
        var item := Deleted(key, es[d.index], Reclaimable(es, d.index), !dryRun);
        var q := Reconcile(hs, now, dryRun, p, key, v);
        assert q.deleted == p.deleted || q.deleted == p.deleted + [item];
      }
    }
  }

  lemma ReconcileMoves(hs: Hashes, now: nat, dryRun: bool, p: Pass, key: Key, v: Visit)
    ensures var q := Reconcile(hs, now, dryRun, p, key, v);
            && q.promotions.Keys == p.promotions.Keys
            && (forall k :: k in p.promotions && k != key ==> q.promotions[k] == p.promotions[k])
            && (key in p.promotions ==> Moves(p.promotions[key], q.promotions[key]))
    ensures var q := Reconcile(hs, now, dryRun, p, key, v);
            || AppliedKeys(q.deleted) == AppliedKeys(p.deleted)
            || (AppliedKeys(q.deleted) == AppliedKeys(p.deleted) + [key] && key in p.promotions
                && Closed(hs, p.promotions[key], q.promotions[key]))
  {
    hide Reconcile, AppliedKeys, Closed, Moves;
    ReconcileRecords(hs, now, dryRun, p, key, v);
    if key in p.promotions { MovesReflexive(p.promotions[key]); }
    ReconcileDeletes(hs, now, dryRun, p, key, v);
    var q := Reconcile(hs, now, dryRun, p, key, v);
    if q.deleted != p.deleted {
      var d: Deleted :| q.deleted == p.deleted + [d] && d.key == key
                        && (d.applied ==>
                            key in p.promotions && key in q.promotions
                            && Closed(hs, p.promotions[key], q.promotions[key]));
      AppliedSnoc(p.deleted, d);
    }
  }

  predicate InOrder(ks: seq<Key>, keys: seq<Key>) {
    Distinct(ks) && forall k :: k in ks ==> k in keys
  }

  /** Over a pass records only move forward. */
  lemma {:induction false} PassMoves(hs: Hashes, now: nat, dryRun: bool, start: Pass, keys: seq<Key>,
                                     visits: nat -> Visit)
    requires Distinct(keys)
    ensures var p := ReconcileAll(hs, now, dryRun, start, keys, visits);
            && p.promotions.Keys == start.promotions.Keys
            && forall k :: k in start.promotions ==> Moves(start.promotions[k], p.promotions[k])
    decreases |keys|
  {
    assert |keys| == 0 ==> forall k :: k in start.promotions ==> Moves(start.promotions[k], start.promotions[k]);
    hide Reconcile, AppliedKeys, Closed, Moves;
    if |keys| > 0 {
      var n := |keys| - 1;
      PassMoves(hs, now, dryRun, start, keys[..n], visits);
      UnvisitedUnchanged(hs, now, dryRun, start, keys[..n], visits, keys[n]);
      ReconcileMoves(hs, now, dryRun, ReconcileAll(hs, now, dryRun, start, keys[..n], visits), keys[n], visits(n));
    }
  }

  lemma NothingApplied()
    ensures AppliedKeys([]) == []
  {
  }

  ghost predicate AllClosed(hs: Hashes, start: Pass, p: Pass, ks: seq<Key>) {
    forall k :: k in ks ==>
        k in start.promotions && k in p.promotions
        && Closed(hs, start.promotions[k], p.promotions[k])
  }

  /** The keys deleted for real are distinct, were open before the pass and are reconciled after it. */
  lemma {:induction false} PassCloses(hs: Hashes, now: nat, dryRun: bool, start: Pass, keys: seq<Key>,
                                      visits: nat -> Visit)
    requires Distinct(keys) && start.deleted == []
    ensures var p := ReconcileAll(hs, now, dryRun, start, keys, visits);
            InOrder(AppliedKeys(p.deleted), keys) && AllClosed(hs, start, p, AppliedKeys(p.deleted))
    decreases |keys|
  {
    hide Reconcile, AppliedKeys, Closed, Moves;
    if |keys| == 0 {
      NothingApplied();
    } else {
      var n := |keys| - 1;
      PassCloses(hs, now, dryRun, start, keys[..n], visits);
      UnvisitedUnchanged(hs, now, dryRun, start, keys[..n], visits, keys[n]);
      var p := ReconcileAll(hs, now, dryRun, start, keys[..n], visits);
      var q := ReconcileAll(hs, now, dryRun, start, keys, visits);
      ReconcileMoves(hs, now, dryRun, p, keys[n], visits(n));
      forall k | k in AppliedKeys(q.deleted)
        ensures k in start.promotions && k in q.promotions && Closed(hs, start.promotions[k], q.promotions[k])
      {
        if k in keys[..n] { assert q.promotions.Keys == p.promotions.Keys; }
      }
    }
  }
}
