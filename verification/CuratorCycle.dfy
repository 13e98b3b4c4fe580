/** One memory-curator cycle after compaction: reconcile, promote, and deliver owner events and alerts
    around durable checkpoints.

    The classifier, the ranking and the note store enter as inputs of the cycle, and so does the point
    where it may be cut short. */
module CuratorCycle {
  import opened Common
  import opened Reclaim
  import opened MemoryDeletion

  // ----- Promotion -----

  datatype Candidate = Candidate(kind: Kind, text: string)

  datatype Receipt = Receipt(draft: nat, noteHash: Digest)

  datatype Promoted = Promoted(key: Key, text: string, draft: nat)

  datatype Selection = Selection(promotions: map<Key, Record>, promoted: seq<Promoted>, blocked: seq<Blocked>,
                                 attempts: nat, stopped: bool)

  /** `legacy_covers`; `content` is the old text hash. */
  predicate LegacyCovers(promotions: map<Key, Record>, content: string -> Digest, text: string) {
    Legacy(content(text)) in promotions && promotions[Legacy(content(text))].status == LegacyUnbound
  }

  /** One candidate of `select_promotions`. */
  function SelectOne(hs: Hashes, content: string -> Digest, dryRun: bool, max: int, s: Selection, c: Candidate,
                     receipt: Option<Receipt>): Selection {
    var digest := hs.digest(c.kind, c.text);
    var key := Promotion(c.kind, digest);
    if s.stopped || LegacyCovers(s.promotions, content, c.text) then s
    else if key in s.promotions && s.promotions[key].status != Prepared then s
    else if s.attempts >= max then s.(stopped := true)
    else
      var record := if key in s.promotions then s.promotions[key] else Record(c.kind, digest, "", Prepared, None, None);
      var tried := s.(attempts := s.attempts + 1);
      if dryRun then
        tried.(promotions := s.promotions[key := record], blocked := s.blocked + [Blocked(key, DryRun, Some(c.text))])
      else match receipt
        case None =>
          tried.(promotions := s.promotions[key := record.(lastBlock := Some(PostFailed))],
                 blocked := s.blocked + [Blocked(key, PostFailed, Some(c.text))])
        case Some(r) =>
          tried.(promotions :=
                 s.promotions[key := record.(status := Posted, noteHash := r.noteHash, lastBlock := None)],
                 promoted := s.promoted + [Promoted(key, c.text, r.draft)])
  }

  function SelectAll(hs: Hashes, content: string -> Digest, dryRun: bool, max: int, promotions: map<Key, Record>,
                     cs: seq<Candidate>, receipts: nat -> Option<Receipt>): Selection
    decreases |cs|
  {
    if |cs| == 0 then Selection(promotions, [], [], 0, false)
    else
      var n := |cs| - 1;
      SelectOne(hs, content, dryRun, max, SelectAll(hs, content, dryRun, max, promotions, cs[..n], receipts), cs[n],
                receipts(n))
  }

  lemma {:induction false} SelectStops(hs: Hashes, content: string -> Digest, dryRun: bool, max: int,
                                       promotions: map<Key, Record>, cs: seq<Candidate>,
                                       receipts: nat -> Option<Receipt>, i: nat)
    requires i <= |cs| && SelectAll(hs, content, dryRun, max, promotions, cs[..i], receipts).stopped
    ensures SelectAll(hs, content, dryRun, max, promotions, cs, receipts)
            == SelectAll(hs, content, dryRun, max, promotions, cs[..i], receipts)
    decreases |cs|
  {
    if i == |cs| {
      assert cs[..i] == cs;
    } else {
      assert cs[..|cs| - 1][..i] == cs[..i];
      SelectStops(hs, content, dryRun, max, promotions, cs[..|cs| - 1], receipts, i);
    }
  }

  /** `select_promotions`. */
  method SelectPromotions(hs: Hashes, content: string -> Digest, dryRun: bool, max: int, loaded: map<Key, Record>,
                          cs: seq<Candidate>, receipts: nat -> Option<Receipt>)
    returns (promotions: map<Key, Record>, promoted: seq<Promoted>, blocked: seq<Blocked>, attempts: nat)
    ensures var s := SelectAll(hs, content, dryRun, max, loaded, cs, receipts);
            promotions == s.promotions && promoted == s.promoted && blocked == s.blocked && attempts == s.attempts
    ensures attempts <= if max < 0 then 0 else max
  {
    hide SelectAll, LegacyCovers;
    promotions, promoted, blocked, attempts := loaded, [], [], 0;
    SelectNone(hs, content, dryRun, max, loaded, cs, receipts);
    for i := 0 to |cs|
      invariant SelectAll(hs, content, dryRun, max, loaded, cs[..i], receipts)
                == Selection(promotions, promoted, blocked, attempts, false)
      invariant attempts <= if max < 0 then 0 else max
    {
      var c := cs[i];
      SelectSnoc(hs, content, dryRun, max, loaded, cs, receipts, i);
      var digest := hs.digest(c.kind, c.text);
      var key := Promotion(c.kind, digest);
      if LegacyCovers(promotions, content, c.text) { continue; }
      if key in promotions && promotions[key].status != Prepared { continue; }
      if attempts >= max {
        SelectStops(hs, content, dryRun, max, loaded, cs, receipts, i + 1);
        return;
      }
      var record := if key in promotions then promotions[key] else Record(c.kind, digest, "", Prepared, None, None);
      attempts := attempts + 1;
      if dryRun {
        promotions := promotions[key := record];
        blocked := blocked + [Blocked(key, DryRun, Some(c.text))];
        continue;
      }
      var receipt := receipts(i);
      if receipt.None? {
        promotions := promotions[key := record.(lastBlock := Some(PostFailed))];
        blocked := blocked + [Blocked(key, PostFailed, Some(c.text))];
        continue;
      }
      promotions := promotions[key := record.(status := Posted, noteHash := receipt.value.noteHash, lastBlock := None)];
      promoted := promoted + [Promoted(key, c.text, receipt.value.draft)];
    }
    assert cs[..|cs|] == cs;
  }

  lemma SelectNone(hs: Hashes, content: string -> Digest, dryRun: bool, max: int, promotions: map<Key, Record>,
                   cs: seq<Candidate>, receipts: nat -> Option<Receipt>)
    ensures SelectAll(hs, content, dryRun, max, promotions, cs[..0], receipts)
            == Selection(promotions, [], [], 0, false)
  {
  }

  lemma SelectSnoc(hs: Hashes, content: string -> Digest, dryRun: bool, max: int, promotions: map<Key, Record>,
                   cs: seq<Candidate>, receipts: nat -> Option<Receipt>, i: nat)
    requires i < |cs|
    ensures SelectAll(hs, content, dryRun, max, promotions, cs[..i + 1], receipts) ==
            SelectOne(hs, content, dryRun, max, SelectAll(hs, content, dryRun, max, promotions, cs[..i], receipts),
                      cs[i], receipts(i))
  {
    hide SelectOne;
    assert cs[..i + 1][..i] == cs[..i];
  }

  // ----- Alerts -----

  const COOLDOWN: nat := 24 * 60 * 60 * 1_000_000
  const SECOND: nat := 1_000_000

  /** Times are microseconds; `sentAt` was printed and parsed with whole seconds. */
  datatype AlertState = AlertState(observed: Option<nat>, sent: Option<nat>, sentAt: Option<nat>, pending: Option<nat>)

  datatype AlertDecision = Send | Hold | Silent

  function WholeSecond(now: nat): (t: nat)
    ensures t <= now < t + SECOND
  {
    now - now % SECOND
  }

  function DecideAlert(quiet: nat, sig: nat, prior: AlertState, now: nat): AlertDecision {
    if sig == quiet || prior.sent == Some(sig) then Silent
    else if prior.sent.None? || prior.sentAt.None? || now - prior.sentAt.value >= COOLDOWN then Send
    else Hold
  }

  /** The state `decide_alert` would have next. */
  function NextAlert(quiet: nat, sig: nat, prior: AlertState, now: nat): AlertState {
    match DecideAlert(quiet, sig, prior, now)
    case Silent => AlertState(Some(sig), prior.sent, prior.sentAt, None)
    case Send => AlertState(Some(sig), Some(sig), Some(WholeSecond(now)), None)
    case Hold => AlertState(Some(sig), prior.sent, prior.sentAt, Some(sig))
  }

  // ----- Owner events -----

  datatype Phase = PostedPhase | DeletedPhase

  datatype EventKey = EventKey(promotion: Key, phase: Phase)

  datatype Event = Event(text: string, draft: Option<nat>, freed: Option<int>)

  datatype Keyed = Keyed(key: EventKey, event: Event)

  function PostedEvents(ps: seq<Promoted>): (es: seq<Keyed>)
    ensures |es| == |ps| && forall i :: 0 <= i < |ps| ==> es[i].key == EventKey(ps[i].key, PostedPhase)
  {
    if |ps| == 0 then []
    else
      var p := ps[|ps| - 1];
      PostedEvents(ps[..|ps| - 1]) + [Keyed(EventKey(p.key, PostedPhase), Event(p.text, Some(p.draft), None))]
  }

  function DeletedEvents(ds: seq<Deleted>): (es: seq<Keyed>)
    ensures |es| == |AppliedKeys(ds)| && forall i :: 0 <= i < |es| ==>
            es[i].key == EventKey(AppliedKeys(ds)[i], DeletedPhase)
  {
    if |ds| == 0 then []
    else
      var d := ds[|ds| - 1];
      DeletedEvents(ds[..|ds| - 1])
          + (if d.applied then [Keyed(EventKey(d.key, DeletedPhase), Event(d.text, None, Some(d.freed)))] else [])
  }

  /** `make_owner_events`. */
  function OwnerEvents(ps: seq<Promoted>, ds: seq<Deleted>): seq<Keyed> {
    PostedEvents(ps) + DeletedEvents(ds)
  }

  /** Merging into the pending events; `None` stands for "owner event payload changed". */
  function Merge(pending: map<EventKey, Event>, es: seq<Keyed>): Option<map<EventKey, Event>>
    decreases |es|
  {
    if |es| == 0 then Some(pending)
    else
      var e := es[|es| - 1];
      match Merge(pending, es[..|es| - 1])
      case None => None
      case Some(m) => if e.key !in m then Some(m[e.key := e.event]) else if m[e.key] == e.event then Some(m) else None
  }

  /** Event `i` carries another payload than the pending event, or an earlier new one, of its key. */
  ghost predicate ClashesAt(pending: map<EventKey, Event>, es: seq<Keyed>, i: nat)
    requires i < |es|
  {
    || (es[i].key in pending && pending[es[i].key] != es[i].event)
    || exists j :: 0 <= j < i && es[j].key == es[i].key && es[j].event != es[i].event
  }

  ghost predicate Clash(pending: map<EventKey, Event>, es: seq<Keyed>) {
    exists i :: 0 <= i < |es| && ClashesAt(pending, es, i)
  }

  /** `m` holds every pending and every new event, each with its payload, and nothing else. */
  ghost predicate Unites(pending: map<EventKey, Event>, es: seq<Keyed>, m: map<EventKey, Event>) {
    && (forall k :: k in pending ==> k in m && m[k] == pending[k])
    && (forall i :: 0 <= i < |es| ==> es[i].key in m && m[es[i].key] == es[i].event)
    && (forall k :: k in m && k !in pending ==> Brings(es, k))
  }

  ghost predicate Brings(es: seq<Keyed>, k: EventKey) {
    exists i :: 0 <= i < |es| && es[i].key == k
  }

  lemma {:induction false} MergeExactly(pending: map<EventKey, Event>, es: seq<Keyed>)
    ensures Merge(pending, es).None? <==> Clash(pending, es)
    ensures Merge(pending, es).Some? ==> Unites(pending, es, Merge(pending, es).value)
    decreases |es|
  {
    if |es| > 0 {
      var n := |es| - 1;
      var front, e := es[..n], es[n];
      MergeExactly(pending, front);
      match Merge(pending, front) {
        case None =>
          var i :| 0 <= i < n && ClashesAt(pending, front, i);
          assert ClashesAt(pending, es, i);
        case Some(m) =>
          assert Unites(pending, front, m);
          assert forall i :: 0 <= i < n ==> front[i] == es[i];
          if e.key !in m || m[e.key] == e.event {
            MergeSnoc(pending, es, m);
          } else {
            assert ClashesAt(pending, es, n);
          }
      }
    }
  }

  lemma MergeSnoc(pending: map<EventKey, Event>, es: seq<Keyed>, m: map<EventKey, Event>)
    requires |es| > 0 && Unites(pending, es[..|es| - 1], m)
    requires var e := es[|es| - 1]; e.key !in m || m[e.key] == e.event
    ensures Unites(pending, es, m[es[|es| - 1].key := es[|es| - 1].event]) && !Clash(pending, es)
  {
    var n := |es| - 1;
    var m' := m[es[n].key := es[n].event];
    forall i | 0 <= i <= n ensures es[i].key in m' && m'[es[i].key] == es[i].event {
      assert i < n ==> es[..n][i] == es[i];
    }
    forall k | k in m' && k !in pending ensures Brings(es, k) {
      if k in m {
        var i :| 0 <= i < n && es[..n][i].key == k;
        assert es[i].key == k;
      } else {
        assert es[n].key == k;
      }
    }
  }

  /** `merge_owner_events`: the union of the pending and the new events; it fails exactly when two of them
      with one key differ. */
  method MergeEvents(pending: map<EventKey, Event>, es: seq<Keyed>) returns (merged: Option<map<EventKey, Event>>)
    ensures merged == Merge(pending, es)
    ensures merged.None? <==> Clash(pending, es)
    ensures merged.Some? ==> Unites(pending, es, merged.value)
  {
    MergeExactly(pending, es);
    hide Clash, Unites;
    var m := pending;
    for i := 0 to |es|
      invariant Merge(pending, es[..i]) == Some(m)
    {
      assert es[..i + 1][..i] == es[..i];
      if es[i].key in m && m[es[i].key] != es[i].event {
        MergeFails(pending, es, i + 1);
        return None;
      }
      if es[i].key !in m { m := m[es[i].key := es[i].event]; }
    }
    assert es[..|es|] == es;
    return Some(m);
  }

  lemma {:induction false} MergeFails(pending: map<EventKey, Event>, es: seq<Keyed>, i: nat)
    requires i <= |es| && Merge(pending, es[..i]).None?
    ensures Merge(pending, es).None?
    decreases |es|
  {
    if i == |es| {
      assert es[..i] == es;
    } else {
      assert es[..|es| - 1][..i] == es[..i];
      MergeFails(pending, es[..|es| - 1], i);
    }
  }

  // ----- The cycle -----

  datatype CuratorState = CuratorState(promotions: map<Key, Record>, alert: AlertState, pending: map<EventKey, Event>)

  /** Where a cycle is cut short: before anything is saved, after the checkpoint, or after the alert. */
  datatype Stop = BeforeSave | AfterCheckpoint | AfterAlert | Never

  datatype Input = Input(
    now: nat,
    dryRun: bool,
    keys: seq<Key>,                    // the stored order of the promotion records
    visits: nat -> Visit,              // what reconciliation meets
    candidates: seq<Candidate>,        // ranked promotion candidates
    receipts: nat -> Option<Receipt>,  // what promoting them answers
    maxPromotions: int,
    signature: nat,                    // the hash of the actionable state
    freed: bool,                       // compaction freed something
    nearCap: bool,                     // some file is near its cap
    delivered: bool,                   // what the alert call would return
    stop: Stop)

  /** What the cycle leaves in the state file, what it told the owner (when the alert call returned True),
      and whether it raised "owner event payload changed". */
  datatype Output = Output(saved: CuratorState, told: Option<map<EventKey, Event>>, raised: bool)

  function Passed(hs: Hashes, img: Image, s: CuratorState, inp: Input): Pass {
    ReconcileAll(hs, inp.now / SECOND, inp.dryRun, Pass(img, s.promotions, [], [], {}), inp.keys, inp.visits)
  }

  function Selected(hs: Hashes, content: string -> Digest, img: Image, s: CuratorState, inp: Input): Selection {
    SelectAll(hs, content, inp.dryRun, inp.maxPromotions, Passed(hs, img, s, inp).promotions, inp.candidates,
              inp.receipts)
  }

  function Produced(hs: Hashes, content: string -> Digest, img: Image, s: CuratorState, inp: Input): seq<Keyed> {
    OwnerEvents(Selected(hs, content, img, s, inp).promoted, Passed(hs, img, s, inp).deleted)
  }

  /** The checkpoints of `run_cycle` from the merged events on. */
  function Deliver(quiet: nat, s: CuratorState, inp: Input, promotions: map<Key, Record>,
                   pending: map<EventKey, Event>): Output {
    var due := DecideAlert(quiet, inp.signature, s.alert, inp.now) == Send;
    var next := NextAlert(quiet, inp.signature, s.alert, inp.now);
    if inp.stop == BeforeSave then Output(s, None, false)
    else if pending == map[] && !due then Output(CuratorState(promotions, next, pending), None, false)
    else
      var checkpoint := if due then s.alert.(observed := Some(inp.signature)) else next;
      var empty := !inp.freed && pending == map[] && !(due && inp.nearCap);
      var first := CuratorState(promotions, checkpoint, pending);
      if inp.stop == AfterCheckpoint || inp.dryRun || empty || !inp.delivered then Output(first, None, false)
      else if inp.stop == AfterAlert then Output(first, Some(pending), false)
      else Output(CuratorState(promotions, if due then next else checkpoint, map[]), Some(pending), false)
  }

  function Cycle(hs: Hashes, content: string -> Digest, quiet: nat, img: Image, s: CuratorState, inp: Input): Output {
    match Merge(s.pending, Produced(hs, content, img, s, inp))
    case None => Output(s, None, true)
    case Some(pending) => Deliver(quiet, s, inp, Selected(hs, content, img, s, inp).promotions, pending)
  }

  class Curator {
    const disk: Disk
    var saved: CuratorState

    constructor (disk: Disk, saved: CuratorState)
      ensures this.disk == disk && this.saved == saved
    {
      this.disk, this.saved := disk, saved;
    }

    /** `run_cycle`. */
    method RunCycle(hs: Hashes, content: string -> Digest, quiet: nat, inp: Input)
        returns (told: Option<map<EventKey, Event>>, raised: bool)
      modifies this, disk
      ensures Output(saved, told, raised) == Cycle(hs, content, quiet, old(disk.Snapshot()), old(saved), inp)
    {
      hide ReconcileAll, SelectAll, Merge, OwnerEvents, DecideAlert, NextAlert;
      var state := saved;
      var afterPass, deleted, blocked, reasons :=
        disk.ReconcilePromotions(hs, inp.now / SECOND, inp.dryRun, state.promotions, inp.keys, inp.visits);
      var promotions, promoted, more, attempts :=
        SelectPromotions(hs, content, inp.dryRun, inp.maxPromotions, afterPass, inp.candidates, inp.receipts);
      var merged := MergeEvents(state.pending, OwnerEvents(promoted, deleted));
      if merged.None? { return None, true; }
      var pending := merged.value;
      var due := DecideAlert(quiet, inp.signature, state.alert, inp.now) == Send;
      var next := NextAlert(quiet, inp.signature, state.alert, inp.now);
      var checkpoint := if due then state.alert.(observed := Some(inp.signature)) else next;
      if inp.stop == BeforeSave { return None, false; }
      if pending == map[] && !due {
        saved := CuratorState(promotions, next, pending);
        return None, false;
      }
      saved := CuratorState(promotions, checkpoint, pending);
      var hasReport := inp.freed || pending != map[] || (due && inp.nearCap);
      if inp.stop == AfterCheckpoint || inp.dryRun || !hasReport || !inp.delivered { return None, false; }
      var eventsDue := pending;
      pending := pending - eventsDue.Keys;
      if inp.stop == AfterAlert { return Some(eventsDue), false; }
      saved := CuratorState(promotions, if due then next else checkpoint, pending);
      return Some(eventsDue), false;
    }
  }
}
