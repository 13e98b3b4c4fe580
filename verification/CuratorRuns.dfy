/** What every run of memory-curator cycles keeps, wherever its cycles are cut short. */
module CuratorRuns {
  import opened Common
  import opened Reclaim
  import opened MemoryDeletion
  import opened CuratorCycle

  // ----- Records -----

  /** The one step a record's status may take in a cycle. */
  predicate Step(a: Status, b: Status) {
    a == b || (a == Prepared && b == Posted) || (a == Posted && b == Reconciled)
  }

  /** Any number of steps. */
  predicate Advances(a: Status, b: Status) {
    Step(a, b) || (a == Prepared && b == Reconciled)
  }

  ghost predicate NeverEmpty(hs: Hashes) {
    forall bytes :: hs.sha(bytes) != ""
  }

  /** Before its draft is confirmed a record has no note hash. */
  predicate HashFollowsStatus(promotions: map<Key, Record>) {
    forall k :: k in promotions && promotions[k].status == Prepared ==> promotions[k].noteHash == ""
  }

  lemma UnconfirmedSkips(hs: Hashes, r: Record, note: Option<string>, regular: bool, es: seq<string>)
    requires r.status == Prepared && r.noteHash == "" && NeverEmpty(hs)
    ensures Decide(hs, r, note, regular, es).Skip?
  {
  }

  lemma ReconcileKeepsPrepared(hs: Hashes, now: nat, dryRun: bool, p: Pass, key: Key, v: Visit)
    requires key in p.promotions && p.promotions[key].status == Prepared && p.promotions[key].noteHash == ""
             && NeverEmpty(hs)
    ensures var q := Reconcile(hs, now, dryRun, p, key, v);
            key in q.promotions && q.promotions[key].status == Prepared && q.promotions[key].noteHash == ""
            && q.deleted == p.deleted
  {
    hide Decide;
    var r := p.promotions[key];
    UnconfirmedSkips(hs, r, v.note, v.note.Some?, MemoryText.Parse(TextOf(p.img, r.kind)));
  }

  /** Reconciliation leaves unconfirmed records prepared. */
  lemma {:induction false} PassKeepsPrepared(hs: Hashes, now: nat, dryRun: bool, start: Pass, keys: seq<Key>,
                                             visits: nat -> Visit, key: Key)
    requires Distinct(keys) && NeverEmpty(hs)
    requires key in start.promotions && start.promotions[key].status == Prepared && start.promotions[key].noteHash == ""
    ensures var p := ReconcileAll(hs, now, dryRun, start, keys, visits);
            key in p.promotions && p.promotions[key].status == Prepared && p.promotions[key].noteHash == ""
    decreases |keys|
  {
    hide Reconcile, NeverEmpty;
    if |keys| > 0 {
      var n := |keys| - 1;
      PassKeepsPrepared(hs, now, dryRun, start, keys[..n], visits, key);
      var p := ReconcileAll(hs, now, dryRun, start, keys[..n], visits);
      if key == keys[n] {
        ReconcileKeepsPrepared(hs, now, dryRun, p, key, visits(n));
      } else {
        ReconcileMoves(hs, now, dryRun, p, keys[n], visits(n));
      }
    }
  }

  predicate Unposted(promotions: map<Key, Record>, k: Key) {
    k !in promotions || promotions[k].status == Prepared
  }

  /** What selection does to one record. */
  predicate SelectStep(before: map<Key, Record>, after: map<Key, Record>, k: Key) {
    && (k in before ==> k in after && Step(before[k].status, after[k].status))
    && (k in before && before[k].status != Prepared ==> after[k] == before[k])
    && (k !in before && k in after ==> after[k].status in {Prepared, Posted})
  }

  predicate PromotedOnce(ps: seq<Promoted>) {
    forall i, j :: 0 <= i < j < |ps| ==> ps[i].key != ps[j].key
  }

  predicate AllPosted(before: map<Key, Record>, after: map<Key, Record>, ps: seq<Promoted>) {
    forall i :: 0 <= i < |ps| ==> Unposted(before, ps[i].key) && ps[i].key in after && after[ps[i].key].status == Posted
  }

  /** One candidate either changes nothing, or tries one fresh record and may post it. */
  lemma SelectOneMoves(hs: Hashes, content: string -> Digest, dryRun: bool, max: int, s: Selection, c: Candidate,
                       receipt: Option<Receipt>)
    ensures var q := SelectOne(hs, content, dryRun, max, s, c, receipt);
            var key := Promotion(c.kind, hs.digest(c.kind, c.text));
            || (q.promotions == s.promotions && q.promoted == s.promoted)
            || (&& Unposted(s.promotions, key) && q.promotions == s.promotions[key := q.promotions[key]]
                && (|| (q.promotions[key].status == Prepared && q.promoted == s.promoted
                        && q.promotions[key].noteHash == if key in s.promotions then s.promotions[key].noteHash else "")
                    || (q.promotions[key].status == Posted && |q.promoted| == |s.promoted| + 1
                        && q.promoted[..|s.promoted|] == s.promoted && q.promoted[|s.promoted|].key == key)))
  {
    hide LegacyCovers;
  }

  lemma {:induction false} SelectMoves(hs: Hashes, content: string -> Digest, dryRun: bool, max: int,
                                       promotions: map<Key, Record>, cs: seq<Candidate>,
                                       receipts: nat -> Option<Receipt>)
    ensures var s := SelectAll(hs, content, dryRun, max, promotions, cs, receipts);
            && (forall k :: SelectStep(promotions, s.promotions, k))
            && PromotedOnce(s.promoted) && AllPosted(promotions, s.promotions, s.promoted)
            && (HashFollowsStatus(promotions) ==> HashFollowsStatus(s.promotions))
    decreases |cs|
  {
    hide SelectOne;
    if |cs| > 0 {
      var n := |cs| - 1;
      SelectMoves(hs, content, dryRun, max, promotions, cs[..n], receipts);
      var s := SelectAll(hs, content, dryRun, max, promotions, cs[..n], receipts);
      SelectOneMoves(hs, content, dryRun, max, s, cs[n], receipts(n));
      var q := SelectAll(hs, content, dryRun, max, promotions, cs, receipts);
      var key := Promotion(cs[n].kind, hs.digest(cs[n].kind, cs[n].text));
      forall k
        ensures SelectStep(promotions, q.promotions, k)
      {
        assert SelectStep(promotions, s.promotions, k);
      }
      assert SelectStep(promotions, s.promotions, key);
      forall i | 0 <= i < |q.promoted|
        ensures Unposted(promotions, q.promoted[i].key) && q.promoted[i].key in q.promotions
                && q.promotions[q.promoted[i].key].status == Posted
      {
        if i < |s.promoted| { assert q.promoted[i] == s.promoted[i]; }
      }
    }
  }

  // ----- Events -----

  ghost predicate Inv(s: CuratorState) {
    && HashFollowsStatus(s.promotions)
    && forall e :: e in s.pending ==> Told(s.promotions, e)
  }

  /** The record of an event has reached the status that the event reports. */
  predicate Told(promotions: map<Key, Record>, e: EventKey) {
    e.promotion in promotions
    && match e.phase
       case PostedPhase => promotions[e.promotion].status in {Posted, Reconciled}
       case DeletedPhase => promotions[e.promotion].status == Reconciled
  }

  /** The record of an event has not reached it yet. */
  predicate Untold(promotions: map<Key, Record>, e: EventKey) {
    match e.phase
    case PostedPhase => Unposted(promotions, e.promotion)
    case DeletedPhase => e.promotion in promotions && promotions[e.promotion].status == Posted
  }

  predicate DistinctEvents(es: seq<Keyed>) {
    forall i, j :: 0 <= i < j < |es| ==> es[i].key != es[j].key
  }

  lemma MergeFresh(pending: map<EventKey, Event>, es: seq<Keyed>)
    requires DistinctEvents(es) && forall i :: 0 <= i < |es| ==> es[i].key !in pending
    ensures Merge(pending, es).Some? && Unites(pending, es, Merge(pending, es).value)
  {
    MergeExactly(pending, es);
  }

  predicate WellFormed(inp: Input) {
    Distinct(inp.keys)
  }

  /** How the records move from loading to saving. */
  lemma CycleMoves(hs: Hashes, content: string -> Digest, img: Image, s: CuratorState, inp: Input, k: Key)
    requires WellFormed(inp) && HashFollowsStatus(s.promotions) && NeverEmpty(hs)
    ensures var after := Selected(hs, content, img, s, inp).promotions;
            k in s.promotions ==> k in after && Step(s.promotions[k].status, after[k].status)
  {
    hide ReconcileAll, SelectAll, NeverEmpty;
    var start := Pass(img, s.promotions, [], [], {});
    var p := Passed(hs, img, s, inp);
    PassMoves(hs, inp.now / SECOND, inp.dryRun, start, inp.keys, inp.visits);
    SelectMoves(hs, content, inp.dryRun, inp.maxPromotions, p.promotions, inp.candidates, inp.receipts);
    if k in s.promotions {
      assert SelectStep(p.promotions, Selected(hs, content, img, s, inp).promotions, k);
      assert Moves(s.promotions[k], p.promotions[k]);
      if s.promotions[k].status == Prepared {
        PassKeepsPrepared(hs, inp.now / SECOND, inp.dryRun, start, inp.keys, inp.visits, k);
      }
    }
  }

  lemma HashesFollow(hs: Hashes, content: string -> Digest, img: Image, s: CuratorState, inp: Input)
    requires WellFormed(inp) && HashFollowsStatus(s.promotions)
    ensures HashFollowsStatus(Selected(hs, content, img, s, inp).promotions)
  {
    hide ReconcileAll, SelectAll;
    var start := Pass(img, s.promotions, [], [], {});
    var p := Passed(hs, img, s, inp);
    PassMoves(hs, inp.now / SECOND, inp.dryRun, start, inp.keys, inp.visits);
    forall k | k in p.promotions && p.promotions[k].status == Prepared
      ensures p.promotions[k].noteHash == ""
    {
      assert Moves(s.promotions[k], p.promotions[k]);
    }
    SelectMoves(hs, content, inp.dryRun, inp.maxPromotions, p.promotions, inp.candidates, inp.receipts);
  }

  /** A cycle produces each event once, for a record that has not reached the event's status when the
      cycle starts and has when it saves. */
  lemma ProducedOnce(hs: Hashes, content: string -> Digest, img: Image, s: CuratorState, inp: Input)
    requires WellFormed(inp) && HashFollowsStatus(s.promotions) && NeverEmpty(hs)
    ensures var es := Produced(hs, content, img, s, inp);
            DistinctEvents(es)
    ensures var es := Produced(hs, content, img, s, inp);
            forall i :: 0 <= i < |es| ==>
                Untold(s.promotions, es[i].key)
                && Told(Selected(hs, content, img, s, inp).promotions, es[i].key)
  {
    hide ReconcileAll, SelectAll, NeverEmpty, AppliedKeys, PostedEvents, DeletedEvents;
    var start := Pass(img, s.promotions, [], [], {});
    var p := Passed(hs, img, s, inp);
    var sel := Selected(hs, content, img, s, inp);
    PassMoves(hs, inp.now / SECOND, inp.dryRun, start, inp.keys, inp.visits);
    PassCloses(hs, inp.now / SECOND, inp.dryRun, start, inp.keys, inp.visits);
    SelectMoves(hs, content, inp.dryRun, inp.maxPromotions, p.promotions, inp.candidates, inp.receipts);
    var es, n := Produced(hs, content, img, s, inp), |sel.promoted|;
    forall i | 0 <= i < |es|
      ensures Untold(s.promotions, es[i].key) && Told(sel.promotions, es[i].key)
    {
      var k := es[i].key.promotion;
      if i < n {
        PostedIsUntold(hs, content, img, s, inp, i);
      } else {
        DeletedIsUntold(hs, content, img, s, inp, i - n);
      }
    }
  }

  lemma PostedIsUntold(hs: Hashes, content: string -> Digest, img: Image, s: CuratorState, inp: Input, i: nat)
    requires WellFormed(inp) && HashFollowsStatus(s.promotions) && NeverEmpty(hs)
    requires i < |Selected(hs, content, img, s, inp).promoted|
    ensures var e := EventKey(Selected(hs, content, img, s, inp).promoted[i].key, PostedPhase);
            Untold(s.promotions, e) && Told(Selected(hs, content, img, s, inp).promotions, e)
  {
    hide ReconcileAll, SelectAll, NeverEmpty;
    var p := Passed(hs, img, s, inp);
    PassMoves(hs, inp.now / SECOND, inp.dryRun, Pass(img, s.promotions, [], [], {}), inp.keys, inp.visits);
    SelectMoves(hs, content, inp.dryRun, inp.maxPromotions, p.promotions, inp.candidates, inp.receipts);
    var k := Selected(hs, content, img, s, inp).promoted[i].key;
    assert Unposted(p.promotions, k);
    if k in s.promotions { assert Moves(s.promotions[k], p.promotions[k]); }
  }

  lemma DeletedIsUntold(hs: Hashes, content: string -> Digest, img: Image, s: CuratorState, inp: Input, i: nat)
    requires WellFormed(inp) && HashFollowsStatus(s.promotions) && NeverEmpty(hs)
    requires i < |AppliedKeys(Passed(hs, img, s, inp).deleted)|
    ensures var e := EventKey(AppliedKeys(Passed(hs, img, s, inp).deleted)[i], DeletedPhase);
            Untold(s.promotions, e) && Told(Selected(hs, content, img, s, inp).promotions, e)
  {
    hide ReconcileAll, SelectAll, AppliedKeys;
    var start, p := Pass(img, s.promotions, [], [], {}), Passed(hs, img, s, inp);
    PassCloses(hs, inp.now / SECOND, inp.dryRun, start, inp.keys, inp.visits);
    SelectMoves(hs, content, inp.dryRun, inp.maxPromotions, p.promotions, inp.candidates, inp.receipts);
    var k := AppliedKeys(p.deleted)[i];
    assert k in AppliedKeys(p.deleted);
    assert Closed(hs, s.promotions[k], p.promotions[k]);
    assert SelectStep(p.promotions, Selected(hs, content, img, s, inp).promotions, k);
  }

  // ----- One cycle -----

  /** The saved records and the deliveries of a cycle that starts from a good state: it raises nothing,
      and what it saves is good. */
  lemma CycleKeepsInv(hs: Hashes, content: string -> Digest, quiet: nat, img: Image, s: CuratorState, inp: Input)
    requires WellFormed(inp) && Inv(s) && NeverEmpty(hs)
    ensures var out := Cycle(hs, content, quiet, img, s, inp);
            !out.raised && Inv(out.saved)
    ensures var out := Cycle(hs, content, quiet, img, s, inp);
            out.saved == s || out.saved.promotions == Selected(hs, content, img, s, inp).promotions
  {
    hide ReconcileAll, SelectAll, Merge, OwnerEvents, DecideAlert, NextAlert, NeverEmpty;
    MergesAll(hs, content, img, s, inp);
    ProducedOnce(hs, content, img, s, inp);
    HashesFollow(hs, content, img, s, inp);
    var after := Selected(hs, content, img, s, inp).promotions;
    var pending := Merge(s.pending, Produced(hs, content, img, s, inp)).value;
    forall e | e in pending
      ensures Told(after, e)
    {
      if e in s.pending {
        CycleMoves(hs, content, img, s, inp, e.promotion);
      }
    }
  }

  /** The merge never meets an event it already has. */
  lemma MergesAll(hs: Hashes, content: string -> Digest, img: Image, s: CuratorState, inp: Input)
    requires WellFormed(inp) && Inv(s) && NeverEmpty(hs)
    ensures var es := Produced(hs, content, img, s, inp);
            Merge(s.pending, es).Some? && Unites(s.pending, es, Merge(s.pending, es).value)
  {
    hide ReconcileAll, SelectAll, Merge, OwnerEvents, NeverEmpty, Produced;
    ProducedOnce(hs, content, img, s, inp);
    var es := Produced(hs, content, img, s, inp);
    forall i | 0 <= i < |es|
      ensures es[i].key !in s.pending
    {
      assert Untold(s.promotions, es[i].key);
    }
    MergeFresh(s.pending, es);
  }

  /** An event stays in the state file until an alert call that carried it returned True. */
  lemma EventsAreKeptOrTold(hs: Hashes, content: string -> Digest, quiet: nat, img: Image, s: CuratorState,
                            inp: Input, e: EventKey)
    requires WellFormed(inp) && Inv(s) && NeverEmpty(hs)
    requires e in s.pending
    ensures var out := Cycle(hs, content, quiet, img, s, inp);
            || (e in out.saved.pending && out.saved.pending[e] == s.pending[e])
            || (inp.delivered && out.told.Some? && e in out.told.value && out.told.value[e] == s.pending[e])
  {
    hide ReconcileAll, SelectAll, Merge, OwnerEvents, DecideAlert, NextAlert, NeverEmpty;
    MergesAll(hs, content, img, s, inp);
  }

  /** An event produced in a cycle that reaches its save is saved or told in that cycle. */
  lemma NewEventsAreKeptOrTold(hs: Hashes, content: string -> Digest, quiet: nat, img: Image, s: CuratorState,
                               inp: Input, i: nat)
    requires WellFormed(inp) && Inv(s) && NeverEmpty(hs) && inp.stop != BeforeSave
    requires i < |Produced(hs, content, img, s, inp)|
    ensures var out := Cycle(hs, content, quiet, img, s, inp);
            var e := Produced(hs, content, img, s, inp)[i];
            || (e.key in out.saved.pending && out.saved.pending[e.key] == e.event)
            || (inp.delivered && out.told.Some? && e.key in out.told.value && out.told.value[e.key] == e.event)
  {
    hide ReconcileAll, SelectAll, Merge, OwnerEvents, DecideAlert, NextAlert, NeverEmpty, Produced;
    MergesAll(hs, content, img, s, inp);
  }

  // ----- Runs -----

  datatype Tick = Tick(img: Image, inp: Input)

  const START := CuratorState(map[], AlertState(None, None, None, None), map[])

  /** The saved states of a run from the empty state: each cycle starts from what the one before saved. */
  ghost predicate IsRun(hs: Hashes, content: string -> Digest, quiet: nat, states: seq<CuratorState>,
                        ticks: seq<Tick>) {
    && |states| == |ticks| + 1 && states[0] == START
    && forall i :: 0 <= i < |ticks| ==> IsStep(hs, content, quiet, states[i], ticks[i], states[i + 1])
  }

  ghost predicate IsStep(hs: Hashes, content: string -> Digest, quiet: nat, s: CuratorState, t: Tick,
                         next: CuratorState) {
    WellFormed(t.inp) && Cycle(hs, content, quiet, t.img, s, t.inp).saved == next
  }

  lemma InvStart()
    ensures Inv(START)
  {
  }

  lemma {:induction false} RunKeepsInv(hs: Hashes, content: string -> Digest, quiet: nat, states: seq<CuratorState>,
                                       ticks: seq<Tick>, n: nat)
    requires IsRun(hs, content, quiet, states, ticks) && NeverEmpty(hs) && n <= |ticks|
    ensures Inv(states[n])
    ensures n < |ticks| ==> !Cycle(hs, content, quiet, ticks[n].img, states[n], ticks[n].inp).raised
  {
    hide Cycle, Inv, NeverEmpty;
    InvStart();
    if n > 0 {
      RunKeepsInv(hs, content, quiet, states, ticks, n - 1);
      assert IsStep(hs, content, quiet, states[n - 1], ticks[n - 1], states[n]);
      CycleKeepsInv(hs, content, quiet, ticks[n - 1].img, states[n - 1], ticks[n - 1].inp);
    }
    if n < |ticks| {
      assert IsStep(hs, content, quiet, states[n], ticks[n], states[n + 1]);
      CycleKeepsInv(hs, content, quiet, ticks[n].img, states[n], ticks[n].inp);
    }
  }

  /** A saved record takes at most the step prepared to posted or posted to reconciled per cycle. */
  lemma StatusSteps(hs: Hashes, content: string -> Digest, quiet: nat, states: seq<CuratorState>, ticks: seq<Tick>,
                    n: nat, k: Key)
    requires IsRun(hs, content, quiet, states, ticks) && NeverEmpty(hs) && n < |ticks| && k in states[n].promotions
    ensures k in states[n + 1].promotions && Step(states[n].promotions[k].status, states[n + 1].promotions[k].status)
  {
    hide Cycle, NeverEmpty, Selected;
    RunKeepsInv(hs, content, quiet, states, ticks, n);
    assert IsStep(hs, content, quiet, states[n], ticks[n], states[n + 1]);
    CycleKeepsInv(hs, content, quiet, ticks[n].img, states[n], ticks[n].inp);
    CycleMoves(hs, content, ticks[n].img, states[n], ticks[n].inp, k);
  }

  lemma {:induction false} StatusAdvances(hs: Hashes, content: string -> Digest, quiet: nat,
                                          states: seq<CuratorState>, ticks: seq<Tick>, i: nat, j: nat, k: Key)
    requires IsRun(hs, content, quiet, states, ticks) && NeverEmpty(hs) && i <= j <= |ticks|
             && k in states[i].promotions
    ensures k in states[j].promotions && Advances(states[i].promotions[k].status, states[j].promotions[k].status)
    decreases j
  {
    hide IsRun, NeverEmpty;
    if i < j {
      StatusAdvances(hs, content, quiet, states, ticks, i, j - 1, k);
      StatusSteps(hs, content, quiet, states, ticks, j - 1, k);
    }
  }

  /** Cycle `i` produced the event and reached its save. */
  ghost predicate Produces(hs: Hashes, content: string -> Digest, states: seq<CuratorState>, ticks: seq<Tick>,
                           i: nat, e: EventKey)
    requires i < |ticks| && |states| == |ticks| + 1
  {
    ticks[i].inp.stop != BeforeSave && exists n :: 0 <= n < |Produced(hs, content, ticks[i].img, states[i],
                                                                      ticks[i].inp)|
                                                   && Produced(hs, content, ticks[i].img, states[i],
                                                               ticks[i].inp)[n].key == e
  }

  lemma ProducesMarks(hs: Hashes, content: string -> Digest, quiet: nat, states: seq<CuratorState>, ticks: seq<Tick>,
                      i: nat, e: EventKey)
    requires IsRun(hs, content, quiet, states, ticks) && NeverEmpty(hs) && i < |ticks|
             && Produces(hs, content, states, ticks, i, e)
    ensures Untold(states[i].promotions, e) && Told(states[i + 1].promotions, e)
  {
    hide NeverEmpty, Produced, Merge, Selected, DecideAlert, NextAlert;
    RunKeepsInv(hs, content, quiet, states, ticks, i);
    var s, t := states[i], ticks[i];
    assert IsStep(hs, content, quiet, s, t, states[i + 1]);
    ProducedOnce(hs, content, t.img, s, t.inp);
    MergesAll(hs, content, t.img, s, t.inp);
    assert states[i + 1].promotions == Selected(hs, content, t.img, s, t.inp).promotions;
  }

  /** Over a whole run, each owner event is produced in at most one cycle that reaches its save. */
  lemma EventsAreProducedOnce(hs: Hashes, content: string -> Digest, quiet: nat, states: seq<CuratorState>,
                              ticks: seq<Tick>, i: nat, j: nat, e: EventKey)
    requires IsRun(hs, content, quiet, states, ticks) && NeverEmpty(hs) && i < j < |ticks|
    requires Produces(hs, content, states, ticks, i, e)
    ensures !Produces(hs, content, states, ticks, j, e)
  {
    assert |states| == |ticks| + 1;
    hide IsRun, NeverEmpty, Produces;
    ProducesMarks(hs, content, quiet, states, ticks, i, e);
    StatusAdvances(hs, content, quiet, states, ticks, i + 1, j, e.promotion);
    if Produces(hs, content, states, ticks, j, e) {
      ProducesMarks(hs, content, quiet, states, ticks, j, e);
      assert false;
    }
  }

  /** Nothing is deleted for a record that is only prepared. */
  lemma PreparedNeverDeletes(hs: Hashes, content: string -> Digest, quiet: nat, states: seq<CuratorState>,
                             ticks: seq<Tick>, n: nat, k: Key)
    requires IsRun(hs, content, quiet, states, ticks) && NeverEmpty(hs) && n < |ticks|
    requires k in AppliedKeys(Passed(hs, ticks[n].img, states[n], ticks[n].inp).deleted)
    ensures k in states[n].promotions && states[n].promotions[k].status == Posted
  {
    assert |states| == |ticks| + 1 && IsStep(hs, content, quiet, states[n], ticks[n], states[n + 1]);
    hide Cycle, NeverEmpty, Passed, AppliedKeys, IsRun;
    RunKeepsInv(hs, content, quiet, states, ticks, n);
    var ks := AppliedKeys(Passed(hs, ticks[n].img, states[n], ticks[n].inp).deleted);
    var i :| 0 <= i < |ks| && ks[i] == k;
    DeletedIsUntold(hs, content, ticks[n].img, states[n], ticks[n].inp, i);
  }

  // ----- Alerts over runs -----

  /** The last delivered alert, as the state file remembers it. */
  function Last(a: AlertState): (Option<nat>, Option<nat>) {
    (a.sent, a.sentAt)
  }

  /** The remembered alert moves only in a cycle whose alert call returned True and that saved it. */
  lemma AlertStep(hs: Hashes, content: string -> Digest, quiet: nat, img: Image, s: CuratorState, inp: Input)
    ensures var out := Cycle(hs, content, quiet, img, s, inp);
            Last(out.saved.alert) != Last(s.alert) ==>
              && out.told.Some? && inp.delivered && inp.stop == Never
              && DecideAlert(quiet, inp.signature, s.alert, inp.now) == Send
              && Last(out.saved.alert) == (Some(inp.signature), Some(WholeSecond(inp.now)))
  {
    hide Produced, Merge;
  }

  predicate AlertMoves(states: seq<CuratorState>, i: nat)
    requires i + 1 < |states|
  {
    Last(states[i + 1].alert) != Last(states[i].alert)
  }

  lemma {:induction false} UnchangedBetween(states: seq<CuratorState>, i: nat, k: nat)
    requires i <= k < |states| && forall j :: i <= j < k ==> !AlertMoves(states, j)
    ensures Last(states[k].alert) == Last(states[i].alert)
    decreases k
  {
    if i < k {
      assert !AlertMoves(states, k - 1);
      UnchangedBetween(states, i, k - 1);
    }
  }

  /** Two successive delivered alerts carry different signatures, and on a clock of whole seconds they are a
      cooldown apart; a fraction of a second at the first one shortens that by less than a second. */
  lemma AlertsAreApart(hs: Hashes, content: string -> Digest, quiet: nat, states: seq<CuratorState>,
                       ticks: seq<Tick>, i: nat, k: nat)
    requires IsRun(hs, content, quiet, states, ticks) && i < k < |ticks|
    requires AlertMoves(states, i) && AlertMoves(states, k) && forall j :: i < j < k ==> !AlertMoves(states, j)
    ensures ticks[i].inp.signature != ticks[k].inp.signature
    ensures ticks[k].inp.now - ticks[i].inp.now > COOLDOWN - SECOND
    ensures ticks[i].inp.now % SECOND == 0 ==> ticks[k].inp.now - ticks[i].inp.now >= COOLDOWN
  {
    hide Cycle;
    assert IsStep(hs, content, quiet, states[i], ticks[i], states[i + 1]);
    assert IsStep(hs, content, quiet, states[k], ticks[k], states[k + 1]);
    AlertStep(hs, content, quiet, ticks[i].img, states[i], ticks[i].inp);
    AlertStep(hs, content, quiet, ticks[k].img, states[k], ticks[k].inp);
    UnchangedBetween(states, i + 1, k);
  }

  predicate Due(quiet: nat, signature: nat, alert: AlertState, now: nat) {
    DecideAlert(quiet, signature, alert, now) == Send
  }

  /** Cycle `i` delivers its due alert and saves that it did. */
  predicate Delivers(hs: Hashes, content: string -> Digest, quiet: nat, states: seq<CuratorState>, ticks: seq<Tick>,
                     i: nat)
    requires i < |ticks| && |states| == |ticks| + 1
  {
    var inp := ticks[i].inp;
    && Due(quiet, inp.signature, states[i].alert, inp.now) && inp.stop == Never
    && Cycle(hs, content, quiet, ticks[i].img, states[i], inp).told.Some?
  }

  /** The remembered alert moves in exactly those cycles. */
  lemma AlertMovesExactly(hs: Hashes, content: string -> Digest, quiet: nat, states: seq<CuratorState>,
                          ticks: seq<Tick>, i: nat)
    requires IsRun(hs, content, quiet, states, ticks) && i < |ticks|
    ensures AlertMoves(states, i) <==> Delivers(hs, content, quiet, states, ticks, i)
  {
    hide Produced, Merge;
    assert IsStep(hs, content, quiet, states[i], ticks[i], states[i + 1]);
    AlertStep(hs, content, quiet, ticks[i].img, states[i], ticks[i].inp);
  }

  /** An alert that is due stays due for its signature over every run of cycles none of which delivers a due
      alert and saves it, whatever keeps them: failed calls, crashes, dry runs or empty reports. */
  lemma FailedAlertStaysDue(hs: Hashes, content: string -> Digest, quiet: nat, states: seq<CuratorState>,
                            ticks: seq<Tick>, i: nat, j: nat, signature: nat, now: nat, later: nat)
    requires IsRun(hs, content, quiet, states, ticks) && i <= j <= |ticks| && now <= later
    requires Due(quiet, signature, states[i].alert, now)
    requires forall k :: i <= k < j ==> !Delivers(hs, content, quiet, states, ticks, k)
    ensures Due(quiet, signature, states[j].alert, later)
  {
    assert |states| == |ticks| + 1;
    hide IsRun, Delivers;
    forall k | i <= k < j ensures !AlertMoves(states, k) {
      AlertMovesExactly(hs, content, quiet, states, ticks, k);
    }
    UnchangedBetween(states, i, j);
  }

  /** The owner is told something if and only if the alert call is reached and succeeds, the cycle is no
      dry run, and there is something to tell: an event that was pending or is new, or an alert that is
      due together with a freed or nearly full file.  A due alert without those is never sent. */
  lemma TellsExactly(hs: Hashes, content: string -> Digest, quiet: nat, img: Image, s: CuratorState, inp: Input)
    requires WellFormed(inp) && Inv(s) && NeverEmpty(hs)
    ensures var due := DecideAlert(quiet, inp.signature, s.alert, inp.now) == Send;
            Cycle(hs, content, quiet, img, s, inp).told.Some? <==>
              && inp.delivered && !inp.dryRun && inp.stop in {AfterAlert, Never}
              && (s.pending != map[] || Produced(hs, content, img, s, inp) != [] || (due && (inp.freed || inp.nearCap)))
  {
    hide Produced, Merge, Unites, DecideAlert, NextAlert, Inv, NeverEmpty;
    MergesAll(hs, content, img, s, inp);
    UnitesNothing(s.pending, Produced(hs, content, img, s, inp),
                  Merge(s.pending, Produced(hs, content, img, s, inp)).value);
  }

  lemma UnitesNothing(pending: map<EventKey, Event>, es: seq<Keyed>, m: map<EventKey, Event>)
    requires Unites(pending, es, m)
    ensures m == map[] <==> pending == map[] && es == []
  {
    if es != [] {
      assert es[0].key in m;
    }
    if pending != map[] {
      var k :| k in pending;
      assert k in m;
    }
    if m != map[] {
      var k :| k in m;
      assert k in pending || Brings(es, k);
    }
  }

  // ----- Deletions that are never reported -----

  predicate Lacks(hs: Hashes, kind: Kind, digest: Digest, es: seq<string>) {
    forall i :: 0 <= i < |es| ==> hs.digest(kind, es[i]) != digest
  }

  /** No entry of the file has the digest. */
  predicate Absent(hs: Hashes, img: Image, kind: Kind, digest: Digest) {
    Lacks(hs, kind, digest, MemoryText.Parse(TextOf(img, kind)))
  }

  /** No writer that comes between a reading and a deletion writes the entry. */
  ghost predicate NotWritten(hs: Hashes, visits: nat -> Visit, kind: Kind, digest: Digest) {
    forall n :: visits(n).other.Some? ==> Lacks(hs, kind, digest, MemoryText.Parse(visits(n).other.value))
  }

  lemma LacksWithout(hs: Hashes, kind: Kind, digest: Digest, es: seq<string>, i: nat)
    requires i < |es| && forall j :: 0 <= j < |es| && j != i ==> hs.digest(kind, es[j]) != digest
    ensures Lacks(hs, kind, digest, Without(es, i))
  {
  }

  lemma KeepsLacks(hs: Hashes, start: Pass, key: Key, note: Option<string>, kind: Kind, before: string,
                   after: string, i: nat, digest: Digest)
    requires KeepsOthers(hs, start, key, note, kind, before, after, i)
             && Lacks(hs, kind, digest, MemoryText.Parse(before))
    ensures Lacks(hs, kind, digest, MemoryText.Parse(after))
  {
    hide MemoryText.Parse;
    LacksWithout(hs, kind, digest, MemoryText.Parse(before), i);
  }

  /** An absent entry stays absent from visit `m` to visit `n`. */
  lemma {:induction false} PassKeepsAbsent(hs: Hashes, now: nat, dryRun: bool, start: Pass, keys: seq<Key>,
                                           visits: nat -> Visit,
                                           m: nat, n: nat, kind: Kind, digest: Digest)
    requires Distinct(keys) && m <= n <= |keys| && NotWritten(hs, visits, kind, digest)
    requires Absent(hs, PassAt(hs, now, dryRun, start, keys, visits, m).img, kind, digest)
    ensures Absent(hs, PassAt(hs, now, dryRun, start, keys, visits, n).img, kind, digest)
    decreases n
  {
    hide PassAt, RemovesAt, MemoryText.Parse, TextOf;
    if m < n {
      PassKeepsAbsent(hs, now, dryRun, start, keys, visits, m, n - 1, kind, digest);
      PassKeepsEntries(hs, now, dryRun, start, keys, visits, n - 1, kind);
      var p, q := PassAt(hs, now, dryRun, start, keys, visits, n - 1), PassAt(hs, now, dryRun, start, keys, visits, n);
      var before, after := TextOf(p.img, kind), TextOf(q.img, kind);
      if after != before && visits(n - 1).other != Some(after) {
        var i: nat :| KeepsOthers(hs, start, keys[n - 1], visits(n - 1).note, kind, before, after, i);
        KeepsLacks(hs, start, keys[n - 1], visits(n - 1).note, kind, before, after, i, digest);
      }
    }
  }

  /** A removal leaves the digest of its record absent. */
  lemma RemovalLeavesAbsent(hs: Hashes, p: Pass, q: Pass, key: Key, v: Visit, kind: Kind, now: nat, i: nat)
    requires Removes(hs, p, q, key, v, kind, now, i)
    ensures Absent(hs, q.img, kind, p.promotions[key].digest)
  {
    hide MemoryText.Parse, MemoryText.Serialize;
    ReadsBack(TextOf(p.img, kind), i);
    LacksWithout(hs, kind, p.promotions[key].digest, MemoryText.Parse(TextOf(p.img, kind)), i);
  }

  lemma {:induction false} NoMatch(hs: Hashes, kind: Kind, digest: Digest, es: seq<string>, n: nat)
    requires n <= |es| && Lacks(hs, kind, digest, es)
    ensures Matching(hs, kind, digest, es, n) == []
  {
    if n > 0 { NoMatch(hs, kind, digest, es, n - 1); }
  }

  /** With its entry absent, a record deletes nothing; if its note is intact it is closed as not found. */
  lemma AbsentVisit(hs: Hashes, now: nat, dryRun: bool, p: Pass, key: Key, v: Visit)
    requires key in p.promotions && Absent(hs, p.img, p.promotions[key].kind, p.promotions[key].digest)
    ensures Reconcile(hs, now, dryRun, p, key, v).deleted == p.deleted
    ensures p.promotions[key].status in {Prepared, Posted} && Intact(hs, p.promotions[key], v.note) ==>
              var r := Reconcile(hs, now, dryRun, p, key, v).promotions[key];
              r.status == Reconciled && r.lastBlock == Some(EntryNotFound)
  {
    hide MemoryText.Parse, AfterDelete, Succeeds, Reclaimable;
    var r := p.promotions[key];
    var es := MemoryText.Parse(TextOf(p.img, r.kind));
    NoMatch(hs, r.kind, r.digest, es, |es|);
  }

  /** The note is the recorded one and permits the deletion. */
  predicate Intact(hs: Hashes, r: Record, note: Option<string>) {
    && note.Some? && hs.sha(note.value) == r.noteHash
    && hs.marker(note.value) == Some(Marker(Promotion(r.kind, r.digest), r.kind, r.digest, true))
  }

  lemma {:induction false} AbsentNeverApplied(hs: Hashes, now: nat, dryRun: bool, start: Pass, keys: seq<Key>,
                                              visits: nat -> Visit,
                                              n: nat, key: Key)
    requires Distinct(keys) && n <= |keys| && key in start.promotions && start.deleted == []
    requires var r := start.promotions[key];
             NotWritten(hs, visits, r.kind, r.digest) && Absent(hs, start.img, r.kind, r.digest)
    ensures key !in AppliedKeys(PassAt(hs, now, dryRun, start, keys, visits, n).deleted)
  {
    hide Reconcile, Absent, NotWritten, PassAt;
    PassStarts(hs, now, dryRun, start, keys, visits);
    if n > 0 {
      AbsentNeverApplied(hs, now, dryRun, start, keys, visits, n - 1, key);
      PassStep(hs, now, dryRun, start, keys, visits, n - 1);
      var p := PassAt(hs, now, dryRun, start, keys, visits, n - 1);
      if keys[n - 1] == key {
        UnvisitedAt(hs, now, dryRun, start, keys, visits, n - 1);
        PassKeepsAbsent(hs, now, dryRun, start, keys, visits, 0, n - 1, start.promotions[key].kind,
                        start.promotions[key].digest);
        AbsentVisit(hs, now, dryRun, p, key, visits(n - 1));
      } else {
        ReconcileMoves(hs, now, dryRun, p, keys[n - 1], visits(n - 1));
      }
    }
  }

  function StartOf(t: Tick, s: CuratorState): Pass {
    Pass(t.img, s.promotions, [], [], {})
  }

  /** Cycle `i`, before its visit `n`. */
  function VisitOf(hs: Hashes, states: seq<CuratorState>, ticks: seq<Tick>, i: nat, n: nat): Pass
    requires i < |ticks| && |states| == |ticks| + 1 && n <= |ticks[i].inp.keys|
  {
    var inp := ticks[i].inp;
    PassAt(hs, inp.now / SECOND, inp.dryRun, StartOf(ticks[i], states[i]), inp.keys, inp.visits, n)
  }

  /** In cycle `i`, visit `n` removes entry `x` of its record's file. */
  ghost predicate RemovesIn(hs: Hashes, states: seq<CuratorState>, ticks: seq<Tick>, i: nat, n: nat, x: nat)
    requires i < |ticks| && |states| == |ticks| + 1 && n < |ticks[i].inp.keys|
  {
    var inp, p := ticks[i].inp, VisitOf(hs, states, ticks, i, n);
    && !inp.dryRun && inp.keys[n] in p.promotions
    && Removes(hs, p, VisitOf(hs, states, ticks, i, n + 1), inp.keys[n], inp.visits(n), p.promotions[inp.keys[n]].kind,
               inp.now / SECOND, x)
  }

  /** From cycle `i` on, nobody writes the entry back: no writer between a reading and a deletion, and none
      between the image that a cycle leaves and the one that the next cycle meets. */
  ghost predicate NobodyRestores(hs: Hashes, states: seq<CuratorState>, ticks: seq<Tick>, i: nat, kind: Kind,
                                 digest: Digest)
    requires |states| == |ticks| + 1
  {
    forall j :: i <= j < |ticks| ==> NotRestoredAfter(hs, states, ticks, j, kind, digest)
  }

  ghost predicate NotRestoredAfter(hs: Hashes, states: seq<CuratorState>, ticks: seq<Tick>, j: nat, kind: Kind,
                                   digest: Digest)
    requires j < |ticks| && |states| == |ticks| + 1
  {
    && NotWritten(hs, ticks[j].inp.visits, kind, digest)
    && (j + 1 < |ticks| && Absent(hs, Passed(hs, ticks[j].img, states[j], ticks[j].inp).img, kind, digest) ==>
          Absent(hs, ticks[j + 1].img, kind, digest))
  }

  /** A run in which each cycle meets the files exactly as the one before left them, without other writers. */
  ghost predicate Threaded(hs: Hashes, states: seq<CuratorState>, ticks: seq<Tick>)
    requires |states| == |ticks| + 1
  {
    && (forall j, n :: 0 <= j < |ticks| ==> ticks[j].inp.visits(n).other.None?)
    && (forall j :: 0 <= j < |ticks| - 1 ==> ticks[j + 1].img == Passed(hs, ticks[j].img, states[j], ticks[j].inp).img)
  }

  lemma ThreadedRestoresNothing(hs: Hashes, states: seq<CuratorState>, ticks: seq<Tick>, i: nat, kind: Kind,
                                digest: Digest)
    requires |states| == |ticks| + 1 && Threaded(hs, states, ticks)
    ensures NobodyRestores(hs, states, ticks, i, kind, digest)
  {
    hide Absent, Passed;
  }

  lemma VisitEnds(hs: Hashes, states: seq<CuratorState>, ticks: seq<Tick>, i: nat)
    requires i < |ticks| && |states| == |ticks| + 1
    ensures VisitOf(hs, states, ticks, i, |ticks[i].inp.keys|) == Passed(hs, ticks[i].img, states[i], ticks[i].inp)
  {
    assert ticks[i].inp.keys[..|ticks[i].inp.keys|] == ticks[i].inp.keys;
  }

  /** Once a cycle has removed the entry, every later cycle finds it absent. */
  lemma {:induction false} AbsentLater(hs: Hashes, content: string -> Digest, quiet: nat, states: seq<CuratorState>,
                                       ticks: seq<Tick>,
                                       i: nat, n: nat, x: nat, j: nat)
    requires IsRun(hs, content, quiet, states, ticks) && i < j < |ticks|
    requires n < |ticks[i].inp.keys| && RemovesIn(hs, states, ticks, i, n, x)
    requires var r := VisitOf(hs, states, ticks, i, n).promotions[ticks[i].inp.keys[n]];
             NobodyRestores(hs, states, ticks, i, r.kind, r.digest)
    ensures var r := VisitOf(hs, states, ticks, i, n).promotions[ticks[i].inp.keys[n]];
            Absent(hs, ticks[j].img, r.kind, r.digest)
    decreases j
  {
    hide Cycle, Absent, Removes, Passed, PassAt, NotWritten;
    var r := VisitOf(hs, states, ticks, i, n).promotions[ticks[i].inp.keys[n]];
    assert NotRestoredAfter(hs, states, ticks, j - 1, r.kind, r.digest);
    var t, inp := ticks[j - 1], ticks[j - 1].inp;
    assert IsStep(hs, content, quiet, states[j - 1], t, states[j]);
    VisitEnds(hs, states, ticks, j - 1);
    var start := StartOf(t, states[j - 1]);
    if j - 1 == i {
      RemovalLeavesAbsent(hs, VisitOf(hs, states, ticks, i, n), VisitOf(hs, states, ticks, i, n + 1), inp.keys[n],
                          inp.visits(n),
                          r.kind, inp.now / SECOND, x);
      PassKeepsAbsent(hs, inp.now / SECOND, inp.dryRun, start, inp.keys, inp.visits, n + 1, |inp.keys|, r.kind,
                      r.digest);
    } else {
      AbsentLater(hs, content, quiet, states, ticks, i, n, x, j - 1);
      PassStarts(hs, inp.now / SECOND, inp.dryRun, start, inp.keys, inp.visits);
      PassKeepsAbsent(hs, inp.now / SECOND, inp.dryRun, start, inp.keys, inp.visits, 0, |inp.keys|, r.kind, r.digest);
    }
  }

  predicate SameBinding(r: Record, q: Record) {
    q.kind == r.kind && q.digest == r.digest && q.noteHash == r.noteHash
  }

  /** The binding of a confirmed record never changes. */
  lemma {:induction false} BindingFixed(hs: Hashes, content: string -> Digest, quiet: nat, states: seq<CuratorState>,
                                        ticks: seq<Tick>,
                                        i: nat, j: nat, k: Key)
    requires IsRun(hs, content, quiet, states, ticks) && NeverEmpty(hs) && i <= j <= |ticks|
    requires k in states[i].promotions && states[i].promotions[k].status != Prepared
    ensures k in states[j].promotions && states[j].promotions[k].status != Prepared
    ensures SameBinding(states[i].promotions[k], states[j].promotions[k])
    decreases j
  {
    hide Cycle, NeverEmpty, Selected, Inv;
    if i < j {
      BindingFixed(hs, content, quiet, states, ticks, i, j - 1, k);
      StatusSteps(hs, content, quiet, states, ticks, j - 1, k);
      RunKeepsInv(hs, content, quiet, states, ticks, j - 1);
      var t := ticks[j - 1];
      assert IsStep(hs, content, quiet, states[j - 1], t, states[j]);
      CycleKeepsInv(hs, content, quiet, t.img, states[j - 1], t.inp);
      SelectedKeeps(hs, content, t.img, states[j - 1], t.inp, k);
    }
  }

  lemma SelectedKeeps(hs: Hashes, content: string -> Digest, img: Image, s: CuratorState, inp: Input, k: Key)
    requires WellFormed(inp) && k in s.promotions && s.promotions[k].status != Prepared
    ensures var p, after := Passed(hs, img, s, inp), Selected(hs, content, img, s, inp).promotions;
            k in p.promotions && k in after && after[k] == p.promotions[k] && SameBinding(s.promotions[k], after[k])
  {
    hide ReconcileAll, SelectAll;
    var p := Passed(hs, img, s, inp);
    PassMoves(hs, inp.now / SECOND, inp.dryRun, Pass(img, s.promotions, [], [], {}), inp.keys, inp.visits);
    SelectMoves(hs, content, inp.dryRun, inp.maxPromotions, p.promotions, inp.candidates, inp.receipts);
    assert Moves(s.promotions[k], p.promotions[k]);
    assert SelectStep(p.promotions, Selected(hs, content, img, s, inp).promotions, k);
  }

  function DeletionOf(k: Key): EventKey {
    EventKey(k, DeletedPhase)
  }

  // ----- Which removals a cycle reports -----

  lemma VisitApplies(hs: Hashes, now: nat, p: Pass, key: Key, v: Visit, kind: Kind, x: nat)
    requires Removes(hs, p, Reconcile(hs, now, false, p, key, v), key, v, kind, now, x)
    ensures AppliedKeys(Reconcile(hs, now, false, p, key, v).deleted)
            == AppliedKeys(p.deleted) + (if v.fault == NoFault then [key] else [])
  {
    var r := p.promotions[key];
    var text := TextOf(p.img, r.kind);
    EmptyHasNoEntries();
    hide Decide, MemoryText.Parse, MemoryText.Serialize, AppliedKeys, AfterDelete, Reclaimable;
    DeletesExactly(hs, r, v.note, v.note.Some?, MemoryText.Parse(text), x);
    AuthorizedIsUnique(hs, r, v.note, MemoryText.Parse(text), x);
    var q := Reconcile(hs, now, false, p, key, v);
    if v.fault == NoFault {
      var d := Deleted(key, MemoryText.Parse(text)[x], Reclaimable(MemoryText.Parse(text), x), true);
      assert q.deleted == p.deleted + [d];
      AppliedSnoc(p.deleted, d);
    } else {
      assert q.deleted == p.deleted;
    }
  }

  lemma EmptyHasNoEntries()
    ensures MemoryText.Parse("") == []
  {
  }

  lemma {:induction false} AppliedElsewhere(hs: Hashes, now: nat, dryRun: bool, start: Pass, keys: seq<Key>,
                                            visits: nat -> Visit,
                                            m: nat, n: nat, key: Key)
    requires m <= n <= |keys| && forall i :: m <= i < n ==> keys[i] != key
    ensures var p := PassAt(hs, now, dryRun, start, keys, visits, m);
            var q := PassAt(hs, now, dryRun, start, keys, visits, n);
            && (key in AppliedKeys(q.deleted) <==> key in AppliedKeys(p.deleted))
            && (key in q.promotions <==> key in p.promotions)
            && (key in p.promotions ==> q.promotions[key] == p.promotions[key])
    decreases n
  {
    hide PassAt, Reconcile, AppliedKeys;
    if m < n {
      AppliedElsewhere(hs, now, dryRun, start, keys, visits, m, n - 1, key);
      PassStep(hs, now, dryRun, start, keys, visits, n - 1);
      ReconcileMoves(hs, now, dryRun, PassAt(hs, now, dryRun, start, keys, visits, n - 1), keys[n - 1], visits(n - 1));
    }
  }

  /** A removal is reported by its pass exactly if nothing failed after it. */
  lemma AppliedExactly(hs: Hashes, content: string -> Digest, quiet: nat, states: seq<CuratorState>,
                       ticks: seq<Tick>, i: nat, n: nat, x: nat)
    requires IsRun(hs, content, quiet, states, ticks) && i < |ticks|
    requires n < |ticks[i].inp.keys| && RemovesIn(hs, states, ticks, i, n, x)
    ensures Brings(Produced(hs, content, ticks[i].img, states[i], ticks[i].inp), DeletionOf(ticks[i].inp.keys[n]))
            <==> ticks[i].inp.visits(n).fault == NoFault
  {
    hide Cycle, PassAt, Removes, Reconcile, AppliedKeys, Brings, Produced;
    var inp, start, k := ticks[i].inp, StartOf(ticks[i], states[i]), ticks[i].inp.keys[n];
    assert IsStep(hs, content, quiet, states[i], ticks[i], states[i + 1]);
    var now := inp.now / SECOND;
    PassStarts(hs, now, inp.dryRun, start, inp.keys, inp.visits);
    NothingApplied();
    AppliedElsewhere(hs, now, inp.dryRun, start, inp.keys, inp.visits, 0, n, k);
    PassStep(hs, now, inp.dryRun, start, inp.keys, inp.visits, n);
    VisitApplies(hs, now, VisitOf(hs, states, ticks, i, n), k, inp.visits(n),
                 VisitOf(hs, states, ticks, i, n).promotions[k].kind, x);
    AppliedElsewhere(hs, now, inp.dryRun, start, inp.keys, inp.visits, n + 1, |inp.keys|, k);
    VisitEnds(hs, states, ticks, i);
    NotApplied(hs, content, ticks[i].img, states[i], inp, k);
  }

  /** Once removed, the record's deletion is produced by no later cycle, saved or not. */
  lemma NeverProducedLater(hs: Hashes, content: string -> Digest, quiet: nat, states: seq<CuratorState>,
                           ticks: seq<Tick>,
                           i: nat, n: nat, x: nat, j: nat)
    requires IsRun(hs, content, quiet, states, ticks) && NeverEmpty(hs) && i < j < |ticks|
    requires n < |ticks[i].inp.keys| && RemovesIn(hs, states, ticks, i, n, x)
    requires var r := VisitOf(hs, states, ticks, i, n).promotions[ticks[i].inp.keys[n]];
             NobodyRestores(hs, states, ticks, i, r.kind, r.digest)
    ensures !Brings(Produced(hs, content, ticks[j].img, states[j], ticks[j].inp), DeletionOf(ticks[i].inp.keys[n]))
  {
    hide Cycle, Absent, Removes, PassAt, NotWritten, NeverEmpty, NobodyRestores;
    var k := ticks[i].inp.keys[n];
    RemovedRecord(hs, content, quiet, states, ticks, i, n, x);
    var r := VisitOf(hs, states, ticks, i, n).promotions[k];
    AbsentLater(hs, content, quiet, states, ticks, i, n, x, j);
    BindingFixed(hs, content, quiet, states, ticks, i, j, k);
    RestoredAt(hs, states, ticks, i, j, r.kind, r.digest);
    assert IsStep(hs, content, quiet, states[j], ticks[j], states[j + 1]);
    var inp := ticks[j].inp;
    AbsentNeverApplied(hs, inp.now / SECOND, inp.dryRun, StartOf(ticks[j], states[j]), inp.keys, inp.visits,
                       |inp.keys|, k);
    VisitEnds(hs, states, ticks, j);
    NotApplied(hs, content, ticks[j].img, states[j], inp, k);
  }

  lemma RestoredAt(hs: Hashes, states: seq<CuratorState>, ticks: seq<Tick>, i: nat, j: nat, kind: Kind, digest: Digest)
    requires |states| == |ticks| + 1 && NobodyRestores(hs, states, ticks, i, kind, digest) && i <= j < |ticks|
    ensures NotRestoredAfter(hs, states, ticks, j, kind, digest)
  {
  }

  lemma NotApplied(hs: Hashes, content: string -> Digest, img: Image, s: CuratorState, inp: Input, k: Key)
    ensures Brings(Produced(hs, content, img, s, inp), DeletionOf(k)) <==>
            k in AppliedKeys(Passed(hs, img, s, inp).deleted)
  {
    hide ReconcileAll, SelectAll, AppliedKeys, PostedEvents, DeletedEvents;
    var sel, ds := Selected(hs, content, img, s, inp), Passed(hs, img, s, inp).deleted;
    var es, m := Produced(hs, content, img, s, inp), |PostedEvents(sel.promoted)|;
    if k in AppliedKeys(ds) {
      var i :| 0 <= i < |AppliedKeys(ds)| && AppliedKeys(ds)[i] == k;
      assert es[m + i].key == DeletionOf(k);
    }
    if Brings(es, DeletionOf(k)) {
      var i :| 0 <= i < |es| && es[i].key == DeletionOf(k);
      assert i >= m && AppliedKeys(ds)[i - m] == k;
    }
  }

  /** The record of a removal is the saved one, and is confirmed. */
  lemma RemovedRecord(hs: Hashes, content: string -> Digest, quiet: nat, states: seq<CuratorState>, ticks: seq<Tick>,
                      i: nat, n: nat, x: nat)
    requires IsRun(hs, content, quiet, states, ticks) && NeverEmpty(hs) && i < |ticks|
    requires n < |ticks[i].inp.keys| && RemovesIn(hs, states, ticks, i, n, x)
    ensures var k, p := ticks[i].inp.keys[n], VisitOf(hs, states, ticks, i, n);
            k in states[i].promotions && k in p.promotions && p.promotions[k] == states[i].promotions[k]
            && states[i].promotions[k].status == Posted
  {
    hide Cycle, PassAt, MemoryText.Parse, MemoryText.Serialize, NeverEmpty;
    var inp, k := ticks[i].inp, ticks[i].inp.keys[n];
    assert IsStep(hs, content, quiet, states[i], ticks[i], states[i + 1]);
    UnvisitedAt(hs, inp.now / SECOND, inp.dryRun, StartOf(ticks[i], states[i]), inp.keys, inp.visits, n);
    RunKeepsInv(hs, content, quiet, states, ticks, i);
    var r := states[i].promotions[k];
    assert hs.sha(inp.visits(n).note.value) == r.noteHash;
    ConfirmedHash(hs, states[i].promotions, k, inp.visits(n).note.value);
  }

  lemma ConfirmedHash(hs: Hashes, promotions: map<Key, Record>, k: Key, note: string)
    requires NeverEmpty(hs) && HashFollowsStatus(promotions) && k in promotions
             && hs.sha(note) == promotions[k].noteHash
    ensures promotions[k].status != Prepared
  {
  }

  /** Cycle `j` saves the event or tells it. */
  predicate Surfaces(hs: Hashes, content: string -> Digest, quiet: nat, states: seq<CuratorState>, ticks: seq<Tick>,
                     j: nat, e: EventKey)
    requires j < |ticks| && |states| == |ticks| + 1
  {
    var told := Cycle(hs, content, quiet, ticks[j].img, states[j], ticks[j].inp).told;
    e in states[j + 1].pending || (told.Some? && e in told.value)
  }

  /** What surfaces was pending or was produced. */
  lemma SurfacesFrom(hs: Hashes, content: string -> Digest, quiet: nat, states: seq<CuratorState>, ticks: seq<Tick>,
                     j: nat, e: EventKey)
    requires IsRun(hs, content, quiet, states, ticks) && NeverEmpty(hs) && j < |ticks|
    requires Surfaces(hs, content, quiet, states, ticks, j, e)
    ensures e in states[j].pending
            || (ticks[j].inp.stop != BeforeSave
                && Brings(Produced(hs, content, ticks[j].img, states[j], ticks[j].inp), e))
  {
    hide Produced, Merge, NeverEmpty, DecideAlert, NextAlert;
    RunKeepsInv(hs, content, quiet, states, ticks, j);
    assert IsStep(hs, content, quiet, states[j], ticks[j], states[j + 1]);
    MergesAll(hs, content, ticks[j].img, states[j], ticks[j].inp);
  }

  lemma {:induction false} NeverPending(hs: Hashes, content: string -> Digest, quiet: nat, states: seq<CuratorState>,
                                        ticks: seq<Tick>,
                                        i: nat, n: nat, x: nat, j: nat)
    requires IsRun(hs, content, quiet, states, ticks) && NeverEmpty(hs) && i < j <= |ticks|
    requires n < |ticks[i].inp.keys| && RemovesIn(hs, states, ticks, i, n, x)
    requires var r := VisitOf(hs, states, ticks, i, n).promotions[ticks[i].inp.keys[n]];
             NobodyRestores(hs, states, ticks, i, r.kind, r.digest)
    requires ticks[i].inp.stop == BeforeSave || ticks[i].inp.visits(n).fault != NoFault
    ensures DeletionOf(ticks[i].inp.keys[n]) !in states[j].pending
    decreases j
  {
    hide Cycle, RemovesIn, NeverEmpty, NobodyRestores, Produced;
    var e := DeletionOf(ticks[i].inp.keys[n]);
    if j == i + 1 {
      NotYetPending(hs, content, quiet, states, ticks, i, n, x);
      AppliedExactly(hs, content, quiet, states, ticks, i, n, x);
    } else {
      NeverPending(hs, content, quiet, states, ticks, i, n, x, j - 1);
      NeverProducedLater(hs, content, quiet, states, ticks, i, n, x, j - 1);
    }
    if e in states[j].pending {
      assert Surfaces(hs, content, quiet, states, ticks, j - 1, e);
      SurfacesFrom(hs, content, quiet, states, ticks, j - 1, e);
    }
  }

  /** Before its cycle saves, the deletion of a record is not pending. */
  lemma NotYetPending(hs: Hashes, content: string -> Digest, quiet: nat, states: seq<CuratorState>, ticks: seq<Tick>,
                      i: nat, n: nat, x: nat)
    requires IsRun(hs, content, quiet, states, ticks) && NeverEmpty(hs) && i < |ticks|
    requires n < |ticks[i].inp.keys| && RemovesIn(hs, states, ticks, i, n, x)
    ensures DeletionOf(ticks[i].inp.keys[n]) !in states[i].pending
  {
    assert |states| == |ticks| + 1;
    hide Cycle, RemovesIn, NeverEmpty, IsRun, VisitOf;
    RemovedRecord(hs, content, quiet, states, ticks, i, n, x);
    RunKeepsInv(hs, content, quiet, states, ticks, i);
    assert !Told(states[i].promotions, DeletionOf(ticks[i].inp.keys[n]));
  }

  /** A removal whose cycle is cut short before its save, or whose read-back failed, is silent: as long as
      nobody writes the entry back, no cycle of the run ever saves or tells its event. */
  lemma LostDeletionIsSilent(hs: Hashes, content: string -> Digest, quiet: nat, states: seq<CuratorState>,
                             ticks: seq<Tick>,
                             i: nat, n: nat, x: nat, j: nat)
    requires IsRun(hs, content, quiet, states, ticks) && NeverEmpty(hs) && i <= j < |ticks|
    requires n < |ticks[i].inp.keys| && RemovesIn(hs, states, ticks, i, n, x)
    requires var r := VisitOf(hs, states, ticks, i, n).promotions[ticks[i].inp.keys[n]];
             NobodyRestores(hs, states, ticks, i, r.kind, r.digest)
    requires ticks[i].inp.stop == BeforeSave || ticks[i].inp.visits(n).fault != NoFault
    ensures !Surfaces(hs, content, quiet, states, ticks, j, DeletionOf(ticks[i].inp.keys[n]))
  {
    hide Cycle, RemovesIn, NeverEmpty, NobodyRestores, Produced, Surfaces;
    var e := DeletionOf(ticks[i].inp.keys[n]);
    if i == j {
      NotYetPending(hs, content, quiet, states, ticks, i, n, x);
      AppliedExactly(hs, content, quiet, states, ticks, i, n, x);
    } else {
      NeverPending(hs, content, quiet, states, ticks, i, n, x, j);
      NeverProducedLater(hs, content, quiet, states, ticks, i, n, x, j);
    }
    if Surfaces(hs, content, quiet, states, ticks, j, e) {
      SurfacesFrom(hs, content, quiet, states, ticks, j, e);
    }
  }

  /** Which deletions the owner hears of.  As long as nobody writes the entry back, the event of a removal is
      ever saved or told if and only if nothing failed after the removal and its cycle reached its save. */
  lemma DeletionReportedExactly(hs: Hashes, content: string -> Digest, quiet: nat, states: seq<CuratorState>,
                                ticks: seq<Tick>,
                                i: nat, n: nat, x: nat)
    requires IsRun(hs, content, quiet, states, ticks) && NeverEmpty(hs) && i < |ticks|
    requires n < |ticks[i].inp.keys| && RemovesIn(hs, states, ticks, i, n, x)
    requires var r := VisitOf(hs, states, ticks, i, n).promotions[ticks[i].inp.keys[n]];
             NobodyRestores(hs, states, ticks, i, r.kind, r.digest)
    ensures (exists j ::
               i <= j < |ticks| && Surfaces(hs, content, quiet, states, ticks, j, DeletionOf(ticks[i].inp.keys[n])))
            <==> ticks[i].inp.visits(n).fault == NoFault && ticks[i].inp.stop != BeforeSave
  {
    hide Cycle, RemovesIn, NeverEmpty, NobodyRestores, Produced, Surfaces, Inv;
    var e := DeletionOf(ticks[i].inp.keys[n]);
    if ticks[i].inp.visits(n).fault == NoFault && ticks[i].inp.stop != BeforeSave {
      AppliedExactly(hs, content, quiet, states, ticks, i, n, x);
      var es := Produced(hs, content, ticks[i].img, states[i], ticks[i].inp);
      var m :| 0 <= m < |es| && es[m].key == e;
      RunKeepsInv(hs, content, quiet, states, ticks, i);
      assert IsStep(hs, content, quiet, states[i], ticks[i], states[i + 1]);
      NewEventsAreKeptOrTold(hs, content, quiet, ticks[i].img, states[i], ticks[i].inp, m);
      SurfacesIf(hs, content, quiet, states, ticks, i, e);
    } else {
      forall j | i <= j < |ticks| ensures !Surfaces(hs, content, quiet, states, ticks, j, e) {
        LostDeletionIsSilent(hs, content, quiet, states, ticks, i, n, x, j);
      }
    }
  }

  lemma SurfacesIf(hs: Hashes, content: string -> Digest, quiet: nat, states: seq<CuratorState>, ticks: seq<Tick>,
                   j: nat, e: EventKey)
    requires j < |ticks| && |states| == |ticks| + 1
    requires var out := Cycle(hs, content, quiet, ticks[j].img, states[j], ticks[j].inp);
             out.saved == states[j + 1] && (e in out.saved.pending || (out.told.Some? && e in out.told.value))
    ensures Surfaces(hs, content, quiet, states, ticks, j, e)
  {
    hide Cycle;
  }

  /** How the record of a removal ends that its own cycle did not close: the first later cycle that finds its
      note intact and saves closes it as not found. */
  lemma LostRecordIsClosed(hs: Hashes, content: string -> Digest, quiet: nat, states: seq<CuratorState>,
                           ticks: seq<Tick>,
                           i: nat, n: nat, x: nat, j: nat, m: nat)
    requires IsRun(hs, content, quiet, states, ticks) && NeverEmpty(hs) && i < j < |ticks|
    requires n < |ticks[i].inp.keys| && RemovesIn(hs, states, ticks, i, n, x)
    requires var r := VisitOf(hs, states, ticks, i, n).promotions[ticks[i].inp.keys[n]];
             NobodyRestores(hs, states, ticks, i, r.kind, r.digest)
    requires var k := ticks[i].inp.keys[n];
             && k in states[j].promotions && states[j].promotions[k].status == Posted
             && m < |ticks[j].inp.keys| && ticks[j].inp.keys[m] == k && ticks[j].inp.stop != BeforeSave
             && Intact(hs, states[j].promotions[k], ticks[j].inp.visits(m).note)
    ensures var k := ticks[i].inp.keys[n];
            && k in states[j + 1].promotions && states[j + 1].promotions[k].status == Reconciled
            && states[j + 1].promotions[k].lastBlock == Some(EntryNotFound)
  {
    hide Cycle, Absent, Removes, PassAt, NotWritten, NeverEmpty, NobodyRestores, Reconcile, Intact, Selected, Inv,
        AppliedKeys;
    var k, inp, start := ticks[i].inp.keys[n], ticks[j].inp, StartOf(ticks[j], states[j]);
    var now := inp.now / SECOND;
    RemovedRecord(hs, content, quiet, states, ticks, i, n, x);
    var r := VisitOf(hs, states, ticks, i, n).promotions[k];
    AbsentLater(hs, content, quiet, states, ticks, i, n, x, j);
    BindingFixed(hs, content, quiet, states, ticks, i, j, k);
    RestoredAt(hs, states, ticks, i, j, r.kind, r.digest);
    assert IsStep(hs, content, quiet, states[j], ticks[j], states[j + 1]);
    PassStarts(hs, now, inp.dryRun, start, inp.keys, inp.visits);
    PassKeepsAbsent(hs, now, inp.dryRun, start, inp.keys, inp.visits, 0, m, r.kind, r.digest);
    UnvisitedAt(hs, now, inp.dryRun, start, inp.keys, inp.visits, m);
    PassStep(hs, now, inp.dryRun, start, inp.keys, inp.visits, m);
    AbsentVisit(hs, now, inp.dryRun, PassAt(hs, now, inp.dryRun, start, inp.keys, inp.visits, m), k, inp.visits(m));
    ReconcileMoves(hs, now, inp.dryRun, PassAt(hs, now, inp.dryRun, start, inp.keys, inp.visits, m), k, inp.visits(m));
    AppliedElsewhere(hs, now, inp.dryRun, start, inp.keys, inp.visits, m + 1, |inp.keys|, k);
    VisitEnds(hs, states, ticks, j);
    SelectedKeeps(hs, content, ticks[j].img, states[j], inp, k);
    SavedRecords(hs, content, quiet, states, ticks, j);
  }

  /** A cycle that reaches its save saves the records it selected. */
  lemma SavedRecords(hs: Hashes, content: string -> Digest, quiet: nat, states: seq<CuratorState>, ticks: seq<Tick>,
                     j: nat)
    requires IsRun(hs, content, quiet, states, ticks) && NeverEmpty(hs) && j < |ticks|
             && ticks[j].inp.stop != BeforeSave
    ensures states[j + 1].promotions == Selected(hs, content, ticks[j].img, states[j], ticks[j].inp).promotions
  {
    hide NeverEmpty, Produced, Merge, Selected, DecideAlert, NextAlert, Unites;
    RunKeepsInv(hs, content, quiet, states, ticks, j);
    assert IsStep(hs, content, quiet, states[j], ticks[j], states[j + 1]);
    MergesAll(hs, content, ticks[j].img, states[j], ticks[j].inp);
  }

  // ----- A lost deletion, shown -----

  function Meets(v: Visit): nat -> Visit {
    n => v
  }

  function Answers(r: Option<Receipt>): nat -> Option<Receipt> {
    n => r
  }

  function KeyFor(hs: Hashes, text: string): Key {
    Promotion(Memory, hs.digest(Memory, text))
  }

  /** An entry and a note that permits its deletion. */
  predicate Fits(hs: Hashes, text: string, note: string) {
    && MemoryText.Canonical(text) && hs.sha(note) != ""
    && hs.marker(note) == Some(Marker(KeyFor(hs, text), Memory, hs.digest(Memory, text), true))
  }

  /** The first cycle posts the entry and tells the owner. */
  function PostingTick(hs: Hashes, quiet: nat, text: string, note: string): Tick {
    Tick(Image(map[Memory := MemoryText.Serialize([text])], map[]),
         Input(0, false, [], Meets(Visit(None, None, NoFault)), [Candidate(Memory, text)],
               Answers(Some(Receipt(0, hs.sha(note)))), 1, quiet, false, false, true, Never))
  }

  /** The second one deletes the entry and is cut short before its save; the third one runs to its end. */
  function DeletingTick(hs: Hashes, quiet: nat, text: string, note: string, img: Image, stop: Stop): Tick {
    Tick(img, Input(0, false, [KeyFor(hs, text)], Meets(Visit(Some(note), None, NoFault)), [],
                    Answers(None), 1, quiet, false, false, true, stop))
  }

  function PostedState(hs: Hashes, quiet: nat, text: string, note: string): CuratorState {
    CuratorState(map[KeyFor(hs, text) := Record(Memory, hs.digest(Memory, text), hs.sha(note), Posted, None, None)],
                 AlertState(Some(quiet), None, None, None), map[])
  }

  lemma PostingCycle(hs: Hashes, content: string -> Digest, quiet: nat, text: string, note: string)
    ensures var t := PostingTick(hs, quiet, text, note);
            Cycle(hs, content, quiet, t.img, START, t.inp).saved == PostedState(hs, quiet, text, note)
  {
    hide MemoryText.Serialize;
    var t := PostingTick(hs, quiet, text, note);
    var key := KeyFor(hs, text);
    SelectNone(hs, content, false, 1, map[], t.inp.candidates, t.inp.receipts);
    SelectSnoc(hs, content, false, 1, map[], t.inp.candidates, t.inp.receipts, 0);
    assert t.inp.candidates[..1] == t.inp.candidates;
    var sel := Selected(hs, content, t.img, START, t.inp);
    assert sel.promotions == PostedState(hs, quiet, text, note).promotions;
    assert sel.promoted == [Promoted(key, text, 0)];
    hide SelectAll, SelectOne, ReconcileAll, Merge, Unites;
    var es := Produced(hs, content, t.img, START, t.inp);
    assert |es| >= 1;
    MergeExactly(map[], es);
    PostedAlone(hs, content, t.img, START, t.inp);
    UnitesNothing(map[], es, Merge(map[], es).value);
  }

  /** A single new event merges into an empty set of pending ones. */
  lemma PostedAlone(hs: Hashes, content: string -> Digest, img: Image, s: CuratorState, inp: Input)
    requires s.pending == map[] && |Produced(hs, content, img, s, inp)| == 1
    ensures Merge(s.pending, Produced(hs, content, img, s, inp)).Some?
    ensures Unites(s.pending, Produced(hs, content, img, s, inp),
                   Merge(s.pending, Produced(hs, content, img, s, inp)).value)
  {
    hide Produced;
    MergeExactly(s.pending, Produced(hs, content, img, s, inp));
  }

  lemma DeletingVisit(hs: Hashes, quiet: nat, text: string, note: string)
    requires Fits(hs, text, note)
    ensures var s := PostedState(hs, quiet, text, note);
            var t := DeletingTick(hs, quiet, text, note, PostingTick(hs, quiet, text, note).img, BeforeSave);
            var p := StartOf(t, s);
            Removes(hs, p, Reconcile(hs, 0, false, p, KeyFor(hs, text), t.inp.visits(0)), KeyFor(hs, text),
                    t.inp.visits(0),
                    Memory, 0, 0)
  {
    var s := PostedState(hs, quiet, text, note);
    var t := DeletingTick(hs, quiet, text, note, PostingTick(hs, quiet, text, note).img, BeforeSave);
    assert MemoryText.AllCanonical([text]);
    MemoryText.ParseSerialize([text]);
    hide MemoryText.Serialize, MemoryText.Parse, MemoryText.Canonical;
    AuthorizedIsDeleted(hs, 0, StartOf(t, s), KeyFor(hs, text), t.inp.visits(0), 0);
  }

  function LostTicks(hs: Hashes, quiet: nat, text: string, note: string): (ticks: seq<Tick>)
    ensures |ticks| == 3
  {
    var first := PostingTick(hs, quiet, text, note);
    var second := DeletingTick(hs, quiet, text, note, first.img, BeforeSave);
    var img := Passed(hs, second.img, PostedState(hs, quiet, text, note), second.inp).img;
    [first, second, DeletingTick(hs, quiet, text, note, img, Never)]
  }

  function LostStates(hs: Hashes, content: string -> Digest, quiet: nat, text: string,
                      note: string): (states: seq<CuratorState>)
    ensures |states| == 4
  {
    var s, last := PostedState(hs, quiet, text, note), LostTicks(hs, quiet, text, note)[2];
    [START, s, s, Cycle(hs, content, quiet, last.img, s, last.inp).saved]
  }

  lemma LostIsRun(hs: Hashes, content: string -> Digest, quiet: nat, text: string, note: string)
    ensures IsRun(hs, content, quiet, LostStates(hs, content, quiet, text, note), LostTicks(hs, quiet, text, note))
  {
    hide Cycle, Passed;
    var t1 := LostTicks(hs, quiet, text, note)[1];
    PostingCycle(hs, content, quiet, text, note);
    CutCycle(hs, content, quiet, t1.img, PostedState(hs, quiet, text, note), t1.inp);
  }

  lemma LostIsThreaded(hs: Hashes, content: string -> Digest, quiet: nat, text: string, note: string)
    ensures Threaded(hs, LostStates(hs, content, quiet, text, note), LostTicks(hs, quiet, text, note))
  {
    var states, ticks := LostStates(hs, content, quiet, text, note), LostTicks(hs, quiet, text, note);
    PassedNothing(hs, ticks[0].img, START, ticks[0].inp);
    assert forall n: nat :: ticks[0].inp.visits(n) == Visit(None, None, NoFault);
    assert forall n: nat :: ticks[1].inp.visits(n) == Visit(Some(note), None, NoFault);
    assert forall n: nat :: ticks[2].inp.visits(n) == Visit(Some(note), None, NoFault);
    assert states[0] == START && states[1] == PostedState(hs, quiet, text, note);
    assert ticks[1].img == ticks[0].img;
    assert ticks[2].img == Passed(hs, ticks[1].img, states[1], ticks[1].inp).img;
    hide Cycle, Passed, LostStates, LostTicks, PostedState;
  }

  lemma LostRemoves(hs: Hashes, content: string -> Digest, quiet: nat, text: string, note: string)
    requires Fits(hs, text, note)
    ensures RemovesIn(hs, LostStates(hs, content, quiet, text, note), LostTicks(hs, quiet, text, note), 1, 0, 0)
  {
    hide Cycle, Removes, Reconcile, Passed, Fits;
    var s, t := PostedState(hs, quiet, text, note), LostTicks(hs, quiet, text, note)[1];
    DeletingVisit(hs, quiet, text, note);
    PassStarts(hs, 0, false, StartOf(t, s), t.inp.keys, t.inp.visits);
    PassStep(hs, 0, false, StartOf(t, s), t.inp.keys, t.inp.visits, 0);
  }

  /** A run of three cycles: the entry is posted, its deletion is lost before the save, and the next cycle
      closes the record as not found without a word to the owner. */
  lemma LostDeletionRun(hs: Hashes, content: string -> Digest, quiet: nat, text: string, note: string)
    requires Fits(hs, text, note) && NeverEmpty(hs)
    ensures var states, ticks := LostStates(hs, content, quiet, text, note), LostTicks(hs, quiet, text, note);
            var k := KeyFor(hs, text);
            && IsRun(hs, content, quiet, states, ticks) && Threaded(hs, states, ticks)
            && RemovesIn(hs, states, ticks, 1, 0, 0) && ticks[1].inp.keys == [k] && ticks[1].inp.stop == BeforeSave
            && ticks[2].inp.stop == Never && ticks[2].inp.delivered
            && k in states[3].promotions && states[3].promotions[k].status == Reconciled
            && states[3].promotions[k].lastBlock == Some(EntryNotFound)
            && (forall j :: 1 <= j < 3 ==> !Surfaces(hs, content, quiet, states, ticks, j, DeletionOf(k)))
  {
    LostIsRun(hs, content, quiet, text, note);
    LostIsThreaded(hs, content, quiet, text, note);
    LostRemoves(hs, content, quiet, text, note);
    hide Cycle, Removes, Reconcile, NeverEmpty, Surfaces, NobodyRestores, Passed, RemovesIn, Threaded, IsRun,
        MemoryText.Canonical;
    var states, ticks := LostStates(hs, content, quiet, text, note), LostTicks(hs, quiet, text, note);
    var p, k := VisitOf(hs, states, ticks, 1, 0), KeyFor(hs, text);
    RemovedRecord(hs, content, quiet, states, ticks, 1, 0, 0);
    ThreadedRestoresNothing(hs, states, ticks, 1, p.promotions[k].kind, p.promotions[k].digest);
    LostRecordIsClosed(hs, content, quiet, states, ticks, 1, 0, 0, 2, 0);
    LostDeletionIsSilent(hs, content, quiet, states, ticks, 1, 0, 0, 1);
    LostDeletionIsSilent(hs, content, quiet, states, ticks, 1, 0, 0, 2);
  }

  lemma PassedNothing(hs: Hashes, img: Image, s: CuratorState, inp: Input)
    requires inp.keys == []
    ensures Passed(hs, img, s, inp).img == img
  {
  }

  lemma CutCycle(hs: Hashes, content: string -> Digest, quiet: nat, img: Image, s: CuratorState, inp: Input)
    requires inp.stop == BeforeSave
    ensures Cycle(hs, content, quiet, img, s, inp).saved == s
  {
    hide Merge, Produced, Selected;
  }
}
