/** Which candidates a selection promotes, which it blocks, and what a dry cycle leaves alone. */
module CuratorSelections {
  import opened Common
  import opened Reclaim
  import opened MemoryDeletion
  import opened CuratorCycle
  import R = CuratorRuns
  import ReconcileVerdicts

  /** Everything one selection depends on. */
  datatype Job = Job(hs: Hashes, content: string -> Digest, dryRun: bool, max: int, loaded: map<Key, Record>,
                     cs: seq<Candidate>, receipts: nat -> Option<Receipt>)

  /** The selection before its visit `n`. */
  function After(j: Job, n: nat): Selection
    requires n <= |j.cs|
  {
    SelectAll(j.hs, j.content, j.dryRun, j.max, j.loaded, j.cs[..n], j.receipts)
  }

  function KeyAt(j: Job, n: nat): Key
    requires n < |j.cs|
  {
    Promotion(j.cs[n].kind, j.hs.digest(j.cs[n].kind, j.cs[n].text))
  }

  /** Candidate `n` is still to be promoted: no legacy record covers its text, and its own record, if there
      is one, has not been posted. */
  predicate Wanted(j: Job, n: nat)
    requires n < |j.cs|
  {
    var records := After(j, n).promotions;
    && (Legacy(j.content(j.cs[n].text)) in records ==>
          records[Legacy(j.content(j.cs[n].text))].status != LegacyUnbound)
    && (KeyAt(j, n) in records ==> records[KeyAt(j, n)].status == Prepared)
  }

  /** The visits among the first `n` that try their candidate, in order: those that want it while fewer than
      the maximum were tried. */
  function Tried(j: Job, n: nat): (at: seq<nat>)
    requires n <= |j.cs|
    ensures forall i: nat :: i in at ==> i < n
    ensures |at| <= if j.max < 0 then 0 else j.max
  {
    if n == 0 then []
    else if Wanted(j, n - 1) && |Tried(j, n - 1)| < j.max then Tried(j, n - 1) + [n - 1]
    else Tried(j, n - 1)
  }

  predicate Tries(j: Job, n: nat) {
    n < |j.cs| && Wanted(j, n) && |Tried(j, n)| < j.max
  }

  /** Visit `n` promotes its candidate: it is tried for real and a receipt comes. */
  predicate Posts(j: Job, n: nat) {
    Tries(j, n) && !j.dryRun && j.receipts(n).Some?
  }

  function PromotedAt(j: Job, n: nat): Promoted
    requires Posts(j, n)
  {
    Promoted(KeyAt(j, n), j.cs[n].text, j.receipts(n).value.draft)
  }

  function BlockedAt(j: Job, n: nat): Blocked
    requires Tries(j, n) && !Posts(j, n)
  {
    Blocked(KeyAt(j, n), if j.dryRun then DryRun else PostFailed, Some(j.cs[n].text))
  }

  /** What a tried candidate's record becomes: posted with the hash of the receipt, or left as it was but
      for the reason of a failed posting. */
  ghost predicate Becomes(j: Job, n: nat, before: Option<Record>, after: Record)
    requires Tries(j, n)
  {
    var first := Record(j.cs[n].kind, j.hs.digest(j.cs[n].kind, j.cs[n].text), "", Prepared, None, None);
    var r := if before.Some? then before.value else first;
    && after.kind == r.kind && after.digest == r.digest && after.reconciledAt == r.reconciledAt
    && (if Posts(j, n) then
          after.status == Posted && after.noteHash == j.receipts(n).value.noteHash && after.lastBlock == None
        else
          after.status == Prepared && after.noteHash == r.noteHash
          && after.lastBlock == if j.dryRun then r.lastBlock else Some(PostFailed))
  }

  /** What one visit does, told by its inputs. */
  ghost predicate VisitIs(j: Job, n: nat, s: Selection, q: Selection)
    requires n < |j.cs|
  {
    var key := KeyAt(j, n);
    && q.promoted == s.promoted + (if Posts(j, n) then [PromotedAt(j, n)] else [])
    && q.blocked == s.blocked + (if Tries(j, n) && !Posts(j, n) then [BlockedAt(j, n)] else [])
    && (!Tries(j, n) ==> q.promotions == s.promotions)
    && (Tries(j, n) ==>
          && key in q.promotions && q.promotions == s.promotions[key := q.promotions[key]]
          && Becomes(j, n, if key in s.promotions then Some(s.promotions[key]) else None, q.promotions[key]))
  }

  /** The source counts the attempts and stops at the first wanted candidate over the maximum. */
  lemma {:induction false} CountsTried(j: Job, n: nat)
    requires n <= |j.cs|
    ensures After(j, n).attempts == |Tried(j, n)|
    ensures After(j, n).stopped ==> |Tried(j, n)| >= j.max
  {
    hide SelectAll;
    if n == 0 {
      SelectNone(j.hs, j.content, j.dryRun, j.max, j.loaded, j.cs, j.receipts);
    } else {
      CountsTried(j, n - 1);
      SelectSnoc(j.hs, j.content, j.dryRun, j.max, j.loaded, j.cs, j.receipts, n - 1);
    }
  }

  lemma VisitSelects(j: Job, n: nat)
    requires n < |j.cs|
    ensures VisitIs(j, n, After(j, n), After(j, n + 1))
  {
    hide SelectAll;
    CountsTried(j, n);
    SelectSnoc(j.hs, j.content, j.dryRun, j.max, j.loaded, j.cs, j.receipts, n);
    hide After, Tried;
  }

  /** The posting visits among the first `n`, and the others that tried, each in order. */
  function Posting(j: Job, n: nat): (at: seq<nat>)
    ensures forall i: nat :: i in at <==> i < n && Posts(j, i)
    ensures forall a, b :: 0 <= a < b < |at| ==> at[a] < at[b]
  {
    hide Posts;
    if n == 0 then []
    else if Posts(j, n - 1) then
      var below := Posting(j, n - 1);
      assert forall a :: 0 <= a < |below| ==> below[a] in below;
      below + [n - 1]
    else Posting(j, n - 1)
  }

  predicate Fails(j: Job, n: nat) {
    Tries(j, n) && !Posts(j, n)
  }

  function Failing(j: Job, n: nat): (at: seq<nat>)
    ensures forall i: nat :: i in at <==> i < n && Fails(j, i)
    ensures forall a, b :: 0 <= a < b < |at| ==> at[a] < at[b]
  {
    hide Fails;
    if n == 0 then []
    else if Fails(j, n - 1) then
      var below := Failing(j, n - 1);
      assert forall a :: 0 <= a < |below| ==> below[a] in below;
      below + [n - 1]
    else Failing(j, n - 1)
  }

  ghost predicate ListsPromoted(j: Job, n: nat, promoted: seq<Promoted>)
    requires n <= |j.cs|
  {
    var at := Posting(j, n);
    |promoted| == |at| && forall i :: 0 <= i < |at| ==> Posts(j, at[i]) && promoted[i] == PromotedAt(j, at[i])
  }

  ghost predicate ListsBlocked(j: Job, n: nat, blocked: seq<Blocked>)
    requires n <= |j.cs|
  {
    var at := Failing(j, n);
    |blocked| == |at| && forall i :: 0 <= i < |at| ==> Fails(j, at[i]) && blocked[i] == BlockedAt(j, at[i])
  }

  /** A selection reports, in order, each candidate it tried: as promoted when it was posted, else as
      blocked with the reason. */
  lemma {:induction false} SelectionReports(j: Job, n: nat)
    requires n <= |j.cs|
    ensures ListsPromoted(j, n, After(j, n).promoted) && ListsBlocked(j, n, After(j, n).blocked)
  {
    if n == 0 {
      SelectNone(j.hs, j.content, j.dryRun, j.max, j.loaded, j.cs, j.receipts);
    } else {
      SelectionReports(j, n - 1);
      VisitSelects(j, n - 1);
      hide *;
      PromotedSnoc(j, n - 1, After(j, n - 1), After(j, n));
      BlockedSnoc(j, n - 1, After(j, n - 1), After(j, n));
    }
  }

  lemma PromotedSnoc(j: Job, n: nat, s: Selection, q: Selection)
    requires n < |j.cs| && VisitIs(j, n, s, q) && ListsPromoted(j, n, s.promoted)
    ensures ListsPromoted(j, n + 1, q.promoted)
  {
    hide Tries, Becomes;
  }

  lemma BlockedSnoc(j: Job, n: nat, s: Selection, q: Selection)
    requires n < |j.cs| && VisitIs(j, n, s, q) && ListsBlocked(j, n, s.blocked)
    ensures ListsBlocked(j, n + 1, q.blocked)
  {
    hide Tries, Posts, Becomes;
  }

  predicate PostsKey(j: Job, i: nat, k: Key) {
    Posts(j, i) && KeyAt(j, i) == k
  }

  /** A record is posted by the selection exactly when a try of its key got a receipt, whose hash it then
      carries; no key is posted twice, and any other record keeps its status and its hash. */
  lemma {:induction false} PostedExactly(j: Job, n: nat, k: Key)
    requires n <= |j.cs|
    ensures forall a: nat, b: nat :: a < b < n && PostsKey(j, a, k) ==> !PostsKey(j, b, k)
    ensures var records := After(j, n).promotions;
            && (forall i: nat :: i < n && PostsKey(j, i, k) ==>
                  k in records && records[k].status == Posted && records[k].noteHash == j.receipts(i).value.noteHash)
            && ((forall i: nat :: i < n ==> !PostsKey(j, i, k)) ==>
                  if k in j.loaded then
                    k in records && records[k].status == j.loaded[k].status
                    && records[k].noteHash == j.loaded[k].noteHash
                  else k in records ==> records[k].status == Prepared && records[k].noteHash == "")
  {
    hide SelectAll, SelectOne, Tried;
    if n == 0 {
      SelectNone(j.hs, j.content, j.dryRun, j.max, j.loaded, j.cs, j.receipts);
    } else {
      PostedExactly(j, n - 1, k);
      VisitSelects(j, n - 1);
      assert Posts(j, n - 1) && KeyAt(j, n - 1) == k ==> PostsKey(j, n - 1, k);
    }
  }

  /** A dry run promotes nothing: every loaded record stays exactly as it is, every new one is unconfirmed,
      and every tried candidate is blocked as a dry run. */
  lemma {:induction false} DryRunPromotesNothing(j: Job, n: nat)
    requires n <= |j.cs| && j.dryRun
    ensures After(j, n).promoted == []
    ensures forall b :: b in After(j, n).blocked ==> b.reason == DryRun
    ensures |After(j, n).blocked| == |Tried(j, n)|
    ensures var records := After(j, n).promotions;
            && (forall k :: k in j.loaded ==> k in records && records[k] == j.loaded[k])
            && (forall k :: k in records && k !in j.loaded ==>
                  records[k].status == Prepared && records[k].noteHash == "" && records[k].lastBlock == None)
  {
    hide SelectAll, SelectOne;
    if n == 0 {
      SelectNone(j.hs, j.content, j.dryRun, j.max, j.loaded, j.cs, j.receipts);
    } else {
      DryRunPromotesNothing(j, n - 1);
      VisitSelects(j, n - 1);
    }
  }

  // ----- Over cycles -----

  /** The selection of a cycle. */
  function JobOf(hs: Hashes, content: string -> Digest, img: Image, s: CuratorState, inp: Input): Job {
    Job(hs, content, inp.dryRun, inp.maxPromotions, Passed(hs, img, s, inp).promotions, inp.candidates, inp.receipts)
  }

  lemma SelectedIsAfter(hs: Hashes, content: string -> Digest, img: Image, s: CuratorState, inp: Input)
    ensures Selected(hs, content, img, s, inp) == After(JobOf(hs, content, img, s, inp), |inp.candidates|)
  {
    hide SelectAll, ReconcileAll;
    assert inp.candidates[..|inp.candidates|] == inp.candidates;
  }

  /** A dry cycle deletes nothing, promotes nothing, tells the owner nothing and adds nothing to be told. */
  lemma DryCycleIsSilent(hs: Hashes, content: string -> Digest, quiet: nat, img: Image, s: CuratorState, inp: Input)
    requires inp.dryRun
    ensures var out := Cycle(hs, content, quiet, img, s, inp);
            && Passed(hs, img, s, inp).img == img && Produced(hs, content, img, s, inp) == []
            && !out.raised && out.told == None && out.saved.pending == s.pending
  {
    hide SelectAll, ReconcileAll, DecideAlert, NextAlert;
    var start := Pass(img, s.promotions, [], [], {});
    ReconcileVerdicts.DryPassDeletesNothing(hs, inp.now / SECOND, start, inp.keys, inp.visits);
    SelectedIsAfter(hs, content, img, s, inp);
    DryRunPromotesNothing(JobOf(hs, content, img, s, inp), |inp.candidates|);
  }

  predicate Unposted(promotions: map<Key, Record>, k: Key) {
    k !in promotions || promotions[k].status == Prepared
  }

  predicate HasPosted(promotions: map<Key, Record>, k: Key) {
    k in promotions && promotions[k].status == Posted
  }

  /** Cycle `i` of the run tries the candidate of key `k` for real, gets its receipt and comes to its save. */
  ghost predicate PostsIn(hs: Hashes, content: string -> Digest, states: seq<CuratorState>, ticks: seq<R.Tick>, i: nat,
                          k: Key)
    requires i < |ticks| && |states| == |ticks| + 1
  {
    var inp := ticks[i].inp;
    && inp.stop != BeforeSave
    && exists n: nat :: n < |inp.candidates| && PostsKey(JobOf(hs, content, ticks[i].img, states[i], inp), n, k)
  }

  /** When a promotion becomes posted.  Over any run, a cycle turns an unposted key into a posted record if
      and only if it tries its candidate for real, gets a receipt and reaches its save; a dry cycle never. */
  lemma RunPostsExactly(hs: Hashes, content: string -> Digest, quiet: nat, states: seq<CuratorState>,
                        ticks: seq<R.Tick>, i: nat, k: Key)
    requires R.IsRun(hs, content, quiet, states, ticks) && R.NeverEmpty(hs) && i < |ticks|
    requires Unposted(states[i].promotions, k)
    ensures HasPosted(states[i + 1].promotions, k) <==> PostsIn(hs, content, states, ticks, i, k)
    ensures ticks[i].inp.dryRun ==> !HasPosted(states[i + 1].promotions, k)
  {
    hide R.NeverEmpty, R.Inv, SelectAll, ReconcileAll, Cycle;
    var img, s, inp := ticks[i].img, states[i], ticks[i].inp;
    var j := JobOf(hs, content, img, s, inp);
    R.RunKeepsInv(hs, content, quiet, states, ticks, i);
    assert R.IsStep(hs, content, quiet, s, ticks[i], states[i + 1]);
    SavesSelected(hs, content, quiet, img, s, inp);
    SelectedIsAfter(hs, content, img, s, inp);
    PassedIsUnposted(hs, img, s, inp, k);
    PostedExactly(j, |j.cs|, k);
    hide After, PostsKey;
    if n: nat :| n < |j.cs| && PostsKey(j, n, k) {
      assert HasPosted(After(j, |j.cs|).promotions, k);
      DryPostsNothing(j, n, k);
    }
  }

  lemma DryPostsNothing(j: Job, n: nat, k: Key)
    requires PostsKey(j, n, k)
    ensures !j.dryRun
  {
  }

  lemma SavesSelected(hs: Hashes, content: string -> Digest, quiet: nat, img: Image, s: CuratorState, inp: Input)
    requires R.WellFormed(inp) && R.Inv(s) && R.NeverEmpty(hs)
    ensures var out := Cycle(hs, content, quiet, img, s, inp);
            out.saved.promotions == if inp.stop == BeforeSave then s.promotions
                                    else Selected(hs, content, img, s, inp).promotions
  {
    hide Merge, Produced, Selected, DecideAlert, NextAlert, R.NeverEmpty, R.Inv;
    R.MergesAll(hs, content, img, s, inp);
  }

  lemma PassedIsUnposted(hs: Hashes, img: Image, s: CuratorState, inp: Input, k: Key)
    requires R.WellFormed(inp) && R.Inv(s) && R.NeverEmpty(hs) && Unposted(s.promotions, k)
    ensures Unposted(Passed(hs, img, s, inp).promotions, k)
  {
    hide ReconcileAll, R.NeverEmpty;
    var start := Pass(img, s.promotions, [], [], {});
    PassMoves(hs, inp.now / SECOND, inp.dryRun, start, inp.keys, inp.visits);
    if k in s.promotions {
      R.PassKeepsPrepared(hs, inp.now / SECOND, inp.dryRun, start, inp.keys, inp.visits, k);
    }
  }

  // ----- What the events tell -----

  ghost predicate TellsPosting(e: Keyed, p: Promoted) {
    e.key == EventKey(p.key, PostedPhase) && e.event == Event(p.text, Some(p.draft), None)
  }

  ghost predicate TellsDeletion(e: Keyed, d: Deleted) {
    d.applied && e.key == EventKey(d.key, DeletedPhase) && e.event == Event(d.text, None, Some(d.freed))
  }

  /** Where the applied deletions stand. */
  function Applied(ds: seq<Deleted>): (at: seq<nat>)
    ensures forall i: nat :: i in at <==> i < |ds| && ds[i].applied
    ensures forall a, b :: 0 <= a < b < |at| ==> at[a] < at[b]
  {
    if |ds| == 0 then []
    else
      var n := |ds| - 1;
      var below := Applied(ds[..n]);
      assert forall a :: 0 <= a < |below| ==> below[a] in below;
      if ds[n].applied then below + [n] else below
  }

  lemma {:induction false} PostedTell(ps: seq<Promoted>)
    ensures var es := PostedEvents(ps);
            |es| == |ps| && forall i :: 0 <= i < |ps| ==> TellsPosting(es[i], ps[i])
  {
    if |ps| > 0 {
      var n := |ps| - 1;
      PostedTell(ps[..n]);
      forall i | 0 <= i < |ps| ensures TellsPosting(PostedEvents(ps)[i], ps[i]) {
        if i < n { assert ps[..n][i] == ps[i]; }
      }
    }
  }

  ghost predicate DeletionsTold(ds: seq<Deleted>, es: seq<Keyed>, at: seq<nat>) {
    |es| == |at| && forall i :: 0 <= i < |at| ==> at[i] < |ds| && TellsDeletion(es[i], ds[at[i]])
  }

  lemma DeletionSnoc(ds: seq<Deleted>, d: Deleted, es: seq<Keyed>, at: seq<nat>, e: Keyed)
    requires DeletionsTold(ds, es, at)
    ensures DeletionsTold(ds + [d], es, at)
    ensures TellsDeletion(e, d) ==> DeletionsTold(ds + [d], es + [e], at + [|ds|])
  {
    hide TellsDeletion;
  }

  lemma {:induction false} DeletedTell(ds: seq<Deleted>)
    ensures DeletionsTold(ds, DeletedEvents(ds), Applied(ds))
  {
    if |ds| > 0 {
      var n := |ds| - 1;
      var d := ds[n];
      var e := Keyed(EventKey(d.key, DeletedPhase), Event(d.text, None, Some(d.freed)));
      DeletedTell(ds[..n]);
      AppliedIs(ds);
      assert DeletedEvents(ds) == DeletedEvents(ds[..n]) + (if d.applied then [e] else []);
      assert ds[..n] + [d] == ds && (d.applied ==> TellsDeletion(e, d));
      hide *;
      DeletionSnoc(ds[..n], d, DeletedEvents(ds[..n]), Applied(ds[..n]), e);
      assert DeletedEvents(ds[..n]) + [] == DeletedEvents(ds[..n]);
    }
  }

  lemma AppliedIs(ds: seq<Deleted>)
    requires |ds| > 0
    ensures Applied(ds) == if ds[|ds| - 1].applied then Applied(ds[..|ds| - 1]) + [|ds| - 1]
            else Applied(ds[..|ds| - 1])
  {
  }

  /** The owner events of a cycle: one per posting with its text and draft, then one per applied deletion
      with its text and the space it freed, each in order. */
  lemma EventsTell(ps: seq<Promoted>, ds: seq<Deleted>)
    ensures var es, at := OwnerEvents(ps, ds), Applied(ds);
            && |es| == |ps| + |at|
            && (forall i :: 0 <= i < |ps| ==> TellsPosting(es[i], ps[i]))
            && (forall i :: 0 <= i < |at| ==> at[i] < |ds| && TellsDeletion(es[|ps| + i], ds[at[i]]))
  {
    PostedTell(ps);
    DeletedTell(ds);
    assert DeletionsTold(ds, DeletedEvents(ds), Applied(ds));
    var es, first, second := OwnerEvents(ps, ds), PostedEvents(ps), DeletedEvents(ds);
    assert es == first + second;
    hide OwnerEvents, PostedEvents, DeletedEvents, Applied, TellsPosting, TellsDeletion;
    assert forall i :: 0 <= i < |first| ==> es[i] == first[i];
    assert forall i :: 0 <= i < |second| ==> es[|first| + i] == second[i];
  }
}
