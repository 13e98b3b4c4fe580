/** Concrete runs on which the guarantees of the approval lifecycle stop. */
module ApprovalExamples {
  import opened Common
  import opened ApprovalProtocol
  import opened ApprovalWorld
  import Slug

  // ----- Where the guarantees stop -----

  const SAMPLE_RESERVATION := Reservation("k", 1, 0)
  const SAMPLE_REQUEST := Request("k", 1, 7, 0, 0)
  const FIRST_INTENT := Intent("k", 1, 0)
  const CHANGED_INTENT := Intent("k", 2, 0)

  /** One concrete run: process 0 posts and commits a first request; process 1 arrives with
      changed content and goes on to destroy it, while the owner reacts. */
  const SAMPLE_STEPS := [
    Spawn(0, Producer(Waiting(FIRST_INTENT))), Act(0, Held(true)), Act(0, JournalRead(false)), Act(0, Listed([])),
    Act(0, Reserved(SAMPLE_RESERVATION)), Act(0, Posted(7)), Act(0, Committed(SAMPLE_REQUEST)), Act(0, JournalCleared),
    Spawn(1, Producer(Waiting(CHANGED_INTENT))), Act(1, Held(true)), Act(1, JournalRead(false)),
        Act(1, Listed([SAMPLE_REQUEST])),
    Act(1, Probed(SAMPLE_REQUEST, BoundPending)), Act(1, Probed(SAMPLE_REQUEST, BoundPending)), React(7)]

  ghost function SampleWorld(n: nat): World {
    var file := Slug.Slug("k");
    var w := EMPTY;
    var held := w.(leases := map[file := 0]);
    var reserved := held.(journal := map[file := SAMPLE_RESERVATION]);
    var posted := reserved.(posts := map[7 := SAMPLE_RESERVATION]);
    var stored := w.(posts := map[7 := SAMPLE_RESERVATION], records := {SAMPLE_REQUEST});
    var again := stored.(leases := map[file := 1]);
    match n
    case 0 => w
    case 1 => w.(procs := map[0 := Producer(Waiting(FIRST_INTENT))])
    case 2 => held.(procs := map[0 := Producer(Checking(FIRST_INTENT))])
    case 3 => held.(procs := map[0 := Producer(Listing(FIRST_INTENT))])
    case 4 => held.(procs := map[0 := Producer(Reserving(FIRST_INTENT, []))])
    case 5 => reserved.(procs := map[0 := Producer(Posting(FIRST_INTENT, SAMPLE_RESERVATION, []))])
    case 6 => posted.(procs := map[0 := Producer(Committing(FIRST_INTENT, SAMPLE_RESERVATION, 7, []))])
    case 7 => posted.(records := {SAMPLE_REQUEST},
                      procs := map[0 := Producer(Clearing(FIRST_INTENT, SAMPLE_RESERVATION, 7, []))])
    case 8 => stored
    case 9 => stored.(procs := map[1 := Producer(Waiting(CHANGED_INTENT))])
    case 10 => again.(procs := map[1 := Producer(Checking(CHANGED_INTENT))])
    case 11 => again.(procs := map[1 := Producer(Listing(CHANGED_INTENT))])
    case 12 => again.(procs := map[1 := Producer(Probing(CHANGED_INTENT, [SAMPLE_REQUEST], []))])
    case 13 => again.(procs := map[1 := Producer(Destroying(CHANGED_INTENT, [SAMPLE_REQUEST], None, []))])
    case 14 => again.(procs := map[1 := Producer(Deleting(CHANGED_INTENT, [SAMPLE_REQUEST], None, []))])
    case _ => again.(decided := {7}, procs := map[1 := Producer(Deleting(CHANGED_INTENT, [SAMPLE_REQUEST], None, []))])
  }

  ghost function SampleWorlds(n: nat): seq<World> {
    seq(n + 1, (i: nat) => SampleWorld(i))
  }

  lemma SampleSnapshots()
    ensures AfterSnapshot(CHANGED_INTENT, [Seen(SAMPLE_REQUEST, BoundPending)])
            == Producer(Destroying(CHANGED_INTENT, [SAMPLE_REQUEST], None, []))
    ensures AfterSnapshot(FIRST_INTENT, []) == Producer(Reserving(FIRST_INTENT, []))
  {
    var seen := [Seen(SAMPLE_REQUEST, BoundPending)];
    assert seen[1..] == [];
    assert WithProbe(seen, BoundPending) == [SAMPLE_REQUEST] && WithProbe(seen, Missing) == [];
    assert WithProbe(seen, Unverifiable) == [] && WithProbe(seen, BindingMismatch) == [];
    assert DecidedOf(seen[1..]) == [] && !OwnerHasDecided(BoundPending);
    var bound := [SAMPLE_REQUEST];
    assert bound[1..] == [];
    assert SameHash(bound, 2) == [] && OtherHash(bound, 2) == [SAMPLE_REQUEST];
  }

  lemma SampleStarting(n: nat)
    requires n < 2
    ensures Enabled(SampleWorld(n), SAMPLE_STEPS[n]) && Apply(SampleWorld(n), SAMPLE_STEPS[n]) == SampleWorld(n + 1)
  {
    hide Covered, Slug.Slug, AfterSnapshot, AfterDiscard, AfterDestroy;
    assert Slug.Narrow("k");
  }

  lemma SampleListing(n: nat)
    requires 2 <= n < 4
    ensures Enabled(SampleWorld(n), SAMPLE_STEPS[n]) && Apply(SampleWorld(n), SAMPLE_STEPS[n]) == SampleWorld(n + 1)
  {
    hide Covered, Slug.Slug, AfterSnapshot, AfterDiscard, AfterDestroy;
    assert Slug.Narrow("k");
    SampleSnapshots();
  }

  lemma SampleReserve()
    ensures Enabled(SampleWorld(4), Act(0, Reserved(SAMPLE_RESERVATION)))
            && Apply(SampleWorld(4), Act(0, Reserved(SAMPLE_RESERVATION))) == SampleWorld(5)
  {
    hide Covered, Slug.Slug, AfterSnapshot, AfterDiscard, AfterDestroy, NextWatcher, NextSupersede, NextRetire;
  }

  lemma SamplePosting()
    ensures var w, v := SampleWorld(5), SampleWorld(6);
            && w.procs == map[0 := Producer(Posting(FIRST_INTENT, SAMPLE_RESERVATION, []))]
            && w.posts == map[] && w.gone == {}
            && v == w.(posts := map[7 := SAMPLE_RESERVATION],
                       procs := map[0 := Producer(Committing(FIRST_INTENT, SAMPLE_RESERVATION, 7, []))])
  {
    hide Slug.Slug;
  }

  lemma SamplePost()
    ensures Enabled(SampleWorld(5), Act(0, Posted(7))) && Apply(SampleWorld(5), Act(0, Posted(7))) == SampleWorld(6)
  {
    SamplePosting();
    hide SampleWorld, Covered, Slug.Slug, NextWatcher, NextSupersede, NextRetire;
  }

  lemma SampleCommit()
    ensures Enabled(SampleWorld(6), Act(0, Committed(SAMPLE_REQUEST)))
            && Apply(SampleWorld(6), Act(0, Committed(SAMPLE_REQUEST))) == SampleWorld(7)
  {
    hide Covered, Slug.Slug, AfterSnapshot, AfterDiscard, AfterDestroy, NextWatcher, NextSupersede, NextRetire;
  }

  lemma SampleCleared()
    ensures var w, file := SampleWorld(7), Slug.Slug("k");
            && 0 in w.procs && !w.procs[0].Done? && Holds(w.procs[0]) && KeyOf(w.procs[0]) == "k"
            && Perform(w, 0, w.procs[0], JournalCleared) == w.(journal := map[])
            && w.leases - {file} == map[] && w.procs - {0} == map[]
            && w.(journal := map[], leases := map[], procs := map[]) == SampleWorld(8)
  {
    hide Slug.Slug;
    var file := Slug.Slug("k");
    assert map[file := SAMPLE_RESERVATION] - {file} == map[];
  }

  lemma SampleClear()
    ensures Enabled(SampleWorld(7), Act(0, JournalCleared))
    ensures Apply(SampleWorld(7), Act(0, JournalCleared)) == SampleWorld(8)
  {
    SampleCleared();
    SampleClearing();
    hide SampleWorld, Perform, Next, Holds, KeyOf, Slug.Slug;
  }

  lemma SampleClearing()
    ensures var w := SampleWorld(7);
            && 0 in w.procs
            && Next(w.procs[0], JournalCleared) ==
                 Some(Done(Decided(Verdict(OutPosted, None, None, Some(7), [], []))))
  {
    hide Slug.Slug;
  }

  lemma SampleAgain(n: nat)
    requires 8 <= n < 11
    ensures Enabled(SampleWorld(n), SAMPLE_STEPS[n]) && Apply(SampleWorld(n), SAMPLE_STEPS[n]) == SampleWorld(n + 1)
  {
    hide Covered, Slug.Slug, AfterSnapshot, AfterDiscard, AfterDestroy;
    assert Slug.Narrow("k");
  }

  lemma SampleList()
    ensures Enabled(SampleWorld(11), Act(1, Listed([SAMPLE_REQUEST])))
    ensures Apply(SampleWorld(11), Act(1, Listed([SAMPLE_REQUEST]))) == SampleWorld(12)
  {
    hide Covered, Slug.Slug, AfterSnapshot, AfterDiscard, AfterDestroy, NextWatcher, NextSupersede, NextRetire;
  }

  lemma SampleProbing()
    ensures var w, v := SampleWorld(12), SampleWorld(13);
            && w.procs == map[1 := Producer(Probing(CHANGED_INTENT, [SAMPLE_REQUEST], []))]
            && w.posts == map[7 := SAMPLE_RESERVATION] && w.gone == {} && w.decided == {}
            && v == w.(procs := map[1 := Producer(Destroying(CHANGED_INTENT, [SAMPLE_REQUEST], None, []))])
  {
    hide Slug.Slug;
  }

  lemma LastProbe(intent: Intent, r: Request, p: Probe)
    ensures Next(Producer(Probing(intent, [r], [])), Probed(r, p)) == Some(AfterSnapshot(intent, [Seen(r, p)]))
  {
    assert [] + [Seen(r, p)] == [Seen(r, p)];
    hide AfterSnapshot, AfterDiscard, AfterDestroy, NextWatcher, NextSupersede, NextRetire;
  }

  lemma SampleProbed()
    ensures Next(Producer(Probing(CHANGED_INTENT, [SAMPLE_REQUEST], [])), Probed(SAMPLE_REQUEST, BoundPending))
            == Some(Producer(Destroying(CHANGED_INTENT, [SAMPLE_REQUEST], None, [])))
  {
    hide AfterSnapshot, Next;
    SampleSnapshots();
    LastProbe(CHANGED_INTENT, SAMPLE_REQUEST, BoundPending);
  }

  lemma SampleProbe()
    ensures Enabled(SampleWorld(12), Act(1, Probed(SAMPLE_REQUEST, BoundPending)))
    ensures Apply(SampleWorld(12), Act(1, Probed(SAMPLE_REQUEST, BoundPending))) == SampleWorld(13)
  {
    SampleProbing();
    SampleProbed();
    hide SampleWorld, Covered, Slug.Slug, Next;
  }

  lemma SampleProbeAgain()
    ensures Enabled(SampleWorld(13), Act(1, Probed(SAMPLE_REQUEST, BoundPending)))
    ensures Apply(SampleWorld(13), Act(1, Probed(SAMPLE_REQUEST, BoundPending))) == SampleWorld(14)
  {
    hide Covered, Slug.Slug, AfterSnapshot, AfterDiscard, AfterDestroy, NextWatcher, NextSupersede, NextRetire;
  }

  lemma SampleReact()
    ensures Enabled(SampleWorld(14), React(7)) && Apply(SampleWorld(14), React(7)) == SampleWorld(15)
  {
    hide Slug.Slug;
  }

  lemma SampleStep(i: nat)
    requires i < 15
    ensures Enabled(SampleWorld(i), SAMPLE_STEPS[i]) && Apply(SampleWorld(i), SAMPLE_STEPS[i]) == SampleWorld(i + 1)
  {
    hide Enabled, Apply, SampleWorld;
    if i < 2 { SampleStarting(i); }
    else if i < 4 { SampleListing(i); }
    else if i == 4 { SampleReserve(); }
    else if i == 5 { SamplePost(); }
    else if i == 6 { SampleCommit(); }
    else if i == 7 { SampleClear(); }
    else if i < 11 { SampleAgain(i); }
    else if i == 11 { SampleList(); }
    else if i == 12 { SampleProbe(); }
    else if i == 13 { SampleProbeAgain(); }
    else { SampleReact(); }
  }

  /** The sample worlds are a run of the system. */
  lemma SampleRun(n: nat)
    requires n <= 15
    ensures IsRun(SampleWorlds(n), SAMPLE_STEPS[..n])
  {
    hide Enabled, Apply, SampleWorld;
    assert SampleWorld(0) == EMPTY by { SampleStart(); }
    forall i | 0 <= i < n
      ensures Enabled(SampleWorld(i), SAMPLE_STEPS[i]) && Apply(SampleWorld(i), SAMPLE_STEPS[i]) == SampleWorld(i + 1)
    {
      SampleStep(i);
    }
  }

  lemma SampleStart()
    ensures SampleWorld(0) == EMPTY
  {
  }

  /** The clean-up reads and audits while nothing is outstanding; then a producer reserves and
      posts; then the clean-up unlinks, and the producer crashes before its commit. */
  const ORPHAN_STEPS := [ReadJournal(0, "k"), AuditJournal(0)] + SAMPLE_STEPS[..6] + [UnlinkJournal(0), Crash(0)]

  ghost function OrphanWorld(n: nat): World {
    if n == 0 then EMPTY
    else if n == 1 then EMPTY.(operators := map[0 := Auditing("k", None)])
    else if n <= 8 then SampleWorld(n - 2).(operators := map[0 := Unlinking("k")])
    else if n == 9 then SampleWorld(6).(journal := map[], careless := true)
    else SampleWorld(6).(journal := map[], leases := map[], procs := map[], careless := true)
  }

  ghost function OrphanWorlds(): seq<World> {
    seq(11, (i: nat) => OrphanWorld(i))
  }

  predicate Building(e: Effect) {
    e.Held? || e.JournalRead? || e.Listed? || e.Reserved? || e.Posted?
  }

  /** These steps neither see nor touch the clean-ups under way. */
  lemma OperatorsAreApart(w: World, l: Label, operators: map<nat, Operator>)
    requires Enabled(w, l) && (l.Spawn? || (l.Act? && Building(l.effect)))
    ensures Enabled(w.(operators := operators), l)
    ensures Apply(w.(operators := operators), l) == Apply(w, l).(operators := operators)
  {
    hide Next, Slug.Slug, Slug.Narrow, Perform, Possible;
    if l.Act? {
      PerformIsApart(w, l.pid, w.procs[l.pid], l.effect, operators);
      PossibleIsApart(w, KeyOf(w.procs[l.pid]), l.effect, operators);
    }
  }

  lemma PossibleIsApart(w: World, key: Key, e: Effect, operators: map<nat, Operator>)
    ensures Possible(w.(operators := operators), key, e) <==> Possible(w, key, e)
  {
    hide Slug.Slug;
    assert RecordsOf(w.(operators := operators), key) == RecordsOf(w, key);
  }

  lemma PerformIsApart(w: World, pid: Pid, pc: Pc, e: Effect, operators: map<nat, Operator>)
    requires !pc.Done? && Building(e)
    ensures Perform(w.(operators := operators), pid, pc, e) == Perform(w, pid, pc, e).(operators := operators)
  {
    hide Perform;
    if e.Reserved? || e.Posted? {
      PostingIsApart(w, pid, pc, e, operators);
    } else {
      HoldingIsApart(w, pid, pc, e, operators);
    }
  }

  lemma HoldingIsApart(w: World, pid: Pid, pc: Pc, e: Effect, operators: map<nat, Operator>)
    requires !pc.Done? && (e.Held? || e.JournalRead? || e.Listed?)
    ensures Perform(w.(operators := operators), pid, pc, e) == Perform(w, pid, pc, e).(operators := operators)
  {
    hide Slug.Slug, KeyOf;
  }

  lemma PostingIsApart(w: World, pid: Pid, pc: Pc, e: Effect, operators: map<nat, Operator>)
    requires !pc.Done? && (e.Reserved? || e.Posted?)
    ensures Perform(w.(operators := operators), pid, pc, e) == Perform(w, pid, pc, e).(operators := operators)
  {
    hide Slug.Slug, KeyOf;
  }

  lemma OrphanRead(n: nat)
    requires n < 2
    ensures Enabled(OrphanWorld(n), ORPHAN_STEPS[n]) && Apply(OrphanWorld(n), ORPHAN_STEPS[n]) == OrphanWorld(n + 1)
  {
    hide Slug.Slug, Covered;
    assert Slug.Narrow("k");
  }

  lemma OrphanUnlink()
    ensures Enabled(OrphanWorld(8), UnlinkJournal(0)) && Apply(OrphanWorld(8), UnlinkJournal(0)) == OrphanWorld(9)
  {
    hide Slug.Slug;
    var w, file := OrphanWorld(8), Slug.Slug("k");
    assert 7 in w.posts && w.posts[7] == w.journal[file] && !Accounted(w, 7);
    assert map[file := SAMPLE_RESERVATION] - {file} == map[];
  }

  lemma OrphanCrash()
    ensures Enabled(OrphanWorld(9), Crash(0)) && Apply(OrphanWorld(9), Crash(0)) == OrphanWorld(10)
  {
    hide Slug.Slug, Covered;
  }

  lemma OrphanRun()
    ensures IsRun(OrphanWorlds(), ORPHAN_STEPS)
  {
    hide Enabled, Apply, SampleWorld;
    forall i | 0 <= i < 10
      ensures Enabled(OrphanWorld(i), ORPHAN_STEPS[i]) && Apply(OrphanWorld(i), ORPHAN_STEPS[i]) == OrphanWorld(i + 1)
    {
      if 2 <= i < 8 {
        SampleStep(i - 2);
        OperatorsAreApart(SampleWorld(i - 2), SAMPLE_STEPS[i - 2], map[0 := Unlinking("k")]);
      } else if i < 2 {
        OrphanRead(i);
      } else if i == 8 {
        OrphanUnlink();
      } else {
        OrphanCrash();
      }
    }
  }

  /** The clean-up takes no lease: in this run of the system, with a single crash, a posted message
      ends with no record, no reservation and no audit line. */
  lemma OrphanWithoutTheGuard() returns (worlds: seq<World>)
    ensures IsRun(worlds, ORPHAN_STEPS)
    ensures var w := worlds[10]; 7 in w.posts && !AllAccounted(w)
  {
    hide IsRun;
    OrphanRun();
    worlds := OrphanWorlds();
    var w := worlds[10];
    assert w == OrphanWorld(10);
    assert !Accounted(w, 7) && !Reserves(w, w.posts[7]);
  }

  /** The probe and the deletion are two calls: in this run the owner's reaction lands between
      them and the deletion destroys it.  L3 is therefore a statement about the preceding probe,
      not about the instant of deletion. */
  lemma DecisionCanRaceDeletion() returns (worlds: seq<World>)
    ensures IsRun(worlds, SAMPLE_STEPS)
    ensures var w := worlds[15];
            && 7 in w.decided && 7 !in w.gone
            && Enabled(w, Act(1, Deleted(SAMPLE_REQUEST)))
            && 7 in Apply(w, Act(1, Deleted(SAMPLE_REQUEST))).gone
  {
    hide IsRun;
    SampleRun(15);
    assert SAMPLE_STEPS[..15] == SAMPLE_STEPS;
    worlds := SampleWorlds(15);
    assert worlds[15] == SampleWorld(15);
  }
}
