/** Agent-to-agent scheduling: the interval filter that supplies slots and the state machine that
    negotiates one of them. */
module Coordination {
  import opened Common

  // ----- Candidate slots -----

  /** An aware datetime: equality and order are those of the instant, printing also shows the offset. */
  datatype Moment = Moment(instant: int, offset: int)

  datatype Interval = Interval(from: int, to: int)

  datatype Request = Request(busy: seq<Interval>, rangeStart: int, rangeEnd: int, duration: int)

  predicate Overlaps(instant: int, duration: int, b: Interval) {
    instant < b.to && instant + duration > b.from
  }

  /** The slot fits the range and meets no busy interval. */
  predicate Fits(r: Request, m: Moment) {
    && r.rangeStart <= m.instant && m.instant + r.duration <= r.rangeEnd
    && forall i :: 0 <= i < |r.busy| ==> !Overlaps(m.instant, r.duration, r.busy[i])
  }

  function Valid(r: Request, parse: string -> Option<Moment>, raws: seq<string>): seq<Moment> {
    if |raws| == 0 then []
    else
      var m := parse(raws[|raws| - 1]);
      Valid(r, parse, raws[..|raws| - 1]) + (if m.Some? && Fits(r, m.value) then [m.value] else [])
  }

  predicate Ascending(ms: seq<Moment>) {
    forall i, j :: 0 <= i < j < |ms| ==> ms[i].instant < ms[j].instant
  }

  function Instants(ms: seq<Moment>): set<int> {
    set i | 0 <= i < |ms| :: ms[i].instant
  }

  /** Adding to a sorted set; an equal instant keeps its first representative. */
  function Insert(m: Moment, ms: seq<Moment>): seq<Moment> {
    if |ms| == 0 || m.instant < ms[0].instant then [m] + ms
    else if m.instant == ms[0].instant then ms
    else [ms[0]] + Insert(m, ms[1..])
  }

  /** `sorted(set(valid))`. */
  function SortedSet(ms: seq<Moment>): seq<Moment> {
    if |ms| == 0 then [] else Insert(ms[|ms| - 1], SortedSet(ms[..|ms| - 1]))
  }

  /** The end of the slice `[:limit]`; a negative limit counts from the back. */
  function SliceEnd(n: nat, limit: int): (k: nat)
    ensures k <= n
  {
    if limit >= n then n else if limit >= 0 then limit else if n + limit > 0 then n + limit else 0
  }

  /** `candidate_slots`, before printing. */
  method CandidateSlots(r: Request, parse: string -> Option<Moment>, peer: seq<string>, limit: int)
      returns (slots: seq<Moment>)
    ensures slots == SortedSet(Valid(r, parse, peer))[..SliceEnd(|SortedSet(Valid(r, parse, peer))|, limit)]
  {
    var valid: seq<Moment> := [];
    for i := 0 to |peer|
      invariant valid == Valid(r, parse, peer[..i])
    {
      assert peer[..i + 1][..i] == peer[..i];
      var m := parse(peer[i]);
      if m.Some? && r.rangeStart <= m.value.instant && m.value.instant + r.duration <= r.rangeEnd {
        var busy := false;
        for j := 0 to |r.busy|
          invariant busy <==> exists k :: 0 <= k < j && Overlaps(m.value.instant, r.duration, r.busy[k])
        {
          if Overlaps(m.value.instant, r.duration, r.busy[j]) { busy := true; }
        }
        if !busy { valid := valid + [m.value]; }
      }
    }
    assert peer[..|peer|] == peer;
    var unique := SortedSet(valid);
    slots := unique[..SliceEnd(|unique|, limit)];
  }

  lemma {:induction false} InsertMembers(m: Moment, ms: seq<Moment>)
    ensures forall x :: x in Insert(m, ms) ==> x == m || x in ms
    ensures Instants(Insert(m, ms)) == Instants(ms) + {m.instant}
  {
    if |ms| > 0 && m.instant > ms[0].instant {
      InsertMembers(m, ms[1..]);
      assert ms == [ms[0]] + ms[1..];
      InstantsCons(ms[0], ms[1..]);
      InstantsCons(ms[0], Insert(m, ms[1..]));
    } else if |ms| == 0 || m.instant < ms[0].instant {
      InstantsCons(m, ms);
    } else {
      assert ms[0].instant in Instants(ms);
    }
  }

  lemma {:induction false} InsertAscending(m: Moment, ms: seq<Moment>)
    requires Ascending(ms)
    ensures Ascending(Insert(m, ms))
  {
    hide Instants;
    if |ms| > 0 && m.instant > ms[0].instant {
      assert Ascending(ms[1..]);
      InsertAscending(m, ms[1..]);
      InsertMembers(m, ms[1..]);
      var tail := Insert(m, ms[1..]);
      forall j | 0 <= j < |tail|
        ensures ms[0].instant < tail[j].instant
      {
        assert tail[j] in tail;
        if tail[j] != m {
          var k :| 0 <= k < |ms[1..]| && ms[1..][k] == tail[j];
          assert ms[k + 1] == tail[j];
        }
      }
    }
  }

  lemma InstantsCons(m: Moment, ms: seq<Moment>)
    ensures Instants([m] + ms) == {m.instant} + Instants(ms)
  {
    forall x | x in {m.instant} + Instants(ms)
      ensures x in Instants([m] + ms)
    {
      if x == m.instant {
        assert ([m] + ms)[0] == m;
      } else {
        var i :| 0 <= i < |ms| && ms[i].instant == x;
        assert ([m] + ms)[i + 1] == ms[i];
      }
    }
  }

  lemma {:induction false} SortedSetIs(ms: seq<Moment>)
    ensures Ascending(SortedSet(ms)) && Instants(SortedSet(ms)) == Instants(ms)
    ensures forall x :: x in SortedSet(ms) ==> x in ms
  {
    if |ms| > 0 {
      var front, m := ms[..|ms| - 1], ms[|ms| - 1];
      SortedSetIs(front);
      InsertAscending(m, SortedSet(front));
      InsertMembers(m, SortedSet(front));
      assert ms == front + [m];
      assert Instants(ms) == Instants(front) + {m.instant} by {
        assert ms[|ms| - 1] == m;
        forall x | x in Instants(front)
          ensures x in Instants(ms)
        {
          var i :| 0 <= i < |front| && front[i].instant == x;
          assert ms[i] == front[i];
        }
        forall x | x in Instants(ms)
          ensures x in Instants(front) + {m.instant}
        {
          var i :| 0 <= i < |ms| && ms[i].instant == x;
          if i < |front| { assert front[i] == ms[i]; }
        }
      }
    }
  }

  /** `m` is what some offered slot parses to, and it fits. */
  ghost predicate Offered(r: Request, parse: string -> Option<Moment>, peer: seq<string>, m: Moment) {
    Fits(r, m) && exists raw :: raw in peer && parse(raw) == Some(m)
  }

  lemma {:induction false} ValidIsOffered(r: Request, parse: string -> Option<Moment>, peer: seq<string>)
    ensures forall m :: m in Valid(r, parse, peer) <==> Offered(r, parse, peer, m)
  {
    hide Fits;
    if |peer| > 0 {
      var front, last := peer[..|peer| - 1], peer[|peer| - 1];
      ValidIsOffered(r, parse, front);
      assert peer == front + [last];
      forall m
        ensures m in Valid(r, parse, peer) <==> Offered(r, parse, peer, m)
      {
        assert Offered(r, parse, front, m) ==> Offered(r, parse, peer, m);
        if Offered(r, parse, peer, m) && !Offered(r, parse, front, m) {
          var raw :| raw in peer && parse(raw) == Some(m);
          assert raw == last;
        }
      }
    }
  }

  lemma InstantOf(ms: seq<Moment>, m: Moment)
    requires m in ms
    ensures m.instant in Instants(ms)
  {
    var i :| 0 <= i < |ms| && ms[i] == m;
    assert ms[i].instant in Instants(ms);
  }

  lemma PrefixAscends(ms: seq<Moment>, k: nat)
    requires Ascending(ms) && k <= |ms|
    ensures Ascending(ms[..k])
  {
  }

  /** The first `k` of an ascending sequence come before everything it holds besides them. */
  lemma PrefixIsEarliest(unique: seq<Moment>, k: nat, instant: int)
    requires Ascending(unique) && k <= |unique| && instant in Instants(unique) && instant !in Instants(unique[..k])
    ensures k < |unique| && forall i :: 0 <= i < k ==> unique[..k][i].instant < instant
  {
    var u :| 0 <= u < |unique| && unique[u].instant == instant;
    assert forall j :: 0 <= j < k ==> unique[..k][j].instant in Instants(unique[..k]);
  }

  /** The slots are offered, fit, ascend without repetition, and with a limit of zero or more they are the
      earliest ones: an offered slot that fits and is not among them comes after all of them, and only
      when the limit is reached. */
  lemma SlotsAreEarliest(r: Request, parse: string -> Option<Moment>, peer: seq<string>, limit: nat, slots: seq<Moment>)
    requires var unique := SortedSet(Valid(r, parse, peer)); slots == unique[..SliceEnd(|unique|, limit)]
    ensures Ascending(slots) && |slots| <= limit
    ensures forall m :: m in slots ==> Offered(r, parse, peer, m)
    ensures forall m :: Offered(r, parse, peer, m) && m.instant !in Instants(slots) ==>
              |slots| == limit && forall i :: 0 <= i < |slots| ==> slots[i].instant < m.instant
  {
    var valid := Valid(r, parse, peer);
    hide Offered, Instants, Valid, SortedSet, Fits, Ascending;
    var unique := SortedSet(valid);
    ValidIsOffered(r, parse, peer);
    SortedSetIs(valid);
    PrefixAscends(unique, |slots|);
    assert forall m :: m in slots ==> m in unique;
    forall m | Offered(r, parse, peer, m) && m.instant !in Instants(slots)
      ensures |slots| == limit && forall i :: 0 <= i < |slots| ==> slots[i].instant < m.instant
    {
      InstantOf(valid, m);
      PrefixIsEarliest(unique, |slots|, m.instant);
    }
  }

  // ----- The negotiation -----

  datatype Phase =
    | Init | AwaitAvailability | AwaitPeerConfirm | AwaitOwnerConfirm | Execute | Done
    | DeadlockTimeout | DeadlockNoSlots | Refused

  type Slot = string

  datatype Command =
    | SendAvailabilityQuery | SendSlotConfirm(slot: Slot) | RequestOwnerConfirm(slot: Slot)
        | ExecuteCalendarWrite(slot: Slot)
    | PostTeamConfirmation(slot: Slot) | NotifyResult(slot: Slot) | NotifyEscalation(reason: string)
        | NotifyTermination(reason: string)

  datatype State = State(phase: Phase, candidates: seq<Slot>, cursor: nat, renegotiated: bool)

  datatype Event = Availability(candidates: seq<Slot>) | Timeout | PeerConfirm(accepted: bool)
      | OwnerConfirm(accepted: bool) | Executed

  datatype Outcome = Outcome(state: State, commands: seq<Command>)

  function Start(): Outcome {
    Outcome(State(AwaitAvailability, [], 0, false), [SendAvailabilityQuery])
  }

  /** `chosen_slot`; `None` stands for the raised `ValueError`. */
  function ChosenSlot(s: State): Option<Slot> {
    if |s.candidates| == 0 || s.cursor >= |s.candidates| then None else Some(s.candidates[s.cursor])
  }

  /** `_renegotiate_or_terminate`. */
  function Renegotiate(s: State, declinedBy: string): Option<Outcome> {
    if s.renegotiated || s.cursor + 1 >= |s.candidates| then
      Some(Outcome(s.(phase := Refused), [NotifyTermination(declinedBy)]))
    else
      var next := s.(phase := AwaitPeerConfirm, cursor := s.cursor + 1, renegotiated := true);
      match ChosenSlot(next)
      case None => None
      case Some(slot) => Some(Outcome(next, [SendSlotConfirm(slot)]))
  }

  /** The `on_*` transitions; `None` stands for a raised `ValueError`. */
  function Step(s: State, e: Event): Option<Outcome> {
    match e
    case Availability(candidates) =>
      if s.phase != AwaitAvailability then None
      else if |candidates| == 0 then Some(Outcome(s.(phase := DeadlockNoSlots), [NotifyEscalation("no_candidates")]))
      else Some(Outcome(s.(phase := AwaitPeerConfirm, candidates := candidates, cursor := 0),
                        [SendSlotConfirm(candidates[0])]))
    case Timeout =>
      if s.phase !in {AwaitAvailability, AwaitPeerConfirm} then None
      else Some(Outcome(s.(phase := DeadlockTimeout), [NotifyEscalation("peer_timeout")]))
    case PeerConfirm(accepted) =>
      if s.phase != AwaitPeerConfirm then None
      else if accepted then
        (match ChosenSlot(s)
         case None => None
         case Some(slot) => Some(Outcome(s.(phase := AwaitOwnerConfirm), [RequestOwnerConfirm(slot)])))
      else Renegotiate(s, "declined_by_peer")
    case OwnerConfirm(accepted) =>
      if s.phase != AwaitOwnerConfirm then None
      else if accepted then
        (match ChosenSlot(s)
         case None => None
         case Some(slot) => Some(Outcome(s.(phase := Execute), [ExecuteCalendarWrite(slot)])))
      else Renegotiate(s, "declined_by_owner")
    case Executed =>
      if s.phase != Execute then None
      else
        (match ChosenSlot(s)
         case None => None
         case Some(slot) => Some(Outcome(s.(phase := Done), [PostTeamConfirmation(slot), NotifyResult(slot)])))
  }

  /** A whole run: the last state and every command emitted. */
  function Run(es: seq<Event>): Option<Outcome>
    decreases |es|
  {
    if |es| == 0 then Some(Start())
    else
      match Run(es[..|es| - 1])
      case None => None
      case Some(before) =>
        match Step(before.state, es[|es| - 1])
        case None => None
        case Some(after) => Some(Outcome(after.state, before.commands + after.commands))
  }

  function Proposals(cs: seq<Command>): seq<Slot> {
    if |cs| == 0 then []
    else Proposals(cs[..|cs| - 1]) + (if cs[|cs| - 1].SendSlotConfirm? then [cs[|cs| - 1].slot] else [])
  }

  function Writes(cs: seq<Command>): seq<Slot> {
    if |cs| == 0 then []
    else Writes(cs[..|cs| - 1]) + (if cs[|cs| - 1].ExecuteCalendarWrite? then [cs[|cs| - 1].slot] else [])
  }

  /** The number of transitions a state can still make. */
  function Remaining(s: State): nat {
    match s.phase
    case Init => 7
    case AwaitAvailability => 6
    case AwaitPeerConfirm => if s.renegotiated then 3 else 5
    case AwaitOwnerConfirm => if s.renegotiated then 2 else 4
    case Execute => 1
    case _ => 0
  }

  predicate Failed(p: Phase) {
    p in {DeadlockTimeout, DeadlockNoSlots, Refused}
  }

  /** What holds after every run. */
  predicate Inv(es: seq<Event>, o: Outcome) {
    var s, proposed, written := o.state, Proposals(o.commands), Writes(o.commands);
    && |es| + Remaining(s) <= 6
    && (s.phase == AwaitAvailability ==> s.candidates == [] && s.cursor == 0 && !s.renegotiated && proposed == [])
    && (s.phase != AwaitAvailability && |s.candidates| == 0 ==> proposed == [] && Failed(s.phase))
    && (|s.candidates| > 0 ==> s.cursor < |s.candidates| && s.cursor == (if s.renegotiated then 1 else 0)
                               && proposed == s.candidates[..s.cursor + 1])
    && (s.phase in {AwaitPeerConfirm, AwaitOwnerConfirm, Execute, Done} ==> |s.candidates| > 0)
    && s.phase != Init
    && written == (if s.phase in {Execute, Done} then [s.candidates[s.cursor]] else [])
  }

  lemma CommandsSnoc(cs: seq<Command>, c: Command)
    ensures Proposals(cs + [c]) == Proposals(cs) + (if c.SendSlotConfirm? then [c.slot] else [])
    ensures Writes(cs + [c]) == Writes(cs) + (if c.ExecuteCalendarWrite? then [c.slot] else [])
  {
    assert (cs + [c])[..|cs|] == cs;
  }

  /** Every transition makes progress, and each waiting phase is entered by one event only. */
  lemma StepShape(s: State, e: Event)
    requires Step(s, e).Some?
    ensures var t := Step(s, e).value.state;
            && Remaining(t) < Remaining(s)
            && (t.phase == AwaitOwnerConfirm ==> e == PeerConfirm(true) && s.phase == AwaitPeerConfirm)
            && (t.phase == Execute ==> e == OwnerConfirm(true) && s.phase == AwaitOwnerConfirm)
            && (t.phase == Done <==> s.phase == Execute) && (t.phase == Done ==> e == Executed) && s.phase != Done
  {
  }

  /** What one transition emits: a proposal exactly with a fresh slot, a write exactly when it enters Execute. */
  lemma StepEmits(s: State, e: Event)
    requires Step(s, e).Some?
    ensures var o := Step(s, e).value;
            var t := o.state;
            if t.phase == AwaitPeerConfirm then t.cursor < |t.candidates|
                && o.commands == [SendSlotConfirm(t.candidates[t.cursor])]
            else if t.phase == Execute then t.cursor < |t.candidates|
                && o.commands == [ExecuteCalendarWrite(t.candidates[t.cursor])]
            else forall c :: c in o.commands ==> !c.SendSlotConfirm? && !c.ExecuteCalendarWrite?
  {
  }

  lemma {:induction false} NeitherProposesNorWrites(cs: seq<Command>)
    requires forall c :: c in cs ==> !c.SendSlotConfirm? && !c.ExecuteCalendarWrite?
    ensures Proposals(cs) == [] && Writes(cs) == []
  {
    if |cs| > 0 {
      NeitherProposesNorWrites(cs[..|cs| - 1]);
      assert cs[|cs| - 1] in cs;
    }
  }

  lemma OneCommand(c: Command)
    ensures Proposals([c]) == (if c.SendSlotConfirm? then [c.slot] else [])
    ensures Writes([c]) == (if c.ExecuteCalendarWrite? then [c.slot] else [])
  {
    CommandsSnoc([], c);
    assert [] + [c] == [c];
    assert Proposals([]) == [] && Writes([]) == [];
  }

  /** How one transition moves candidates and cursor. */
  lemma StepMoves(s: State, e: Event)
    requires Step(s, e).Some?
    ensures var t := Step(s, e).value.state;
            && t.phase !in {Init, AwaitAvailability}
            && (t.phase in {AwaitPeerConfirm, AwaitOwnerConfirm, Execute, Done} ==> t.cursor < |t.candidates|)
            && (if s.phase == AwaitAvailability then
                  if t.phase == AwaitPeerConfirm then e == Availability(t.candidates) && t.cursor == 0
                      && t.renegotiated == s.renegotiated
                  else Failed(t.phase) && t == s.(phase := t.phase)
                else if t.phase == AwaitPeerConfirm then
                  !s.renegotiated && t == s.(phase := AwaitPeerConfirm, cursor := s.cursor + 1, renegotiated := true)
                else t == s.(phase := t.phase))
  {
  }

  lemma {:induction false} CommandsConcat(a: seq<Command>, b: seq<Command>)
    ensures Proposals(a + b) == Proposals(a) + Proposals(b) && Writes(a + b) == Writes(a) + Writes(b)
  {
    if |b| == 0 {
      assert a + b == a;
    } else {
      var front, last := b[..|b| - 1], b[|b| - 1];
      CommandsConcat(a, front);
      CommandsSnoc(a + front, last);
      CommandsSnoc(front, last);
      hide Proposals, Writes;
      assert a + b == a + front + [last] && b == front + [last];
    }
  }

  lemma StepKeeps(es: seq<Event>, o: Outcome, e: Event)
    requires Inv(es, o) && Step(o.state, e).Some?
    ensures var after := Step(o.state, e).value;
            Inv(es + [e], Outcome(after.state, o.commands + after.commands))
  {
    hide Proposals, Writes, Step, Remaining;
    StepShape(o.state, e);
    StepEmits(o.state, e);
    StepMoves(o.state, e);
    var after := Step(o.state, e).value;
    CommandsConcat(o.commands, after.commands);
    if after.state.phase in {AwaitPeerConfirm, Execute} {
      OneCommand(after.commands[0]);
      var t := after.state;
      assert t.candidates[..t.cursor] + [t.candidates[t.cursor]] == t.candidates[..t.cursor + 1];
      assert [] + [t.candidates[t.cursor]] == [t.candidates[t.cursor]] && t.candidates[..0] == [];
      assert Proposals(o.commands) + [] == Proposals(o.commands) && Writes(o.commands) + [] == Writes(o.commands);
    } else {
      NeitherProposesNorWrites(after.commands);
      assert Proposals(o.commands) + [] == Proposals(o.commands) && Writes(o.commands) + [] == Writes(o.commands);
    }
  }

  lemma RunSnoc(es: seq<Event>)
    requires |es| > 0 && Run(es).Some?
    ensures var before := Run(es[..|es| - 1]);
            && before.Some? && Step(before.value.state, es[|es| - 1]).Some?
            && Run(es).value == Outcome(Step(before.value.state, es[|es| - 1]).value.state,
                                        before.value.commands + Step(before.value.state, es[|es| - 1]).value.commands)
  {
    hide Step;
  }

  lemma InvStart()
    ensures Run([]) == Some(Start()) && Inv([], Start())
  {
    OneCommand(SendAvailabilityQuery);
  }

  lemma {:induction false} RunKeeps(es: seq<Event>)
    requires Run(es).Some?
    ensures Inv(es, Run(es).value)
    decreases |es|
  {
    hide Inv, Step, Run;
    if |es| == 0 {
      assert es == [];
      InvStart();
    } else {
      var front, last := es[..|es| - 1], es[|es| - 1];
      RunSnoc(es);
      RunKeeps(front);
      StepKeeps(front, Run(front).value, last);
      assert front + [last] == es;
    }
  }

  /** No run is longer than six events, none proposes more than two slots, and a slot is always chosen
      when one is asked for: an event is refused only for its phase. */
  lemma RunsAreShort(es: seq<Event>)
    requires Run(es).Some?
    ensures |es| <= 6 && |Proposals(Run(es).value.commands)| <= 2
    ensures Run(es).value.state.phase in {AwaitPeerConfirm, AwaitOwnerConfirm, Execute} ==>
            ChosenSlot(Run(es).value.state).Some?
  {
    hide Proposals, Writes, Run;
    RunKeeps(es);
  }

  /** A run writes the calendar at most once, and a failed run not at all. */
  lemma WritesAreFew(es: seq<Event>)
    requires Run(es).Some?
    ensures |Writes(Run(es).value.commands)| <= 1
    ensures Failed(Run(es).value.state.phase) ==> Writes(Run(es).value.commands) == []
  {
    hide Proposals, Writes, Run;
    RunKeeps(es);
  }

  /** The write is for the last proposed slot, one of the candidates. */
  lemma WriteIsProposed(es: seq<Event>)
    requires Run(es).Some? && |Writes(Run(es).value.commands)| > 0
    ensures var o := Run(es).value;
            var proposed := Proposals(o.commands);
            && o.state.phase in {Execute, Done}
            && |proposed| > 0 && Writes(o.commands) == [proposed[|proposed| - 1]]
            && proposed[|proposed| - 1] in o.state.candidates
  {
    hide Proposals, Writes, Run;
    RunKeeps(es);
  }

  /** The two events that lead to the write phase are the peer's and then the owner's acceptance. */
  lemma {:induction false} WriteIsApproved(es: seq<Event>)
    requires Run(es).Some? && Run(es).value.state.phase in {Execute, Done}
    ensures exists n :: 2 <= n <= |es| && es[n - 2] == PeerConfirm(true) && es[n - 1] == OwnerConfirm(true)
                        && Run(es[..n]).Some? && Run(es[..n]).value.state.phase == Execute
    decreases |es|
  {
    hide Run;
    var n := |es|;
    LastStep(es);
    if es[n - 1] == Executed {
      WriteIsApproved(es[..n - 1]);
      var front := es[..n - 1];
      var m :| 2 <= m <= |front| && front[m - 2] == PeerConfirm(true) && front[m - 1] == OwnerConfirm(true)
               && Run(front[..m]).Some? && Run(front[..m]).value.state.phase == Execute;
      assert front[..m] == es[..m];
      assert es[m - 2] == PeerConfirm(true) && es[m - 1] == OwnerConfirm(true);
    } else {
      OwnerFollowsPeer(es[..n - 1]);
      assert es[..n] == es;
      assert es[n - 2] == PeerConfirm(true) && es[n - 1] == OwnerConfirm(true);
    }
  }

  /** How the write phases are entered. */
  lemma LastStep(es: seq<Event>)
    requires Run(es).Some? && Run(es).value.state.phase in {Execute, Done}
    ensures |es| > 0 && Run(es[..|es| - 1]).Some?
    ensures var before, e, now := Run(es[..|es| - 1]).value.state.phase, es[|es| - 1], Run(es).value.state.phase;
            || (e == Executed && before == Execute && now == Done)
            || (e == OwnerConfirm(true) && before == AwaitOwnerConfirm && now == Execute)
  {
    hide Step;
    if |es| > 0 {
      RunSnoc(es);
      StepShape(Run(es[..|es| - 1]).value.state, es[|es| - 1]);
    }
  }

  lemma OwnerFollowsPeer(es: seq<Event>)
    requires Run(es).Some? && Run(es).value.state.phase == AwaitOwnerConfirm
    ensures |es| > 0 && es[|es| - 1] == PeerConfirm(true)
  {
    hide Step;
    if |es| > 0 {
      RunSnoc(es);
      StepShape(Run(es[..|es| - 1]).value.state, es[|es| - 1]);
    }
  }

  /** The only candidates of a run are those of its availability event. */
  lemma {:induction false} CandidatesAreOffered(es: seq<Event>)
    requires Run(es).Some?
    ensures var cs := Run(es).value.state.candidates; cs == [] || Availability(cs) in es
    decreases |es|
  {
    hide Step;
    if |es| > 0 {
      RunSnoc(es);
      CandidatesAreOffered(es[..|es| - 1]);
      StepMoves(Run(es[..|es| - 1]).value.state, es[|es| - 1]);
      assert es[|es| - 1] in es;
    }
  }

  function Printed(iso: Moment -> Slot, ms: seq<Moment>): (slots: seq<Slot>)
    ensures |slots| == |ms| && forall i :: 0 <= i < |ms| ==> slots[i] == iso(ms[i])
  {
    seq(|ms|, i requires 0 <= i < |ms| => iso(ms[i]))
  }

  /** End to end: whatever slot a run writes to the calendar is a printed offer that fits the range,
      meets no busy interval and is among the earliest ones. */
  lemma WrittenSlotIsFree(es: seq<Event>, r: Request, parse: string -> Option<Moment>, peer: seq<string>, limit: nat,
                          iso: Moment -> Slot, slots: seq<Moment>)
    requires Run(es).Some? && |Writes(Run(es).value.commands)| > 0
    requires var unique := SortedSet(Valid(r, parse, peer)); slots == unique[..SliceEnd(|unique|, limit)]
    requires forall e :: e in es && e.Availability? ==> e.candidates == Printed(iso, slots)
    ensures exists m :: m in slots && Offered(r, parse, peer, m) && Writes(Run(es).value.commands) == [iso(m)]
  {
    hide Run, Writes, Proposals, Offered, SortedSet, Valid;
    WriteIsProposed(es);
    CandidatesAreOffered(es);
    SlotsAreEarliest(r, parse, peer, limit, slots);
    var o := Run(es).value;
    var slot := Writes(o.commands)[0];
    assert slot in Printed(iso, slots);
    var i :| 0 <= i < |slots| && Printed(iso, slots)[i] == slot;
    assert slots[i] in slots;
  }

  // ----- What a run may do next -----

  lemma RunAnother(es: seq<Event>, e: Event)
    requires Run(es).Some?
    ensures Run(es + [e]).Some? <==> Step(Run(es).value.state, e).Some?
    ensures Run(es + [e]).Some? ==>
              var after := Step(Run(es).value.state, e).value;
              Run(es + [e]).value == Outcome(after.state, Run(es).value.commands + after.commands)
  {
    hide Step;
    assert (es + [e])[..|es|] == es;
  }

  /** After any run an event is refused exactly when its phase does not fit. */
  lemma EventsFitPhase(es: seq<Event>, e: Event)
    requires Run(es).Some?
    ensures var phase := Run(es).value.state.phase;
            Run(es + [e]).Some? <==>
            match e
            case Availability(_) => phase == AwaitAvailability
            case Timeout => phase in {AwaitAvailability, AwaitPeerConfirm}
            case PeerConfirm(_) => phase == AwaitPeerConfirm
            case OwnerConfirm(_) => phase == AwaitOwnerConfirm
            case Executed => phase == Execute
  {
    hide Run;
    RunAnother(es, e);
    RunsAreShort(es);
  }

  /** Acceptance by the owner writes the last proposed slot. */
  lemma AcceptanceWrites(es: seq<Event>)
    requires Run(es).Some? && Run(es).value.state.phase == AwaitOwnerConfirm
    ensures Run(es + [OwnerConfirm(true)]).Some?
    ensures var proposed := Proposals(Run(es).value.commands);
            |proposed| > 0 && Writes(Run(es + [OwnerConfirm(true)]).value.commands) == [proposed[|proposed| - 1]]
  {
    hide Run, Step, Proposals, Writes;
    var e := OwnerConfirm(true);
    EventsFitPhase(es, e);
    RunAnother(es, e);
    RunKeeps(es);
    RunKeeps(es + [e]);
    var s := Run(es).value.state;
    AcceptanceMoves(s);
  }

  lemma AcceptanceMoves(s: State)
    requires s.phase == AwaitOwnerConfirm && Step(s, OwnerConfirm(true)).Some?
    ensures Step(s, OwnerConfirm(true)).value.state == s.(phase := Execute)
  {
  }

  /** A decline, by either side, proposes the second candidate exactly when it is the first decline and
      there is one; otherwise the run is refused. */
  lemma DeclineRenegotiatesOnce(es: seq<Event>, e: Event)
    requires Run(es).Some? && Run(es + [e]).Some? && (e == PeerConfirm(false) || e == OwnerConfirm(false))
    ensures var before, after := Run(es).value, Run(es + [e]).value;
            if |Proposals(before.commands)| == 1 && |before.state.candidates| > 1
            then after.state.phase == AwaitPeerConfirm && Proposals(after.commands) == before.state.candidates[..2]
            else after.state.phase == Refused && Proposals(after.commands) == Proposals(before.commands)
  {
    hide Run, Proposals, Writes;
    RunAnother(es, e);
    RunKeeps(es);
    RunKeeps(es + [e]);
  }
}
