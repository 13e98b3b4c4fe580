/** What a negotiation tells its owner and its peer, event by event and over whole runs. */
module CoordinationRuns {
  import opened Common
  import opened Coordination

  // ----- What each event emits -----

  function Last<T>(s: seq<T>): T
    requires |s| > 0
  {
    s[|s| - 1]
  }

  /** The slots the owner was asked to confirm. */
  function Requests(cs: seq<Command>): seq<Slot> {
    if |cs| == 0 then []
    else Requests(cs[..|cs| - 1]) + (if Last(cs).RequestOwnerConfirm? then [Last(cs).slot] else [])
  }

  /** The notifications of a failure. */
  function Notices(cs: seq<Command>): seq<Command> {
    if |cs| == 0 then []
    else Notices(cs[..|cs| - 1]) + (if Last(cs).NotifyEscalation? || Last(cs).NotifyTermination? then [Last(cs)]
                                    else [])
  }

  /** The slots reported as booked, to the team and to the owner. */
  function Reports(cs: seq<Command>): seq<Command> {
    if |cs| == 0 then []
    else Reports(cs[..|cs| - 1]) + (if Last(cs).PostTeamConfirmation? || Last(cs).NotifyResult? then [Last(cs)] else [])
  }

  lemma FiltersSnoc(cs: seq<Command>, c: Command)
    ensures Requests(cs + [c]) == Requests(cs) + (if c.RequestOwnerConfirm? then [c.slot] else [])
    ensures Notices(cs + [c]) == Notices(cs) + (if c.NotifyEscalation? || c.NotifyTermination? then [c] else [])
    ensures Reports(cs + [c]) == Reports(cs) + (if c.PostTeamConfirmation? || c.NotifyResult? then [c] else [])
  {
    var longer := cs + [c];
    assert longer[..|longer| - 1] == cs && Last(longer) == c;
  }

  lemma Associative<T>(a: seq<T>, b: seq<T>, c: seq<T>)
    ensures (a + b) + c == a + (b + c)
  {
  }

  lemma {:induction false} FiltersConcat(a: seq<Command>, b: seq<Command>)
    ensures Requests(a + b) == Requests(a) + Requests(b)
    ensures Notices(a + b) == Notices(a) + Notices(b)
    ensures Reports(a + b) == Reports(a) + Reports(b)
  {
    if |b| == 0 {
      assert a + b == a;
      assert Requests(a) + [] == Requests(a) && Notices(a) + [] == Notices(a) && Reports(a) + [] == Reports(a);
    } else {
      var front, last := b[..|b| - 1], Last(b);
      FiltersConcat(a, front);
      FiltersSnoc(a + front, last);
      FiltersSnoc(front, last);
      hide *;
      assert a + b == a + front + [last] && b == front + [last];
      Associative(Requests(a), Requests(front), if last.RequestOwnerConfirm? then [last.slot] else []);
      Associative(Notices(a), Notices(front), if last.NotifyEscalation? || last.NotifyTermination? then [last] else []);
      Associative(Reports(a), Reports(front), if last.PostTeamConfirmation? || last.NotifyResult? then [last] else []);
    }
  }

  lemma FiltersOne(c: Command)
    ensures Requests([c]) == (if c.RequestOwnerConfirm? then [c.slot] else [])
    ensures Notices([c]) == (if c.NotifyEscalation? || c.NotifyTermination? then [c] else [])
    ensures Reports([c]) == (if c.PostTeamConfirmation? || c.NotifyResult? then [c] else [])
  {
    assert [c][..0] == [];
  }

  /** The answer that ends a refused negotiation names the side that declined. */
  function Decliner(e: Event): string {
    if e.PeerConfirm? then "declined_by_peer" else "declined_by_owner"
  }

  /** What one more event emits, in terms of what was proposed and asked before. */
  predicate Emits(before: seq<Command>, e: Event, emitted: seq<Command>, phase: Phase) {
    var proposed, asked := Proposals(before), Requests(before);
    match e
    case Availability(slots) =>
      if |slots| == 0 then emitted == [NotifyEscalation("no_candidates")] && phase == DeadlockNoSlots
      else emitted == [SendSlotConfirm(slots[0])] && phase == AwaitPeerConfirm
    case Timeout => emitted == [NotifyEscalation("peer_timeout")] && phase == DeadlockTimeout
    case PeerConfirm(true) =>
      |proposed| > 0 && emitted == [RequestOwnerConfirm(Last(proposed))] && phase == AwaitOwnerConfirm
    case OwnerConfirm(true) =>
      |asked| > 0 && emitted == [ExecuteCalendarWrite(Last(asked))] && phase == Execute
    case Executed =>
      |asked| > 0 && emitted == [PostTeamConfirmation(Last(asked)), NotifyResult(Last(asked))] && phase == Done
    case _ =>
      || (phase == Refused && emitted == [NotifyTermination(Decliner(e))])
      || (phase == AwaitPeerConfirm && |emitted| == 1 && emitted[0].SendSlotConfirm?)
  }

  /** While an owner's answer or its execution is due, the owner was last asked about the last proposal. */
  ghost predicate AsksLast(o: Outcome) {
    var proposed, asked := Proposals(o.commands), Requests(o.commands);
    o.state.phase in {AwaitOwnerConfirm, Execute, Done} ==>
      |proposed| > 0 && |asked| > 0 && Last(asked) == Last(proposed)
  }

  /** The emission of one transition, in terms of the slot it stands at. */
  lemma StepTells(s: State, e: Event)
    requires Step(s, e).Some? && (s.phase in {AwaitPeerConfirm, AwaitOwnerConfirm, Execute} ==>
                                  s.cursor < |s.candidates|)
    ensures var o := Step(s, e).value;
            match e
            case Availability(slots) =>
              if |slots| == 0 then o.commands == [NotifyEscalation("no_candidates")] && o.state.phase == DeadlockNoSlots
              else o.commands == [SendSlotConfirm(slots[0])] && o.state.phase == AwaitPeerConfirm
            case Timeout => o.commands == [NotifyEscalation("peer_timeout")] && o.state.phase == DeadlockTimeout
            case PeerConfirm(true) =>
              && s.phase == AwaitPeerConfirm
              && o.commands == [RequestOwnerConfirm(s.candidates[s.cursor])]
              && o.state == s.(phase := AwaitOwnerConfirm)
            case OwnerConfirm(true) =>
              && s.phase == AwaitOwnerConfirm
              && o.commands == [ExecuteCalendarWrite(s.candidates[s.cursor])] && o.state == s.(phase := Execute)
            case Executed =>
              var slot := s.candidates[s.cursor];
              && s.phase == Execute
              && o.commands == [PostTeamConfirmation(slot), NotifyResult(slot)] && o.state == s.(phase := Done)
            case _ =>
              || (o.state.phase == Refused && o.commands == [NotifyTermination(Decliner(e))])
              || (o.state.phase == AwaitPeerConfirm && |o.commands| == 1 && o.commands[0].SendSlotConfirm?)
  {
  }

  lemma FiltersTwo(c: Command, d: Command)
    requires c.PostTeamConfirmation? && d.NotifyResult?
    ensures Proposals([c, d]) == [] && Requests([c, d]) == [] && Notices([c, d]) == [] && Reports([c, d]) == [c, d]
  {
    FiltersOne(c);
    OneCommand(c);
    FiltersSnoc([c], d);
    CommandsSnoc([c], d);
    assert [c] + [d] == [c, d];
    hide *;
  }

  lemma StepEmitted(es: seq<Event>, o: Outcome, e: Event)
    requires Inv(es, o) && AsksLast(o) && Step(o.state, e).Some?
    ensures var after := Step(o.state, e).value;
            Emits(o.commands, e, after.commands, after.state.phase)
            && AsksLast(Outcome(after.state, o.commands + after.commands))
  {
    hide Proposals, Writes, Requests, Notices, Reports, Remaining, Step;
    var after := Step(o.state, e).value;
    StepTells(o.state, e);
    FiltersConcat(o.commands, after.commands);
    CommandsConcat(o.commands, after.commands);
    FiltersOne(after.commands[0]);
    OneCommand(after.commands[0]);
    assert Proposals(o.commands) + [] == Proposals(o.commands) && Requests(o.commands) + [] == Requests(o.commands);
    if e == Executed {
      FiltersTwo(after.commands[0], after.commands[1]);
    } else {
      assert after.commands == [after.commands[0]];
    }
  }

  lemma {:induction false} RunAsksLast(es: seq<Event>)
    requires Run(es).Some?
    ensures AsksLast(Run(es).value)
    decreases |es|
  {
    hide Inv, Step, Run, AsksLast;
    if |es| == 0 {
      assert es == [];
      StartAsks();
    } else {
      var front := es[..|es| - 1];
      RunSnoc(es);
      RunKeeps(front);
      RunAsksLast(front);
      StepEmitted(front, Run(front).value, Last(es));
    }
  }

  lemma StartAsks()
    ensures Run([]) == Some(Start()) && AsksLast(Start())
  {
  }

  /** After every run, whatever event comes next emits exactly the commands of `Emits`: the owner is asked
      about the last proposal, the write and the reports are for the slot the owner was last asked about,
      and each failure sends its own notice. */
  lemma EventsEmit(es: seq<Event>, e: Event)
    requires Run(es).Some? && Run(es + [e]).Some?
    ensures var before, after := Run(es).value.commands, Run(es + [e]).value.commands;
            && |before| <= |after| && after[..|before|] == before
            && Emits(before, e, after[|before|..], Run(es + [e]).value.state.phase)
  {
    hide Run, Step, Inv, AsksLast, Emits;
    RunAnother(es, e);
    RunKeeps(es);
    RunAsksLast(es);
    StepEmitted(es, Run(es).value, e);
    var before, emitted := Run(es).value.commands, Step(Run(es).value.state, e).value.commands;
    assert (before + emitted)[..|before|] == before && (before + emitted)[|before|..] == emitted;
  }

  // ----- Whole runs -----

  function Acceptances(es: seq<Event>): nat {
    if |es| == 0 then 0 else Acceptances(es[..|es| - 1]) + (if Last(es) == PeerConfirm(true) then 1 else 0)
  }

  /** What the owner was asked, what was written and what was reported, by the phase reached. */
  ghost predicate Tells(es: seq<Event>, o: Outcome) {
    var asked, notices, reports := Requests(o.commands), Notices(o.commands), Reports(o.commands);
    && |asked| == Acceptances(es)
    && (if o.state.phase in {Execute, Done} then |asked| > 0 && Writes(o.commands) == [Last(asked)]
        else Writes(o.commands) == [])
    && (if o.state.phase == Done then
          |asked| > 0 && reports == [PostTeamConfirmation(Last(asked)), NotifyResult(Last(asked))]
        else reports == [])
    && (if Failed(o.state.phase) then
          |es| > 0 && |o.commands| > 0 && notices == [Last(o.commands)]
          && Last(o.commands) == NoticeOf(o.state.phase, Last(es))
        else notices == [])
  }

  /** The notice of a failure: of the missing candidates, of the silent peer, or of who declined. */
  function NoticeOf(phase: Phase, e: Event): Command {
    match phase
    case DeadlockNoSlots => NotifyEscalation("no_candidates")
    case DeadlockTimeout => NotifyEscalation("peer_timeout")
    case _ => NotifyTermination(Decliner(e))
  }

  lemma LastStepKeepsTelling(es: seq<Event>, o: Outcome, emitted: seq<Command>, t: State)
    requires Tells(es, o) && Emits(o.commands, Executed, emitted, t.phase)
    requires o.state.phase == Execute && t.phase == Done
    ensures Tells(es + [Executed], Outcome(t, o.commands + emitted))
  {
    hide Proposals, Writes, Requests, Notices, Reports;
    assert (es + [Executed])[..|es|] == es;
    FiltersConcat(o.commands, emitted);
    CommandsConcat(o.commands, emitted);
    FiltersTwo(emitted[0], emitted[1]);
    NeitherProposesNorWrites(emitted);
  }

  lemma StepKeepsTelling(es: seq<Event>, o: Outcome, e: Event, emitted: seq<Command>, t: State)
    requires Tells(es, o) && Emits(o.commands, e, emitted, t.phase) && !Failed(o.state.phase) && o.state.phase != Done
    requires (t.phase == Done <==> o.state.phase == Execute) && (t.phase == Done <==> e == Executed)
    ensures Tells(es + [e], Outcome(t, o.commands + emitted))
  {
    hide Proposals, Writes, Requests, Notices, Reports;
    if e == Executed {
      hide Tells, Emits;
      LastStepKeepsTelling(es, o, emitted, t);
    } else {
      assert (es + [e])[..|es|] == es;
      var c := emitted[0];
      FiltersSnoc(o.commands, c);
      CommandsSnoc(o.commands, c);
      assert emitted == [c];
    }
  }

  lemma {:induction false} RunTells(es: seq<Event>)
    requires Run(es).Some?
    ensures Tells(es, Run(es).value)
    decreases |es|
  {
    hide Inv, Step, Run, AsksLast, Tells, Emits, Requests, Notices, Reports, Writes, Proposals;
    if |es| == 0 {
      assert es == [];
      StartTells();
    } else {
      var front, e := es[..|es| - 1], Last(es);
      RunSnoc(es);
      RunTells(front);
      RunKeeps(front);
      RunAsksLast(front);
      assert front + [e] == es;
      var o := Run(front).value;
      StepEmitted(front, o, e);
      StepGoesOn(o.state, e);
      StepKeepsTelling(front, o, e, Step(o.state, e).value.commands, Step(o.state, e).value.state);
    }
  }

  lemma StepGoesOn(s: State, e: Event)
    requires Step(s, e).Some?
    ensures var t := Step(s, e).value.state;
            && !Failed(s.phase) && s.phase != Done
            && (t.phase == Done <==> s.phase == Execute) && (t.phase == Done <==> e == Executed)
  {
  }

  lemma StartTells()
    ensures Run([]) == Some(Start()) && Tells([], Start())
  {
    FiltersOne(SendAvailabilityQuery);
    OneCommand(SendAvailabilityQuery);
  }

  /** Over every run the owner is asked once per acceptance by the peer, and whatever is written is the slot
      the owner was last asked about. */
  lemma OwnerIsAskedFirst(es: seq<Event>)
    requires Run(es).Some?
    ensures var cs := Run(es).value.commands;
            && |Requests(cs)| == Acceptances(es)
            && (Writes(cs) != [] ==> |Requests(cs)| > 0 && Writes(cs) == [Last(Requests(cs))])
  {
    hide Run, Requests, Writes, Notices, Reports, Proposals;
    RunTells(es);
  }

  /** Every failed run ends with its one notification, which gives its reason; no other run has one.  A
      finished run reports the written slot to the team and to the owner; no other run reports. */
  lemma RunsEndTold(es: seq<Event>)
    requires Run(es).Some?
    ensures var o := Run(es).value;
            && (Failed(o.state.phase) ==>
                  |es| > 0 && |o.commands| > 0 && Notices(o.commands) == [Last(o.commands)]
                  && Last(o.commands) == NoticeOf(o.state.phase, Last(es)))
            && (!Failed(o.state.phase) ==> Notices(o.commands) == [])
            && (o.state.phase == Done ==>
                  |Writes(o.commands)| == 1
                  && Reports(o.commands) == [PostTeamConfirmation(Writes(o.commands)[0]),
                                             NotifyResult(Writes(o.commands)[0])])
            && (o.state.phase != Done ==> Reports(o.commands) == [])
  {
    hide Run, Requests, Writes, Notices, Reports;
    RunTells(es);
  }
}
