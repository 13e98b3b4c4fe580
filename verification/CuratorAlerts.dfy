/** When an alert is due, told by the history of the run. */
module CuratorAlerts {
  import opened Common
  import opened MemoryDeletion
  import opened CuratorCycle
  import opened CuratorRuns

  /** The last cycle before cycle `i` that delivered its due alert and saved that it did. */
  function LastDelivery(hs: Hashes, content: string -> Digest, quiet: nat, states: seq<CuratorState>, ticks: seq<Tick>,
                        i: nat): (m: Option<nat>)
    requires i <= |ticks| && |states| == |ticks| + 1
    ensures m.Some? ==> m.value < i && Delivers(hs, content, quiet, states, ticks, m.value)
    ensures forall k: nat :: k < i && (m.Some? ==> m.value < k) ==> !Delivers(hs, content, quiet, states, ticks, k)
  {
    if i == 0 then None
    else if Delivers(hs, content, quiet, states, ticks, i - 1) then Some(i - 1)
    else LastDelivery(hs, content, quiet, states, ticks, i - 1)
  }

  /** The state file remembers the signature and the second of the last delivered alert. */
  lemma {:induction false} RemembersLast(hs: Hashes, content: string -> Digest, quiet: nat,
                                         states: seq<CuratorState>, ticks: seq<Tick>, i: nat)
    requires IsRun(hs, content, quiet, states, ticks) && i <= |ticks|
    ensures var m := LastDelivery(hs, content, quiet, states, ticks, i);
            Last(states[i].alert) == if m.None? then (None, None)
                                     else (Some(ticks[m.value].inp.signature),
                                           Some(WholeSecond(ticks[m.value].inp.now)))
  {
    hide Delivers, Cycle, DecideAlert;
    if i > 0 {
      assert IsStep(hs, content, quiet, states[i - 1], ticks[i - 1], states[i]);
      RemembersLast(hs, content, quiet, states, ticks, i - 1);
      AlertMovesExactly(hs, content, quiet, states, ticks, i - 1);
      AlertStep(hs, content, quiet, ticks[i - 1].img, states[i - 1], ticks[i - 1].inp);
    }
  }

  /** An alert is due exactly when there is something to act on and either no alert was delivered yet, or the
      last one carried another signature and its cooldown is over. */
  lemma DueExactly(hs: Hashes, content: string -> Digest, quiet: nat, states: seq<CuratorState>, ticks: seq<Tick>,
                   i: nat)
    requires IsRun(hs, content, quiet, states, ticks) && i < |ticks|
    ensures var inp, m := ticks[i].inp, LastDelivery(hs, content, quiet, states, ticks, i);
            Due(quiet, inp.signature, states[i].alert, inp.now) <==>
              && inp.signature != quiet
              && (m.Some? ==> inp.signature != ticks[m.value].inp.signature
                              && inp.now - WholeSecond(ticks[m.value].inp.now) >= COOLDOWN)
  {
    RemembersLast(hs, content, quiet, states, ticks, i);
    hide Cycle, Delivers, LastDelivery;
  }

  /** What a cycle that saves leaves as observed and as pending: the signature it met, and as pending that
      signature if the cooldown holds it back.  A due alert clears it only by being delivered. */
  lemma SavedAlert(hs: Hashes, content: string -> Digest, quiet: nat, states: seq<CuratorState>, ticks: seq<Tick>,
                   i: nat)
    requires IsRun(hs, content, quiet, states, ticks) && NeverEmpty(hs) && i < |ticks|
    ensures var s, t, inp := states[i], states[i + 1], ticks[i].inp;
            if inp.stop == BeforeSave then t.alert == s.alert
            else
              && t.alert.observed == Some(inp.signature)
              && t.alert.pending
                 == if Due(quiet, inp.signature, s.alert, inp.now) then
                      if Delivers(hs, content, quiet, states, ticks, i) then None else s.alert.pending
                    else if inp.signature == quiet || s.alert.sent == Some(inp.signature) then None
                    else Some(inp.signature)
  {
    hide NeverEmpty, Produced, Merge, Selected;
    RunKeepsInv(hs, content, quiet, states, ticks, i);
    assert IsStep(hs, content, quiet, states[i], ticks[i], states[i + 1]);
    MergesAll(hs, content, ticks[i].img, states[i], ticks[i].inp);
  }

  // ----- What the owner is told -----

  /** The owner is told all pending and new events at once, each with its payload and nothing else; a cycle
      that comes to its end after that has no event left, and one that told nothing keeps them all. */
  lemma TellsAll(hs: Hashes, content: string -> Digest, quiet: nat, img: Image, s: CuratorState, inp: Input)
    requires WellFormed(inp) && Inv(s) && NeverEmpty(hs)
    ensures var out, es := Cycle(hs, content, quiet, img, s, inp), Produced(hs, content, img, s, inp);
            && (out.told.Some? ==> Unites(s.pending, es, out.told.value))
            && (if inp.stop == BeforeSave then out.saved.pending == s.pending
                else if out.told.Some? && inp.stop == Never then out.saved.pending == map[]
                else Unites(s.pending, es, out.saved.pending))
  {
    hide Produced, Merge, Unites, DecideAlert, NextAlert, Inv, NeverEmpty, Selected;
    MergesAll(hs, content, img, s, inp);
    NothingUnited(s.pending, Produced(hs, content, img, s, inp));
  }

  lemma NothingUnited(pending: map<EventKey, Event>, es: seq<Keyed>)
    ensures Unites(pending, es, map[]) ==> pending == map[] && es == []
  {
    if Unites(pending, es, map[]) { UnitesNothing(pending, es, map[]); }
  }

  /** Cycle `i` told event `e` and came to its end. */
  predicate ToldIn(hs: Hashes, content: string -> Digest, quiet: nat, states: seq<CuratorState>, ticks: seq<Tick>,
                   i: nat, e: EventKey)
    requires i < |ticks| && |states| == |ticks| + 1
  {
    var told := Cycle(hs, content, quiet, ticks[i].img, states[i], ticks[i].inp).told;
    ticks[i].inp.stop == Never && told.Some? && e in told.value
  }

  /** After it was told, an event is reached and no longer pending, and stays so. */
  lemma {:induction false} StaysTold(hs: Hashes, content: string -> Digest, quiet: nat, states: seq<CuratorState>,
                                     ticks: seq<Tick>, i: nat, j: nat, e: EventKey)
    requires IsRun(hs, content, quiet, states, ticks) && NeverEmpty(hs) && i < j <= |ticks|
    requires ToldIn(hs, content, quiet, states, ticks, i, e)
    ensures e !in states[j].pending && Told(states[j].promotions, e)
    decreases j
  {
    hide Cycle, NeverEmpty, Produced, Inv, Selected;
    var s, t := states[j - 1], ticks[j - 1];
    RunKeepsInv(hs, content, quiet, states, ticks, j - 1);
    assert IsStep(hs, content, quiet, s, t, states[j]);
    TellsAll(hs, content, quiet, t.img, s, t.inp);
    if i < j - 1 {
      StaysTold(hs, content, quiet, states, ticks, i, j - 1, e);
      StatusSteps(hs, content, quiet, states, ticks, j - 1, e.promotion);
      NotProduced(hs, content, t.img, s, t.inp, e);
    } else {
      ToldIsReached(hs, content, quiet, states, ticks, i, e);
    }
  }

  lemma NotProduced(hs: Hashes, content: string -> Digest, img: Image, s: CuratorState, inp: Input, e: EventKey)
    requires WellFormed(inp) && Inv(s) && NeverEmpty(hs) && Told(s.promotions, e)
    ensures !Brings(Produced(hs, content, img, s, inp), e)
  {
    ProducedOnce(hs, content, img, s, inp);
    hide Produced, NeverEmpty;
  }

  lemma ToldIsReached(hs: Hashes, content: string -> Digest, quiet: nat, states: seq<CuratorState>, ticks: seq<Tick>,
                      i: nat, e: EventKey)
    requires IsRun(hs, content, quiet, states, ticks) && NeverEmpty(hs) && i < |ticks|
    requires ToldIn(hs, content, quiet, states, ticks, i, e)
    ensures Told(states[i + 1].promotions, e)
  {
    var s, t := states[i], ticks[i];
    RunKeepsInv(hs, content, quiet, states, ticks, i);
    assert IsStep(hs, content, quiet, s, t, states[i + 1]);
    TellsAll(hs, content, quiet, t.img, s, t.inp);
    SavedRecords(hs, content, quiet, states, ticks, i);
    ProducedOnce(hs, content, t.img, s, t.inp);
    hide Cycle, NeverEmpty, Produced, Selected;
    if e in s.pending {
      StatusSteps(hs, content, quiet, states, ticks, i, e.promotion);
    }
  }

  /** Over every run, an event that a completed cycle told the owner is never told again. */
  lemma ToldOnce(hs: Hashes, content: string -> Digest, quiet: nat, states: seq<CuratorState>, ticks: seq<Tick>,
                 i: nat, j: nat, e: EventKey)
    requires IsRun(hs, content, quiet, states, ticks) && NeverEmpty(hs) && i < j < |ticks|
    requires ToldIn(hs, content, quiet, states, ticks, i, e)
    ensures var told := Cycle(hs, content, quiet, ticks[j].img, states[j], ticks[j].inp).told;
            told.Some? ==> e !in told.value
  {
    var s, t := states[j], ticks[j];
    RunKeepsInv(hs, content, quiet, states, ticks, j);
    assert IsStep(hs, content, quiet, s, t, states[j + 1]);
    StaysTold(hs, content, quiet, states, ticks, i, j, e);
    TellsAll(hs, content, quiet, t.img, s, t.inp);
    NotProduced(hs, content, t.img, s, t.inp, e);
    hide Cycle, Produced, NeverEmpty, Inv, ToldIn;
  }
}
