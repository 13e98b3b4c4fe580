/** The owner-DM busy queue: one pending slot and one overflow list per session, and events that are
    extended in place. */
module OwnerDmQueue {
  import opened Common

  /** An event as a value.  `None` receipts stand for a metadata key that is missing or not a list. */
  datatype Value = Value(isText: bool, isMedia: bool, text: string, ids: Option<seq<nat>>, members: Option<seq<nat>>,
                         media: seq<nat>)

  class Event {
    const isText: bool
    const isMedia: bool
    var text: string
    var ids: Option<seq<nat>>
    var members: Option<seq<nat>>
    var media: seq<nat>

    constructor (v: Value)
      ensures View() == v
    {
      isText, isMedia, text, ids, members, media := v.isText, v.isMedia, v.text, v.ids, v.members, v.media;
    }

    function View(): Value
      reads this
    {
      Value(isText, isMedia, text, ids, members, media)
    }
  }

  function AsList(receipts: Option<seq<nat>>): seq<nat> {
    if receipts.Some? then receipts.value else []
  }

  // ----- The bounded queue of one session, on values -----

  datatype Relatedness = MergeTail | Separate

  datatype RouteOutcome = MergedTail | Appended | RejectedOverCap

  function JoinText(tail: string, text: string): string {
    if |tail| > 0 then tail + "\n" + text else text
  }

  /** `_merged_receipts`. */
  function MergedReceipts(target: Option<seq<nat>>, source: Option<seq<nat>>): seq<nat> {
    AsList(target) + AsList(source)
  }

  function JoinMedia(tail: Value, e: Value): seq<nat> {
    if tail.isMedia && e.isMedia && |e.media| > 0 then tail.media + e.media else tail.media
  }

  /** The tail after a merge: joined text, concatenated receipts, and media when both sides can hold it. */
  function Merged(tail: Value, e: Value): Value {
    tail.(text := JoinText(tail.text, e.text),
          ids := Some(MergedReceipts(tail.ids, e.ids)),
          members := Some(MergedReceipts(tail.members, e.members)),
          media := JoinMedia(tail, e))
  }

  function OutcomeOf(q: seq<Value>, e: Value, related: Relatedness, cap: int): RouteOutcome {
    if related == MergeTail && |q| > 0 && q[|q| - 1].isText && e.isText then MergedTail
    else if |q| >= cap then RejectedOverCap
    else Appended
  }

  /** A bounded FIFO with a tail that may grow. */
  function Routed(q: seq<Value>, e: Value, related: Relatedness, cap: int): seq<Value> {
    match OutcomeOf(q, e, related, cap)
    case MergedTail => q[..|q| - 1] + [Merged(q[|q| - 1], e)]
    case RejectedOverCap => q
    case Appended => q + [e]
  }

  // ----- The queue in memory -----

  /** The commit of a merge: everything is computed before the tail changes. */
  method MergeInto(tail: Event, event: Event)
    modifies tail
    ensures tail.View() == Merged(old(tail.View()), old(event.View()))
  {
    hide JoinText, MergedReceipts;
    var mergedText := JoinText(tail.text, event.text);
    var mergedIds := MergedReceipts(tail.ids, event.ids);
    var mergedMembers := MergedReceipts(tail.members, event.members);
    var incoming := if event.isMedia then event.media else [];
    tail.text := mergedText;
    tail.ids := Some(mergedIds);
    tail.members := Some(mergedMembers);
    if |incoming| > 0 && tail.isMedia { tail.media := tail.media + incoming; }
  }

  /** The events hold exactly these values. */
  predicate Shows(es: seq<Event>, q: seq<Value>)
    reads es
  {
    |es| == |q| && forall i :: 0 <= i < |es| ==> es[i].View() == q[i]
  }

  predicate DistinctObjects(es: seq<Event>) {
    forall i, j :: 0 <= i < j < |es| ==> es[i] != es[j]
  }

  predicate AllAre(es: seq<Event>, event: Event) {
    forall i :: 0 <= i < |es| ==> es[i] == event
  }

  lemma {:induction false} FrontIsBack(event: Event, waiting: seq<Event>)
    ensures [event] + waiting == waiting + [event] <==> AllAre(waiting, event)
  {
    if |waiting| > 0 {
      var rest := waiting[1..];
      FrontIsBack(event, rest);
      assert waiting == [waiting[0]] + rest;
      if [event] + waiting == waiting + [event] {
        assert waiting[0] == ([event] + waiting)[0] == event;
        assert [event] + rest == waiting == ([event] + waiting)[1..] == (waiting + [event])[1..] == rest + [event];
      }
    }
  }

  class Queue {
    var slot: map<string, Event>
    var overflow: map<string, seq<Event>>

    constructor ()
      ensures slot == map[] && overflow == map[]
    {
      slot, overflow := map[], map[];
    }

    function Waiting(session: string): seq<Event>
      reads this
    {
      if session in overflow then overflow[session] else []
    }

    /** The events of one session, first to last. */
    function Fifo(session: string): seq<Event>
      reads this
    {
      (if session in slot then [slot[session]] else []) + Waiting(session)
    }

    /** The overflow is in use only behind a filled slot. */
    predicate SlotFirst(session: string)
      reads this
    {
      |Waiting(session)| > 0 ==> session in slot
    }

    function QueueDepth(session: string): (n: nat)
      reads this
      ensures n == |Fifo(session)|
    {
      (if session in slot then 1 else 0) + |Waiting(session)|
    }

    /** The last step of `route`: the slot when it is free, else the end of the overflow. */
    method Add(session: string, event: Event)
      modifies this`slot, this`overflow
      ensures forall i :: 0 <= i < |old(Fifo(session))| ==> old(Fifo(session))[i].View() == old(Fifo(session)[i].View())
      ensures Fifo(session) == if old(session in slot) then old(Fifo(session)) + [event]
              else [event] + old(Fifo(session))
      ensures old(SlotFirst(session)) ==> SlotFirst(session) && Fifo(session) == old(Fifo(session)) + [event]
      ensures Fifo(session) == old(Fifo(session)) + [event] <==>
                old(session in slot) || AllAre(old(Waiting(session)), event)
      ensures forall s: string :: s != session ==> Fifo(s) == old(Fifo(s)) && (old(SlotFirst(s)) ==> SlotFirst(s))
    {
      FrontIsBack(event, Waiting(session));
      if session in slot {
        overflow := overflow[session := Waiting(session) + [event]];
      } else {
        slot := slot[session := event];
      }
    }

    /** The first step of `route` for related events: extend the last queued event, if both carry text. */
    method TryMerge(session: string, event: Event) returns (merged: bool)
      modifies Fifo(session)
      ensures merged <==> |Fifo(session)| > 0 && Fifo(session)[|Fifo(session)| - 1].isText && event.isText
      ensures Fifo(session) == old(Fifo(session)) && slot == old(slot) && overflow == old(overflow)
      ensures forall s: string :: Fifo(s) == old(Fifo(s)) && SlotFirst(s) == old(SlotFirst(s))
      ensures merged ==>
                var tail := Fifo(session)[|Fifo(session)| - 1];
                tail.View() == Merged(old(tail.View()), old(event.View()))
      ensures var es := Fifo(session);
              forall i :: 0 <= i < |es| && !(merged && es[i] == es[|es| - 1]) ==> es[i].View() == old(es[i].View())
      ensures !merged ==> event.View() == old(event.View())
    {
      hide Merged;
      var queued := Waiting(session);
      if |queued| == 0 && session !in slot { return false; }
      var tail := if |queued| > 0 then queued[|queued| - 1] else slot[session];
      assert tail == Fifo(session)[|Fifo(session)| - 1];
      if !tail.isText || !event.isText { return false; }
      MergeInto(tail, event);
      return true;
    }

    /** `route`.  It merges into the last event, rejects, or adds the event.  The added event is last in
        line if and only if the slot was filled or no other event was waiting; otherwise it overtakes
        them.  Other sessions keep their events. */
    method Route(session: string, event: Event, related: Relatedness, cap: int, ghost q: seq<Value>)
        returns (outcome: RouteOutcome)
      requires Shows(Fifo(session), q)
      modifies this`slot, this`overflow, Fifo(session)
      ensures outcome == OutcomeOf(q, old(event.View()), related, cap)
      ensures outcome != Appended ==> Fifo(session) == old(Fifo(session))
      ensures outcome == Appended ==>
                Fifo(session) == if old(session in slot) then old(Fifo(session)) + [event]
                    else [event] + old(Fifo(session))
      ensures outcome == Appended ==>
                (Fifo(session) == old(Fifo(session)) + [event] <==>
                   old(session in slot) || AllAre(old(Waiting(session)), event))
      ensures DistinctObjects(old(Fifo(session))) && old(SlotFirst(session)) ==>
                SlotFirst(session) && Shows(Fifo(session), Routed(q, old(event.View()), related, cap))
      ensures DistinctObjects(old(Fifo(session))) && event !in old(Fifo(session)) ==> DistinctObjects(Fifo(session))
      ensures forall s: string :: s != session ==> Fifo(s) == old(Fifo(s)) && (old(SlotFirst(s)) ==> SlotFirst(s))
    {
      hide Merged, Fifo, Waiting, SlotFirst;
      ghost var es := Fifo(session);
      if related == MergeTail {
        var merged := TryMerge(session, event);
        if merged {
          assert DistinctObjects(es) ==> forall i :: 0 <= i < |es| - 1 ==> es[i] != es[|es| - 1];
          return MergedTail;
        }
      }
      if QueueDepth(session) >= cap { return RejectedOverCap; }
      assert forall i :: 0 <= i < |es| ==> es[i].View() == q[i];
      Add(session, event);
      assert forall i :: 0 <= i < |es| ==> es[i].View() == q[i];
      return Appended;
    }

    /** `prepend`: always the new front. */
    method Prepend(session: string, event: Event)
      modifies this`slot, this`overflow
      ensures Fifo(session) == [event] + old(Fifo(session))
      ensures SlotFirst(session)
      ensures forall s: string :: s != session ==> Fifo(s) == old(Fifo(s)) && (old(SlotFirst(s)) ==> SlotFirst(s))
    {
      if session in slot {
        overflow := overflow[session := [slot[session]] + Waiting(session)];
      }
      slot := slot[session := event];
    }
  }

  // ----- Runs of route calls on one session -----

  datatype Arrival = Arrival(event: Value, related: Relatedness)

  function RouteAll(q: seq<Value>, arrivals: seq<Arrival>, cap: int): seq<Value>
    decreases |arrivals|
  {
    if |arrivals| == 0 then q
    else
      var n := |arrivals| - 1;
      Routed(RouteAll(q, arrivals[..n], cap), arrivals[n].event, arrivals[n].related, cap)
  }

  /** The arrivals that were merged or appended, in order. */
  function Accepted(q: seq<Value>, arrivals: seq<Arrival>, cap: int): seq<Value>
    decreases |arrivals|
  {
    if |arrivals| == 0 then []
    else
      var n := |arrivals| - 1;
      var last := arrivals[n];
      Accepted(q, arrivals[..n], cap)
      + (if OutcomeOf(RouteAll(q, arrivals[..n], cap), last.event, last.related, cap) == RejectedOverCap then []
         else [last.event])
  }

  /** The two receipt lists of an event, and its media. */
  datatype Field = ReceiptIds | ReceiptMembers | MediaUrls

  function Of(v: Value, field: Field): seq<nat> {
    match field
    case ReceiptIds => AsList(v.ids)
    case ReceiptMembers => AsList(v.members)
    case MediaUrls => v.media
  }

  /** The entries of a queue, first to last. */
  function Flat(q: seq<Value>, field: Field): seq<nat> {
    if |q| == 0 then [] else Flat(q[..|q| - 1], field) + Of(q[|q| - 1], field)
  }

  lemma FlatSnoc(q: seq<Value>, e: Value, field: Field)
    ensures Flat(q + [e], field) == Flat(q, field) + Of(e, field)
  {
    hide Of;
    assert (q + [e])[..|q|] == q;
  }

  /** One step adds the receipts of an accepted event at the end. */
  lemma RoutedReceipts(q: seq<Value>, e: Value, related: Relatedness, cap: int, field: Field)
    requires field != MediaUrls
    ensures Flat(Routed(q, e, related, cap), field) ==
            if OutcomeOf(q, e, related, cap) == RejectedOverCap then Flat(q, field) else Flat(q, field) + Of(e, field)
  {
    hide JoinText, JoinMedia, Flat;
    match OutcomeOf(q, e, related, cap) {
      case MergedTail =>
        var front, tail := q[..|q| - 1], q[|q| - 1];
        assert q == front + [tail];
        FlatSnoc(front, tail, field);
        FlatSnoc(front, Merged(tail, e), field);
        assert Of(Merged(tail, e), field) == Of(tail, field) + Of(e, field);
      case RejectedOverCap =>
      case Appended => FlatSnoc(q, e, field);
    }
  }

  /** Over any run of route calls, the receipts in the queue are those it had followed by those of the
      accepted events, in arrival order: merging, appending and rejecting lose and reorder nothing. */
  lemma {:induction false} ReceiptsInOrder(q: seq<Value>, arrivals: seq<Arrival>, cap: int, field: Field)
    requires field != MediaUrls
    ensures Flat(RouteAll(q, arrivals, cap), field) == Flat(q, field) + Flat(Accepted(q, arrivals, cap), field)
    decreases |arrivals|
  {
    assert Flat([], field) == [] && Flat(q, field) + [] == Flat(q, field);
    hide Routed, OutcomeOf, Of, Flat;
    if |arrivals| > 0 {
      var n := |arrivals| - 1;
      ReceiptsInOrder(q, arrivals[..n], cap, field);
      var last, before := arrivals[n], RouteAll(q, arrivals[..n], cap);
      var kept := Accepted(q, arrivals[..n], cap);
      RoutedReceipts(before, last.event, last.related, cap, field);
      if OutcomeOf(before, last.event, last.related, cap) == RejectedOverCap {
        assert Accepted(q, arrivals, cap) == kept;
      } else {
        assert Accepted(q, arrivals, cap) == kept + [last.event];
        FlatSnoc(kept, last.event, field);
        Associative(Flat(q, field), Flat(kept, field), Of(last.event, field));
      }
    }
  }

  lemma Associative<T>(a: seq<T>, b: seq<T>, c: seq<T>)
    ensures (a + b) + c == a + (b + c)
  {
  }

  /** The queue never grows past the cap, or past its first length if that was more. */
  lemma {:induction false} DepthIsBounded(q: seq<Value>, arrivals: seq<Arrival>, cap: int)
    ensures |q| <= |RouteAll(q, arrivals, cap)|
    ensures |RouteAll(q, arrivals, cap)| <= if |q| > cap then |q| else cap
    decreases |arrivals|
  {
    if |arrivals| > 0 { DepthIsBounded(q, arrivals[..|arrivals| - 1], cap); }
  }

  lemma RoutedIs(q: seq<Value>, e: Value, related: Relatedness, cap: int)
    ensures OutcomeOf(q, e, related, cap) == MergedTail ==>
              |q| > 0 && Routed(q, e, related, cap) == q[..|q| - 1] + [Merged(q[|q| - 1], e)]
    ensures OutcomeOf(q, e, related, cap) == Appended ==> Routed(q, e, related, cap) == q + [e]
  {
  }

  /** The media of an accepted event survive exactly unless they are merged into a tail without media. */
  lemma MediaKeptExactly(q: seq<Value>, e: Value, related: Relatedness, cap: int)
    requires OutcomeOf(q, e, related, cap) != RejectedOverCap && (e.isMedia || |e.media| == 0)
    ensures Flat(Routed(q, e, related, cap), MediaUrls) == Flat(q, MediaUrls) + e.media <==>
            !(OutcomeOf(q, e, related, cap) == MergedTail && |e.media| > 0 && |q| > 0 && !q[|q| - 1].isMedia)
  {
    hide Merged, Flat, Routed, OutcomeOf;
    RoutedIs(q, e, related, cap);
    if OutcomeOf(q, e, related, cap) == MergedTail {
      var front, tail := q[..|q| - 1], q[|q| - 1];
      assert q == front + [tail];
      MergedMedia(front, tail, e);
    } else {
      FlatSnoc(q, e, MediaUrls);
    }
  }

  lemma MergedMedia(front: seq<Value>, tail: Value, e: Value)
    requires e.isMedia || |e.media| == 0
    ensures Flat(front + [Merged(tail, e)], MediaUrls) == Flat(front + [tail], MediaUrls) + e.media <==>
            !(|e.media| > 0 && !tail.isMedia)
  {
    hide Flat, JoinText, MergedReceipts;
    FlatSnoc(front, tail, MediaUrls);
    FlatSnoc(front, Merged(tail, e), MediaUrls);
    var before := Flat(front, MediaUrls);
    Associative(before, tail.media, e.media);
    assert |e.media| == 0 ==> tail.media + e.media == tail.media;
    assert |before + tail.media + e.media| == |before| + |tail.media| + |e.media|;
  }

  // ----- What is routed where -----

  predicate CanMerge(q: seq<Value>, e: Value, related: Relatedness) {
    related == MergeTail && |q| > 0 && q[|q| - 1].isText && e.isText
  }

  /** A related text is merged into a last event that holds text, whatever the depth; anything else is
      rejected exactly at the cap. */
  lemma RoutedExactly(q: seq<Value>, e: Value, related: Relatedness, cap: int)
    ensures OutcomeOf(q, e, related, cap) == MergedTail <==> CanMerge(q, e, related)
    ensures OutcomeOf(q, e, related, cap) == RejectedOverCap <==> !CanMerge(q, e, related) && |q| >= cap
    ensures OutcomeOf(q, e, related, cap) == Appended <==> !CanMerge(q, e, related) && |q| < cap
  {
  }

  // ----- The texts in the queue -----

  /** The texts that a run gathered for each queued event: those of the first queue stand alone, an
      appended event opens a group and a merged one joins the last. */
  function Groups(q: seq<Value>, arrivals: seq<Arrival>, cap: int): seq<seq<string>>
    decreases |arrivals|
  {
    if |arrivals| == 0 then Alone(q)
    else
      var n := |arrivals| - 1;
      var last, groups := arrivals[n], Groups(q, arrivals[..n], cap);
      match OutcomeOf(RouteAll(q, arrivals[..n], cap), last.event, last.related, cap)
      case MergedTail =>
        if groups == [] then [] else groups[..|groups| - 1] + [groups[|groups| - 1] + [last.event.text]]
      case RejectedOverCap => groups
      case Appended => groups + [[last.event.text]]
  }

  function Alone(q: seq<Value>): (groups: seq<seq<string>>)
    ensures |groups| == |q| && forall i :: 0 <= i < |q| ==> groups[i] == [q[i].text]
  {
    if |q| == 0 then [] else [[q[0].text]] + Alone(q[1..])
  }

  /** The texts on one line each; empty texts before the first other one leave no line. */
  function Lines(texts: seq<string>): string {
    if |texts| == 0 then "" else if texts[0] == "" then Lines(texts[1..]) else texts[0] + Below(texts[1..])
  }

  /** Each text on a line of its own. */
  function Below(texts: seq<string>): string {
    if |texts| == 0 then "" else "\n" + texts[0] + Below(texts[1..])
  }

  lemma {:induction false} BelowSnoc(texts: seq<string>, text: string)
    ensures Below(texts + [text]) == Below(texts) + "\n" + text
  {
    if |texts| == 0 {
      assert Below([text]) == "\n" + text + Below([text][1..]);
      assert [text][1..] == [] && texts + [text] == [text];
    } else {
      BelowSnoc(texts[1..], text);
      assert (texts + [text])[1..] == texts[1..] + [text];
    }
  }

  lemma {:induction false} LinesSnoc(texts: seq<string>, text: string)
    ensures Lines(texts + [text]) == JoinText(Lines(texts), text)
  {
    if |texts| == 0 {
      assert texts + [text] == [text] && [text][1..] == [];
      assert Lines([text]) == if text == "" then Lines([text][1..]) else text + Below([text][1..]);
    } else {
      var longer := texts + [text];
      assert longer[1..] == texts[1..] + [text] && longer[0] == texts[0];
      if texts[0] == "" {
        LinesSnoc(texts[1..], text);
      } else {
        BelowSnoc(texts[1..], text);
        assert Lines(longer) == texts[0] + Below(longer[1..]);
      }
    }
  }

  ghost predicate TextsAre(q: seq<Value>, groups: seq<seq<string>>) {
    |groups| == |q| && forall i :: 0 <= i < |q| ==> q[i].text == Lines(groups[i])
  }

  lemma AloneIs(q: seq<Value>)
    ensures TextsAre(q, Alone(q))
  {
    forall i | 0 <= i < |q| ensures q[i].text == Lines(Alone(q)[i]) {
      var t := [q[i].text];
      assert t[1..] == [];
      assert Lines(t) == if t[0] == "" then Lines(t[1..]) else t[0] + Below(t[1..]);
    }
  }

  lemma MergeGroup(q: seq<Value>, groups: seq<seq<string>>, e: Value)
    requires TextsAre(q, groups) && |q| > 0
    ensures TextsAre(q[..|q| - 1] + [Merged(q[|q| - 1], e)],
                     groups[..|groups| - 1] + [groups[|groups| - 1] + [e.text]])
  {
    hide Lines, JoinText, JoinMedia, MergedReceipts;
    LinesSnoc(groups[|groups| - 1], e.text);
  }

  lemma AppendGroup(q: seq<Value>, groups: seq<seq<string>>, e: Value)
    requires TextsAre(q, groups)
    ensures TextsAre(q + [e], groups + [[e.text]])
  {
    AloneIs([e]);
    assert Alone([e])[0] == [e.text] && [e][0] == e;
    hide Lines, Alone;
  }

  /** Over any run, each queued event's text is the texts gathered for it, in the order of their arrival,
      each on its own line. */
  lemma {:induction false} TextsAreGathered(q: seq<Value>, arrivals: seq<Arrival>, cap: int)
    ensures TextsAre(RouteAll(q, arrivals, cap), Groups(q, arrivals, cap))
    decreases |arrivals|
  {
    hide TextsAre, Merged, OutcomeOf;
    if |arrivals| == 0 {
      AloneIs(q);
    } else {
      var n := |arrivals| - 1;
      var last, before, groups := arrivals[n], RouteAll(q, arrivals[..n], cap), Groups(q, arrivals[..n], cap);
      TextsAreGathered(q, arrivals[..n], cap);
      SameSize(before, groups);
      RoutedIs(before, last.event, last.related, cap);
      match OutcomeOf(before, last.event, last.related, cap) {
        case MergedTail => MergeGroup(before, groups, last.event);
        case RejectedOverCap => RejectedIs(before, last.event, last.related, cap);
        case Appended => AppendGroup(before, groups, last.event);
      }
    }
  }

  lemma SameSize(q: seq<Value>, groups: seq<seq<string>>)
    requires TextsAre(q, groups)
    ensures |groups| == |q|
  {
  }

  lemma RejectedIs(q: seq<Value>, e: Value, related: Relatedness, cap: int)
    ensures OutcomeOf(q, e, related, cap) == RejectedOverCap ==> Routed(q, e, related, cap) == q
  {
  }

  function Joined(groups: seq<seq<string>>): seq<string> {
    if |groups| == 0 then [] else Joined(groups[..|groups| - 1]) + groups[|groups| - 1]
  }

  function TextsOf(q: seq<Value>): seq<string> {
    if |q| == 0 then [] else TextsOf(q[..|q| - 1]) + [q[|q| - 1].text]
  }

  lemma JoinedSnoc(groups: seq<seq<string>>, g: seq<string>)
    ensures Joined(groups + [g]) == Joined(groups) + g
  {
    assert (groups + [g])[..|groups|] == groups;
  }

  lemma {:induction false} JoinedAlone(q: seq<Value>)
    ensures Joined(Alone(q)) == TextsOf(q)
  {
    if |q| > 0 {
      var n := |q| - 1;
      JoinedAlone(q[..n]);
      assert Alone(q) == Alone(q[..n]) + [[q[n].text]];
      JoinedSnoc(Alone(q[..n]), [q[n].text]);
    }
  }

  lemma TextsSnoc(q: seq<Value>, e: Value)
    ensures TextsOf(q + [e]) == TextsOf(q) + [e.text]
  {
    assert (q + [e])[..|q|] == q;
  }

  /** The groups hold the texts of the first queue and of all accepted events, in arrival order. */
  lemma {:induction false} GroupsInOrder(q: seq<Value>, arrivals: seq<Arrival>, cap: int)
    ensures Joined(Groups(q, arrivals, cap)) == TextsOf(q) + TextsOf(Accepted(q, arrivals, cap))
    decreases |arrivals|
  {
    if |arrivals| == 0 {
      JoinedAlone(q);
    } else {
      var n := |arrivals| - 1;
      var last, before, groups := arrivals[n], RouteAll(q, arrivals[..n], cap), Groups(q, arrivals[..n], cap);
      var kept := Accepted(q, arrivals[..n], cap);
      GroupsInOrder(q, arrivals[..n], cap);
      TextsAreGathered(q, arrivals[..n], cap);
      SameSize(before, groups);
      RoutedIs(before, last.event, last.related, cap);
      hide RouteAll, OutcomeOf, Routed, Joined, TextsOf;
      match OutcomeOf(before, last.event, last.related, cap) {
        case MergedTail =>
          var front, g := groups[..|groups| - 1], groups[|groups| - 1];
          assert groups == front + [g];
          JoinedSnoc(front, g);
          JoinedSnoc(front, g + [last.event.text]);
          Associative(Joined(front), g, [last.event.text]);
          TextsSnoc(kept, last.event);
          Associative(TextsOf(q), TextsOf(kept), [last.event.text]);
        case RejectedOverCap => assert Accepted(q, arrivals, cap) == kept;
        case Appended =>
          JoinedSnoc(groups, [last.event.text]);
          TextsSnoc(kept, last.event);
          Associative(TextsOf(q), TextsOf(kept), [last.event.text]);
      }
    }
  }
}
