/** The guarded external write: one claim per idempotency key, one connector call, and a phase machine
    that ends only in what the connector's readback proves.

    The resolver, the connector and the audit log answer through `Call`. */
module GuardedWrite {
  import opened Common

  type Key = string

  // ----- The phase machine -----

  datatype Phase =
    | Preflighted | AwaitingClarify | ReadyToWrite | WriteInProgress | WriteSucceeded | WriteFailed
    | Verifying | Verified | VerificationFailed | Cancelled

  datatype Outcome = Match | Mismatch | NotFound | Error

  datatype DecisionKind = NotDetected | Detected

  datatype WriteState = WriteState(phase: Phase, resource: Option<string>, failure: Option<string>,
                                   verification: Option<Outcome>)

  function Allowed(p: Phase): set<Phase> {
    match p
    case Preflighted => {AwaitingClarify, ReadyToWrite}
    case AwaitingClarify => {ReadyToWrite, Cancelled}
    case ReadyToWrite => {WriteInProgress}
    case WriteInProgress => {WriteSucceeded, WriteFailed}
    case WriteSucceeded => {Verifying}
    case Verifying => {Verified, VerificationFailed}
    case _ => {}
  }

  function InitialState(kind: DecisionKind, needsConfirmation: bool): WriteState {
    WriteState(if kind == NotDetected then ReadyToWrite else if needsConfirmation then AwaitingClarify
               else ReadyToWrite, None, None, None)
  }

  predicate Given(s: Option<string>) {
    s.Some? && |s.value| > 0
  }

  /** `transition`; `None` stands for the raised `ValueError`. */
  function Transition(s: WriteState, phase: Phase, resource: Option<string>, failure: Option<string>,
                      verification: Option<Outcome>): Option<WriteState> {
    if phase !in Allowed(s.phase) then None
    else if phase == WriteSucceeded && !Given(resource) then None
    else if phase in {WriteFailed, VerificationFailed} && !Given(failure) then None
    else if phase in {Verified, VerificationFailed}
            && (verification.None? || phase != if verification.value == Match then Verified else VerificationFailed)
                then None
    else Some(WriteState(phase, if resource.Some? then resource else s.resource, failure, verification))
  }

  /** Arguments of one transition. */
  datatype Step = Step(phase: Phase, resource: Option<string>, failure: Option<string>, verification: Option<Outcome>)

  function Path(s: WriteState, steps: seq<Step>): Option<WriteState>
    decreases |steps|
  {
    if |steps| == 0 then Some(s)
    else
      match Path(s, steps[..|steps| - 1])
      case None => None
      case Some(t) =>
        var last := steps[|steps| - 1];
        Transition(t, last.phase, last.resource, last.failure, last.verification)
  }

  /** How many transitions a phase can still be followed by. */
  function Remaining(p: Phase): nat {
    match p
    case Preflighted => 6
    case AwaitingClarify => 5
    case ReadyToWrite => 4
    case WriteInProgress => 3
    case WriteSucceeded => 2
    case Verifying => 1
    case _ => 0
  }

  predicate Proven(s: WriteState) {
    && (s.phase == Verified ==> s.verification == Some(Match))
    && (s.phase == VerificationFailed ==> s.verification.Some? && s.verification != Some(Match) && Given(s.failure))
    && (s.phase == WriteFailed ==> Given(s.failure))
  }

  /** Every path of the machine is short, and its ends carry the evidence they claim. */
  lemma {:induction false} PathsEndProven(s: WriteState, steps: seq<Step>)
    requires Path(s, steps).Some? && Proven(s)
    ensures Proven(Path(s, steps).value)
    ensures |steps| + Remaining(Path(s, steps).value.phase) <= Remaining(s.phase)
    decreases |steps|
  {
    if |steps| > 0 { PathsEndProven(s, steps[..|steps| - 1]); }
  }

  /** The last id that a step passes, or the first one if none does. */
  function LastId(id: Option<string>, steps: seq<Step>): Option<string>
    decreases |steps|
  {
    if |steps| == 0 then id
    else
      var last := steps[|steps| - 1].resource;
      if last.Some? then last else LastId(id, steps[..|steps| - 1])
  }

  /** Along every path the state holds the id that was passed last. */
  lemma {:induction false} ResourceIdIsLast(s: WriteState, steps: seq<Step>)
    requires Path(s, steps).Some?
    ensures Path(s, steps).value.resource == LastId(s.resource, steps)
    decreases |steps|
  {
    if |steps| > 0 { ResourceIdIsLast(s, steps[..|steps| - 1]); }
  }

  /** No step from position `start` on passes an id. */
  predicate NonePasses(steps: seq<Step>, start: nat) {
    forall i :: start <= i < |steps| ==> steps[i].resource.None?
  }

  /** Some step passes `id`, and no later step passes one. */
  predicate LastPasses(steps: seq<Step>, id: string) {
    exists i :: 0 <= i < |steps| && steps[i].resource == Some(id) && NonePasses(steps, i + 1)
  }

  lemma {:induction false} LastIdExactly(id: Option<string>, steps: seq<Step>, r: Option<string>)
    ensures LastId(id, steps) == r <==>
              (NonePasses(steps, 0) && id == r) || (r.Some? && LastPasses(steps, r.value))
    decreases |steps|
  {
    if |steps| > 0 {
      var n := |steps| - 1;
      var last := steps[n].resource;
      if last.Some? {
        assert NonePasses(steps, n + 1);
      } else {
        LastIdExactly(id, steps[..n], r);
        FrontPasses(steps, r);
      }
    }
  }

  lemma FrontPasses(steps: seq<Step>, r: Option<string>)
    requires |steps| > 0 && steps[|steps| - 1].resource.None?
    ensures NonePasses(steps, 0) <==> NonePasses(steps[..|steps| - 1], 0)
    ensures r.Some? ==> (LastPasses(steps, r.value) <==> LastPasses(steps[..|steps| - 1], r.value))
  {
    var n := |steps| - 1;
    var front := steps[..n];
    assert forall i :: 0 <= i < n ==> front[i] == steps[i];
    assert forall j: nat :: NonePasses(steps, j) <==> NonePasses(front, j);
    if r.Some? && LastPasses(steps, r.value) {
      var i :| 0 <= i < |steps| && steps[i].resource == r && NonePasses(steps, i + 1);
      assert front[i].resource == r;
    }
    if r.Some? && LastPasses(front, r.value) {
      var i :| 0 <= i < n && front[i].resource == r && NonePasses(front, i + 1);
      assert steps[i].resource == r;
    }
  }

  /** What becomes of the id of a successful write along a path: it is kept if and only if no later step
      passes an id, or the last one passed is the same; it is blank if and only if the last one passed is
      empty. */
  lemma ResourceIdKept(s: WriteState, steps: seq<Step>)
    requires Path(s, steps).Some? && Given(s.resource)
    ensures Path(s, steps).value.resource == s.resource <==>
              NonePasses(steps, 0) || LastPasses(steps, s.resource.value)
    ensures !Given(Path(s, steps).value.resource) <==> LastPasses(steps, "")
  {
    var id := Path(s, steps).value.resource;
    ResourceIdIsLast(s, steps);
    LastIdExactly(s.resource, steps, s.resource);
    LastIdExactly(s.resource, steps, Some(""));
    LastIdExactly(s.resource, steps, None);
  }

  // ----- One guarded write -----

  datatype Resolution = ResolverFails | Decided(kind: DecisionKind, needsConfirmation: bool)

  /** The connector's answer to a write: a receipt, or it raised after it was called. */
  datatype Connector = ConnectorRaises | Receipt(resource: string)

  datatype Readback = ReadbackRaises | ReadAs(outcome: Outcome)

  /** One request with everything that answers it. */
  datatype Call = Call(key: Key, payload: nat, resolution: Resolution, audited: bool, connector: Connector,
                       readback: Readback, closed: bool)

  datatype WriteResult = Written(payload: nat, resource: string, outcome: Outcome, state: WriteState, replayed: bool)

  datatype Stored = Done(result: WriteResult) | ClarificationRecorded | FailureRecorded(code: string) | InProgress

  datatype Result =
    | Returned(result: WriteResult)
    | ClarificationRequired(shouldRender: bool)
    | Unavailable(code: string)
    | VerificationFailure(outcome: Outcome)
    | Broken   // an exception of the audit log, the connector or the phase machine

  const RESOLVER_UNAVAILABLE := "resolver_unavailable"

  /** `_replay`. */
  function Replay(previous: Stored): Result {
    match previous
    case Done(result) => Returned(result.(replayed := true))
    case ClarificationRecorded => ClarificationRequired(false)
    case FailureRecorded(code) => Unavailable(code)
    case InProgress => Unavailable("request_in_progress")
  }

  /** Whether the call gets as far as the connector. */
  predicate Reaches(records: map<Key, Stored>, c: Call) {
    c.key !in records && c.resolution.Decided? && c.audited && !c.resolution.needsConfirmation
  }

  /** What a call that reaches the connector stores and answers. */
  function Finished(c: Call): (Stored, Result) {
    match c.connector
    case ConnectorRaises => (InProgress, Broken)
    case Receipt(resource) =>
      if |resource| == 0 then (InProgress, Broken)
      else match c.readback
        case ReadbackRaises => (InProgress, Broken)
        case ReadAs(outcome) =>
          if !c.closed then (InProgress, Broken)
          else if outcome != Match then (FailureRecorded("verification"), VerificationFailure(outcome))
          else
            var written :=
                Written(c.payload, resource, Match, WriteState(Verified, Some(resource), None, Some(Match)), false);
            (Done(written), Returned(written))
  }

  /** The store, the connector calls and the answer of one `guarded_write`. */
  function Guarded(records: map<Key, Stored>, c: Call): (map<Key, Stored>, Result) {
    if c.key in records then (records, Replay(records[c.key]))
    else if c.resolution.ResolverFails? then
      if c.audited then (records[c.key := FailureRecorded(RESOLVER_UNAVAILABLE)], Unavailable(RESOLVER_UNAVAILABLE))
      else (records[c.key := InProgress], Broken)
    else if !c.audited then (records[c.key := InProgress], Broken)
    else if c.resolution.needsConfirmation then (records[c.key := ClarificationRecorded], ClarificationRequired(true))
    else (records[c.key := Finished(c).0], Finished(c).1)
  }

  class InMemoryIdempotencyStore {
    var records: map<Key, Stored>

    constructor ()
      ensures records == map[]
    {
      records := map[];
    }

    method Claim(key: Key) returns (previous: Option<Stored>)
      modifies this
      ensures previous == if key in old(records) then Some(old(records)[key]) else None
      ensures records == if key in old(records) then old(records) else old(records)[key := InProgress]
    {
      if key in records { return Some(records[key]); }
      records := records[key := InProgress];
      return None;
    }

    method Store(key: Key, result: Stored)
      modifies this
      ensures records == old(records)[key := result]
    {
      records := records[key := result];
    }
  }

  /** An external system that counts what it is asked to write. */
  class Adapter {
    var writes: seq<(Key, nat)>

    constructor ()
      ensures writes == []
    {
      writes := [];
    }

    /** The write is asked for even when the connector raises. */
    method Write(key: Key, payload: nat, answer: Connector) returns (receipt: Option<string>)
      modifies this
      ensures writes == old(writes) + [(key, payload)]
      ensures receipt == if answer.Receipt? then Some(answer.resource) else None
    {
      writes := writes + [(key, payload)];
      return if answer.Receipt? then Some(answer.resource) else None;
    }
  }

  /** The half of `guarded_write` from the connector on; the claim is already stored. */
  method WriteAndVerify(c: Call, store: InMemoryIdempotencyStore, adapter: Adapter) returns (result: Result)
    requires c.resolution.Decided? && !c.resolution.needsConfirmation
    requires c.key in store.records && store.records[c.key] == InProgress
    modifies store, adapter
    ensures store.records == old(store.records)[c.key := Finished(c).0] && result == Finished(c).1
    ensures adapter.writes == old(adapter.writes) + [(c.key, c.payload)]
  {
    var started := Transition(InitialState(c.resolution.kind, c.resolution.needsConfirmation), WriteInProgress, None,
                              None, None);
    if started.None? { return Broken; }
    var receipt := adapter.Write(c.key, c.payload, c.connector);
    if receipt.None? { return Broken; }
    var succeeded := Transition(started.value, WriteSucceeded, receipt, None, None);
    if succeeded.None? { return Broken; }
    var verifying := Transition(succeeded.value, Verifying, None, None, None);
    if verifying.None? || c.readback.ReadbackRaises? { return Broken; }
    var outcome := c.readback.outcome;
    if outcome != Match {
      var failed := Transition(verifying.value, VerificationFailed, None, Some("verification_failed"), Some(outcome));
      if failed.None? || !c.closed { return Broken; }
      store.Store(c.key, FailureRecorded("verification"));
      return VerificationFailure(outcome);
    }
    var verified := Transition(verifying.value, Verified, None, None, Some(outcome));
    if verified.None? || !c.closed { return Broken; }
    var written := Written(c.payload, receipt.value, outcome, verified.value, false);
    store.Store(c.key, Done(written));
    return Returned(written);
  }

  /** `guarded_write`. */
  method GuardedWriteCall(c: Call, store: InMemoryIdempotencyStore, adapter: Adapter) returns (result: Result)
    modifies store, adapter
    ensures store.records == Guarded(old(store.records), c).0 && result == Guarded(old(store.records), c).1
    ensures adapter.writes == old(adapter.writes) + if Reaches(old(store.records), c) then [(c.key, c.payload)] else []
  {
    var previous := store.Claim(c.key);
    if previous.Some? { return Replay(previous.value); }
    if c.resolution.ResolverFails? {
      if !c.audited { return Broken; }
      store.Store(c.key, FailureRecorded(RESOLVER_UNAVAILABLE));
      return Unavailable(RESOLVER_UNAVAILABLE);
    }
    if !c.audited { return Broken; }
    if c.resolution.needsConfirmation {
      store.Store(c.key, ClarificationRecorded);
      return ClarificationRequired(true);
    }
    result := WriteAndVerify(c, store, adapter);
  }

  // ----- Runs of calls that share one store -----

  function Records(calls: seq<Call>): map<Key, Stored>
    decreases |calls|
  {
    if |calls| == 0 then map[] else Guarded(Records(calls[..|calls| - 1]), calls[|calls| - 1]).0
  }

  /** Every connector call of the run, in order. */
  function Writes(calls: seq<Call>): seq<(Key, nat)>
    decreases |calls|
  {
    if |calls| == 0 then []
    else
      var n := |calls| - 1;
      Writes(calls[..n]) + if Reaches(Records(calls[..n]), calls[n]) then [(calls[n].key, calls[n].payload)] else []
  }

  function Answer(calls: seq<Call>, i: nat): Result
    requires i < |calls|
  {
    Guarded(Records(calls[..i]), calls[i]).1
  }

  /** The connector is asked to write at most once per key, even when it raises. */
  lemma {:induction false} WrittenAtMostOnce(calls: seq<Call>)
    ensures forall i, j :: 0 <= i < j < |Writes(calls)| ==> Writes(calls)[i].0 != Writes(calls)[j].0
    ensures forall i :: 0 <= i < |Writes(calls)| ==> Writes(calls)[i].0 in Records(calls)
    decreases |calls|
  {
    hide Finished;
    if |calls| > 0 { WrittenAtMostOnce(calls[..|calls| - 1]); }
  }

  /** A stored result belongs to one earlier call of the same key that wrote it and read it back equal. */
  ghost predicate Backed(calls: seq<Call>, key: Key, r: WriteResult) {
    && !r.replayed && r.outcome == Match && r.state.phase == Verified && r.state.resource == Some(r.resource)
    && |r.resource| > 0
    && (key, r.payload) in Writes(calls)
    && exists i :: 0 <= i < |calls| && calls[i].key == key && Answer(calls, i) == Returned(r)
  }

  /** One call stores at most its own key, and never over an entry. */
  lemma GuardedFrame(records: map<Key, Stored>, c: Call, key: Key)
    ensures var after := Guarded(records, c).0;
            && (key in records ==> key in after && after[key] == records[key])
            && (key in after && key !in records ==> key == c.key)
  {
    hide Finished;
  }

  /** A call that stores a result made the write, read it back equal and returned it. */
  lemma FirstResult(records: map<Key, Stored>, c: Call)
    requires c.key !in records && Guarded(records, c).0[c.key].Done?
    ensures var r := Guarded(records, c).0[c.key].result;
            && Reaches(records, c) && Guarded(records, c).1 == Returned(r)
            && !r.replayed && r.outcome == Match && r.state.phase == Verified && r.state.resource == Some(r.resource)
            && |r.resource| > 0
            && r.payload == c.payload
  {
  }

  lemma {:induction false} StoredIsBacked(calls: seq<Call>, key: Key)
    requires key in Records(calls) && Records(calls)[key].Done?
    ensures Backed(calls, key, Records(calls)[key].result)
    decreases |calls|
  {
    hide Guarded, Reaches;
    var n := |calls| - 1;
    var front := calls[..n];
    var r := Records(calls)[key].result;
    GuardedFrame(Records(front), calls[n], key);
    if key in Records(front) {
      StoredIsBacked(front, key);
      var i :| 0 <= i < n && front[i].key == key && Answer(front, i) == Returned(r);
      assert front[..i] == calls[..i] && calls[i].key == key;
      assert Answer(calls, i) == Returned(r);
    } else {
      FirstResult(Records(front), calls[n]);
      assert calls[n].key == key && Answer(calls, n) == Returned(r);
      assert Writes(calls) == Writes(front) + [(key, calls[n].payload)];
    }
  }

  /** Every returned result is, up to the replay mark, the one result that an earlier or this call of the
      key wrote once and read back equal. */
  lemma ReturnedIsOneWrite(calls: seq<Call>, i: nat)
    requires i < |calls| && Answer(calls, i).Returned?
    ensures var r := Answer(calls, i).result.(replayed := false);
            Backed(calls[..i + 1], calls[i].key, r)
            && (Answer(calls, i).result.replayed <==> calls[i].key in Records(calls[..i]))
  {
    var upTo := calls[..i + 1];
    assert upTo[..i] == calls[..i] && upTo[i] == calls[i];
    StoredIsBacked(upTo, calls[i].key);
    if calls[i].key in Records(calls[..i]) { StoredIsBacked(calls[..i], calls[i].key); }
  }

  /** A first call of a key breaks the phase machine exactly when the connector returns an empty id. */
  lemma BreaksExactlyOnEmptyId(records: map<Key, Stored>, c: Call)
    requires Reaches(records, c) && c.connector.Receipt? && c.readback.ReadAs? && c.closed
    ensures Guarded(records, c).1 == Broken <==> |c.connector.resource| == 0
    ensures Guarded(records, c).1 == Broken ==> Guarded(records, c).0[c.key] == InProgress
  {
  }

  /** Once a key has an entry, every later call of it answers from that entry and stores nothing. */
  lemma {:induction false} FirstCallDecides(calls: seq<Call>, more: seq<Call>, key: Key)
    requires key in Records(calls)
    ensures key in Records(calls + more) && Records(calls + more)[key] == Records(calls)[key]
    decreases |more|
  {
    if |more| == 0 {
      assert calls + more == calls;
    } else {
      var n := |more| - 1;
      FirstCallDecides(calls, more[..n], key);
      assert (calls + more)[..|calls + more| - 1] == calls + more[..n];
    }
  }

  // ----- What the calls of a key answer -----

  /** Call `i` is the first of its key. */
  predicate IsFirst(calls: seq<Call>, i: nat)
    requires i < |calls|
  {
    forall k :: 0 <= k < i ==> calls[k].key != calls[i].key
  }

  lemma {:induction false} RecordedExactly(calls: seq<Call>, i: nat, key: Key)
    requires i <= |calls|
    ensures key in Records(calls[..i]) <==> exists k :: 0 <= k < i && calls[k].key == key
  {
    hide Finished;
    if i > 0 {
      RecordedExactly(calls, i - 1, key);
      assert calls[..i][..i - 1] == calls[..i - 1] && calls[..i][i - 1] == calls[i - 1];
    }
  }

  /** The owner is to be asked before anything is written. */
  predicate MustClarify(c: Call) {
    c.resolution.Decided? && c.resolution.needsConfirmation && c.audited
  }

  predicate CannotResolve(c: Call) {
    c.resolution.ResolverFails? && c.audited
  }

  /** The write went through and was read back with this outcome. */
  predicate ReadsBackAs(c: Call, outcome: Outcome) {
    && c.resolution.Decided? && !c.resolution.needsConfirmation && c.audited
    && c.connector.Receipt? && c.connector.resource != "" && c.readback == ReadAs(outcome) && c.closed
  }

  /** What the first call of a key answers: whether to ask, what failed, or the proven write; and an
      exception exactly when none of these was reached. */
  lemma FirstAnswers(calls: seq<Call>, i: nat)
    requires i < |calls| && IsFirst(calls, i)
    ensures var c, answer := calls[i], Answer(calls, i);
            && (answer == ClarificationRequired(true) <==> MustClarify(c))
            && (answer == Unavailable("resolver_unavailable") <==> CannotResolve(c))
            && (forall outcome ::
                  answer == VerificationFailure(outcome) <==> outcome != Match && ReadsBackAs(c, outcome))
            && (answer.Returned? <==> ReadsBackAs(c, Match))
            && (answer.Returned? ==> answer.result.payload == c.payload && !answer.result.replayed
                                     && c.connector.Receipt? && answer.result.resource == c.connector.resource)
            && (answer == Broken <==>
                  !MustClarify(c) && !CannotResolve(c) && forall outcome :: !ReadsBackAs(c, outcome))
  {
    RecordedExactly(calls, i, calls[i].key);
    FirstCases(Records(calls[..i]), calls[i]);
  }

  lemma FirstCases(records: map<Key, Stored>, c: Call)
    requires c.key !in records
    ensures var answer := Guarded(records, c).1;
            && (answer == ClarificationRequired(true) <==> MustClarify(c))
            && (answer == Unavailable("resolver_unavailable") <==> CannotResolve(c))
            && (forall outcome ::
                  answer == VerificationFailure(outcome) <==> outcome != Match && ReadsBackAs(c, outcome))
            && (answer.Returned? <==> ReadsBackAs(c, Match))
            && (answer.Returned? ==> answer.result.payload == c.payload && !answer.result.replayed
                                     && c.connector.Receipt? && answer.result.resource == c.connector.resource)
            && (answer == Broken <==>
                  !MustClarify(c) && !CannotResolve(c) && forall outcome :: !ReadsBackAs(c, outcome))
  {
    if ReachesReadback(c) { assert ReadsBackAs(c, c.readback.outcome); }
  }

  predicate ReachesReadback(c: Call) {
    && c.resolution.Decided? && !c.resolution.needsConfirmation && c.audited
    && c.connector.Receipt? && c.connector.resource != "" && c.readback.ReadAs? && c.closed
  }

  /** What a repeated call answers, told by the answer of the first one. */
  function Repeated(first: Result): Result {
    match first
    case Returned(result) => Returned(result.(replayed := true))
    case ClarificationRequired(shouldRender) => ClarificationRequired(false)
    case Unavailable(code) => Unavailable(code)
    case VerificationFailure(outcome) => Unavailable("verification")
    case Broken => Unavailable("request_in_progress")
  }

  lemma ReplayAnswers(records: map<Key, Stored>, c: Call)
    requires c.key !in records
    ensures var (after, answer) := Guarded(records, c);
            c.key in after && Replay(after[c.key]) == Repeated(answer)
  {
  }

  /** Every later call of a key repeats the answer of its first call: the same result marked as replayed, the
      clarification without rendering it again, the failure of the resolver, and otherwise that the
      verification failed or that the request is still in progress. */
  lemma LaterAnswers(calls: seq<Call>, i: nat, j: nat)
    requires i < j < |calls| && calls[i].key == calls[j].key && IsFirst(calls, i)
    ensures Answer(calls, j) == Repeated(Answer(calls, i))
  {
    var key := calls[i].key;
    RecordedExactly(calls, i, key);
    ReplayAnswers(Records(calls[..i]), calls[i]);
    assert calls[..i + 1][..i] == calls[..i] && calls[..i + 1][i] == calls[i];
    assert Records(calls[..i + 1]) == Guarded(Records(calls[..i]), calls[i]).0;
    FirstCallDecides(calls[..i + 1], calls[i + 1..j], key);
    assert calls[..i + 1] + calls[i + 1..j] == calls[..j];
    RecordedExactly(calls, j, key);
    hide Finished, Replay;
  }

  /** The clarification is rendered exactly by the first call of a key that has to ask. */
  lemma RendersExactly(calls: seq<Call>, i: nat)
    requires i < |calls|
    ensures Answer(calls, i) == ClarificationRequired(true) <==> IsFirst(calls, i) && MustClarify(calls[i])
  {
    if IsFirst(calls, i) {
      FirstAnswers(calls, i);
    } else {
      RecordedExactly(calls, i, calls[i].key);
      hide Finished;
    }
  }

  /** The connector is asked, with this payload, exactly by the first call of a key that is resolved and
      audited and needs no confirmation. */
  lemma WritesExactly(calls: seq<Call>, i: nat)
    requires i < |calls|
    ensures var c := calls[i];
            Writes(calls[..i + 1]) ==
              if IsFirst(calls, i) && c.resolution.Decided? && !c.resolution.needsConfirmation && c.audited
              then Writes(calls[..i]) + [(c.key, c.payload)] else Writes(calls[..i])
  {
    RecordedExactly(calls, i, calls[i].key);
    assert calls[..i + 1][..i] == calls[..i] && calls[..i + 1][i] == calls[i];
  }
}
